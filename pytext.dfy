/** The Python built-ins that BackEnd/envSetter.py relies on, stated over
    Dafny strings: `str.strip()`, `str.lower()`, `str.isdigit()` and `int()`
    in base 10.  `strip` uses Python's full whitespace set; `lower`,
    `isdigit` and `int` are stated for ASCII text (see README).  `int()`
    keeps CPython's default limit of 4300 digits on the strings it converts
    (in force from 3.11 and in the 3.7.14, 3.8.14, 3.9.14 and 3.10.7
    security releases). */
module PyText {
  import opened Wrappers

  /** `str.isspace()`: the characters Python treats as whitespace, which is
      also the set matched by `\s` in a `re` pattern over `str`. */
  predicate IsSpace(c: char) {
    || ('\t' <= c <= '\r')               // tab, line feed, vertical tab, form feed, carriage return
    || ('\U{1C}' <= c <= '\U{1F}')       // the four ASCII separators
    || c == ' '
    || c == '\U{85}' || c == '\U{A0}' || c == '\U{1680}'
    || ('\U{2000}' <= c <= '\U{200A}')
    || c == '\U{2028}' || c == '\U{2029}' || c == '\U{202F}' || c == '\U{205F}' || c == '\U{3000}'
  }

  /** `str.strip()`: drops the whitespace at both ends of `s`. */
  function Strip(s: string): (r: string)
    ensures |r| <= |s|
    decreases |s|
  {
    if |s| > 0 && IsSpace(s[0]) then Strip(s[1..])
    else if |s| > 0 && IsSpace(s[|s| - 1]) then Strip(s[..|s| - 1])
    else s
  }

  /** What `strip()` leaves is the infix `s[a..a + |r|]` of `s`: it neither
      starts nor ends with whitespace, and everything removed before and
      after it is whitespace. */
  lemma {:induction false} StripSpec(s: string) returns (a: nat)
    ensures var r := Strip(s);
      && a + |r| <= |s| && r == s[a..a + |r|]
      && (r == [] || (!IsSpace(r[0]) && !IsSpace(r[|r| - 1])))
      && (forall i :: 0 <= i < a ==> IsSpace(s[i]))
      && (forall i :: a + |r| <= i < |s| ==> IsSpace(s[i]))
    decreases |s|
  {
    if |s| > 0 && IsSpace(s[0]) {
      var b := StripSpec(s[1..]);
      a := b + 1;
    } else if |s| > 0 && IsSpace(s[|s| - 1]) {
      a := StripSpec(s[..|s| - 1]);
    } else {
      a := 0;
    }
  }

  /** A character of `s` that is not whitespace survives `strip()`. */
  lemma StripKeeps(s: string, i: int)
    requires 0 <= i < |s| && !IsSpace(s[i])
    ensures s[i] in Strip(s)
  {
    var a := StripSpec(s);
    var r := Strip(s);
    assert a <= i < a + |r|;
    assert r[i - a] == s[i];
  }

  /** A string with no whitespace at either end is its own `strip()`. */
  lemma StripTrimmed(s: string)
    requires s == [] || (!IsSpace(s[0]) && !IsSpace(s[|s| - 1]))
    ensures Strip(s) == s
  {
  }

  /** A string of whitespace only strips to the empty string. */
  lemma {:induction false} StripBlank(s: string)
    requires forall i :: 0 <= i < |s| ==> IsSpace(s[i])
    ensures Strip(s) == ""
    decreases |s|
  {
    if |s| > 0 {
      StripBlank(s[1..]);
    }
  }

  /** The index of the first `c` in `s`, or `|s|` when there is none
      (`str.find` with "not found" moved to the end). */
  function Find(s: string, c: char): (i: nat)
    ensures i <= |s|
    ensures i < |s| ==> s[i] == c
    ensures forall j :: 0 <= j < i ==> s[j] != c
    decreases |s|
  {
    if s == [] then 0 else if s[0] == c then 0 else 1 + Find(s[1..], c)
  }

  function LowerChar(c: char): char {
    if 'A' <= c <= 'Z' then (c as int + 32) as char else c
  }

  /** `str.lower()` on ASCII letters; every other character is kept. */
  function Lower(s: string): (r: string)
    ensures |r| == |s|
  {
    seq(|s|, i requires 0 <= i < |s| => LowerChar(s[i]))
  }

  predicate IsDigit(c: char) {
    '0' <= c <= '9'
  }

  predicate AllDigits(s: string) {
    forall i :: 0 <= i < |s| ==> IsDigit(s[i])
  }

  /** `str.isdigit()` on ASCII text: non-empty and every character a digit. */
  predicate IsDigits(s: string) {
    |s| > 0 && AllDigits(s)
  }

  function DigitValue(c: char): nat
    requires IsDigit(c)
  {
    c as int - '0' as int
  }

  /** The base-10 value of a string of digits, most significant first. */
  function DigitsValue(s: string): nat
    requires AllDigits(s)
    decreases |s|
  {
    if s == [] then 0 else 10 * DigitsValue(s[..|s| - 1]) + DigitValue(s[|s| - 1])
  }

  function DigitChar(d: nat): (c: char)
    requires d < 10
    ensures IsDigit(c) && DigitValue(c) == d
  {
    ('0' as int + d) as char
  }

  /** `str(n)` for a natural number: the canonical decimal spelling. */
  function DecimalString(n: nat): (r: string)
    ensures IsDigits(r) && DigitsValue(r) == n
    ensures |r| > 1 ==> r[0] != '0'
    decreases n
  {
    if n < 10 then [DigitChar(n)]
    else
      var prefix := DecimalString(n / 10);
      var r := prefix + [DigitChar(n % 10)];
      assert r[..|r| - 1] == prefix;
      r
  }

  /** The digit groups `int()` accepts after the sign: digits, with single
      underscores allowed between two digits. */
  predicate UnderscoredDigits(b: string) {
    && |b| > 0
    && IsDigit(b[0])
    && IsDigit(b[|b| - 1])
    && (forall i :: 0 <= i < |b| ==> IsDigit(b[i]) || b[i] == '_')
    && (forall i :: 0 <= i < |b| - 1 ==> !DoubleUnderscoreAt(b, i))
  }

  predicate DoubleUnderscoreAt(b: string, i: int)
    requires 0 <= i < |b| - 1
  {
    b[i] == '_' && b[i + 1] == '_'
  }

  /** The digits of `b` with the underscores taken out. */
  function WithoutUnderscores(b: string): (r: string)
    requires forall i :: 0 <= i < |b| ==> IsDigit(b[i]) || b[i] == '_'
    ensures AllDigits(r) && |r| <= |b|
    decreases |b|
  {
    if b == [] then []
    else
      var rest := WithoutUnderscores(b[1..]);
      if b[0] == '_' then rest else [b[0]] + rest
  }

  lemma {:induction false} WithoutUnderscoresOfDigits(b: string)
    requires AllDigits(b)
    ensures WithoutUnderscores(b) == b
    decreases |b|
  {
    if b != [] {
      WithoutUnderscoresOfDigits(b[1..]);
    }
  }

  /** The four ASCII separators `\x1c`..`\x1f`: `str.isspace()` holds of
      them, but `int()` does not skip them around a number. */
  predicate IsSeparator(c: char) {
    '\U{1C}' <= c <= '\U{1F}'
  }

  predicate HasSeparator(s: string)
    decreases |s|
  {
    |s| > 0 && (IsSeparator(s[0]) || HasSeparator(s[1..]))
  }

  /** A string none of whose characters is a separator has none. */
  lemma {:induction false} NoSeparator(s: string)
    requires forall i :: 0 <= i < |s| ==> !IsSeparator(s[i])
    ensures !HasSeparator(s)
    decreases |s|
  {
    if |s| > 0 {
      assert forall i :: 0 <= i < |s| - 1 ==> s[1..][i] == s[i + 1];
      NoSeparator(s[1..]);
    }
  }

  /** A separator at index `i` is found. */
  lemma {:induction false} SeparatorAt(s: string, i: int)
    requires 0 <= i < |s| && IsSeparator(s[i])
    ensures HasSeparator(s)
    decreases i
  {
    if i > 0 {
      assert s[1..][i - 1] == s[i];
      SeparatorAt(s[1..], i - 1);
    }
  }

  /** CPython's default `sys.get_int_max_str_digits()`: `int()` refuses a
      decimal string with more digits than this. */
  const MaxStrDigits: nat := 4300

  /** The digit groups after the sign that `int()` takes: digits with single
      underscores between them, and no more than `MaxStrDigits` digits,
      leading zeros included and underscores not. */
  predicate DigitGroups(body: string) {
    UnderscoredDigits(body) && |WithoutUnderscores(body)| <= MaxStrDigits
  }

  /** `int(s)` in base 10: `Some(n)` where Python returns `n`, `None` where
      it raises `ValueError`.  Surrounding whitespace other than the four
      separators, one leading `+` or `-`, leading zeros and single
      underscores between digits are accepted. */
  function PyInt(s: string): Option<int> {
    if HasSeparator(s) then None else IntOfStripped(Strip(s))
  }

  /** `int()` on the stripped text: an optional sign, then digit groups. */
  function IntOfStripped(t: string): Option<int> {
    var signed := |t| > 0 && (t[0] == '+' || t[0] == '-');
    var body := if signed then t[1..] else t;
    if !DigitGroups(body) then None
    else
      var magnitude: int := DigitsValue(WithoutUnderscores(body));
      Some(if signed && t[0] == '-' then -magnitude else magnitude)
  }

  /** On text that `strip()` leaves alone and that holds no separator,
      `int()` is `IntOfStripped`. */
  lemma PyIntTrimmed(s: string)
    requires Strip(s) == s && !HasSeparator(s)
    ensures PyInt(s) == IntOfStripped(s)
  {
  }

  /** A digit string is a digit group with nothing to take out. */
  lemma DigitsUnderscored(d: string)
    requires IsDigits(d)
    ensures UnderscoredDigits(d) && WithoutUnderscores(d) == d
  {
    forall i | 0 <= i < |d| - 1 ensures !DoubleUnderscoreAt(d, i) {
      assert IsDigit(d[i]);
    }
    WithoutUnderscoresOfDigits(d);
  }

  /** What `str.isdigit()` accepts (on ASCII text), `int()` parses to the
      string's decimal value, unless it has more digits than the limit,
      where it raises. */
  lemma DigitsParse(s: string)
    requires IsDigits(s)
    ensures PyInt(s) == if |s| <= MaxStrDigits then Some(DigitsValue(s)) else None
  {
    StripTrimmed(s);
    NoSeparator(s);
    PyIntTrimmed(s);
    UnsignedDigits(s);
  }

  lemma UnsignedDigits(t: string)
    requires IsDigits(t)
    ensures IntOfStripped(t) == if |t| <= MaxStrDigits then Some(DigitsValue(t)) else None
  {
    DigitsUnderscored(t);
  }

  function Pow10(k: nat): (r: nat)
    ensures r >= 1
  {
    if k == 0 then 1 else 10 * Pow10(k - 1)
  }

  /** A number below `10^k` has at most `k + 1` decimal digits. */
  lemma {:induction false} DecimalLength(n: nat, k: nat)
    requires n < Pow10(k)
    ensures |DecimalString(n)| <= k + 1
    decreases k
  {
    if n >= 10 {
      assert k > 0;
      DecimalLength(n / 10, k - 1);
    }
  }

  /** `int(str(n)) == n` for every `n` whose spelling `str(n)` itself
      produces, which is one of at most `MaxStrDigits` digits. */
  lemma PyIntDecimal(n: nat)
    requires |DecimalString(n)| <= MaxStrDigits
    ensures PyInt(DecimalString(n)) == Some(n)
  {
    DigitsParse(DecimalString(n));
  }

  /** A separator anywhere in the string makes `int()` raise, even at either
      end, where `strip()` would have removed it. */
  lemma PyIntSeparator(s: string, i: int)
    requires 0 <= i < |s| && IsSeparator(s[i])
    ensures PyInt(s) == None
  {
    SeparatorAt(s, i);
  }

  /** A character that is not whitespace, a digit, a sign or an underscore
      makes `int()` raise. */
  lemma PyIntRejects(s: string, i: int)
    requires 0 <= i < |s|
    requires !IsSpace(s[i]) && !IsDigit(s[i]) && s[i] !in {'+', '-', '_'}
    ensures PyInt(s) == None
  {
    StripKeeps(s, i);
    var t := Strip(s);
    var k :| 0 <= k < |t| && t[k] == s[i];
    var signed := |t| > 0 && (t[0] == '+' || t[0] == '-');
    var body := if signed then t[1..] else t;
    if signed {
      assert k > 0 && body[k - 1] == s[i];
    } else {
      assert body[k] == s[i];
    }
  }
}
