/** The field validators of BackEnd/envSetter.py: `validate_email`,
    `validate_port`, `validate_url` and the lambdas `main` attaches to the
    JWT secret, NODE_ENV, BCRYPT_SALT_ROUNDS and the rate-limit fields.
    Each regular expression is written out as a scan over the characters. */
module Validators {
  import opened Wrappers
  import opened PyText

  predicate IsAsciiLetter(c: char) {
    'a' <= c <= 'z' || 'A' <= c <= 'Z'
  }

  /** `[a-zA-Z0-9._%+-]`, the class of the local part of an address. */
  predicate LocalChar(c: char) {
    IsAsciiLetter(c) || IsDigit(c) || c in {'.', '_', '%', '+', '-'}
  }

  /** `[a-zA-Z0-9.-]`, the class of the domain before the final dot. */
  predicate DomainChar(c: char) {
    IsAsciiLetter(c) || IsDigit(c) || c in {'.', '-'}
  }

  /** The length of the longest suffix of `s` made of ASCII letters. */
  function TrailingLetters(s: string): (m: nat)
    ensures m <= |s|
    ensures forall j :: |s| - m <= j < |s| ==> IsAsciiLetter(s[j])
    ensures m < |s| ==> !IsAsciiLetter(s[|s| - m - 1])
    decreases |s|
  {
    if s == [] || !IsAsciiLetter(s[|s| - 1]) then 0
    else 1 + TrailingLetters(s[..|s| - 1])
  }

  /** The address pattern matched against the whole of `s`: the local part
      ends at the first `@` (the local class has no `@`), the rest is over
      the domain class, and its run of trailing letters is at least two
      long and preceded by a dot that is not the domain's first character. */
  predicate MatchesEmail(s: string) {
    var at := Find(s, '@');
    && 0 < at < |s|
    && (forall j :: 0 <= j < at ==> LocalChar(s[j]))
    && var dom := s[at + 1..];
       && (forall j :: 0 <= j < |dom| ==> DomainChar(dom[j]))
       && var m := TrailingLetters(dom);
          && m >= 2
          && |dom| >= m + 2
          && dom[|dom| - m - 1] == '.'
  }

  /** `validate_email`: `re.match` of
      `^[a-zA-Z0-9._%+-]+@[a-zA-Z0-9.-]+\.[a-zA-Z]{2,}$`, where `$` also
      matches just before one final newline. */
  predicate ValidateEmail(s: string) {
    MatchesEmail(s) || (|s| > 0 && s[|s| - 1] == '\n' && MatchesEmail(s[..|s| - 1]))
  }

  /** The regular expression read as a decomposition of `s`: a local part
      `s[..a]`, the `@` at `a`, a domain part `s[a+1..d]`, the dot at `d` and
      a top-level label `s[d+1..]` of two or more letters. */
  ghost predicate EmailSplit(s: string, a: int, d: int) {
    && 0 < a && a + 1 < d && d + 2 < |s|
    && (forall j :: 0 <= j < a ==> LocalChar(s[j]))
    && s[a] == '@'
    && (forall j :: a < j < d ==> DomainChar(s[j]))
    && s[d] == '.'
    && (forall j :: d < j < |s| ==> IsAsciiLetter(s[j]))
  }

  ghost predicate EmailPattern(s: string) {
    exists a, d :: EmailSplit(s, a, d)
  }

  /** The scan accepts exactly the strings the pattern's decomposition
      describes (in both directions). */
  lemma EmailScan(s: string)
    ensures MatchesEmail(s) <==> EmailPattern(s)
  {
    if MatchesEmail(s) {
      EmailScanSound(s);
    }
    if EmailPattern(s) {
      var a, d :| EmailSplit(s, a, d);
      EmailScanComplete(s, a, d);
    }
  }

  lemma EmailScanSound(s: string)
    requires MatchesEmail(s)
    ensures EmailPattern(s)
  {
    var at := Find(s, '@');
    var dom := s[at + 1..];
    var m := TrailingLetters(dom);
    var d := |s| - m - 1;
    assert forall j :: at < j < d ==> s[j] == dom[j - at - 1];
    assert EmailSplit(s, at, d);
  }

  lemma EmailScanComplete(s: string, a: int, d: int)
    requires EmailSplit(s, a, d)
    ensures MatchesEmail(s)
  {
    assert Find(s, '@') == a by {
      forall j | 0 <= j < a ensures s[j] != '@' {
        assert LocalChar(s[j]);
      }
    }
    var dom := s[a + 1..];
    var k := |s| - d - 1;
    TrailingExact(dom, k);
    forall j | 0 <= j < |dom| ensures DomainChar(dom[j]) {
      assert dom[j] == s[a + 1 + j];
    }
  }

  /** A run of `k` letters preceded by a dot is the run of trailing letters. */
  lemma {:induction false} TrailingExact(t: string, k: nat)
    requires k < |t| && t[|t| - k - 1] == '.'
    requires forall j :: |t| - k <= j < |t| ==> IsAsciiLetter(t[j])
    ensures TrailingLetters(t) == k
    decreases k
  {
    if k > 0 {
      var u := t[..|t| - 1];
      assert u[|u| - (k - 1) - 1] == '.';
      TrailingExact(u, k - 1);
    }
  }

  /** Every accepted address holds exactly one `@`, after a non-empty
      local part; so a string without `@` is rejected. */
  lemma EmailOneAt(s: string)
    requires ValidateEmail(s)
    ensures exists a :: 0 < a < |s| && s[a] == '@' && forall j :: 0 <= j < |s| && j != a ==> s[j] != '@'
  {
    if MatchesEmail(s) {
      var a := MatchedOneAt(s);
    } else {
      var t := s[..|s| - 1];
      var a := MatchedOneAt(t);
      forall j | 0 <= j < |s| && j != a ensures s[j] != '@' {
        if j < |t| {
          assert s[j] == t[j];
        }
      }
      assert s[a] == t[a];
    }
  }

  lemma MatchedOneAt(t: string) returns (a: nat)
    requires MatchesEmail(t)
    ensures 0 < a < |t| && t[a] == '@' && forall j :: 0 <= j < |t| && j != a ==> t[j] != '@'
  {
    a := Find(t, '@');
    var dom := t[a + 1..];
    forall j | 0 <= j < |t| && j != a ensures t[j] != '@' {
      if j < a {
        assert LocalChar(t[j]);
      } else {
        assert t[j] == dom[j - a - 1];
        assert DomainChar(dom[j - a - 1]);
      }
    }
  }

  /** `validate_port`: `int(port)` succeeds and lies in 1..65535. */
  predicate ValidatePort(s: string) {
    match PyInt(s)
    case Some(n) => 1 <= n <= 65535
    case None => false
  }

  /** For a string of ASCII digits, the port is accepted iff `int()` takes
      its length and its value is in 1..65535. */
  lemma PortDigits(s: string)
    requires IsDigits(s)
    ensures ValidatePort(s) <==> |s| <= MaxStrDigits && 1 <= DigitsValue(s) <= 65535
  {
    DigitsParse(s);
  }

  /** The decimal spelling of a number is accepted iff the number is a port. */
  lemma PortNumbers(p: nat)
    ensures ValidatePort(DecimalString(p)) <==> 1 <= p <= 65535
  {
    if p <= 65535 {
      DecimalLength(p, 5);
    }
    DigitsParse(DecimalString(p));
  }

  /** Text that `int()` cannot parse is rejected, not raised. */
  lemma PortRejectsText(s: string, i: int)
    requires 0 <= i < |s|
    requires !IsSpace(s[i]) && !IsDigit(s[i]) && s[i] !in {'+', '-', '_'}
    ensures !ValidatePort(s)
  {
    PyIntRejects(s, i);
  }

  /** `validate_port` on numbers in and out of range. */
  lemma PortRange()
    ensures ValidatePort("8080") && !ValidatePort("99999") && !ValidatePort("0")
  {
    Value8080();
    Value99999();
    assert DigitsValue("0") == 0 by { assert "0"[..0] == ""; }
    PortDigits("8080");
    PortDigits("99999");
    PortDigits("0");
  }

  lemma Value8080()
    ensures DigitsValue("8080") == 8080
  {
    assert "8080"[..3] == "808" && "808"[..2] == "80" && "80"[..1] == "8" && "8"[..0] == "";
  }

  lemma Value99999()
    ensures DigitsValue("99999") == 99999
  {
    assert "99999"[..4] == "9999" && "9999"[..3] == "999" && "999"[..2] == "99";
    assert "99"[..1] == "9" && "9"[..0] == "";
  }

  /** Empty and blank input is rejected rather than raising. */
  lemma PortBlank()
    ensures !ValidatePort("") && !ValidatePort("   ") && !ValidatePort("abc")
  {
    assert Strip("   ") == [];
    PortRejectsText("abc", 0);
  }

  /** `int()` takes one leading sign: `+` leaves the verdict unchanged, and
      a negated number is never a port. */
  lemma PortSign(d: string)
    requires IsDigits(d)
    ensures ValidatePort("+" + d) <==> ValidatePort(d)
    ensures !ValidatePort("-" + d)
  {
    DigitsParse(d);
    assert ("+" + d)[1..] == d && ("-" + d)[1..] == d;
    SignedParse("+" + d);
    SignedParse("-" + d);
  }

  /** `int()` on a sign followed by digits: the signed value, within the
      digit limit. */
  lemma SignedParse(t: string)
    requires |t| > 0 && (t[0] == '+' || t[0] == '-')
    requires IsDigits(t[1..])
    ensures PyInt(t) ==
      if |t| - 1 > MaxStrDigits then None
      else Some(if t[0] == '-' then -(DigitsValue(t[1..]) as int) else DigitsValue(t[1..]))
  {
    SignedTrimmed(t);
    PyIntTrimmed(t);
    SignedDigits(t);
  }

  /** A sign followed by digits has nothing for `strip()` and no separator. */
  lemma SignedTrimmed(t: string)
    requires |t| > 0 && (t[0] == '+' || t[0] == '-')
    requires IsDigits(t[1..])
    ensures Strip(t) == t && !HasSeparator(t)
  {
    var d := t[1..];
    assert t[|t| - 1] == d[|d| - 1];
    StripTrimmed(t);
    NoSeparator(d);
  }

  lemma SignedDigits(t: string)
    requires |t| > 0 && (t[0] == '+' || t[0] == '-')
    requires IsDigits(t[1..])
    ensures IntOfStripped(t) ==
      if |t| - 1 > MaxStrDigits then None
      else Some(if t[0] == '-' then -(DigitsValue(t[1..]) as int) else DigitsValue(t[1..]))
  {
    DigitsUnderscored(t[1..]);
  }

  /** `int()` reads leading zeros as part of the number, and counts them
      towards its digit limit. */
  lemma PortLeadingZero(d: string)
    requires IsDigits(d)
    ensures ValidatePort("0" + d) <==> |d| < MaxStrDigits && ValidatePort(d)
  {
    LeadingZeroValue(d);
    PortDigits(d);
    PortDigits("0" + d);
  }

  lemma {:induction false} LeadingZeroValue(d: string)
    requires AllDigits(d)
    ensures AllDigits("0" + d) && DigitsValue("0" + d) == DigitsValue(d)
    decreases |d|
  {
    var z := "0" + d;
    if d == [] {
      assert z[..0] == [];
    } else {
      assert z[..|z| - 1] == "0" + d[..|d| - 1];
      LeadingZeroValue(d[..|d| - 1]);
    }
  }

  /** `int()` skips a single underscore between two digit groups, so the
      port check reads `a_b` as `ab`. */
  lemma PortUnderscore(a: string, b: string)
    requires IsDigits(a) && IsDigits(b)
    ensures ValidatePort(a + "_" + b) <==> ValidatePort(a + b)
  {
    var u := a + "_" + b;
    assert IsDigits(a + b) by {
      forall i | 0 <= i < |a + b| ensures IsDigit((a + b)[i]) {
        if i >= |a| { assert (a + b)[i] == b[i - |a|]; }
      }
    }
    StripTrimmed(u);
    UnderscoreJoin(a, b);
    NoSeparator(u);
    UnderscoreRemoved(a, b);
    assert PyInt(u) == if |a + b| <= MaxStrDigits then Some(DigitsValue(a + b) as int) else None;
    DigitsParse(a + b);
  }

  lemma UnderscoreJoin(a: string, b: string)
    requires IsDigits(a) && IsDigits(b)
    ensures UnderscoredDigits(a + "_" + b)
  {
    var u := a + "_" + b;
    forall i | 0 <= i < |u|
      ensures (IsDigit(u[i]) || u[i] == '_') && (i != |a| ==> IsDigit(u[i]))
    {
      if i > |a| { assert u[i] == b[i - |a| - 1]; }
      else if i < |a| { assert u[i] == a[i]; }
    }
    forall i | 0 <= i < |u| - 1 ensures !DoubleUnderscoreAt(u, i) {
      if i == |a| { assert u[i + 1] == b[0]; }
    }
  }

  lemma {:induction false} UnderscoreRemoved(a: string, b: string)
    requires AllDigits(a) && AllDigits(b)
    ensures WithoutUnderscores(a + "_" + b) == a + b
    decreases |a|
  {
    if a == [] {
      assert ("_" + b)[1..] == b;
      WithoutUnderscoresOfDigits(b);
    } else {
      assert (a + "_" + b)[1..] == a[1..] + "_" + b;
      UnderscoreRemoved(a[1..], b);
      assert [a[0]] + (a[1..] + b) == a + b;
    }
  }

  /** What follows the scheme in `^https?://[^\s]+$`. */
  predicate UrlBody(t: string) {
    |t| > 0 && forall j :: 0 <= j < |t| ==> !IsSpace(t[j])
  }

  predicate MatchesUrl(s: string) {
    || (|s| >= 7 && s[..7] == "http://" && UrlBody(s[7..]))
    || (|s| >= 8 && s[..8] == "https://" && UrlBody(s[8..]))
  }

  /** `validate_url`: `re.match` of `^https?://[^\s]+$`, where `$` also
      matches just before one final newline. */
  predicate ValidateUrl(s: string) {
    MatchesUrl(s) || (|s| > 0 && s[|s| - 1] == '\n' && MatchesUrl(s[..|s| - 1]))
  }

  /** Either scheme followed by a non-empty body without whitespace is
      accepted, also with the one final newline `$` tolerates. */
  lemma UrlAccepts(body: string)
    requires UrlBody(body)
    ensures ValidateUrl("http://" + body) && ValidateUrl("https://" + body)
    ensures ValidateUrl("http://" + body + "\n") && ValidateUrl("https://" + body + "\n")
  {
    assert ("http://" + body)[..7] == "http://" && ("http://" + body)[7..] == body;
    assert ("https://" + body)[..8] == "https://" && ("https://" + body)[8..] == body;
    assert ("http://" + body + "\n")[..|"http://" + body + "\n"| - 1] == "http://" + body;
    assert ("https://" + body + "\n")[..|"https://" + body + "\n"| - 1] == "https://" + body;
  }

  /** An accepted URL starts with `http://` or `https://`, has at least one
      character after it, and holds no whitespace except possibly a final
      newline. */
  lemma UrlShape(s: string)
    requires ValidateUrl(s)
    ensures (|s| > 7 && s[..7] == "http://") || (|s| > 8 && s[..8] == "https://")
    ensures forall i :: 0 <= i < |s| && IsSpace(s[i]) ==> i == |s| - 1 && s[i] == '\n'
  {
    var t := if MatchesUrl(s) then s else s[..|s| - 1];
    assert MatchesUrl(t);
    assert t[..7] == s[..7];
    assert |t| >= 8 ==> t[..8] == s[..8];
    forall i | 0 <= i < |t| ensures !IsSpace(s[i]) {
      assert s[i] == t[i];
      if t[..7] == "http://" && UrlBody(t[7..]) {
        if i >= 7 { assert t[7..][i - 7] == t[i]; }
        else { assert t[i] == "http://"[i]; }
      } else {
        if i >= 8 { assert t[8..][i - 8] == t[i]; }
        else { assert t[i] == "https://"[i]; }
      }
    }
  }

  /** On a stripped line, the one input `get_input` passes, the `$`
      newline allowance never applies. */
  lemma UrlStripped(s: string)
    requires Strip(s) == s
    ensures ValidateUrl(s) <==> MatchesUrl(s)
  {
    if |s| > 0 {
      assert !IsSpace(Strip(s)[|s| - 1]);
    }
  }

  /** The validators `main` hands to `get_input`; `NoCheck` is a call
      without a validator. */
  datatype Rule = NoCheck | JwtSecret | NodeEnv | Port | Url | SaltRounds | RateLimit

  /** Whether `validator(v)` is truthy for the validator `rule` names; with
      no validator every value is accepted. */
  predicate Accepts(rule: Rule, v: string) {
    match rule
    case NoCheck => true
    case JwtSecret => JwtSecretOk(v)
    case NodeEnv => NodeEnvOk(v)
    case Port => ValidatePort(v)
    case Url => ValidateUrl(v)
    case SaltRounds => SaltRoundsOk(v)
    case RateLimit => RateLimitOk(v)
  }

  /** The JWT secret lambda: at least 32 characters. */
  predicate JwtSecretOk(x: string) {
    |x| >= 32
  }

  /** The NODE_ENV lambda: one of the three environments. */
  predicate NodeEnvOk(x: string) {
    x in ["development", "production", "test"]
  }

  /** The BCRYPT_SALT_ROUNDS lambda `x.isdigit() and 10 <= int(x) <= 20`.
      Where `int()` raises (`None`, a digit string over the limit) the
      lambda propagates `ValueError`; here the value is refused instead
      (`SaltRoundsRaises`). */
  predicate SaltRoundsOk(x: string) {
    IsDigits(x) && match PyInt(x) case Some(n) => 10 <= n <= 20 case None => false
  }

  /** The rate-limit lambda `x.isdigit()`. */
  predicate RateLimitOk(x: string) {
    IsDigits(x)
  }

  /** The salt-rounds rule is "a digit string that `int()` takes, whose
      value is 10..20". */
  lemma SaltRoundsValue(x: string)
    ensures SaltRoundsOk(x) <==> IsDigits(x) && |x| <= MaxStrDigits && 10 <= DigitsValue(x) <= 20
  {
    if IsDigits(x) {
      DigitsParse(x);
    }
  }

  /** The one place the lambda raises: a digit string longer than the limit
      passes `isdigit()`, and `int()` then raises. */
  lemma SaltRoundsRaises(x: string)
    requires IsDigits(x) && |x| > MaxStrDigits
    ensures PyInt(x) == None && !SaltRoundsOk(x)
  {
    DigitsParse(x);
  }

  lemma SaltRoundsNumbers(n: nat)
    ensures SaltRoundsOk(DecimalString(n)) <==> 10 <= n <= 20
  {
    if n <= 20 {
      DecimalLength(n, 2);
    }
    SaltRoundsValue(DecimalString(n));
  }

  /** An accepted rate limit is a decimal number, possibly with leading
      zeros, that `int()` reads back whenever it has at most `MaxStrDigits`
      digits; a sign or whitespace is refused. */
  lemma RateLimitValue(x: string)
    ensures RateLimitOk(x) ==> PyInt(x) == if |x| <= MaxStrDigits then Some(DigitsValue(x)) else None
    ensures !RateLimitOk("") && !RateLimitOk("-1") && !RateLimitOk(" 5")
  {
    if RateLimitOk(x) {
      DigitsParse(x);
    }
    assert !IsDigit("-1"[0]) && !IsDigit(" 5"[0]);
  }

  /** NODE_ENV accepts exactly its three names, compared case-sensitively. */
  lemma NodeEnvNames()
    ensures NodeEnvOk("development") && NodeEnvOk("production") && NodeEnvOk("test")
    ensures !NodeEnvOk("Development") && !NodeEnvOk("staging") && !NodeEnvOk("")
  {
  }

  /** The defaults `main` offers pass the validators attached to them. */
  lemma DefaultPortPasses()
    ensures ValidatePort("3000")
  {
    assert "3000"[..3] == "300" && "300"[..2] == "30" && "30"[..1] == "3" && "3"[..0] == "";
    PortDigits("3000");
  }

  lemma DefaultSaltRoundsPass()
    ensures SaltRoundsOk("14")
  {
    assert "14"[..1] == "1" && "1"[..0] == "";
    SaltRoundsValue("14");
  }

  lemma DefaultFrontendUrlPasses()
    ensures ValidateUrl("http://localhost:3001")
  {
    PlainHttpUrl("http://localhost:3001");
  }

  lemma DefaultEndpointPasses()
    ensures ValidateUrl("http://localhost:8000")
  {
    PlainHttpUrl("http://localhost:8000");
  }

  /** `http://` followed by printable ASCII other than the space is a URL. */
  lemma PlainHttpUrl(s: string)
    requires |s| > 7 && s[..7] == "http://"
    requires forall j :: 7 <= j < |s| ==> '!' <= s[j] <= '~'
    ensures ValidateUrl(s)
  {
    var body := s[7..];
    forall j | 0 <= j < |body| ensures !IsSpace(body[j]) {
      assert body[j] == s[7 + j];
    }
  }
}
