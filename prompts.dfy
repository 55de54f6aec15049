/** The two prompt loops of BackEnd/envSetter.py, `get_input` and
    `get_yes_no`.  Standard input is a sequence of lines (each without its
    line terminator, as `input()` returns it); a loop that runs out of lines
    yields `None`, where Python's `input()` raises `EOFError`. */
module Prompts {
  import opened Wrappers
  import opened PyText
  import opened Validators

  /** An accepted answer and the number of input lines read to obtain it. */
  datatype Read<T> = Read(value: T, used: nat)

  /** The answer found after one more refused line. */
  function Later<T>(r: Option<Read<T>>): Option<Read<T>> {
    match r
    case None => None
    case Some(a) => Some(Read(a.value, a.used + 1))
  }

  /** The value `get_input` checks for one line: the stripped line, or the
      default when there is a (non-empty) default and the stripped line is
      empty.  An empty default is Python's falsy `None`/`''`. */
  function InputValue(line: string, default: string): string {
    if default != "" then
      var entered := Strip(line);
      if entered == "" then default else entered
    else
      Strip(line)
  }

  /** What `get_input(prompt, default, validator)` returns on `lines`: the
      value of the first line the validator accepts. */
  function ReadInput(lines: seq<string>, default: string, rule: Rule): Option<Read<string>>
    decreases |lines|
  {
    if lines == [] then None
    else
      var v := InputValue(lines[0], default);
      if Accepts(rule, v) then Some(Read(v, 1))
      else Later(ReadInput(lines[1..], default, rule))
  }

  /** `get_input` returns the value of the first line whose value the
      validator accepts, after reading exactly the lines up to it. */
  lemma {:induction false} ReadInputAt(lines: seq<string>, default: string, rule: Rule, k: nat)
    requires k < |lines| && Accepts(rule, InputValue(lines[k], default))
    requires forall j :: 0 <= j < k ==> !Accepts(rule, InputValue(lines[j], default))
    ensures ReadInput(lines, default, rule) == Some(Read(InputValue(lines[k], default), k + 1))
    decreases k
  {
    if k > 0 {
      assert !Accepts(rule, InputValue(lines[0], default));
      var tail := lines[1..];
      assert tail[k - 1] == lines[k];
      ReadInputAt(tail, default, rule, k - 1);
    }
  }

  /** When the validator refuses every line, the input runs out. */
  lemma {:induction false} ReadInputNone(lines: seq<string>, default: string, rule: Rule)
    requires forall j :: 0 <= j < |lines| ==> !Accepts(rule, InputValue(lines[j], default))
    ensures ReadInput(lines, default, rule) == None
    decreases |lines|
  {
    if lines != [] {
      assert !Accepts(rule, InputValue(lines[0], default));
      var tail := lines[1..];
      assert forall j :: 0 <= j < |tail| ==> tail[j] == lines[j + 1];
      ReadInputNone(tail, default, rule);
    }
  }

  /** Whatever `get_input` returns passes its validator: it is the value of
      a line within the input and every earlier line was refused; there is
      no answer exactly when every line is refused. */
  lemma ReadInputSpec(lines: seq<string>, default: string, rule: Rule)
    ensures var r := ReadInput(lines, default, rule);
      && (r.Some? ==> Accepts(rule, r.value.value))
      && (r.Some? ==> 1 <= r.value.used <= |lines|)
      && (r.Some? ==> r.value.value == InputValue(lines[r.value.used - 1], default))
      && (r.Some? ==> forall k :: 0 <= k < r.value.used - 1 ==> !Accepts(rule, InputValue(lines[k], default)))
      && (r.None? <==> forall k :: 0 <= k < |lines| ==> !Accepts(rule, InputValue(lines[k], default)))
  {
    ReadInputFound(lines, default, rule);
    ReadInputMissing(lines, default, rule);
    if forall k :: 0 <= k < |lines| ==> !Accepts(rule, InputValue(lines[k], default)) {
      ReadInputNone(lines, default, rule);
    }
  }

  lemma {:induction false} ReadInputFound(lines: seq<string>, default: string, rule: Rule)
    ensures var r := ReadInput(lines, default, rule);
      r.Some? ==>
        && Accepts(rule, r.value.value)
        && 1 <= r.value.used <= |lines|
        && r.value.value == InputValue(lines[r.value.used - 1], default)
        && forall k :: 0 <= k < r.value.used - 1 ==> !Accepts(rule, InputValue(lines[k], default))
    decreases |lines|
  {
    if lines != [] && !Accepts(rule, InputValue(lines[0], default)) {
      var tail := lines[1..];
      ReadInputFound(tail, default, rule);
      var r := ReadInput(tail, default, rule);
      if r.Some? {
        assert lines[r.value.used] == tail[r.value.used - 1];
        forall k | 0 <= k < r.value.used ensures !Accepts(rule, InputValue(lines[k], default)) {
          if k > 0 {
            assert lines[k] == tail[k - 1];
          }
        }
      }
    }
  }

  lemma {:induction false} ReadInputMissing(lines: seq<string>, default: string, rule: Rule)
    ensures ReadInput(lines, default, rule).None? ==>
      forall k :: 0 <= k < |lines| ==> !Accepts(rule, InputValue(lines[k], default))
    decreases |lines|
  {
    if lines != [] && !Accepts(rule, InputValue(lines[0], default)) {
      var tail := lines[1..];
      ReadInputMissing(tail, default, rule);
      if ReadInput(tail, default, rule).None? {
        forall k | 1 <= k < |lines| ensures !Accepts(rule, InputValue(lines[k], default)) {
          assert lines[k] == tail[k - 1];
        }
      }
    }
  }

  /** `get_input`: read lines until one yields a value the validator
      accepts, and return that value with the number of lines read. */
  method GetInput(lines: seq<string>, default: string, rule: Rule)
    returns (r: Option<Read<string>>)
    ensures r == ReadInput(lines, default, rule)
    ensures r.Some? ==> Accepts(rule, r.value.value)
    ensures r.Some? ==> 1 <= r.value.used <= |lines|
    ensures r.Some? ==> r.value.value == InputValue(lines[r.value.used - 1], default)
    ensures r.Some? ==> forall k :: 0 <= k < r.value.used - 1 ==> !Accepts(rule, InputValue(lines[k], default))
    ensures r.None? <==> forall k :: 0 <= k < |lines| ==> !Accepts(rule, InputValue(lines[k], default))
  {
    var i := 0;
    while i < |lines|
      invariant 0 <= i <= |lines|
      invariant forall k :: 0 <= k < i ==> !Accepts(rule, InputValue(lines[k], default))
    {
      var userInput: string;
      if default != "" {
        userInput := Strip(lines[i]);
        if userInput == "" {
          userInput := default;
        }
      } else {
        userInput := Strip(lines[i]);
      }
      assert userInput == InputValue(lines[i], default);
      i := i + 1;
      if !Accepts(rule, userInput) {
        continue;
      }
      r := Some(Read(userInput, i));
      ReadInputAt(lines, default, rule, i - 1);
      ReadInputSpec(lines, default, rule);
      return;
    }
    r := None;
    ReadInputNone(lines, default, rule);
    ReadInputSpec(lines, default, rule);
  }

  /** How `get_yes_no` reads one response: stripped and lower-cased, the
      default when empty, then `y`/`yes` or `n`/`no`; anything else is
      refused. */
  function YesNoAnswer(line: string, default: string): Option<bool> {
    var typed := Lower(Strip(line));
    var response := if typed == "" then default else typed;
    if response in ["y", "yes"] then Some(true)
    else if response in ["n", "no"] then Some(false)
    else None
  }

  /** What `get_yes_no(prompt, default)` returns on `lines`: the answer of
      the first line that is a yes or a no. */
  function ReadYesNo(lines: seq<string>, default: string): Option<Read<bool>>
    decreases |lines|
  {
    if lines == [] then None
    else
      match YesNoAnswer(lines[0], default)
      case Some(b) => Some(Read(b, 1))
      case None => Later(ReadYesNo(lines[1..], default))
  }

  /** `get_yes_no` answers with the first yes or no, after reading exactly
      the lines up to it. */
  lemma {:induction false} ReadYesNoAt(lines: seq<string>, default: string, k: nat)
    requires k < |lines| && YesNoAnswer(lines[k], default).Some?
    requires forall j :: 0 <= j < k ==> YesNoAnswer(lines[j], default).None?
    ensures ReadYesNo(lines, default) == Some(Read(YesNoAnswer(lines[k], default).value, k + 1))
    decreases k
  {
    if k > 0 {
      assert YesNoAnswer(lines[0], default).None?;
      var tail := lines[1..];
      assert tail[k - 1] == lines[k];
      ReadYesNoAt(tail, default, k - 1);
    }
  }

  /** When no line is a yes or a no, the input runs out. */
  lemma {:induction false} ReadYesNoNone(lines: seq<string>, default: string)
    requires forall j :: 0 <= j < |lines| ==> YesNoAnswer(lines[j], default).None?
    ensures ReadYesNo(lines, default) == None
    decreases |lines|
  {
    if lines != [] {
      assert YesNoAnswer(lines[0], default).None?;
      var tail := lines[1..];
      assert forall j :: 0 <= j < |tail| ==> tail[j] == lines[j + 1];
      ReadYesNoNone(tail, default);
    }
  }

  /** `get_yes_no`: read lines until one is a yes or a no. */
  method GetYesNo(lines: seq<string>, default: string) returns (r: Option<Read<bool>>)
    ensures r == ReadYesNo(lines, default)
    ensures r.Some? ==> 1 <= r.value.used <= |lines|
    ensures r.Some? ==> YesNoAnswer(lines[r.value.used - 1], default) == Some(r.value.value)
    ensures r.Some? ==> forall k :: 0 <= k < r.value.used - 1 ==> YesNoAnswer(lines[k], default).None?
    ensures r.None? <==> forall k :: 0 <= k < |lines| ==> YesNoAnswer(lines[k], default).None?
  {
    var i := 0;
    while i < |lines|
      invariant 0 <= i <= |lines|
      invariant forall k :: 0 <= k < i ==> YesNoAnswer(lines[k], default).None?
    {
      var response := Lower(Strip(lines[i]));
      if response == "" {
        response := default;
      }
      i := i + 1;
      if response in ["y", "yes"] {
        r := Some(Read(true, i));
        ReadYesNoAt(lines, default, i - 1);
        return;
      } else if response in ["n", "no"] {
        r := Some(Read(false, i));
        ReadYesNoAt(lines, default, i - 1);
        return;
      }
    }
    r := None;
    ReadYesNoNone(lines, default);
  }

  /** With a non-empty default the validator accepts, an empty (or blank)
      line is answered by the default after one read. */
  lemma DefaultOnBlank(lines: seq<string>, default: string, rule: Rule)
    requires |lines| > 0 && Strip(lines[0]) == ""
    requires default != "" && Accepts(rule, default)
    ensures ReadInput(lines, default, rule) == Some(Read(default, 1))
  {
    ReadInputAt(lines, default, rule, 0);
  }

  /** Without a default and without a validator, the first line is taken as
      it comes, stripped, even when it is empty. */
  lemma NoDefaultTakesFirst(lines: seq<string>)
    requires |lines| > 0
    ensures ReadInput(lines, "", NoCheck) == Some(Read(Strip(lines[0]), 1))
  {
    ReadInputAt(lines, "", NoCheck, 0);
  }

  /** An empty response takes the default. */
  lemma YesNoDefault(line: string, default: string)
    requires Strip(line) == ""
    ensures YesNoAnswer(line, default) == (if default in ["y", "yes"] then Some(true)
                                           else if default in ["n", "no"] then Some(false)
                                           else None)
  {
    assert Lower("") == "";
  }

  /** Case and surrounding blanks do not matter. */
  lemma YesNoIgnoresCase()
    ensures YesNoAnswer(" YES ", "n") == Some(true)
    ensures YesNoAnswer("No", "y") == Some(false)
  {
    assert Strip(" YES ") == "YES" by {
      assert " YES "[1..] == "YES ";
      assert "YES "[..3] == "YES";
    }
    assert Lower("YES") == "yes";
    assert Lower("No") == "no";
  }

  /** A non-blank response other than y, yes, n and no, in any case, is
      refused, and `get_yes_no` goes on to the next line. */
  lemma YesNoRefuses(line: string, default: string, rest: seq<string>)
    requires Strip(line) != ""
    requires Lower(Strip(line)) !in ["y", "yes", "n", "no"]
    ensures YesNoAnswer(line, default) == None
    ensures ReadYesNo([line] + rest, default) == Later(ReadYesNo(rest, default))
  {
    assert Lower(Strip(line)) != "";
    assert ([line] + rest)[1..] == rest;
  }

  /** The scripted session in which the port prompt first gets "99999" and
      then "8080": one refusal, one more read, "8080" accepted. */
  lemma PortReprompt()
    ensures ReadInput(["99999", "8080"], "3000", Port) == Some(Read("8080", 2))
  {
    var lines := ["99999", "8080"];
    PortRange();
    RepromptValues();
    ReadInputAt(lines, "3000", Port, 1);
  }

  lemma RepromptValues()
    ensures InputValue("99999", "3000") == "99999" && InputValue("8080", "3000") == "8080"
  {
    StripTrimmed("99999");
    StripTrimmed("8080");
  }
}
