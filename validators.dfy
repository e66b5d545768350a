/**
 * The field validators of `User.name` and `User.code_name`
 * (server/api/models.py:37-60): a `RegexValidator` and the `max_length=30`
 * check of each field, as Django's model validation runs them. `create_user`
 * saves without running them; they apply where the model is validated.
 *
 * `RegexValidator` uses Python's `re.search`, and without `re.MULTILINE` the
 * `$` anchor matches at the very end AND just before a final "\n". The
 * patterns `^[a-zA-Z ]*$` and `^[a-zA-Z0-9]*$` therefore also accept a value
 * ending in one newline: `NameRegexMatches` and `CodeNameRegexMatches` model
 * the patterns as written, `NameValid` and `CodeNameValid` the evidently
 * intended whole-value character classes, which the field checks use.
 */
module Validators {

  const MaxLength := 30

  predicate IsAsciiLetter(c: char) {
    'a' <= c <= 'z' || 'A' <= c <= 'Z'
  }

  predicate IsAsciiDigit(c: char) {
    '0' <= c <= '9'
  }

  /** `[a-zA-Z ]` */
  predicate IsNameChar(c: char) {
    IsAsciiLetter(c) || c == ' '
  }

  /** `[a-zA-Z0-9]` */
  predicate IsCodeNameChar(c: char) {
    IsAsciiLetter(c) || IsAsciiDigit(c)
  }

  /** The intended name rule: letters and spaces only (the empty name allowed). */
  predicate NameValid(s: string) {
    forall i :: 0 <= i < |s| ==> IsNameChar(s[i])
  }

  /** The intended code-name rule: ASCII letters and digits only (empty allowed). */
  predicate CodeNameValid(s: string) {
    forall i :: 0 <= i < |s| ==> IsCodeNameChar(s[i])
  }

  /**
   * Length of the longest prefix of `s` made of characters of the name class:
   * where the greedy `[a-zA-Z ]*` stops.
   */
  function NameRunLength(s: string): (n: nat)
    ensures n <= |s|
    ensures forall i :: 0 <= i < n ==> IsNameChar(s[i])
    ensures n < |s| ==> !IsNameChar(s[n])
  {
    if s == [] || !IsNameChar(s[0]) then 0 else 1 + NameRunLength(s[1..])
  }

  /** Likewise for `[a-zA-Z0-9]*`. */
  function CodeNameRunLength(s: string): (n: nat)
    ensures n <= |s|
    ensures forall i :: 0 <= i < n ==> IsCodeNameChar(s[i])
    ensures n < |s| ==> !IsCodeNameChar(s[n])
  {
    if s == [] || !IsCodeNameChar(s[0]) then 0 else 1 + CodeNameRunLength(s[1..])
  }

  /**
   * Python's `$` without MULTILINE: the match position is the end of the
   * value, or the position of a final newline.
   */
  predicate DollarMatchesAt(s: string, pos: nat) {
    pos == |s| || (pos == |s| - 1 && s[pos] == '\n')
  }

  /**
   * `re.search(r"^[a-zA-Z ]*$", s)` as written. The `*` is greedy and "\n" is
   * not in the class, so backtracking to a shorter run never helps `$`.
   */
  predicate NameRegexMatches(s: string) {
    DollarMatchesAt(s, NameRunLength(s))
  }

  /** `re.search(r"^[a-zA-Z0-9]*$", s)` as written. */
  predicate CodeNameRegexMatches(s: string) {
    DollarMatchesAt(s, CodeNameRunLength(s))
  }

  /** The messages the two `RegexValidator`s report (models.py:43, 55). */
  const NameMessage := "Name must be alphanumeric or contain underscores, dots, or hyphens."
  const CodeNameMessage := "Code name must be alphanumeric or contain underscores, dots, or hyphens."

  /**
   * One error of a field check: a regex error with its code and message, or the
   * `max_length` error of `MaxLengthValidator` with the limit and the length it
   * formats its message from.
   */
  datatype FieldError =
    | RegexError(code: string, message: string)
    | MaxLengthError(limit: nat, shown: nat)

  /**
   * The errors model validation reports for a `name` value, in validator order:
   * the field's own validator first, then the one `max_length` adds.
   */
  function NameErrors(s: string): (errors: seq<FieldError>)
    ensures errors == [] <==> NameValid(s) && |s| <= MaxLength
    ensures RegexError("invalid_name", NameMessage) in errors <==> !NameValid(s)
    ensures MaxLengthError(MaxLength, |s|) in errors <==> |s| > MaxLength
    ensures forall e :: e in errors ==> e == RegexError("invalid_name", NameMessage) || e == MaxLengthError(MaxLength, |s|)
    ensures !NameValid(s) ==> errors[0] == RegexError("invalid_name", NameMessage)
  {
    (if NameValid(s) then [] else [RegexError("invalid_name", NameMessage)])
      + (if |s| <= MaxLength then [] else [MaxLengthError(MaxLength, |s|)])
  }

  /** The errors model validation reports for a `code_name` value, in validator order. */
  function CodeNameErrors(s: string): (errors: seq<FieldError>)
    ensures errors == [] <==> CodeNameValid(s) && |s| <= MaxLength
    ensures RegexError("invalid_code_name", CodeNameMessage) in errors <==> !CodeNameValid(s)
    ensures MaxLengthError(MaxLength, |s|) in errors <==> |s| > MaxLength
    ensures forall e :: e in errors ==> e == RegexError("invalid_code_name", CodeNameMessage) || e == MaxLengthError(MaxLength, |s|)
    ensures !CodeNameValid(s) ==> errors[0] == RegexError("invalid_code_name", CodeNameMessage)
  {
    (if CodeNameValid(s) then [] else [RegexError("invalid_code_name", CodeNameMessage)])
      + (if |s| <= MaxLength then [] else [MaxLengthError(MaxLength, |s|)])
  }

  /**
   * The name pattern as written accepts exactly the intended values plus
   * those values followed by one newline.
   */
  lemma NameRegexAsWritten(s: string)
    ensures NameRegexMatches(s) <==>
      NameValid(s) || (|s| > 0 && s[|s| - 1] == '\n' && NameValid(s[..|s| - 1]))
  {
    var n := NameRunLength(s);
    if NameRegexMatches(s) && n == |s| - 1 {
      var t := s[..|s| - 1];
      forall i | 0 <= i < |t| ensures IsNameChar(t[i]) {
        assert t[i] == s[i];
      }
    }
  }

  /** The code-name pattern as written: the intended values, optionally followed by one newline. */
  lemma CodeNameRegexAsWritten(s: string)
    ensures CodeNameRegexMatches(s) <==>
      CodeNameValid(s) || (|s| > 0 && s[|s| - 1] == '\n' && CodeNameValid(s[..|s| - 1]))
  {
    var n := CodeNameRunLength(s);
    if CodeNameRegexMatches(s) && n == |s| - 1 {
      var t := s[..|s| - 1];
      forall i | 0 <= i < |t| ensures IsCodeNameChar(t[i]) {
        assert t[i] == s[i];
      }
    }
  }

  /** The input that shows the difference: "Bond\n" passes the name pattern as written. */
  lemma NameRegexAcceptsTrailingNewline()
    ensures NameRegexMatches("Bond\n")
    ensures !NameValid("Bond\n")
  {
    NameRegexAsWritten("Bond\n");
    assert "Bond\n"[..4] == "Bond";
    assert !IsNameChar("Bond\n"[4]);
  }

  /** "agent007\n" passes the code-name pattern as written. */
  lemma CodeNameRegexAcceptsTrailingNewline()
    ensures CodeNameRegexMatches("agent007\n")
    ensures !CodeNameValid("agent007\n")
  {
    CodeNameRegexAsWritten("agent007\n");
    assert "agent007\n"[..8] == "agent007";
    assert !IsCodeNameChar("agent007\n"[8]);
  }

  /** Every value the intended rules accept still passes the patterns as written. */
  lemma IntendedRulesWithinPatterns(s: string)
    ensures NameValid(s) ==> NameRegexMatches(s)
    ensures CodeNameValid(s) ==> CodeNameRegexMatches(s)
  {
    NameRegexAsWritten(s);
    CodeNameRegexAsWritten(s);
  }
}
