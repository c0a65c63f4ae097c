/**
 * `Validator` of src/validators/validator.py. The password rule is the regular
 * expression `^(?=(.*[A-Z])+)(?=(.*[a-z])+)(?=(.*[\d])+)(?=.*\W)(?!.*\s).{12,}$`
 * under `re.search` without flags; it is modelled as written (`.` stops at a
 * line feed, `$` also matches before a final line feed) and then shown to be
 * the plain policy it is meant to state.
 */
module Validators {
  import opened Wrappers
  import opened Text

  /** A lookahead `(?=.*X)` from the start: some character satisfies `X` and no line feed precedes it. */
  predicate FirstLineHas(s: string, p: char -> bool) {
    exists i :: 0 <= i < |s| && p(s[i]) && '\n' !in s[..i]
  }

  /** `.{12,}$` from the start: twelve or more non-line-feed characters, then the end or a final line feed. */
  predicate LongFirstLineToEnd(s: string) {
    exists j :: 12 <= j <= |s| && '\n' !in s[..j] && (j == |s| || (j == |s| - 1 && s[j] == '\n'))
  }

  /** The regular expression as written. */
  predicate MatchesAsWritten(s: string) {
    && FirstLineHas(s, IsUpper)
    && FirstLineHas(s, IsLower)
    && FirstLineHas(s, IsDigit)
    && FirstLineHas(s, c => !IsWordChar(c))
    && !FirstLineHas(s, IsSpace)
    && LongFirstLineToEnd(s)
  }

  /** The policy the docstring states: at least twelve characters, an upper-case letter, a lower-case letter, a digit, a special character, no white space. */
  predicate Policy(s: string) {
    && |s| >= 12
    && (exists i :: 0 <= i < |s| && IsUpper(s[i]))
    && (exists i :: 0 <= i < |s| && IsLower(s[i]))
    && (exists i :: 0 <= i < |s| && IsDigit(s[i]))
    && (exists i :: 0 <= i < |s| && !IsWordChar(s[i]))
    && (forall i :: 0 <= i < |s| ==> !IsSpace(s[i]))
  }

  lemma {:induction false} NoSpaceNoLineFeed(s: string)
    requires forall i :: 0 <= i < |s| ==> !IsSpace(s[i])
    ensures '\n' !in s
  {
  }

  lemma {:induction false} FirstLineHasAll(s: string, p: char -> bool)
    requires '\n' !in s
    ensures FirstLineHas(s, p) <==> exists i :: 0 <= i < |s| && p(s[i])
  {
    if exists i :: 0 <= i < |s| && p(s[i]) {
      var i :| 0 <= i < |s| && p(s[i]);
      assert '\n' !in s[..i] by {
        forall j | 0 <= j < i ensures s[..i][j] != '\n' {
          assert s[..i][j] == s[j];
        }
      }
    }
  }

  /** The regular expression accepts exactly the passwords that meet the policy. */
  lemma {:induction false} MatchesMeansPolicy(s: string)
    ensures MatchesAsWritten(s) <==> Policy(s)
  {
    if MatchesAsWritten(s) {
      if '\n' in s {
        var i := FirstLineFeed(s);
        assert IsSpace(s[i]);
      }
      FirstLineHasAll(s, IsUpper);
      FirstLineHasAll(s, IsLower);
      FirstLineHasAll(s, IsDigit);
      FirstLineHasAll(s, c => !IsWordChar(c));
      FirstLineHasAll(s, IsSpace);
      var j :| 12 <= j <= |s| && '\n' !in s[..j] && (j == |s| || (j == |s| - 1 && s[j] == '\n'));
    }
    if Policy(s) {
      NoSpaceNoLineFeed(s);
      FirstLineHasAll(s, IsUpper);
      FirstLineHasAll(s, IsLower);
      FirstLineHasAll(s, IsDigit);
      FirstLineHasAll(s, c => !IsWordChar(c));
      FirstLineHasAll(s, IsSpace);
      assert s[..|s|] == s;
    }
  }

  /** The index of the first line feed. */
  function FirstLineFeed(s: string): (i: nat)
    requires '\n' in s
    ensures i < |s| && s[i] == '\n' && '\n' !in s[..i]
  {
    if s[0] == '\n' then 0
    else
      assert '\n' in s[1..] by {
        var k :| 0 <= k < |s| && s[k] == '\n';
        assert s[1..][k - 1] == '\n';
      }
      var i := 1 + FirstLineFeed(s[1..]);
      assert s[..i] == [s[0]] + s[1..][..i - 1];
      i
  }

  const MISSING_PASSWORD := "Veuillez saisir un mot de passe"
  const WEAK_PASSWORD := "Le mot de passe doit contenir au moins douze caractères, un chiffre, une majuscule et un caractère spécial"

  /** `Validator.validate_password`: a `ValueError` with its message, or the password unchanged. */
  function ValidatePassword(password: Option<string>): (r: Result<string, string>)
    ensures password.None? ==> r == Failure(MISSING_PASSWORD)
    ensures password.Some? ==> (r.Success? <==> Policy(password.value))
    ensures r.Success? ==> password == Some(r.value)
    ensures password.Some? && r.Failure? ==> r.error == WEAK_PASSWORD
  {
    if password.None? then Failure(MISSING_PASSWORD)
    else
      MatchesMeansPolicy(password.value);
      if !MatchesAsWritten(password.value) then Failure(WEAK_PASSWORD)
      else Success(password.value)
  }

  /** A final line feed, which `$` alone would allow, is refused by the white-space rule. */
  lemma TrailingLineFeedRefused(s: string)
    ensures ValidatePassword(Some(s + "\n")).Failure?
  {
    var t := s + "\n";
    assert IsSpace(t[|t| - 1]);
  }

  /** `Validator.validate_email` accepts every address unchanged. */
  function ValidateEmail(email: string): (r: Result<string, string>)
    ensures r == Success(email)
  {
    Success(email)
  }
}
