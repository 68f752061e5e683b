/** The user-name validator (backend/foodgram/validators.py). */
module Validators {
  import opened Wrappers
  import opened Text

  /** The name that would shadow the `/users/me/` route. */
  const Reserved: string := "me"

  datatype UsernameError = ReservedUsername

  /** `validate_username`: a name is refused when its lower-cased form is the reserved one. */
  function ValidateUsername(value: string): Outcome<UsernameError> {
    if Lower(value) == Reserved then Fail(ReservedUsername) else Pass
  }

  /** Exactly the four spellings of "me" in any letter case are refused. */
  lemma RefusedExactlyCaseVariantsOfMe(value: string)
    ensures ValidateUsername(value).Fail? <==>
      |value| == 2 && (value[0] == 'm' || value[0] == 'M') && (value[1] == 'e' || value[1] == 'E')
  {
    if |value| == 2 {
      assert Lower(value)[0] == LowerChar(value[0]) && Lower(value)[1] == LowerChar(value[1]);
      assert Lower(value) == Reserved <==> Lower(value)[0] == 'm' && Lower(value)[1] == 'e';
    } else {
      assert |Lower(value)| != |Reserved|;
    }
  }

  /** The verdict depends only on the lower-cased name. */
  lemma VerdictIgnoresCase(a: string, b: string)
    requires Lower(a) == Lower(b)
    ensures ValidateUsername(a) == ValidateUsername(b)
  {
  }

  /** Names that merely contain "me" are accepted. */
  lemma LongerNamesAccepted(value: string)
    requires |value| != 2
    ensures ValidateUsername(value) == Pass
  {
    assert |Lower(value)| != |Reserved|;
  }
}
