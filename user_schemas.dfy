/**
 * The registration request and its password policy, checked in order:
 * the two passwords match, the password has at least six characters, at
 * least one letter and at least one digit.
 */
module UserSchemas {
  import opened Common

  datatype UserCreateRequest = UserCreateRequest(
    username: string,
    email: string,
    password: string,
    confirmPassword: string)

  /** The first policy rule a request breaks, as the validator reports it. */
  datatype PasswordError =
    | PasswordsDoNotMatch  // 'Passwords do not match'
    | TooShort             // 'Password must be at least 6 characters long'
    | NoLetter             // 'Password must contain at least one letter'
    | NoDigit              // 'Password must contain at least one number'

  const MinPasswordLength: nat := 6

  /** `c.isalpha()`, on ASCII letters. */
  predicate IsAlpha(c: char)
  {
    'a' <= c <= 'z' || 'A' <= c <= 'Z'
  }

  /** `c.isdigit()`, on ASCII digits. */
  predicate IsDigit(c: char)
  {
    '0' <= c <= '9'
  }

  /** Python's `any(p(c) for c in s)`, scanning left to right. */
  function Any(s: string, p: char -> bool): (b: bool)
    ensures b <==> exists i :: 0 <= i < |s| && p(s[i])
  {
    if s == [] then false
    else if p(s[0]) then true
    else
      var b := Any(s[1..], p);
      assert forall i :: 1 <= i < |s| ==> s[i] == s[1..][i - 1];
      b
  }

  /**
   * `UserCreateRequest.validate_passwords`: the request comes back unchanged
   * exactly when all four rules hold; otherwise the first broken rule, in the
   * order match, length, letter, digit, is reported.
   */
  function ValidatePasswords(request: UserCreateRequest): (r: Result<UserCreateRequest, PasswordError>)
    ensures r.Ok? <==>
      && request.password == request.confirmPassword
      && |request.password| >= MinPasswordLength
      && (exists i :: 0 <= i < |request.password| && IsAlpha(request.password[i]))
      && (exists i :: 0 <= i < |request.password| && IsDigit(request.password[i]))
    ensures r.Ok? ==> r.value == request
    ensures request.password != request.confirmPassword ==> r == Err(PasswordsDoNotMatch)
    ensures request.password == request.confirmPassword && |request.password| < MinPasswordLength ==>
      r == Err(TooShort)
    ensures r == Err(NoLetter) <==>
      && request.password == request.confirmPassword
      && |request.password| >= MinPasswordLength
      && forall i :: 0 <= i < |request.password| ==> !IsAlpha(request.password[i])
    ensures r == Err(NoDigit) <==>
      && request.password == request.confirmPassword
      && |request.password| >= MinPasswordLength
      && (exists i :: 0 <= i < |request.password| && IsAlpha(request.password[i]))
      && forall i :: 0 <= i < |request.password| ==> !IsDigit(request.password[i])
  {
    if request.password != request.confirmPassword then Err(PasswordsDoNotMatch)
    else if |request.password| < MinPasswordLength then Err(TooShort)
    else if !Any(request.password, IsAlpha) then Err(NoLetter)
    else if !Any(request.password, IsDigit) then Err(NoDigit)
    else Ok(request)
  }

  /** A password of digits alone is refused for lacking a letter, whatever its length. */
  lemma DigitsOnlyRefused(request: UserCreateRequest)
    requires request.password == request.confirmPassword
    requires |request.password| >= MinPasswordLength
    requires forall i :: 0 <= i < |request.password| ==> IsDigit(request.password[i])
    ensures ValidatePasswords(request) == Err(NoLetter)
  {
    forall i | 0 <= i < |request.password| ensures !IsAlpha(request.password[i]) {
      assert IsDigit(request.password[i]);
    }
  }

  /** A sample request that satisfies every rule. */
  lemma SampleAccepted()
    ensures ValidatePasswords(UserCreateRequest("ann", "ann@example.org", "abc123", "abc123")).Ok?
  {
    var pw := "abc123";
    assert IsAlpha(pw[0]) && IsDigit(pw[5]);
  }
}
