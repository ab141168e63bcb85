/**
 * The sign-up page (app/signup/page.tsx): the password-strength rules and
 * the first-failure message they produce, the username character filter,
 * and the e-mail sign-up handler that checks the two passwords before it
 * asks the authentication service to create the account.
 */
module Signup {
  import opened Wrappers
  import opened JsString

  const TooShort := "Password must be at least 8 characters long"
  const NoUppercase := "Password must contain at least one uppercase letter"
  const NoLowercase := "Password must contain at least one lowercase letter"
  const NoNumber := "Password must contain at least one number"
  const Mismatch := "Passwords do not match"
  const SignUpFailed := "Failed to create account. Please try again."

  /** `/[A-Z]/.test(s)`. */
  function HasUpper(s: string): (b: bool)
    ensures b <==> exists i :: 0 <= i < |s| && IsAsciiUpper(s[i])
  {
    if s == [] then false
    else if IsAsciiUpper(s[0]) then true
    else
      assert forall i :: 0 < i < |s| ==> s[i] == s[1..][i - 1];
      HasUpper(s[1..])
  }

  /** `/[a-z]/.test(s)`. */
  function HasLower(s: string): (b: bool)
    ensures b <==> exists i :: 0 <= i < |s| && IsAsciiLower(s[i])
  {
    if s == [] then false
    else if IsAsciiLower(s[0]) then true
    else
      assert forall i :: 0 < i < |s| ==> s[i] == s[1..][i - 1];
      HasLower(s[1..])
  }

  /** `/[0-9]/.test(s)`. */
  function HasDigit(s: string): (b: bool)
    ensures b <==> exists i :: 0 <= i < |s| && IsAsciiDigit(s[i])
  {
    if s == [] then false
    else if IsAsciiDigit(s[0]) then true
    else
      assert forall i :: 0 < i < |s| ==> s[i] == s[1..][i - 1];
      HasDigit(s[1..])
  }

  /**
   * `validatePassword`: `None` (JavaScript `null`) for an acceptable
   * password, otherwise the message of the first rule it breaks. The
   * length is JavaScript's, in UTF-16 code units.
   */
  function ValidatePassword(pwd: string): (r: Option<string>)
    ensures r.None? <==> Utf16Length(pwd) >= 8 && HasUpper(pwd) && HasLower(pwd) && HasDigit(pwd)
    ensures r.Some? ==> r.value in {TooShort, NoUppercase, NoLowercase, NoNumber}
  {
    if Utf16Length(pwd) < 8 then Some(TooShort)
    else if !HasUpper(pwd) then Some(NoUppercase)
    else if !HasLower(pwd) then Some(NoLowercase)
    else if !HasDigit(pwd) then Some(NoNumber)
    else None
  }

  /** The four strength rules, in the order the page checks them. */
  datatype Rule = Length | Uppercase | Lowercase | Digit {
    function Rank(): (n: nat)
      ensures n < 4
    {
      match this
      case Length => 0
      case Uppercase => 1
      case Lowercase => 2
      case Digit => 3
    }

    function Message(): (m: string)
      ensures m != ""
    {
      match this
      case Length => TooShort
      case Uppercase => NoUppercase
      case Lowercase => NoLowercase
      case Digit => NoNumber
    }
  }

  predicate Satisfies(pwd: string, rule: Rule) {
    match rule
    case Length => Utf16Length(pwd) >= 8
    case Uppercase => HasUpper(pwd)
    case Lowercase => HasLower(pwd)
    case Digit => HasDigit(pwd)
  }

  /** `rule` is broken and every rule checked before it holds. */
  predicate FirstBroken(pwd: string, rule: Rule) {
    !Satisfies(pwd, rule)
    && forall earlier: Rule :: earlier.Rank() < rule.Rank() ==> Satisfies(pwd, earlier)
  }

  /**
   * The message names the first broken rule: whenever some rule fails,
   * the page reports exactly the earliest one, whatever else fails too.
   */
  lemma MessageIsFirstBrokenRule(pwd: string, rule: Rule)
    ensures ValidatePassword(pwd) == Some(rule.Message()) <==> FirstBroken(pwd, rule)
  {
    if FirstBroken(pwd, rule) {
      match rule
      case Length =>
      case Uppercase => assert Satisfies(pwd, Length);
      case Lowercase => assert Satisfies(pwd, Length) && Satisfies(pwd, Uppercase);
      case Digit =>
        assert Satisfies(pwd, Length) && Satisfies(pwd, Uppercase) && Satisfies(pwd, Lowercase);
    }
  }

  /** Every password is either accepted or has a first broken rule, never both. */
  lemma AcceptedOrFirstBroken(pwd: string)
    ensures ValidatePassword(pwd).None? <==> forall rule: Rule :: Satisfies(pwd, rule)
  {
    if ValidatePassword(pwd).None? {
      forall rule: Rule ensures Satisfies(pwd, rule) {
        match rule
        case Length =>
        case Uppercase =>
        case Lowercase =>
        case Digit =>
      }
    } else {
      assert !Satisfies(pwd, Length) || !Satisfies(pwd, Uppercase)
        || !Satisfies(pwd, Lowercase) || !Satisfies(pwd, Digit);
    }
  }

  /** A character the username field keeps: `[a-zA-Z0-9_]`. */
  predicate IsUsernameChar(c: char) {
    IsAsciiUpper(c) || IsAsciiLower(c) || IsAsciiDigit(c) || c == '_'
  }

  predicate IsUsername(s: string) {
    forall i :: 0 <= i < |s| ==> IsUsernameChar(s[i])
  }

  /**
   * The username field's `replace(/[^a-zA-Z0-9_]/g, '')`: every other
   * character is dropped, the kept ones stay in order. A character outside
   * the BMP is two UTF-16 surrogates, neither of them in the class, so it
   * is dropped whole.
   */
  function FilterUsername(s: string): (r: string)
    ensures IsUsername(r)
    ensures |r| <= |s|
    ensures IsUsername(s) ==> r == s
  {
    if s == [] then []
    else
      var rest := FilterUsername(s[1..]);
      if IsUsernameChar(s[0]) then [s[0]] + rest else rest
  }

  /** Every kept character occurs as often as in the input; every other one is gone. */
  lemma {:induction false} FilterUsernameCounts(s: string)
    ensures forall c :: multiset(FilterUsername(s))[c] == if IsUsernameChar(c) then multiset(s)[c] else 0
  {
    if s != [] {
      FilterUsernameCounts(s[1..]);
      assert s == [s[0]] + s[1..];
      assert multiset(s) == multiset{s[0]} + multiset(s[1..]);
    }
  }

  /** The filter works character by character, so it keeps the order of what it keeps. */
  lemma {:induction false} FilterUsernameAppend(a: string, b: string)
    ensures FilterUsername(a + b) == FilterUsername(a) + FilterUsername(b)
  {
    if a != [] {
      var ab := a + b;
      assert ab[0] == a[0];
      assert ab[1..] == a[1..] + b;
      FilterUsernameAppend(a[1..], b);
      var rest := FilterUsername(a[1..]);
      if IsUsernameChar(a[0]) {
        assert FilterUsername(ab) == [a[0]] + FilterUsername(a[1..] + b);
        assert FilterUsername(a) == [a[0]] + rest;
        assert [a[0]] + (rest + FilterUsername(b)) == ([a[0]] + rest) + FilterUsername(b);
      } else {
        assert FilterUsername(ab) == FilterUsername(a[1..] + b);
      }
    } else {
      assert a + b == b;
    }
  }

  /** Filtering what was already filtered changes nothing. */
  lemma FilterUsernameIdempotent(s: string)
    ensures FilterUsername(FilterUsername(s)) == FilterUsername(s)
  {
  }

  /** Lower-casing keeps a username a username. */
  lemma LowerKeepsUsername(s: string)
    requires IsUsername(s)
    ensures IsUsername(AsciiLower(s))
  {
    forall i | 0 <= i < |s| ensures IsUsernameChar(AsciiLower(s)[i]) {
      assert AsciiLower(s)[i] == LowerChar(s[i]);
    }
  }

  /**
   * The stored username has no capital letter, and it coincides with the
   * display name exactly when the display name had none to begin with.
   */
  lemma StoredUsernameIsLowercase(displayName: string)
    ensures !HasUpper(AsciiLower(displayName))
    ensures AsciiLower(displayName) == displayName <==> !HasUpper(displayName)
  {
    var stored := AsciiLower(displayName);
    if HasUpper(displayName) {
      var i :| 0 <= i < |displayName| && IsAsciiUpper(displayName[i]);
      assert stored[i] != displayName[i];
    } else {
      assert forall i :: 0 <= i < |displayName| ==> stored[i] == displayName[i];
    }
  }

  /** What `supabase.auth.signUp` is given: the stored username is lower-cased, the display name is as typed. */
  datatype SignUpRequest = SignUpRequest(email: string, password: string, username: string, displayName: string)

  /** `error.message || 'Failed to create account. …'`: an empty message falls back. */
  function FailureMessage(message: string): (m: string)
    ensures m != ""
    ensures message != "" ==> m == message
  {
    if message != "" then message else SignUpFailed
  }

  class Form {
    var email: string
    var username: string
    var password: string
    var confirmPassword: string
    var loading: bool
    var error: string
    var success: bool

    /** The username field only ever holds filtered text. */
    ghost predicate Valid()
      reads this
    {
      IsUsername(username)
    }

    constructor ()
      ensures email == "" && username == "" && password == "" && confirmPassword == ""
      ensures !loading && error == "" && !success
      ensures Valid()
    {
      email, username, password, confirmPassword := "", "", "", "";
      loading, error, success := false, "", false;
    }

    /** The username field's `onChange`: the typed text, filtered. */
    method SetUsername(typed: string)
      modifies this
      ensures username == FilterUsername(typed)
      ensures Valid()
      ensures email == old(email) && password == old(password) && confirmPassword == old(confirmPassword)
      ensures loading == old(loading) && error == old(error) && success == old(success)
    {
      username := FilterUsername(typed);
    }

    /** The e-mail, password and confirmation fields' `onChange`: stored as typed. */
    method SetCredentials(typedEmail: string, typedPassword: string, typedConfirmation: string)
      modifies this
      ensures email == typedEmail && password == typedPassword && confirmPassword == typedConfirmation
      ensures username == old(username)
      ensures loading == old(loading) && error == old(error) && success == old(success)
    {
      email, password, confirmPassword := typedEmail, typedPassword, typedConfirmation;
    }

    /**
     * `handleEmailSignup`. The passwords must match, then be strong
     * enough; only then is the account requested (returned as `request`),
     * and `signUpError` is the service's answer (`None` for success).
     */
    method HandleEmailSignup(signUpError: Option<string>) returns (request: Option<SignUpRequest>)
      requires Valid()
      modifies this
      ensures request.Some? <==> password == confirmPassword && ValidatePassword(password).None?
      ensures password != confirmPassword ==> error == Mismatch
      ensures password == confirmPassword && ValidatePassword(password).Some? ==>
        error == ValidatePassword(password).value
      ensures request.Some? ==> request.value == SignUpRequest(email, password, AsciiLower(username), username)
      ensures request.Some? ==> IsUsername(request.value.username)
      ensures success <==> request.Some? && signUpError.None?
      ensures request.Some? && signUpError.Some? ==> error == FailureMessage(signUpError.value)
      ensures request.Some? && signUpError.None? ==> error == ""
      ensures !loading
      ensures email == old(email) && username == old(username)
      ensures password == old(password) && confirmPassword == old(confirmPassword)
      ensures Valid()
    {
      loading := true;
      error := "";
      success := false;
      request := None;

      if password != confirmPassword {
        error := Mismatch;
        loading := false;
        return;
      }

      var passwordError := ValidatePassword(password);
      if passwordError.Some? {
        error := passwordError.value;
        loading := false;
        return;
      }

      request := Some(SignUpRequest(email, password, AsciiLower(username), username));
      LowerKeepsUsername(username);
      if signUpError.Some? {
        error := FailureMessage(signUpError.value);
      } else {
        success := true;
      }
      loading := false;
    }
  }

  /** A mismatch is reported even when the password is also too weak. */
  method MismatchBeforeStrength() returns (form: Form, request: Option<SignUpRequest>)
    ensures request.None? && form.error == Mismatch && !form.success
  {
    form := new Form();
    form.SetCredentials("a@b.co", "short", "Short");
    request := form.HandleEmailSignup(None);
  }
}
