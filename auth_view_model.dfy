/** `AuthViewModel`: sign-up, sign-in, sign-out, password reset and profile
    edits. Input checks run before any call to the authentication backend;
    the backend's answers are parameters. */
module AuthScreen {
  import opened Wrappers
  import opened Domain
  import Text

  const CredentialsRequired := "Email and password are required"
  const PasswordsDoNotMatch := "Passwords do not match"
  const PasswordTooShort := "Password must be at least 6 characters"
  const EmailRequired := "Email is required"
  const SignUpFailed := "Sign up failed"
  const SignInFailed := "Sign in failed"
  const SignOutFailed := "Sign out failed"
  const ResetPasswordFailed := "Reset password failed"
  const UpdateProfileFailed := "Update profile failed"
  const UploadFailed := "Upload failed"

  const MinPasswordLength := 6

  datatype AuthUiState = AuthUiState(
    isLoading: bool,
    user: Option<User>,
    error: Option<string>,
    isLoggedIn: bool,
    signUpSuccess: bool,
    resetPasswordSuccess: bool,
    profileUpdateSuccess: bool)

  /** `AuthUiState()`. */
  const InitialAuth := AuthUiState(false, None, None, false, false, false, false)

  /** The message of the first `signUp` check that fails, in the order blank
      fields, mismatch, length; `None` when all pass. */
  function SignUpCheck(email: string, password: string, confirmPassword: string): (r: Option<string>)
    ensures r == Some(CredentialsRequired) <==> Text.IsBlank(email) || Text.IsBlank(password)
    ensures r == Some(PasswordsDoNotMatch) <==>
      !Text.IsBlank(email) && !Text.IsBlank(password) && password != confirmPassword
    ensures r == Some(PasswordTooShort) <==>
      !Text.IsBlank(email) && !Text.IsBlank(password) && password == confirmPassword && |password| < MinPasswordLength
    ensures r.None? <==>
      !Text.IsBlank(email) && !Text.IsBlank(password) && password == confirmPassword && |password| >= MinPasswordLength
  {
    if Text.IsBlank(email) || Text.IsBlank(password) then Some(CredentialsRequired)
    else if password != confirmPassword then Some(PasswordsDoNotMatch)
    else if |password| < MinPasswordLength then Some(PasswordTooShort)
    else None
  }

  class AuthViewModel {
    var state: AuthUiState

    constructor ()
      ensures state == InitialAuth
    {
      state := InitialAuth;
    }

    /** `observeAuthState`: one emission of the current-user stream. */
    method ObserveAuth(user: Option<User>)
      modifies this
      ensures state == old(state).(user := user, isLoggedIn := user.Some?)
    {
      state := state.(user := user, isLoggedIn := user.Some?);
    }

    /** `signUp(email, password, confirmPassword)`: `called` tells whether the
        backend was asked, `answer` is what it answered. */
    method SignUp(email: string, password: string, confirmPassword: string, answer: Result<User>) returns (called: bool)
      modifies this
      ensures called <==> SignUpCheck(email, password, confirmPassword).None?
      ensures !called ==> state == old(state).(error := SignUpCheck(email, password, confirmPassword))
      ensures called && answer.Success? ==>
        state == old(state).(isLoading := false, error := None, user := Some(answer.value), signUpSuccess := true)
      ensures called && answer.Failure? ==>
        state == old(state).(isLoading := false, error := Some(answer.message.GetOr(SignUpFailed)))
    {
      if Text.IsBlank(email) || Text.IsBlank(password) {
        state := state.(error := Some(CredentialsRequired));
        return false;
      }
      if password != confirmPassword {
        state := state.(error := Some(PasswordsDoNotMatch));
        return false;
      }
      if |password| < 6 {
        state := state.(error := Some(PasswordTooShort));
        return false;
      }
      called := true;
      state := state.(isLoading := true, error := None);
      match answer {
        case Success(user) => state := state.(isLoading := false, user := Some(user), signUpSuccess := true);
        case Failure(e) => state := state.(isLoading := false, error := Some(e.GetOr(SignUpFailed)));
      }
    }

    /** `signIn(email, password)`. */
    method SignIn(email: string, password: string, answer: Result<User>) returns (called: bool)
      modifies this
      ensures called <==> !Text.IsBlank(email) && !Text.IsBlank(password)
      ensures !called ==> state == old(state).(error := Some(CredentialsRequired))
      ensures called && answer.Success? ==>
        state == old(state).(isLoading := false, error := None, user := Some(answer.value), isLoggedIn := true)
      ensures called && answer.Failure? ==>
        state == old(state).(isLoading := false, error := Some(answer.message.GetOr(SignInFailed)))
    {
      if Text.IsBlank(email) || Text.IsBlank(password) {
        state := state.(error := Some(CredentialsRequired));
        return false;
      }
      called := true;
      state := state.(isLoading := true, error := None);
      match answer {
        case Success(user) => state := state.(isLoading := false, user := Some(user), isLoggedIn := true);
        case Failure(e) => state := state.(isLoading := false, error := Some(e.GetOr(SignInFailed)));
      }
    }

    /** `signOut()`. */
    method SignOut(answer: Result<()>)
      modifies this
      ensures !state.isLoading
      ensures answer.Success? ==> state == old(state).(isLoading := false, error := None, user := None, isLoggedIn := false)
      ensures answer.Failure? ==> state == old(state).(isLoading := false, error := Some(answer.message.GetOr(SignOutFailed)))
    {
      state := state.(isLoading := true, error := None);
      match answer {
        case Success(_) => state := state.(isLoading := false, user := None, isLoggedIn := false);
        case Failure(e) => state := state.(isLoading := false, error := Some(e.GetOr(SignOutFailed)));
      }
    }

    /** `resetPassword(email)`. */
    method ResetPassword(email: string, answer: Result<()>) returns (called: bool)
      modifies this
      ensures called <==> !Text.IsBlank(email)
      ensures !called ==> state == old(state).(error := Some(EmailRequired))
      ensures called && answer.Success? ==>
        state == old(state).(isLoading := false, error := None, resetPasswordSuccess := true)
      ensures called && answer.Failure? ==>
        state == old(state).(isLoading := false, error := Some(answer.message.GetOr(ResetPasswordFailed)))
    {
      if Text.IsBlank(email) {
        state := state.(error := Some(EmailRequired));
        return false;
      }
      called := true;
      state := state.(isLoading := true, error := None);
      match answer {
        case Success(_) => state := state.(isLoading := false, resetPasswordSuccess := true);
        case Failure(e) => state := state.(isLoading := false, error := Some(e.GetOr(ResetPasswordFailed)));
      }
    }

    /** `updateProfile(displayName, avatarUrl)`. */
    method UpdateProfile(answer: Result<User>)
      modifies this
      ensures !state.isLoading
      ensures answer.Success? ==>
        state == old(state).(isLoading := false, error := None, user := Some(answer.value), profileUpdateSuccess := true)
      ensures answer.Failure? ==>
        state == old(state).(isLoading := false, error := Some(answer.message.GetOr(UpdateProfileFailed)))
    {
      state := state.(isLoading := true, error := None);
      match answer {
        case Success(user) => state := state.(isLoading := false, user := Some(user), profileUpdateSuccess := true);
        case Failure(e) => state := state.(isLoading := false, error := Some(e.GetOr(UpdateProfileFailed)));
      }
    }

    /** `uploadAvatar(bytes, onSuccess)`: `calledBack` is the url handed to
        `onSuccess`, none when the upload failed. */
    method UploadAvatar(answer: Result<string>) returns (calledBack: Option<string>)
      modifies this
      ensures !state.isLoading
      ensures answer.Success? ==> calledBack == Some(answer.value) && state == old(state).(isLoading := false, error := None)
      ensures answer.Failure? ==>
        calledBack.None? && state == old(state).(isLoading := false, error := Some(answer.message.GetOr(UploadFailed)))
    {
      state := state.(isLoading := true, error := None);
      match answer {
        case Success(url) =>
          state := state.(isLoading := false);
          calledBack := Some(url);
        case Failure(e) =>
          state := state.(isLoading := false, error := Some(e.GetOr(UploadFailed)));
          calledBack := None;
      }
    }

    method ClearError()
      modifies this
      ensures state == old(state).(error := None)
    {
      state := state.(error := None);
    }

    /** `clearSuccess()`: the three success flags and nothing else. */
    method ClearSuccess()
      modifies this
      ensures state == old(state).(signUpSuccess := false, resetPasswordSuccess := false, profileUpdateSuccess := false)
    {
      state := state.(signUpSuccess := false, resetPasswordSuccess := false, profileUpdateSuccess := false);
    }
  }

  // ---------------------------------------------------------------------
  // properties

  /** A password of exactly six characters passes the length check, and one
      of five does not. */
  lemma SixCharactersSuffice(email: string)
    requires !Text.IsBlank(email)
    ensures SignUpCheck(email, "secret", "secret").None?
    ensures SignUpCheck(email, "short", "short") == Some(PasswordTooShort)
  {
    assert !Text.IsWhitespace("secret"[0]);
    assert !Text.IsWhitespace("short"[0]);
  }

  /** The checks report the earliest failure: a blank password is reported
      as missing even when the confirmation differs and it is too short. */
  lemma BlankBeforeMismatch(email: string)
    ensures SignUpCheck(email, " ", "x") == Some(CredentialsRequired)
  {
    assert Text.IsBlank(" ");
  }
}
