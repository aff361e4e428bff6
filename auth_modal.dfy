/**
 * The sign-in / sign-up dialog (`front-end/src/components/AuthModal.jsx`): its mode, its three
 * text fields, the loading flag and the error line, as closing the dialog and the two submit
 * handlers update them. What the authentication calls of `AuthContext.Auth` end with is a
 * parameter: the message they throw, or the data sign-up returns. Each `onClose()` call is
 * counted, and the three-second timer that switches back to sign-in is a flag and a method.
 */
module AuthModal {
  import opened Wrappers
  import AuthContext

  datatype Mode = SignIn | SignUp

  const SignInFailedMessage: string := "Sign in failed"
  const SignUpFailedMessage: string := "Sign up failed"
  const ConfirmEmailMessage: string := "Please check your email to confirm your account before signing in."

  /** The error line for a thrown error: its message, or the fallback when the message is empty. */
  function ErrorLine(message: string, fallback: string): (line: string)
    ensures fallback != "" ==> line != ""
    ensures message != "" ==> line == message
  {
    if message != "" then message else fallback
  }

  class Dialog {
    var isOpen: bool
    var mode: Mode
    var email: string
    var password: string
    var displayName: string
    var loading: bool
    var error: string
    var closeRequests: nat
    var switchPending: bool

    /** A closed dialog is back in sign-in mode with empty fields and no error. */
    ghost predicate Valid()
      reads this
    {
      !isOpen ==> mode == SignIn && email == "" && password == "" && displayName == "" && error == ""
    }

    /** The dialog renders nothing while closed. */
    predicate Renders()
      reads this
    {
      isOpen
    }

    constructor(open: bool)
      ensures Valid()
      ensures isOpen == open && mode == SignIn && email == "" && password == "" && displayName == ""
      ensures !loading && error == "" && closeRequests == 0 && !switchPending
    {
      isOpen := open;
      mode := SignIn;
      email := "";
      password := "";
      displayName := "";
      loading := false;
      error := "";
      closeRequests := 0;
      switchPending := false;
    }

    /** The `open` prop changes; closing resets the mode, the fields and the error. */
    method SetOpen(open: bool)
      requires Valid()
      modifies this
      ensures Valid() && isOpen == open
      ensures !open ==> mode == SignIn && email == "" && password == "" && displayName == "" && error == ""
      ensures open ==> mode == old(mode) && email == old(email) && password == old(password) &&
                       displayName == old(displayName) && error == old(error)
      ensures loading == old(loading) && closeRequests == old(closeRequests) && switchPending == old(switchPending)
    {
      isOpen := open;
      if !open {
        mode := SignIn;
        email := "";
        password := "";
        displayName := "";
        error := "";
      }
    }

    /** The "Sign Up" and "Sign In" links of the footer. */
    method SwitchMode(m: Mode)
      requires Valid() && isOpen
      modifies this
      ensures Valid() && mode == m
      ensures isOpen == old(isOpen) && email == old(email) && password == old(password) && displayName == old(displayName)
      ensures error == old(error) && loading == old(loading) && closeRequests == old(closeRequests)
      ensures switchPending == old(switchPending)
    {
      mode := m;
    }

    /** Typing into the three inputs. */
    method Type(newEmail: string, newPassword: string, newDisplayName: string)
      requires Valid() && isOpen
      modifies this
      ensures Valid() && email == newEmail && password == newPassword && displayName == newDisplayName
      ensures isOpen == old(isOpen) && mode == old(mode) && error == old(error) && loading == old(loading)
      ensures closeRequests == old(closeRequests) && switchPending == old(switchPending)
    {
      email := newEmail;
      password := newPassword;
      displayName := newDisplayName;
    }

    /**
     * `onSignIn`: the error is cleared and loading set; success asks to close, a thrown error
     * shows its message (or 'Sign in failed'); loading is off at the end either way.
     */
    method OnSignIn(thrown: Option<string>)
      requires Valid() && isOpen
      modifies this
      ensures Valid() && !loading
      ensures thrown.None? ==> error == "" && closeRequests == old(closeRequests) + 1
      ensures thrown.Some? ==> error == ErrorLine(thrown.value, SignInFailedMessage) && closeRequests == old(closeRequests)
      ensures isOpen == old(isOpen) && mode == old(mode) && email == old(email) && password == old(password)
      ensures displayName == old(displayName) && switchPending == old(switchPending)
    {
      error := "";
      loading := true;
      if thrown.None? {
        closeRequests := closeRequests + 1;
      } else {
        error := ErrorLine(thrown.value, SignInFailedMessage);
      }
      loading := false;
    }

    /**
     * `onSignUp`: a returned user without a session shows the confirm-e-mail message and
     * schedules the switch to sign-in; any other success asks to close; a thrown error shows its
     * message (or 'Sign up failed'); loading is off at the end either way.
     */
    method OnSignUp(result: Result<AuthContext.SignUpData, string>)
      requires Valid() && isOpen
      modifies this
      ensures Valid() && !loading
      ensures result.Err? ==>
        error == ErrorLine(result.error, SignUpFailedMessage) && closeRequests == old(closeRequests) &&
        switchPending == old(switchPending)
      ensures result.Ok? && result.value.user.Some? && !result.value.hasSession ==>
        error == ConfirmEmailMessage && switchPending && closeRequests == old(closeRequests)
      ensures result.Ok? && (result.value.user.None? || result.value.hasSession) ==>
        error == "" && closeRequests == old(closeRequests) + 1 && switchPending == old(switchPending)
      ensures isOpen == old(isOpen) && mode == old(mode) && email == old(email) && password == old(password)
      ensures displayName == old(displayName)
    {
      error := "";
      loading := true;
      if result.Err? {
        error := ErrorLine(result.error, SignUpFailedMessage);
      } else if result.value.user.Some? && !result.value.hasSession {
        error := ConfirmEmailMessage;
        switchPending := true;
      } else {
        closeRequests := closeRequests + 1;
      }
      loading := false;
    }

    /** The timer set after a pending confirmation: back to sign-in. */
    method TimerFires()
      requires Valid()
      modifies this
      ensures Valid() && !switchPending
      ensures mode == (if old(switchPending) then SignIn else old(mode))
      ensures isOpen == old(isOpen) && email == old(email) && password == old(password)
      ensures displayName == old(displayName) && error == old(error) && loading == old(loading)
      ensures closeRequests == old(closeRequests)
    {
      if switchPending {
        mode := SignIn;
        switchPending := false;
      }
    }
  }

  /**
   * A sign-up with a missing field never reaches the service and keeps the dialog open with
   * the 'Missing fields' message.
   */
  method MissingFieldKeepsDialogOpen(d: Dialog, auth: AuthContext.Auth, configured: bool,
                                     response: Result<AuthContext.SignUpData, string>)
    requires d.Valid() && d.isOpen && auth.Valid()
    requires !AuthContext.SignUpFieldsPresent(d.email, d.password, d.displayName)
    modifies d, auth
    ensures d.Valid() && auth.Valid() && d.isOpen && !d.loading
    ensures d.error == AuthContext.MissingFieldsMessage && d.closeRequests == old(d.closeRequests)
    ensures auth.user == old(auth.user)
  {
    var called, result := auth.SignUp(d.email, d.password, d.displayName, configured, response);
    d.OnSignUp(result);
  }
}
