/** The login screen: a name and a password, and a "Login" button that
    succeeds, with a toast, whenever both fields are non-blank. Nothing is
    trimmed and no stored user is consulted; a refused login does nothing
    at all. */
module Login {
  import opened Wrappers
  import opened Text
  import opened Effects
  import SignUp

  /** The form state the screen remembers between edits. */
  datatype LoginState = LoginState(
    name: string,
    password: string,
    isPasswordVisible: bool,
    isLoading: bool,
    errorMessage: Option<string>,
    isAuthenticated: bool)

  const LoginSuccessfulMessage: string := "Login Successful"

  /** The button's only check: both fields non-blank, as typed. */
  predicate LoginAccepted(name: string, password: string)
  {
    !IsBlank(name) && !IsBlank(password)
  }

  /** Any name and password that sign-up accepts also pass the login check,
      since sign-up's blank test on the trimmed name agrees with login's
      test on the raw one. */
  lemma SignUpAcceptedCanLogIn(name: string, password: string, confirmPassword: string)
    requires SignUp.ValidateSignUp(name, password, confirmPassword).Success?
    ensures LoginAccepted(name, password)
  {
  }

  /** The form's state holder. */
  class LoginForm {
    var state: LoginState

    constructor ()
      ensures state == LoginState("", "", false, false, None, false)
    {
      state := LoginState("", "", false, false, None, false);
    }

    method OnNameChange(value: string)
      modifies this
      ensures state == old(state).(name := value)
    {
      state := state.(name := value);
    }

    method OnPasswordChange(value: string)
      modifies this
      ensures state == old(state).(password := value)
    {
      state := state.(password := value);
    }

    /** The "Login" button. With both fields non-blank it shows the success
        toast and nothing more; otherwise it does nothing. It never
        navigates, never touches the store and leaves the form as it is. */
    method OnLoginClick() returns (effects: seq<Effect>)
      ensures effects != [] <==> !IsBlank(state.name) && !IsBlank(state.password)
      ensures effects != [] ==> effects == [ShowToast(LoginSuccessfulMessage)]
      ensures !NavigatesNow(effects) && Navigations(effects) == [] && Inserts(effects) == []
    {
      if LoginAccepted(state.name, state.password) {
        effects := [ShowToast(LoginSuccessfulMessage)];
        assert Navigations(effects[1..]) == [] && Inserts(effects[1..]) == [];
      } else {
        effects := [];
      }
    }
  }
}
