/** The sign-up screen: the form the user fills in and what its "SignUp"
    button does. The button validates the form, in order, and either shows
    one error toast or hands a new user record to the view model's insert;
    the success toast and the move to the dashboard happen only in that
    insert's completion callback. */
module SignUp {
  import opened Wrappers
  import opened Text
  import opened Users
  import opened Effects

  /** The form state the screen remembers between edits. */
  datatype SignUpState = SignUpState(
    name: string,
    password: string,
    confirmPassword: string,
    isPasswordVisible: bool,
    isLoading: bool,
    errorMessage: Option<string>,
    isAuthenticated: bool)

  /** Why the button refused the form. */
  datatype SignUpError = MissingFields | PasswordMismatch
  {
    /** The toast text for the error. */
    function Message(): string
    {
      match this
      case MissingFields => FillAllFieldsMessage
      case PasswordMismatch => PasswordsDoNotMatchMessage
    }
  }

  const FillAllFieldsMessage: string := "Please fill all fields"
  const PasswordsDoNotMatchMessage: string := "Passwords do not match"
  const SignUpSuccessfulMessage: string := "SignUp Successful"

  /** What the insert's completion callback does: a toast, then the
      dashboard, removing the sign-up screen from the back stack. */
  const OnInsertComplete: seq<Effect> :=
    [ShowToast(SignUpSuccessfulMessage), Navigate(UserDashBoard, SignUpScreen, true)]

  /** The button's checks. The name is trimmed first; a blank name or a
      blank password is reported before a password that differs from its
      confirmation (compared exactly, untrimmed). Only a form that passes
      both yields the record to insert: id still unassigned, the trimmed
      name, the password as typed. */
  function ValidateSignUp(name: string, password: string, confirmPassword: string)
    : (r: Result<UserDataModel, SignUpError>)
    ensures r == Failure(MissingFields) <==> IsBlank(name) || IsBlank(password)
    ensures r == Failure(PasswordMismatch) <==>
              !IsBlank(name) && !IsBlank(password) && password != confirmPassword
    ensures r.Success? <==> !IsBlank(name) && !IsBlank(password) && password == confirmPassword
    ensures r.Success? ==>
              && r.value.id == UnassignedId && r.value.password == password
              && r.value.name == Trim(name)
              && !IsBlank(r.value.name) && Trim(r.value.name) == r.value.name
  {
    var trimmed := Trim(name);
    BlankAfterTrim(name);
    TrimIdempotent(name);
    if IsBlank(trimmed) || IsBlank(password) then
      Failure(MissingFields)
    else if password != confirmPassword then
      Failure(PasswordMismatch)
    else
      Success(UserDataModel(UnassignedId, trimmed, password))
  }

  /** The form's state holder. Each
      edit replaces the state with a copy that differs in one field. */
  class SignUpForm {
    var state: SignUpState

    constructor ()
      ensures state == SignUpState("", "", "", false, false, None, false)
    {
      state := SignUpState("", "", "", false, false, None, false);
    }

    method OnNameChange(value: string)
      modifies this
      ensures state == old(state).(name := value)
    {
      state := state.(name := value);
    }

    method OnPasswordChange(value: string)
      modifies this
      ensures state == old(state).(password := value)
    {
      state := state.(password := value);
    }

    method OnConfirmPasswordChange(value: string)
      modifies this
      ensures state == old(state).(confirmPassword := value)
    {
      state := state.(confirmPassword := value);
    }

    /** The "SignUp" button. A rejected form shows its error toast and
        nothing else: no insert and no navigation. An accepted form issues
        exactly one insert, of the validated record, and navigates only
        from that insert's completion callback. The form is left as it is. */
    method OnSignUpClick() returns (effects: seq<Effect>)
      ensures match ValidateSignUp(state.name, state.password, state.confirmPassword)
              case Failure(e) => effects == [ShowToast(e.Message())]
              case Success(user) => effects == [InsertUser(user, OnInsertComplete)]
      ensures !NavigatesNow(effects)
      ensures var outcome := ValidateSignUp(state.name, state.password, state.confirmPassword);
              outcome.Success? ==> Inserts(effects) == [outcome.value] && Navigations(effects) == [UserDashBoard]
      ensures var outcome := ValidateSignUp(state.name, state.password, state.confirmPassword);
              outcome.Failure? ==> Inserts(effects) == [] && Navigations(effects) == []
    {
      var name := Trim(state.name);
      var password := state.password;
      var confirmPassword := state.confirmPassword;
      BlankAfterTrim(state.name);

      if IsBlank(name) || IsBlank(password) {
        effects := [ShowToast(MissingFields.Message())];
        assert Navigations(effects[1..]) == [];
        return;
      }

      if password != confirmPassword {
        effects := [ShowToast(PasswordMismatch.Message())];
        assert Navigations(effects[1..]) == [];
        return;
      }

      var newUser := UserDataModel(UnassignedId, name, password);
      effects := [InsertUser(newUser, OnInsertComplete)];
      assert Navigations(OnInsertComplete[1..]) == [UserDashBoard] by {
        assert OnInsertComplete[1..][1..] == [];
      }
      assert Navigations(OnInsertComplete) == [UserDashBoard];
      assert Inserts(effects[1..]) == [] && Navigations(effects[1..]) == [];
    }
  }
}
