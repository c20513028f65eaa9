/** What the sign-up and edit-profile forms have in common: their values and error states. */
module Forms {
  import opened Wrappers
  import opened Accounts
  import opened Util

  /** The five values of an account form; `None` is a phone number left `null`. */
  datatype Draft = Draft(
    fullName: string,
    email: string,
    password: string,
    phoneNumber: Option<string>,
    favoriteColor: string)

  /** The messages the forms show under a field. */
  datatype ErrorMessage =
    | InvalidEmail
    | EmailExists
    | NameTooShort
    | WeakPassword
    | SignupInvalidPhone
    | EditInvalidPhone

  /** The text of each message, as the forms display it. */
  function Text(m: ErrorMessage): string {
    match m
    case InvalidEmail => "Please enter a valid email that follows the format test@example.com"
    case EmailExists => "This user already exists please enter another email"
    case NameTooShort => "Name must be longer than 3 characters"
    case WeakPassword =>
      "Password must be between 10-32 characters, with 2 uppercase letters, 2 numbers and 1 special character"
    case SignupInvalidPhone =>
      PhoneHint + SignupAreaCodeHint
    case EditInvalidPhone =>
      PhoneHint + EditAreaCodeHint
  }

  /** The opening both forms' phone messages share, and how each ends. */
  const PhoneHint := "Please enter a valid phone number such as +1 561 512 8712, "
  const SignupAreaCodeHint := "if you are adding an area code please begin with a + followed by the area code"
  const EditAreaCodeHint := "please add an area code. Begin with a + followed by the area code"

  /** A text field's error state: `false`, or the message shown under the field. */
  datatype FieldError = NoError | Message(message: ErrorMessage)

  /** The five error states; the colour field's is a plain flag. */
  datatype Errors = Errors(
    name: FieldError,
    email: FieldError,
    password: FieldError,
    phone: FieldError,
    colour: bool)

  /** The six results a form's `validateForm` computes before it sets any error state. */
  datatype Checks = Checks(
    userExists: Option<bool>,
    isEmailValid: bool,
    isNameValid: bool,
    isPasswordValid: bool,
    isPhoneNumberValid: bool,
    isColourValid: bool)

  /**
   * The six results both forms' `validateForm` compute, in the same order,
   * from the form values and the storage slot.
   */
  function FormChecks(d: Draft, slot: Option<seq<Account>>): Checks {
    Checks(
      CheckUserDoesNotExist(slot, d.email),
      ValidateEmail(d.email),
      ValidateName(d.fullName),
      ValidatePassword(d.password),
      ValidatePhoneNumber(d.phoneNumber),
      ValidateColour(Some(d.favoriteColor)))
  }

  /** The two forms show different words under an invalid phone number. */
  lemma PhoneMessagesDiffer()
    ensures Text(SignupInvalidPhone) != Text(EditInvalidPhone)
  {
    assert SignupAreaCodeHint != EditAreaCodeHint;
    assert Text(SignupInvalidPhone)[|PhoneHint|..] == SignupAreaCodeHint;
    assert Text(EditInvalidPhone)[|PhoneHint|..] == EditAreaCodeHint;
  }

  /** What `resetErrors` leaves: every state `false`. */
  const NoErrors := Errors(NoError, NoError, NoError, NoError, false)
}
