/**
 * The profile editor (openlane/src/components/EditProfile.jsx): validation
 * that exempts the user's own e-mail from the "already exists" message, and
 * the save handler that replaces the edited account in the stored list.
 */
module EditProfile {
  import opened Wrappers
  import opened Accounts
  import opened Util
  import opened Forms

  /**
   * The error states the checks leave behind. The "already exists" message is
   * only considered when the e-mail differs from the one being edited.
   */
  function EditErrorsFor(c: Checks, emailChanged: bool): Errors {
    Errors(
      name := if c.isNameValid then NoError else Message(NameTooShort),
      email :=
        if emailChanged && !Truthy(c.userExists) then Message(EmailExists)
        else if !c.isEmailValid then Message(InvalidEmail)
        else NoError,
      password := if c.isPasswordValid then NoError else Message(WeakPassword),
      phone := if c.isPhoneNumberValid then NoError else Message(EditInvalidPhone),
      colour := !c.isColourValid)
  }

  /** The value this `validateForm` returns: a well-formed or an unused e-mail, and the other four checks. */
  predicate EditAcceptsFor(c: Checks) {
    (c.isEmailValid || Truthy(c.userExists)) && c.isNameValid && c.isPasswordValid
    && c.isPhoneNumberValid && c.isColourValid
  }

  function EditErrors(d: Draft, user: Account, slot: Option<seq<Account>>): Errors {
    EditErrorsFor(FormChecks(d, slot), d.email != user.email)
  }

  predicate EditAccepts(d: Draft, slot: Option<seq<Account>>) {
    EditAcceptsFor(FormChecks(d, slot))
  }

  /** `updatedUser`: the original account with the five form values written over it. */
  function UpdatedUser(user: Account, d: Draft): (r: Account)
    ensures r.name == d.fullName && r.email == d.email && r.password == d.password
    ensures r.phoneNumber == d.phoneNumber && r.favoriteColor == d.favoriteColor
  {
    user.(name := d.fullName, email := d.email, password := d.password,
          phoneNumber := d.phoneNumber, favoriteColor := d.favoriteColor)
  }

  /** `user.phoneNumber || null`: an empty or missing number starts out as `null`. */
  function InitialPhone(phoneNumber: Option<string>): (r: Option<string>)
    ensures r == None <==> phoneNumber == None || phoneNumber == Some("")
    ensures r != None ==> r == phoneNumber
  {
    match phoneNumber
    case None => None
    case Some(p) => if p == "" then None else Some(p)
  }

  class EditProfileForm {
    /** The account being edited, as the profile page passed it on. */
    const user: Account
    const store: AccountStore

    var isSubmitting: bool
    var fullName: string
    var email: string
    var password: string
    var phoneNumber: Option<string>
    var favoriteColor: string

    var nameError: FieldError
    var emailError: FieldError
    var passwordError: FieldError
    var phoneError: FieldError
    var colourError: bool

    function Current(): Draft
      reads this
    {
      Draft(fullName, email, password, phoneNumber, favoriteColor)
    }

    function CurrentErrors(): Errors
      reads this
    {
      Errors(nameError, emailError, passwordError, phoneError, colourError)
    }

    /** The form opens on the user's own values and shows no error. */
    constructor (user: Account, store: AccountStore)
      ensures this.user == user && this.store == store && !isSubmitting
      ensures Current() == Draft(user.name, user.email, user.password, InitialPhone(user.phoneNumber), user.favoriteColor)
      ensures CurrentErrors() == NoErrors
    {
      this.user := user;
      this.store := store;
      isSubmitting := false;
      fullName := user.name;
      email := user.email;
      password := user.password;
      phoneNumber := InitialPhone(user.phoneNumber);
      favoriteColor := user.favoriteColor;
      nameError, emailError, passwordError, phoneError, colourError := NoError, NoError, NoError, NoError, false;
    }

    /** `resetErrors()`: every error state back to `false`. */
    method ResetErrors()
      modifies this
      ensures CurrentErrors() == NoErrors
      ensures Current() == old(Current()) && isSubmitting == old(isSubmitting)
    {
      emailError := NoError;
      colourError := false;
      nameError := NoError;
      passwordError := NoError;
      phoneError := NoError;
    }

    /**
     * The message-setting half of `validateForm()`: on freshly reset error
     * states, sets the message of every field whose check failed; the
     * "already exists" message only for a changed e-mail.
     */
    method SetErrors(c: Checks)
      requires CurrentErrors() == NoErrors
      modifies this
      ensures CurrentErrors() == EditErrorsFor(c, email != user.email)
      ensures Current() == old(Current()) && isSubmitting == old(isSubmitting)
    {
      if !c.isEmailValid {
        emailError := Message(InvalidEmail);
      }
      if email != user.email {
        if !Truthy(c.userExists) {
          emailError := Message(EmailExists);
        }
      }
      if !c.isNameValid {
        nameError := Message(NameTooShort);
      }
      if !c.isPasswordValid {
        passwordError := Message(WeakPassword);
      }
      if !c.isPhoneNumberValid {
        phoneError := Message(EditInvalidPhone);
      }
      if !c.isColourValid {
        colourError := true;
      }
    }

    /**
     * `validateForm()`: resets the error states, runs every check, sets the
     * messages and returns `(isEmailValid || userExists) && …`.
     */
    method ValidateForm() returns (valid: bool)
      modifies this
      ensures Current() == old(Current()) && isSubmitting == old(isSubmitting)
      ensures CurrentErrors() == EditErrors(Current(), user, store.registeredAccounts)
      ensures valid == EditAccepts(Current(), store.registeredAccounts)
    {
      ResetErrors();
      var userExists := CheckUserDoesNotExist(store.registeredAccounts, email);
      var isEmailValid := ValidateEmail(email);
      var isNameValid := ValidateName(fullName);
      var isPasswordValid := ValidatePassword(password);
      var isPhoneNumberValid := ValidatePhoneNumber(phoneNumber);
      var isColourValid := ValidateColour(Some(favoriteColor));
      var checks := Checks(userExists, isEmailValid, isNameValid, isPasswordValid, isPhoneNumberValid, isColourValid);
      SetErrors(checks);
      valid := (isEmailValid || Truthy(userExists)) && isNameValid && isPasswordValid
        && isPhoneNumberValid && isColourValid;
    }

    /**
     * `handleSave`: validates; on success replaces every stored account that
     * has the original e-mail by the updated user and writes the list back
     * (an absent slot is written back as the empty list).
     */
    method HandleSave() returns (saved: bool)
      modifies this, store
      ensures Current() == old(Current()) && !isSubmitting
      ensures CurrentErrors() == EditErrors(Current(), user, old(store.registeredAccounts))
      ensures saved == EditAccepts(Current(), old(store.registeredAccounts))
      ensures !saved ==> store.registeredAccounts == old(store.registeredAccounts)
      ensures saved ==> (store.registeredAccounts ==
        Some(ReplaceByEmail(old(store.registeredAccounts).GetOr([]), user.email, UpdatedUser(user, Current()))))
      ensures saved ==> |store.registeredAccounts.value| == |old(store.registeredAccounts).GetOr([])|
    {
      isSubmitting := true;
      var validForm := ValidateForm();
      if !validForm {
        isSubmitting := false;
        return false;
      }
      var updatedUser := UpdatedUser(user, Current());
      var registeredAccounts := store.registeredAccounts.GetOr([]);
      registeredAccounts := ReplaceByEmail(registeredAccounts, user.email, updatedUser);
      store.registeredAccounts := Some(registeredAccounts);
      isSubmitting := false;
      saved := true;
    }
  }

  // ---------------------------------------------------------------------------
  // Properties of profile-edit validation

  /** Keeping one's own e-mail never produces the "already exists" message. */
  lemma EditOwnEmailNeverExists(d: Draft, user: Account, slot: Option<seq<Account>>)
    requires d.email == user.email
    ensures EditErrors(d, user, slot).email != Message(EmailExists)
  {
  }

  /** A changed e-mail that another account holds gets the "already exists" message. */
  lemma EditChangedTakenEmailReported(d: Draft, user: Account, accounts: seq<Account>, i: nat)
    requires d.email != user.email && i < |accounts| && accounts[i].email == d.email
    ensures EditErrors(d, user, Some(accounts)).email == Message(EmailExists)
  {
    assert accounts[i] in accounts;
  }

  /** A well-formed e-mail passes whether or not another account already holds it. */
  lemma EditAcceptsTakenWellFormedEmail(d: Draft, slot: Option<seq<Account>>)
    requires ValidateEmail(d.email)
    requires ValidateName(d.fullName) && ValidatePassword(d.password)
    requires ValidatePhoneNumber(d.phoneNumber) && ValidateColour(Some(d.favoriteColor))
    ensures EditAccepts(d, slot)
  {
  }

  /**
   * A malformed e-mail that no account holds also passes: the form is saved
   * while it shows the "valid email" message.
   */
  lemma EditAcceptsMalformedUnusedEmail(d: Draft, user: Account, accounts: seq<Account>)
    requires !ValidateEmail(d.email) && !EmailTaken(accounts, d.email)
    requires ValidateName(d.fullName) && ValidatePassword(d.password)
    requires ValidatePhoneNumber(d.phoneNumber) && ValidateColour(Some(d.favoriteColor))
    ensures EditAccepts(d, Some(accounts))
    ensures EditErrors(d, user, Some(accounts)).email == Message(InvalidEmail)
  {
  }

  /** With the slot absent, only a well-formed e-mail can pass. */
  lemma EditWithoutStoreNeedsWellFormedEmail(d: Draft)
    requires !ValidateEmail(d.email)
    ensures !EditAccepts(d, None)
  {
  }

  /**
   * Saving an edit whose e-mail another account already holds leaves two
   * accounts with that e-mail, although the edit passed validation.
   */
  lemma EditSaveCanDuplicateEmail(d: Draft, user: Account, accounts: seq<Account>, i: nat, j: nat)
    requires i < |accounts| && j < |accounts|
    requires accounts[i].email == user.email && accounts[j].email == d.email && d.email != user.email
    requires ValidateEmail(d.email)
    requires ValidateName(d.fullName) && ValidatePassword(d.password)
    requires ValidatePhoneNumber(d.phoneNumber) && ValidateColour(Some(d.favoriteColor))
    ensures EditAccepts(d, Some(accounts))
    ensures !UniqueEmails(ReplaceByEmail(accounts, user.email, UpdatedUser(user, d)))
  {
    ReplaceCanDuplicate(accounts, user.email, UpdatedUser(user, d), i, j);
  }

  /** An edit that keeps the e-mail, or moves to a free one, keeps stored e-mails unique. */
  lemma EditSaveKeepsUnique(d: Draft, user: Account, accounts: seq<Account>)
    requires UniqueEmails(accounts)
    requires d.email == user.email || !EmailTaken(accounts, d.email)
    ensures UniqueEmails(ReplaceByEmail(accounts, user.email, UpdatedUser(user, d)))
  {
    ReplaceKeepsUnique(accounts, user.email, UpdatedUser(user, d));
  }
}
