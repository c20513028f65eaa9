/**
 * The sign-up form (openlane/src/components/Signup.jsx): field setter,
 * validation with one error state per field, and the submit handler that
 * appends the new account to the stored list.
 */
module Signup {
  import opened Wrappers
  import opened Accounts
  import opened Util
  import opened Forms

  /** The error states the checks leave behind; the later e-mail write wins. */
  function ErrorsFor(c: Checks): Errors {
    Errors(
      name := if c.isNameValid then NoError else Message(NameTooShort),
      email :=
        if !Truthy(c.userExists) then Message(EmailExists)
        else if !c.isEmailValid then Message(InvalidEmail)
        else NoError,
      password := if c.isPasswordValid then NoError else Message(WeakPassword),
      phone := if c.isPhoneNumberValid then NoError else Message(SignupInvalidPhone),
      colour := !c.isColourValid)
  }

  /** The value `validateForm` returns: the conjunction of all six checks. */
  predicate AcceptsFor(c: Checks) {
    c.isEmailValid && Truthy(c.userExists) && c.isNameValid && c.isPasswordValid
    && c.isPhoneNumberValid && c.isColourValid
  }

  function SignupErrors(d: Draft, slot: Option<seq<Account>>): Errors {
    ErrorsFor(FormChecks(d, slot))
  }

  predicate SignupAccepts(d: Draft, slot: Option<seq<Account>>) {
    AcceptsFor(FormChecks(d, slot))
  }

  /** What `handleSubmit` ends in. */
  datatype SubmitOutcome =
    | Rejected                       // the form did not validate
    | Threw                          // the phone library gave `undefined` and `.format` threw
    | Registered(account: Account)   // the account was appended to the stored list

  class SignupForm {
    var isSubmitting: bool
    var fullName: string
    var email: string
    var password: string
    var phoneNumber: string
    var favoriteColor: string

    var nameError: FieldError
    var emailError: FieldError
    var passwordError: FieldError
    var phoneError: FieldError
    var colourError: bool

    /** The browser storage the form reads and writes. */
    const store: AccountStore

    /** The form values, as the validators see them. */
    function Current(): Draft
      reads this
    {
      Draft(fullName, email, password, Some(phoneNumber), favoriteColor)
    }

    function CurrentErrors(): Errors
      reads this
    {
      Errors(nameError, emailError, passwordError, phoneError, colourError)
    }

    constructor (store: AccountStore)
      ensures this.store == store && !isSubmitting
      ensures Current() == Draft("", "", "", Some(""), "") && CurrentErrors() == NoErrors
    {
      this.store := store;
      isSubmitting := false;
      fullName, email, password, phoneNumber, favoriteColor := "", "", "", "", "";
      nameError, emailError, passwordError, phoneError, colourError := NoError, NoError, NoError, NoError, false;
    }

    /** `setFormElement(e, id)`: writes one form value chosen by `id`; any other id is ignored. */
    method SetFormElement(e: string, id: string)
      modifies this
      ensures id == "fullName" ==> Current() == old(Current()).(fullName := e)
      ensures id == "email" ==> Current() == old(Current()).(email := e)
      ensures id == "password" ==> Current() == old(Current()).(password := e)
      ensures id == "number" ==> Current() == old(Current()).(phoneNumber := Some(e))
      ensures id == "colour" ==> Current() == old(Current()).(favoriteColor := e)
      ensures id !in {"fullName", "email", "password", "number", "colour"} ==> Current() == old(Current())
      ensures CurrentErrors() == old(CurrentErrors()) && isSubmitting == old(isSubmitting)
    {
      if id == "fullName" {
        fullName := e;
      } else if id == "email" {
        email := e;
      } else if id == "password" {
        password := e;
      } else if id == "number" {
        phoneNumber := e;
      } else if id == "colour" {
        favoriteColor := e;
      }
    }

    /** `resetErrors()`: every error state back to `false`. */
    method ResetErrors()
      modifies this
      ensures CurrentErrors() == NoErrors
      ensures Current() == old(Current()) && isSubmitting == old(isSubmitting)
    {
      emailError := NoError;
      colourError := false;
      nameError := NoError;
      passwordError := NoError;
      phoneError := NoError;
    }

    /**
     * The message-setting half of `validateForm()`: on freshly reset error
     * states, sets the message of every field whose check failed.
     */
    method SetErrors(c: Checks)
      requires CurrentErrors() == NoErrors
      modifies this
      ensures CurrentErrors() == ErrorsFor(c)
      ensures Current() == old(Current()) && isSubmitting == old(isSubmitting)
    {
      if !c.isEmailValid {
        emailError := Message(InvalidEmail);
      }
      if !Truthy(c.userExists) {
        emailError := Message(EmailExists);
      }
      if !c.isNameValid {
        nameError := Message(NameTooShort);
      }
      if !c.isPasswordValid {
        passwordError := Message(WeakPassword);
      }
      if !c.isPhoneNumberValid {
        phoneError := Message(SignupInvalidPhone);
      }
      if !c.isColourValid {
        colourError := true;
      }
    }

    /**
     * `validateForm()`: resets the error states, runs every check before
     * looking at any result, sets the message of each failing field and
     * returns whether all checks passed.
     */
    method ValidateForm() returns (valid: bool)
      modifies this
      ensures Current() == old(Current()) && isSubmitting == old(isSubmitting)
      ensures CurrentErrors() == SignupErrors(Current(), store.registeredAccounts)
      ensures valid == SignupAccepts(Current(), store.registeredAccounts)
      ensures valid <==> CurrentErrors() == NoErrors
    {
      ResetErrors();
      var userExists := CheckUserDoesNotExist(store.registeredAccounts, email);
      var isEmailValid := ValidateEmail(email);
      var isNameValid := ValidateName(fullName);
      var isPasswordValid := ValidatePassword(password);
      var isPhoneNumberValid := ValidatePhoneNumber(Some(phoneNumber));
      var isColourValid := ValidateColour(Some(favoriteColor));
      var checks := Checks(userExists, isEmailValid, isNameValid, isPasswordValid, isPhoneNumberValid, isColourValid);
      SetErrors(checks);
      valid := isEmailValid && Truthy(userExists) && isNameValid && isPasswordValid
        && isPhoneNumberValid && isColourValid;
      SignupAcceptsIffNoErrors(Current(), store.registeredAccounts);
    }

    /**
     * `handleSubmit`: validates; on success formats the phone number with the
     * phone library (`formatE164`, `None` when it cannot parse the number) and
     * appends the new account to the stored list.
     */
    method HandleSubmit(formatE164: string -> Option<string>) returns (outcome: SubmitOutcome)
      modifies this, store
      ensures Current() == old(Current())
      ensures CurrentErrors() == SignupErrors(Current(), old(store.registeredAccounts))
      ensures !SignupAccepts(Current(), old(store.registeredAccounts)) ==>
        outcome == Rejected && !isSubmitting && store.registeredAccounts == old(store.registeredAccounts)
      ensures SignupAccepts(Current(), old(store.registeredAccounts)) && formatE164(phoneNumber) == None ==>
        outcome == Threw && isSubmitting && store.registeredAccounts == old(store.registeredAccounts)
      ensures SignupAccepts(Current(), old(store.registeredAccounts)) && formatE164(phoneNumber) != None ==>
        && outcome == Registered(Account(fullName, email, password, formatE164(phoneNumber), favoriteColor))
        && !isSubmitting
        && store.registeredAccounts == Some(Append(old(store.registeredAccounts), outcome.account))
      ensures outcome.Registered? ==>
        && old(store.registeredAccounts) != None
        && CheckUserDoesNotExist(store.registeredAccounts, email) == Some(false)
        && (UniqueEmails(old(store.registeredAccounts).value) ==> UniqueEmails(store.registeredAccounts.value))
    {
      isSubmitting := true;
      var validForm := ValidateForm();
      if !validForm {
        isSubmitting := false;
        return Rejected;
      }
      var parsedNumber := formatE164(phoneNumber);
      if parsedNumber == None {
        return Threw;
      }
      var newAccount := Account(fullName, email, password, parsedNumber, favoriteColor);
      var registeredAccounts := store.registeredAccounts;
      store.registeredAccounts := Some(Append(registeredAccounts, newAccount));
      isSubmitting := false;
      outcome := Registered(newAccount);
      AppendTakesEmail(registeredAccounts, newAccount);
      if UniqueEmails(registeredAccounts.value) {
        AppendKeepsUnique(registeredAccounts.value, newAccount);
      }
    }
  }

  // ---------------------------------------------------------------------------
  // Properties of sign-up validation

  /** The form is accepted exactly when it shows no error at all. */
  lemma SignupAcceptsIffNoErrors(d: Draft, slot: Option<seq<Account>>)
    ensures SignupAccepts(d, slot) <==> SignupErrors(d, slot) == NoErrors
  {
  }

  /**
   * Every check runs: each field shows an error exactly when its own check
   * failed, whatever the other fields hold.
   */
  lemma SignupReportsEachField(d: Draft, slot: Option<seq<Account>>)
    ensures var e := SignupErrors(d, slot);
      && (e.name != NoError <==> !ValidateName(d.fullName))
      && (e.email != NoError <==> !ValidateEmail(d.email) || !Truthy(CheckUserDoesNotExist(slot, d.email)))
      && (e.password != NoError <==> !ValidatePassword(d.password))
      && (e.phone != NoError <==> !ValidatePhoneNumber(d.phoneNumber))
      && (e.colour <==> !ValidateColour(Some(d.favoriteColor)))
  {
  }

  /** When the e-mail is both malformed and taken, the "already exists" message wins. */
  lemma SignupExistsMessageWins(d: Draft, slot: Option<seq<Account>>)
    requires !ValidateEmail(d.email) && !Truthy(CheckUserDoesNotExist(slot, d.email))
    ensures SignupErrors(d, slot).email == Message(EmailExists)
  {
  }

  /** With the slot absent every sign-up is rejected as "already exists", the very first one included. */
  lemma SignupRejectedWithoutStore(d: Draft)
    ensures !SignupAccepts(d, None)
    ensures SignupErrors(d, None).email == Message(EmailExists)
  {
  }

  /** An e-mail that a stored account already has is rejected with the "already exists" message. */
  lemma SignupRejectsDuplicate(d: Draft, accounts: seq<Account>, i: nat)
    requires i < |accounts| && accounts[i].email == d.email
    ensures !SignupAccepts(d, Some(accounts))
    ensures SignupErrors(d, Some(accounts)).email == Message(EmailExists)
  {
    assert accounts[i] in accounts;
  }

  /** A draft wrong in every field gets all five errors from one validation. */
  lemma SignupReportsAllFiveErrors()
    ensures SignupErrors(Draft("Jo", "bad-email", "short", Some("123"), ""), Some([])) ==
      Errors(
        Message(NameTooShort),
        Message(InvalidEmail),
        Message(WeakPassword),
        Message(SignupInvalidPhone),
        true)
  {
    var email := "bad-email";
    assert forall k :: 0 <= k < |email| ==> email[k] != '@';
    ValidatePhoneNumberRejectsShort();
  }
}
