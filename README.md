# openlane account forms, modelled in Dafny

openlane is a client-side demo of account sign-up, profile view, profile edit
and delete. All accounts live in one browser-storage slot,
`registeredAccounts`, which holds a JSON list of account records or is absent.
This project models the part of it that decides things:

- the field validators of `openlane/src/util.js` (name, e-mail, password,
  phone number, colour) and the existence check `checkUserDoesNotExist`;
- the three writes to the slot: append on sign-up, replace-by-e-mail on
  profile edit, filter-out-by-e-mail on delete (module `Accounts`);
- the two `validateForm` functions, which reset five error states, run every
  check and then set one message per failing field, and the `handleSubmit`,
  `handleSave` and `handleDelete` handlers that write the slot (modules
  `Signup`, `EditProfile`, `Profile`).

## Layout

| file | module | models |
|---|---|---|
| `wrappers.dfy` | `Wrappers` | `Option`, where `None` is JavaScript's `null`/`undefined` |
| `accounts.dfy` | `Accounts` | the account record, the storage slot (class `AccountStore`) and the three list transforms with their lemmas |
| `util.dfy` | `Util` | the validators; each regular expression is a predicate on strings |
| `forms.dfy` | `Forms` | form values (`Draft`), error states and their messages, the six check results (`Checks`) |
| `signup.dfy` | `Signup` | class `SignupForm`: the sign-up component's state and handlers |
| `edit_profile.dfy` | `EditProfile` | class `EditProfileForm`: the profile editor's state and handlers |
| `profile.dfy` | `Profile` | class `ProfilePage`: the delete handler |

How the source's pieces appear:

- The regular expressions are written out. `ValidateEmail` is
  `/^[^\s@]+@[^\s@]+\.[^\s@]+$/` as "there are split points `i`, `j`" over
  `[^\s@]` runs. `PhoneRegexTest` is `/^\+?[1-9]\d{0,2}\d{10}$/`.
  `MatchAll(s, k)` is `s.match(/[k]/g) || []`. It also stands for
  `s.replace(/[^k]/g, '')`, which leaves the same string.
- JavaScript's `\s` is `Util.IsSpace`: the ECMAScript WhiteSpace and
  LineTerminator code points.
- `checkUserDoesNotExist` returns `Option<bool>`. `None` is the `undefined`
  it returns when the slot is absent. The callers test it with `Truthy`,
  which holds only for `Some(true)`.
- Each React component is a class. Its `useState` values are fields, the
  storage slot is a shared `AccountStore` object, and the handlers are
  methods. Each method's `ensures` gives the new state in terms of pure
  specification functions (`SignupErrors`, `SignupAccepts`, `EditErrors`,
  `EditAccepts`, `Append`, `ReplaceByEmail`, `RemoveByEmail`). The lemmas
  about those functions carry the properties.
- The six `if` blocks of each `validateForm` are in a method of their own
  (`SetErrors`). `ValidateForm` calls it after the reset and the six checks,
  just as the source's statements run in that order.
- The phone library's `parsePhoneNumberFromString(n).format("E.164")` is
  the function parameter `formatE164`. `None` stands for the `undefined`
  that makes `.format` throw. The library returns `undefined` for an empty
  string. So a sign-up that leaves the optional phone empty passes
  validation and then throws (`Threw`), with the slot untouched and
  `isSubmitting` still true.
- The example numbers of the phone messages, `"+15615128712"` and
  `"+1 561 512 8712"`, follow from `ValidatePhoneNumberAcceptsE164` and, for
  the spaced one, three uses of `ValidatePhoneNumberIgnoresSeparator`.

Behaviours of the code worth knowing:

- `checkUserDoesNotExist` does not treat a missing slot as "no accounts". It
  returns `undefined`, so sign-up rejects every e-mail with "This user
  already exists" until the slot exists. A delete writes the slot (as `[]`
  if it was absent), and from then on sign-up works.
- The colour check only rejects an absent or empty value. It does not trim,
  so `" "` is accepted.
- Profile edit accepts `(isEmailValid || userExists) && …`. The uniqueness
  rule is therefore not just skipped for an unchanged e-mail. A taken but
  well-formed e-mail is accepted, and so is a malformed e-mail that no
  account holds. Such an edit can leave two accounts with one e-mail
  (`EditSaveCanDuplicateEmail`).
- The phone check is the regular expression on the digits-and-`+` residue,
  not a country-aware parse. It accepts an absent or empty number but
  rejects a non-empty one that is only separators (`" "`).
- The append on sign-up checks nothing. Duplicates are kept out only by
  `validateForm` (`HandleSubmit` keeps `UniqueEmails`).

## Model

| member | source | states |
|---|---|---|
| `Accounts.EmailTaken` | openlane/src/util.js:23 | `accounts.some(a => a.email === email)`: true exactly when some position holds an account with exactly this e-mail |
| `Accounts.Append` | openlane/src/components/Signup.jsx:154-166 | the result is the old list (empty for an absent slot), unchanged and in order, followed by the new account; one longer |
| `Accounts.AppendTakesEmail` | openlane/src/components/Signup.jsx:154-166 | after the append, the new account's e-mail is taken |
| `Accounts.AppendKeepsUnique` | openlane/src/components/Signup.jsx:154-166 | appending an account whose e-mail was free keeps all e-mails unique |
| `Accounts.ReplaceByEmail` | openlane/src/components/EditProfile.jsx:117-119 | same length; every position whose e-mail was the original one holds the updated user, every other position keeps its account |
| `Accounts.ReplaceWithoutMatchIsIdentity` | openlane/src/components/EditProfile.jsx:114-124 | when no account has the original e-mail, the list is written back unchanged |
| `Accounts.ReplaceTakesNewEmail` | openlane/src/components/EditProfile.jsx:117-119 | when some account matched, the updated user's e-mail is taken afterwards |
| `Accounts.ReplaceCanDuplicate` | openlane/src/components/EditProfile.jsx:117-119 | moving one account to another account's e-mail leaves e-mails not unique |
| `Accounts.ReplaceKeepsUnique` | openlane/src/components/EditProfile.jsx:117-119 | with unique e-mails, a replacement that keeps the e-mail or takes a free one keeps them unique |
| `Accounts.RemoveByEmail` | openlane/src/components/Profile.jsx:46-48 | never longer; every survivor was in the list and has another e-mail; every account with another e-mail survives |
| `Accounts.RemoveFreesEmail` | openlane/src/components/Profile.jsx:46-48 | afterwards no account has the deleted e-mail |
| `Accounts.RemoveIsSubsequence` | openlane/src/components/Profile.jsx:46-48 | the survivors keep their original relative order |
| `Accounts.RemoveAppend` | openlane/src/components/Profile.jsx:46-48 | filtering a concatenation filters each part in place |
| `Accounts.RemoveKeepsMultiplicity` | openlane/src/components/Profile.jsx:46-48 | an account with another e-mail survives as often as it occurred |
| `Accounts.RemoveIdempotent` | openlane/src/components/Profile.jsx:44-49 | deleting the same e-mail twice gives the list deleting it once gives |
| `Accounts.RemoveShrinksIffTaken` | openlane/src/components/Profile.jsx:46-48 | the list gets shorter exactly when some account had the e-mail |
| `Accounts.RemoveKeepsUnique` | openlane/src/components/Profile.jsx:46-48 | deleting keeps unique e-mails unique |
| `Util.MatchAll` | openlane/src/util.js:39-41 | the matches of a class are no more than the string's characters and all lie in the class |
| `Util.MatchAllMultiset` | openlane/src/util.js:39-41 | the matches hold every occurrence of each character in the class and no other character |
| `Util.MatchAllAppend` | openlane/src/util.js:54 | matching (and so the `replace` residue) of a concatenation is the concatenation of the matches |
| `Util.MatchCountPermutation` | openlane/src/util.js:39-41 | a match count depends only on the multiset of characters |
| `Util.MatchCountsPartition` | openlane/src/util.js:39-41 | upper-case, lower-case, digit and other counts add up to the length |
| `Util.IsSpace` | openlane/src/util.js:2 | the `\s` of the e-mail pattern: the ECMAScript white-space and line-terminator code points |
| `Util.ValidateEmail` | openlane/src/util.js:1-18 | `/^[^\s@]+@[^\s@]+\.[^\s@]+$/.test(email)`: split points for an `@` and a later `.` such that the three runs around them are non-empty and hold neither white space nor `@` |
| `Util.ValidateEmailShape` | openlane/src/util.js:1-18 | the e-mail pattern holds exactly when there is no white space, exactly one `@` at an index of at least 1, and a `.` at an index from two past the `@` to the last but one |
| `Util.Truthy` | openlane/src/components/Signup.jsx:108 | how the forms test the existence check (also at Signup.jsx:129 and EditProfile.jsx:67 and :90): only `true` counts, `false` and `undefined` do not |
| `Util.CheckUserDoesNotExist` | openlane/src/util.js:19-30 | `undefined` (`None`) exactly when the slot is absent; with a slot, true exactly when no account has exactly this e-mail |
| `Util.ValidateName` | openlane/src/util.js:32-35 | a name is valid when it has at least three characters |
| `Util.ValidateNameBoundary` | openlane/src/util.js:32-35 | a three-character name passes and a two-character one fails |
| `Util.ValidatePassword` | openlane/src/util.js:37-45 | 10 to 32 characters, at least two upper-case letters, at least two digits and at least one character that is neither a letter nor a digit |
| `Util.ValidatePasswordIgnoresOrder` | openlane/src/util.js:37-45 | rearranging a password's characters never changes the verdict |
| `Util.ValidatePasswordBounds` | openlane/src/util.js:37-45 | a valid password has at most 27 lower-case letters and at most 29 digits |
| `Util.ValidatePhoneNumber` | openlane/src/util.js:47-51 | an absent or empty number is accepted |
| `Util.PhoneRegexTest` | openlane/src/util.js:52 | `/^\+?[1-9]\d{0,2}\d{10}$/.test(s)`: an optional `+`, a digit from 1 to 9, then 10 to 12 digits |
| `Util.ValidatePhoneNumberShape` | openlane/src/util.js:52-54 | a non-empty number is accepted exactly when its digits-and-`+` residue is an optional `+` and then 11 to 13 digits, the first not `0` |
| `Util.ValidatePhoneNumberIgnoresSeparator` | openlane/src/util.js:54 | inserting a character that is neither a digit nor `+` into a non-empty number does not change the verdict |
| `Util.ValidatePhoneNumberSeparatorsOnly` | openlane/src/util.js:49-54 | a non-empty number with no digit and no `+` is rejected |
| `Util.ValidatePhoneNumberAcceptsE164` | openlane/src/util.js:52-54 | a `+`, a digit from 1 to 9 and ten more digits (the E.164 form, such as `+15615128712`) are accepted |
| `Util.ValidatePhoneNumberRejectsShort` | openlane/src/util.js:52-54 | `"123"` is rejected |
| `Util.ValidatePhoneNumberRejectsText` | openlane/src/util.js:52-54 | `"not-a-number"` is rejected |
| `Util.ValidateColour` | openlane/src/util.js:57-64 | false exactly for an absent or empty colour, true for every other string |
| `Forms.Text` | openlane/src/components/Signup.jsx:103-126 | the exact words of each message the forms show (the edit form's at EditProfile.jsx:61-85) |
| `Forms.PhoneMessagesDiffer` | openlane/src/components/EditProfile.jsx:80-85 | the edit form's phone message differs from the sign-up form's (Signup.jsx:119-123) |
| `Forms.FormChecks` | openlane/src/components/Signup.jsx:96-102 | the six checks both forms run on the current values and the slot (the edit form's at EditProfile.jsx:54-59) |
| `Signup.ErrorsFor` | openlane/src/components/Signup.jsx:103-126 | the error states left by the six `if`s: a field's message exactly when its check failed, "already exists" written after, and so over, "valid email" |
| `Signup.AcceptsFor` | openlane/src/components/Signup.jsx:127-134 | the conjunction of the six checks, the existence check counting only when `true` |
| `Signup.SignupErrors` | openlane/src/components/Signup.jsx:95-126 | the error states validation leaves for given form values and slot |
| `Signup.SignupAccepts` | openlane/src/components/Signup.jsx:95-134 | the verdict validation returns for given form values and slot |
| `Signup.SignupForm.constructor` | openlane/src/components/Signup.jsx:50-62 | empty form values, every error state `false`, not submitting |
| `Signup.SignupForm.SetFormElement` | openlane/src/components/Signup.jsx:64-85 | writes the value to the one field its id names; an unknown id changes nothing; error states untouched |
| `Signup.SignupForm.ResetErrors` | openlane/src/components/Signup.jsx:87-93 | all five error states `false`, form values untouched |
| `Signup.SignupForm.SetErrors` | openlane/src/components/Signup.jsx:103-126 | from reset error states, sets exactly the messages the checks call for, "already exists" over "valid email" |
| `Signup.SignupForm.ValidateForm` | openlane/src/components/Signup.jsx:95-135 | error states equal `SignupErrors` of the form and slot, the result equals `SignupAccepts`, and the result is true exactly when no error state is set |
| `Signup.SignupForm.HandleSubmit` | openlane/src/components/Signup.jsx:137-171 | rejected form: slot unchanged, not submitting; accepted but the phone library fails: throws, slot unchanged, still submitting; otherwise the new account is appended, its e-mail is taken, the slot was present, and unique e-mails stay unique |
| `Signup.SignupAcceptsIffNoErrors` | openlane/src/components/Signup.jsx:95-135 | the sign-up form is accepted exactly when it shows no error |
| `Signup.SignupReportsEachField` | openlane/src/components/Signup.jsx:96-126 | each field shows an error exactly when its own check failed, whatever the other fields hold |
| `Signup.SignupExistsMessageWins` | openlane/src/components/Signup.jsx:103-110 | a malformed and taken e-mail shows the "already exists" message |
| `Signup.SignupRejectedWithoutStore` | openlane/src/components/Signup.jsx:97-129 | with the slot absent every sign-up is rejected with the "already exists" message |
| `Signup.SignupRejectsDuplicate` | openlane/src/components/Signup.jsx:108-110 | an e-mail a stored account holds is rejected with the "already exists" message |
| `Signup.SignupReportsAllFiveErrors` | openlane/src/components/Signup.jsx:103-126 | `Jo` / `bad-email` / `short` / `123` / empty colour gets all five errors in one validation |
| `EditProfile.EditErrorsFor` | openlane/src/components/EditProfile.jsx:61-88 | as on sign-up, except that "already exists" is only written when the e-mail differs from the user's, and the phone message is the edit form's |
| `EditProfile.EditAcceptsFor` | openlane/src/components/EditProfile.jsx:89-95 | a well-formed or an unused e-mail, and the other four checks |
| `EditProfile.EditErrors` | openlane/src/components/EditProfile.jsx:52-88 | the error states validation leaves for given form values, edited user and slot |
| `EditProfile.EditAccepts` | openlane/src/components/EditProfile.jsx:52-95 | the verdict validation returns for given form values and slot |
| `EditProfile.UpdatedUser` | openlane/src/components/EditProfile.jsx:106-113 | the saved account carries the five form values |
| `EditProfile.InitialPhone` | openlane/src/components/EditProfile.jsx:35 | `user.phoneNumber \|\| null`: null exactly for a missing or empty number, otherwise the number |
| `EditProfile.EditProfileForm.constructor` | openlane/src/components/EditProfile.jsx:31-42 | the form opens on the user's values with no error shown |
| `EditProfile.EditProfileForm.ResetErrors` | openlane/src/components/EditProfile.jsx:44-50 | all five error states `false`, form values untouched |
| `EditProfile.EditProfileForm.SetErrors` | openlane/src/components/EditProfile.jsx:61-88 | from reset error states, sets the messages the checks call for; "already exists" only for a changed e-mail |
| `EditProfile.EditProfileForm.ValidateForm` | openlane/src/components/EditProfile.jsx:52-96 | error states equal `EditErrors`, the result equals `EditAccepts` (a well-formed or unused e-mail and the other four checks) |
| `EditProfile.EditProfileForm.HandleSave` | openlane/src/components/EditProfile.jsx:98-128 | rejected: slot unchanged; accepted: slot holds the read list (empty if absent) with every account of the original e-mail replaced by the updated user, same length; never left submitting |
| `EditProfile.EditOwnEmailNeverExists` | openlane/src/components/EditProfile.jsx:66-70 | an unchanged e-mail never gets the "already exists" message |
| `EditProfile.EditChangedTakenEmailReported` | openlane/src/components/EditProfile.jsx:66-70 | a changed e-mail that another account holds gets the "already exists" message |
| `EditProfile.EditAcceptsTakenWellFormedEmail` | openlane/src/components/EditProfile.jsx:89-95 | a well-formed e-mail passes even when another account holds it |
| `EditProfile.EditAcceptsMalformedUnusedEmail` | openlane/src/components/EditProfile.jsx:61-95 | a malformed e-mail no account holds passes, while the "valid email" message is shown |
| `EditProfile.EditWithoutStoreNeedsWellFormedEmail` | openlane/src/components/EditProfile.jsx:89-95 | with the slot absent a malformed e-mail fails |
| `EditProfile.EditSaveCanDuplicateEmail` | openlane/src/components/EditProfile.jsx:114-119 | an accepted edit to another account's e-mail leaves two accounts with it |
| `EditProfile.EditSaveKeepsUnique` | openlane/src/components/EditProfile.jsx:114-119 | an edit that keeps its e-mail or takes a free one keeps e-mails unique |
| `Profile.ProfilePage.constructor` | openlane/src/components/Profile.jsx:10 | the page holds the user it shows and the slot |
| `Profile.ProfilePage.HandleDelete` | openlane/src/components/Profile.jsx:43-52 | the slot becomes the filtered list (an absent slot reads as empty); the e-mail is then free and the existence check is defined; never longer; order kept; uniqueness kept |
| `Profile.DeleteTwice` | openlane/src/components/Profile.jsx:43-52 | two deletes of one user leave the slot as one delete does |

## Left out

- Rendering, styling, the colour menus (`colors` arrays), toasts, `navigate` and `e.preventDefault()`: they are display and routing only.
- `openlane/src/App.js`: a route table.
- `openlane/src/components/Login.jsx`: its submit handler only logs, so there is no credential lookup to model.
- The 60-second session timer of the profile page: a timer side effect.
- `formatInternational` on the profile page: display formatting by a foreign library.
- The phone library itself: `formatE164` is a parameter, and nothing is assumed about it.
- JSON parsing and serialisation: the slot holds a list of accounts or is absent. A corrupt slot that makes `JSON.parse` throw is not modelled.
- React's batched state updates: the model assigns state immediately. `validateForm` reads only form values, never the error states it writes, so the final state is the same, with the last write winning.
- The edit form's `onChange` setters: each is a plain assignment to one field, and the fields are public.
- Accounts carry exactly the five fields sign-up writes. The `...user` spread in `handleSave` therefore keeps no other field; accounts with extra fields are not modelled.
- String length: `|s|` counts Unicode scalar values, while JavaScript's `length` counts UTF-16 code units. The two differ for characters outside the Basic Multilingual Plane, which the name and password length checks would count twice.
