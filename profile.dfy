/**
 * The profile page (openlane/src/components/Profile.jsx): its delete handler
 * removes the shown user's account from the stored list.
 */
module Profile {
  import opened Wrappers
  import opened Accounts
  import opened Util

  class ProfilePage {
    /** The signed-in user the page shows. */
    const user: Account
    const store: AccountStore

    constructor (user: Account, store: AccountStore)
      ensures this.user == user && this.store == store
    {
      this.user := user;
      this.store := store;
    }

    /**
     * `handleDelete`: keeps the stored accounts whose e-mail differs from the
     * user's, in order, and writes them back; an absent slot is read as the
     * empty list and written back as one.
     */
    method HandleDelete()
      modifies store
      ensures store.registeredAccounts == Some(RemoveByEmail(old(store.registeredAccounts).GetOr([]), user.email))
      ensures CheckUserDoesNotExist(store.registeredAccounts, user.email) == Some(true)
      ensures |store.registeredAccounts.value| <= |old(store.registeredAccounts).GetOr([])|
      ensures IsSubsequence(store.registeredAccounts.value, old(store.registeredAccounts).GetOr([]))
      ensures UniqueEmails(old(store.registeredAccounts).GetOr([])) ==> UniqueEmails(store.registeredAccounts.value)
    {
      var registeredAccounts := store.registeredAccounts.GetOr([]);
      var updatedAccounts := RemoveByEmail(registeredAccounts, user.email);
      store.registeredAccounts := Some(updatedAccounts);
      RemoveFreesEmail(registeredAccounts, user.email);
      RemoveIsSubsequence(registeredAccounts, user.email);
      if UniqueEmails(registeredAccounts) {
        RemoveKeepsUnique(registeredAccounts, user.email);
      }
    }
  }

  /** A second delete of the same user leaves the slot as the first one did. */
  method DeleteTwice(page: ProfilePage)
    modifies page.store
    ensures page.store.registeredAccounts ==
      Some(RemoveByEmail(old(page.store.registeredAccounts).GetOr([]), page.user.email))
  {
    page.HandleDelete();
    page.HandleDelete();
    RemoveIdempotent(old(page.store.registeredAccounts).GetOr([]), page.user.email);
  }
}
