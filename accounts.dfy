/**
 * The account records kept under the browser-storage slot "registeredAccounts",
 * and the three list transforms the components apply to that slot: append on
 * sign-up, replace-by-e-mail on profile edit, filter-out-by-e-mail on delete.
 */
module Accounts {
  import opened Wrappers

  /** One stored account, with the five fields the sign-up form writes. */
  datatype Account = Account(
    name: string,
    email: string,
    password: string,
    phoneNumber: Option<string>,
    favoriteColor: string)

  /** The storage slot; `None` means the key is absent (JSON.parse(null) is null). */
  class AccountStore {
    var registeredAccounts: Option<seq<Account>>

    constructor (initial: Option<seq<Account>>)
      ensures registeredAccounts == initial
    {
      registeredAccounts := initial;
    }
  }

  /** `accounts.some(account => account.email === email)`, scanning from the front. */
  function EmailTaken(accounts: seq<Account>, email: string): (r: bool)
    ensures r <==> exists i :: 0 <= i < |accounts| && accounts[i].email == email
  {
    if accounts == [] then false
    else accounts[0].email == email || EmailTaken(accounts[1..], email)
  }

  /** No two stored accounts share an e-mail. */
  predicate UniqueEmails(accounts: seq<Account>) {
    forall i, j :: 0 <= i < j < |accounts| ==> accounts[i].email != accounts[j].email
  }

  /**
   * Sign-up's write: the stored list with the new account added at the end;
   * an absent slot becomes the one-element list.
   */
  function Append(slot: Option<seq<Account>>, account: Account): (r: seq<Account>)
    ensures |r| == |slot.GetOr([])| + 1
    ensures r[..|r| - 1] == slot.GetOr([]) && r[|r| - 1] == account
  {
    match slot
    case Some(accounts) => accounts + [account]
    case None => [account]
  }

  /** Profile edit's write: every account whose e-mail is `oldEmail` becomes `updated`. */
  function ReplaceByEmail(accounts: seq<Account>, oldEmail: string, updated: Account): (r: seq<Account>)
    ensures |r| == |accounts|
    ensures forall i :: 0 <= i < |accounts| ==>
      r[i] == (if accounts[i].email == oldEmail then updated else accounts[i])
  {
    if accounts == [] then []
    else
      [if accounts[0].email == oldEmail then updated else accounts[0]]
      + ReplaceByEmail(accounts[1..], oldEmail, updated)
  }

  /** Delete's write: the accounts whose e-mail differs from `email`. */
  function RemoveByEmail(accounts: seq<Account>, email: string): (r: seq<Account>)
    ensures |r| <= |accounts|
    ensures forall a :: a in r ==> a in accounts && a.email != email
    ensures forall a :: a in accounts && a.email != email ==> a in r
  {
    if accounts == [] then []
    else if accounts[0].email == email then RemoveByEmail(accounts[1..], email)
    else [accounts[0]] + RemoveByEmail(accounts[1..], email)
  }

  /** `sub` can be obtained from `accounts` by deleting entries, the rest keeping their order. */
  ghost predicate IsSubsequence(sub: seq<Account>, accounts: seq<Account>)
    decreases |accounts|
  {
    if sub == [] then true
    else if accounts == [] then false
    else if sub[0] == accounts[0] then IsSubsequence(sub[1..], accounts[1..])
    else IsSubsequence(sub, accounts[1..])
  }

  // ---------------------------------------------------------------------------
  // Append (sign-up)

  /** After sign-up's append the new account's e-mail is taken. */
  lemma AppendTakesEmail(slot: Option<seq<Account>>, account: Account)
    ensures EmailTaken(Append(slot, account), account.email)
  {
    var r := Append(slot, account);
    assert r[|r| - 1].email == account.email;
  }

  /** Appending an account whose e-mail was free keeps e-mails unique. */
  lemma AppendKeepsUnique(accounts: seq<Account>, account: Account)
    requires UniqueEmails(accounts) && !EmailTaken(accounts, account.email)
    ensures UniqueEmails(Append(Some(accounts), account))
  {
    var r := Append(Some(accounts), account);
    forall i, j | 0 <= i < j < |r| ensures r[i].email != r[j].email {
      if j == |accounts| {
        assert r[i] == accounts[i];
      } else {
        assert r[i] == accounts[i] && r[j] == accounts[j];
      }
    }
  }

  // ---------------------------------------------------------------------------
  // ReplaceByEmail (profile edit)

  /** When no account carries `oldEmail` the list is written back unchanged. */
  lemma ReplaceWithoutMatchIsIdentity(accounts: seq<Account>, oldEmail: string, updated: Account)
    requires !EmailTaken(accounts, oldEmail)
    ensures ReplaceByEmail(accounts, oldEmail, updated) == accounts
  {
    var r := ReplaceByEmail(accounts, oldEmail, updated);
    assert forall i :: 0 <= i < |accounts| ==> r[i] == accounts[i];
  }

  /** After a replace that matched, the edited account's new e-mail is taken. */
  lemma ReplaceTakesNewEmail(accounts: seq<Account>, oldEmail: string, updated: Account)
    requires EmailTaken(accounts, oldEmail)
    ensures EmailTaken(ReplaceByEmail(accounts, oldEmail, updated), updated.email)
  {
    var i :| 0 <= i < |accounts| && accounts[i].email == oldEmail;
    assert ReplaceByEmail(accounts, oldEmail, updated)[i] == updated;
  }

  /**
   * The replace does not guard uniqueness: editing one account to the e-mail of
   * another leaves two accounts with that e-mail.
   */
  lemma ReplaceCanDuplicate(accounts: seq<Account>, oldEmail: string, updated: Account, i: nat, j: nat)
    requires i < |accounts| && j < |accounts|
    requires accounts[i].email == oldEmail && accounts[j].email == updated.email
    requires updated.email != oldEmail
    ensures !UniqueEmails(ReplaceByEmail(accounts, oldEmail, updated))
  {
    var r := ReplaceByEmail(accounts, oldEmail, updated);
    assert r[i] == updated && r[j] == accounts[j];
    if i < j {
      assert r[i].email == r[j].email;
    } else {
      assert r[j].email == r[i].email;
    }
  }

  /**
   * Replacing keeps e-mails unique when the replacement keeps the old e-mail
   * or takes one no account holds.
   */
  lemma ReplaceKeepsUnique(accounts: seq<Account>, oldEmail: string, updated: Account)
    requires UniqueEmails(accounts)
    requires updated.email == oldEmail || !EmailTaken(accounts, updated.email)
    ensures UniqueEmails(ReplaceByEmail(accounts, oldEmail, updated))
  {
    var r := ReplaceByEmail(accounts, oldEmail, updated);
    forall i, j | 0 <= i < j < |r| ensures r[i].email != r[j].email {
      if accounts[i].email == oldEmail {
        assert r[j] == accounts[j];
      } else if accounts[j].email == oldEmail {
        assert r[i] == accounts[i];
      }
    }
  }

  // ---------------------------------------------------------------------------
  // RemoveByEmail (delete)

  /** Deleting leaves no account with the deleted e-mail. */
  lemma RemoveFreesEmail(accounts: seq<Account>, email: string)
    ensures !EmailTaken(RemoveByEmail(accounts, email), email)
  {
  }

  /** The survivors keep their original relative order. */
  lemma {:induction false} RemoveIsSubsequence(accounts: seq<Account>, email: string)
    ensures IsSubsequence(RemoveByEmail(accounts, email), accounts)
  {
    if accounts != [] {
      RemoveIsSubsequence(accounts[1..], email);
      var rest := RemoveByEmail(accounts[1..], email);
      if accounts[0].email == email {
        SubsequenceOfTail(rest, accounts);
      } else {
        assert ([accounts[0]] + rest)[1..] == rest;
      }
    }
  }

  /** A subsequence of the tail is a subsequence of the whole list. */
  lemma {:induction false} SubsequenceOfTail(sub: seq<Account>, accounts: seq<Account>)
    requires accounts != [] && IsSubsequence(sub, accounts[1..])
    ensures IsSubsequence(sub, accounts)
    decreases |accounts|, 0
  {
    if sub != [] && sub[0] == accounts[0] {
      // IsSubsequence(sub, accounts[1..]) matched sub[0] somewhere later.
      var tail := accounts[1..];
      assert tail != [];
      if sub[0] == tail[0] {
        assert IsSubsequence(sub[1..], tail[1..]);
        SubsequenceOfTail(sub[1..], tail);
      } else {
        assert IsSubsequence(sub, tail[1..]);
        SubsequenceOfTail(sub, tail);
        SubsequenceDropHead(sub, tail);
      }
    }
  }

  /** Dropping the head of a non-empty subsequence keeps it a subsequence. */
  lemma {:induction false} SubsequenceDropHead(sub: seq<Account>, accounts: seq<Account>)
    requires sub != [] && IsSubsequence(sub, accounts)
    ensures IsSubsequence(sub[1..], accounts)
    decreases |accounts|, 1
  {
    assert accounts != [];
    if sub[0] == accounts[0] {
      SubsequenceOfTail(sub[1..], accounts);
    } else {
      SubsequenceDropHead(sub, accounts[1..]);
      SubsequenceOfTail(sub[1..], accounts);
    }
  }

  /** Deleting distributes over concatenation: each part is filtered in place. */
  lemma {:induction false} RemoveAppend(a: seq<Account>, b: seq<Account>, email: string)
    ensures RemoveByEmail(a + b, email) == RemoveByEmail(a, email) + RemoveByEmail(b, email)
  {
    if a != [] {
      assert (a + b)[1..] == a[1..] + b;
      RemoveAppend(a[1..], b, email);
    } else {
      assert a + b == b;
    }
  }

  /** Every account with another e-mail survives as often as it occurred. */
  lemma {:induction false} RemoveKeepsMultiplicity(accounts: seq<Account>, email: string, a: Account)
    requires a.email != email
    ensures multiset(RemoveByEmail(accounts, email))[a] == multiset(accounts)[a]
  {
    if accounts != [] {
      RemoveKeepsMultiplicity(accounts[1..], email, a);
      assert accounts == [accounts[0]] + accounts[1..];
    }
  }

  /** Deleting the same e-mail twice yields the same list as deleting it once. */
  lemma {:induction false} RemoveIdempotent(accounts: seq<Account>, email: string)
    ensures RemoveByEmail(RemoveByEmail(accounts, email), email) == RemoveByEmail(accounts, email)
  {
    if accounts != [] {
      RemoveIdempotent(accounts[1..], email);
    }
  }

  /** The list shrinks exactly when some account had the deleted e-mail. */
  lemma {:induction false} RemoveShrinksIffTaken(accounts: seq<Account>, email: string)
    ensures |RemoveByEmail(accounts, email)| < |accounts| <==> EmailTaken(accounts, email)
  {
    if accounts != [] {
      RemoveShrinksIffTaken(accounts[1..], email);
      assert EmailTaken(accounts, email) <==>
        accounts[0].email == email || EmailTaken(accounts[1..], email);
    }
  }

  /** Deleting keeps e-mails unique. */
  lemma {:induction false} RemoveKeepsUnique(accounts: seq<Account>, email: string)
    requires UniqueEmails(accounts)
    ensures UniqueEmails(RemoveByEmail(accounts, email))
  {
    if accounts != [] {
      var tail := accounts[1..];
      assert UniqueEmails(tail) by {
        forall i, j | 0 <= i < j < |tail| ensures tail[i].email != tail[j].email {
          assert tail[i] == accounts[i + 1] && tail[j] == accounts[j + 1];
        }
      }
      RemoveKeepsUnique(tail, email);
      if accounts[0].email != email {
        var rest := RemoveByEmail(tail, email);
        var r := [accounts[0]] + rest;
        forall i, j | 0 <= i < j < |r| ensures r[i].email != r[j].email {
          if i == 0 {
            assert r[j] in rest;
            var k :| 0 <= k < |tail| && tail[k] == r[j];
            assert accounts[k + 1] == r[j];
          } else {
            assert r[i] == rest[i - 1] && r[j] == rest[j - 1];
          }
        }
      }
    }
  }
}
