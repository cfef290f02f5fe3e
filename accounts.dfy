/** The stored account list: `[{ login, userId, token, active }]`, edited
    in place by adding, switching and removing accounts. The list is the
    value under the `accounts` storage key; reading and writing storage are
    the field reads and writes of `AccountStore`. */
module Accounts {
  import opened Optional

  datatype Account = Account(login: string, userId: string, token: string, active: bool)

  /** What token validation returns: the token's owner. */
  datatype Validation = Validation(login: string, userId: string)

  // ---------------------------------------------------------------------
  // The list operations as functions

  /** `accounts.find((a) => a.active)`: the first active account. */
  function FindActive(accounts: seq<Account>): (r: Option<Account>)
    ensures r.Some? ==> r.value in accounts && r.value.active
    ensures r.None? <==> forall a :: a in accounts ==> !a.active
    ensures r.Some? ==> exists i :: 0 <= i < |accounts| && accounts[i] == r.value &&
                                   forall j :: 0 <= j < i ==> !accounts[j].active
  {
    if accounts == [] then None
    else if accounts[0].active then Some(accounts[0])
    else
      var r := FindActive(accounts[1..]);
      assert forall a :: a in accounts ==> a == accounts[0] || a in accounts[1..];
      if r.Some? then
        var i :| 0 <= i < |accounts[1..]| && accounts[1..][i] == r.value &&
                 forall j :: 0 <= j < i ==> !accounts[1..][j].active;
        assert accounts[i + 1] == r.value;
        r
      else r
  }

  /** `accounts.findIndex((a) => a.userId === userId)`, -1 when absent. */
  function IndexOfUser(accounts: seq<Account>, userId: string): (r: int)
    ensures -1 <= r < |accounts|
    ensures r >= 0 ==> accounts[r].userId == userId && forall j :: 0 <= j < r ==> accounts[j].userId != userId
    ensures r == -1 <==> forall j :: 0 <= j < |accounts| ==> accounts[j].userId != userId
  {
    if accounts == [] then -1
    else if accounts[0].userId == userId then 0
    else
      var r := IndexOfUser(accounts[1..], userId);
      if r == -1 then -1 else r + 1
  }

  /** Every account with its `active` flag cleared. */
  function Deactivated(accounts: seq<Account>): seq<Account>
  {
    seq(|accounts|, i requires 0 <= i < |accounts| => accounts[i].(active := false))
  }

  /** The list after `addAccount` stored `account`: all others inactive,
      the first entry of the same user replaced, otherwise appended. */
  function Added(accounts: seq<Account>, account: Account): seq<Account>
  {
    var cleared := Deactivated(accounts);
    var idx := IndexOfUser(cleared, account.userId);
    if idx >= 0 then cleared[idx := account] else cleared + [account]
  }

  /** The list after `switchAccount(userId)`. */
  function Switched(accounts: seq<Account>, userId: string): seq<Account>
  {
    seq(|accounts|, i requires 0 <= i < |accounts| => accounts[i].(active := accounts[i].userId == userId))
  }

  /** `accounts.filter((a) => a.userId !== userId)`. */
  function Without(accounts: seq<Account>, userId: string): seq<Account>
  {
    if accounts == [] then []
    else
      var rest := Without(accounts[..|accounts| - 1], userId);
      var last := accounts[|accounts| - 1];
      if last.userId != userId then rest + [last] else rest
  }

  /** `accounts.some((a) => a.active)`. */
  predicate AnyActive(accounts: seq<Account>)
  {
    exists i :: 0 <= i < |accounts| && accounts[i].active
  }

  /** The list after `removeAccount(userId)`: the user's entries dropped,
      and the first remaining one activated when none is active. */
  function Removed(accounts: seq<Account>, userId: string): seq<Account>
  {
    var kept := Without(accounts, userId);
    if |kept| > 0 && !AnyActive(kept) then kept[0 := kept[0].(active := true)] else kept
  }

  // ---------------------------------------------------------------------
  // Properties

  /** After adding, the new account is the only active entry, every
      pre-existing entry it did not replace is kept with `active` cleared,
      and the list grows by one exactly when the user was not yet listed. */
  lemma AddedOnlyNewActive(accounts: seq<Account>, account: Account)
    requires account.active
    ensures var r := Added(accounts, account);
      var idx := IndexOfUser(accounts, account.userId);
      && (idx >= 0 ==> |r| == |accounts| && r[idx] == account)
      && (idx < 0 ==> |r| == |accounts| + 1 && r[|accounts|] == account)
      && (forall j :: 0 <= j < |r| ==> (r[j].active <==> j == (if idx >= 0 then idx else |accounts|)))
      && (forall j :: 0 <= j < |accounts| && j != idx ==> r[j] == accounts[j].(active := false))
  {
    var cleared := Deactivated(accounts);
    SameUsers(accounts, cleared, account.userId);
  }

  /** Clearing flags does not move any user. */
  lemma SameUsers(accounts: seq<Account>, cleared: seq<Account>, userId: string)
    requires cleared == Deactivated(accounts)
    ensures IndexOfUser(cleared, userId) == IndexOfUser(accounts, userId)
  {
    var a := IndexOfUser(accounts, userId);
    var b := IndexOfUser(cleared, userId);
    assert forall j :: 0 <= j < |accounts| ==> cleared[j].userId == accounts[j].userId;
    if a >= 0 && b >= 0 {
      assert !(a < b) && !(b < a);
    }
  }

  /** Exactly one entry is active after adding. */
  lemma AddedExactlyOneActive(accounts: seq<Account>, account: Account)
    requires account.active
    ensures var r := Added(accounts, account);
      exists k :: 0 <= k < |r| && r[k] == account && forall j :: 0 <= j < |r| && j != k ==> !r[j].active
  {
    AddedOnlyNewActive(accounts, account);
    var r := Added(accounts, account);
    var idx := IndexOfUser(accounts, account.userId);
    var k := if idx >= 0 then idx else |accounts|;
    assert r[k] == account;
  }

  /** `a` and `b` are the same account, whatever their flags. */
  predicate SameButActive(a: Account, b: Account)
  {
    a.login == b.login && a.userId == b.userId && a.token == b.token
  }

  /** Switching keeps length, order and every field but `active`, which
      becomes "this is the user". */
  lemma SwitchedSetsFlags(accounts: seq<Account>, userId: string)
    ensures var r := Switched(accounts, userId);
      && |r| == |accounts|
      && forall j :: 0 <= j < |r| ==> SameButActive(r[j], accounts[j]) && (r[j].active <==> accounts[j].userId == userId)
  {
  }

  /** The account a switch reports is the user's first entry, or none
      when the user is not listed. */
  lemma SwitchedFindsUser(accounts: seq<Account>, userId: string)
    ensures var idx := IndexOfUser(accounts, userId);
      FindActive(Switched(accounts, userId)) == if idx >= 0 then Some(Switched(accounts, userId)[idx]) else None
  {
    SwitchedSetsFlags(accounts, userId);
    var r := Switched(accounts, userId);
    var idx := IndexOfUser(accounts, userId);
    if idx >= 0 {
      assert r[idx].active;
      var f := FindActive(r);
      var i :| 0 <= i < |r| && r[i] == f.value && forall j :: 0 <= j < i ==> !r[j].active;
      assert accounts[i].userId == userId;
      assert i == idx;
    } else {
      assert forall a :: a in r ==> !a.active;
    }
  }

  /** The filter keeps exactly the other users' entries. */
  lemma {:induction false} WithoutMembers(accounts: seq<Account>, userId: string)
    ensures forall a :: a in Without(accounts, userId) <==> a in accounts && a.userId != userId
    decreases |accounts|
  {
    if accounts != [] {
      var init := accounts[..|accounts| - 1];
      WithoutMembers(init, userId);
      assert accounts == init + [accounts[|accounts| - 1]];
    }
  }

  /** The filter keeps relative order: filtering a concatenation is the
      concatenation of the filtered parts. */
  lemma {:induction false} WithoutKeepsOrder(a: seq<Account>, b: seq<Account>, userId: string)
    ensures Without(a + b, userId) == Without(a, userId) + Without(b, userId)
    decreases |b|
  {
    if b == [] {
      assert a + b == a;
    } else {
      var init := b[..|b| - 1];
      WithoutKeepsOrder(a, init, userId);
      assert (a + b)[..|a + b| - 1] == a + init;
    }
  }

  /** After removing, no entry has the user's id, and a non-empty list
      has an active entry. */
  lemma RemovedDropsUser(accounts: seq<Account>, userId: string)
    ensures var r := Removed(accounts, userId);
      && (forall j :: 0 <= j < |r| ==> r[j].userId != userId)
      && (|r| > 0 ==> AnyActive(r))
  {
    var kept := Without(accounts, userId);
    WithoutMembers(accounts, userId);
    assert forall j :: 0 <= j < |kept| ==> kept[j] in kept;
    var r := Removed(accounts, userId);
    if |kept| > 0 && !AnyActive(kept) {
      assert r[0].active;
    }
  }

  /** While some other entry stays active, removing changes no flag: the
      result is exactly the filtered list. */
  lemma RemovingInactiveKeepsFlags(accounts: seq<Account>, userId: string, i: int)
    requires 0 <= i < |accounts| && accounts[i].active && accounts[i].userId != userId
    ensures Removed(accounts, userId) == Without(accounts, userId)
  {
    WithoutMembers(accounts, userId);
    var kept := Without(accounts, userId);
    assert accounts[i] in kept;
    var k :| 0 <= k < |kept| && kept[k] == accounts[i];
    assert AnyActive(kept);
  }

  // ---------------------------------------------------------------------
  // The storage-backed operations

  class AccountStore {
    /** The value under the `accounts` storage key. */
    var accounts: seq<Account>

    constructor (stored: seq<Account>)
      ensures accounts == stored
    {
      accounts := stored;
    }

    /** `getActiveAccount`. */
    method GetActiveAccount() returns (r: Option<Account>)
      ensures r == FindActive(accounts)
    {
      var i := 0;
      while i < |accounts|
        invariant 0 <= i <= |accounts|
        invariant FindActive(accounts) == FindActive(accounts[i..])
      {
        assert accounts[i..][1..] == accounts[i + 1..];
        if accounts[i].active {
          return Some(accounts[i]);
        }
        i := i + 1;
      }
      return None;
    }

    /** `addAccount`: a token that does not validate is an error and the
      list is untouched; otherwise the token's owner is stored as the only
      active account. */
    method AddAccount(token: string, validation: Option<Validation>) returns (r: Result<Account>)
      modifies this
      ensures validation.None? ==> r == Err("Token validation failed") && accounts == old(accounts)
      ensures validation.Some? ==>
        r == Ok(Account(validation.value.login, validation.value.userId, token, true)) &&
        accounts == Added(old(accounts), r.value)
    {
      if validation.None? {
        return Err("Token validation failed");
      }
      var account := Account(validation.value.login, validation.value.userId, token, true);
      var i := 0;
      while i < |accounts|
        invariant 0 <= i <= |accounts| == |old(accounts)|
        invariant forall j :: 0 <= j < i ==> accounts[j] == old(accounts)[j].(active := false)
        invariant forall j :: i <= j < |accounts| ==> accounts[j] == old(accounts)[j]
      {
        accounts := accounts[i := accounts[i].(active := false)];
        i := i + 1;
      }
      assert accounts == Deactivated(old(accounts));
      var idx := -1;
      var k := 0;
      while k < |accounts| && idx < 0
        invariant 0 <= k <= |accounts|
        invariant idx == -1 || (idx == k - 1 && accounts[idx].userId == account.userId)
        invariant forall j :: 0 <= j < k && j != idx ==> accounts[j].userId != account.userId
      {
        if accounts[k].userId == account.userId {
          idx := k;
        }
        k := k + 1;
      }
      assert idx == IndexOfUser(accounts, account.userId) by {
        var f := IndexOfUser(accounts, account.userId);
        if f >= 0 && idx >= 0 {
          assert !(f < idx) && !(idx < f);
        }
      }
      if idx >= 0 {
        accounts := accounts[idx := account];
      } else {
        accounts := accounts + [account];
      }
      return Ok(account);
    }

    /** `switchAccount`: the user's entries become active and all others
      inactive; the result is the first active entry after that. */
    method SwitchAccount(userId: string) returns (r: Option<Account>)
      modifies this
      ensures accounts == Switched(old(accounts), userId)
      ensures r == FindActive(accounts)
    {
      accounts := SetActiveFlags(accounts, userId);
      r := GetActiveAccount();
    }

    /** `removeAccount`: the filtered list, with the first entry activated
      when none is active; the new list is also returned. */
    method RemoveAccount(userId: string) returns (r: seq<Account>)
      modifies this
      ensures accounts == Removed(old(accounts), userId) && r == accounts
    {
      var kept := FilterOut(accounts, userId);
      var some := SomeActive(kept);
      if |kept| > 0 && !some {
        kept := kept[0 := kept[0].(active := true)];
      }
      accounts := kept;
      return accounts;
    }
  }

  // ---------------------------------------------------------------------
  // The loops shared by the storage operations and the popup buttons

  /** `for (const a of accounts) a.active = a.userId === userId`. */
  method SetActiveFlags(stored: seq<Account>, userId: string) returns (accounts: seq<Account>)
    ensures accounts == Switched(stored, userId)
  {
    accounts := stored;
    var i := 0;
    while i < |accounts|
      invariant 0 <= i <= |accounts| == |stored|
      invariant forall j :: 0 <= j < i ==> accounts[j] == stored[j].(active := stored[j].userId == userId)
      invariant forall j :: i <= j < |accounts| ==> accounts[j] == stored[j]
    {
      accounts := accounts[i := accounts[i].(active := accounts[i].userId == userId)];
      i := i + 1;
    }
  }

  /** `accounts.filter((a) => a.userId !== userId)`, element by element. */
  method FilterOut(stored: seq<Account>, userId: string) returns (kept: seq<Account>)
    ensures kept == Without(stored, userId)
  {
    kept := [];
    var i := 0;
    while i < |stored|
      invariant 0 <= i <= |stored|
      invariant kept == Without(stored[..i], userId)
    {
      assert stored[..i + 1][..i] == stored[..i];
      if stored[i].userId != userId {
        kept := kept + [stored[i]];
      }
      i := i + 1;
    }
    assert stored[..|stored|] == stored;
  }

  /** `accounts.some((a) => a.active)`, stopping at the first hit. */
  method SomeActive(accounts: seq<Account>) returns (some: bool)
    ensures some == AnyActive(accounts)
  {
    some := false;
    var j := 0;
    while j < |accounts| && !some
      invariant 0 <= j <= |accounts|
      invariant some <==> exists k :: 0 <= k < j && accounts[k].active
    {
      some := accounts[j].active;
      j := j + 1;
    }
  }
}
