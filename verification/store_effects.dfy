/**
  What a promotion pass does to the store once its update requests are
  applied in order, with and without an injected fault.
*/
module StoreEffects {
  import opened Wrappers
  import opened Levels
  import opened Users
  import opened UserService
  import PromotionProperties

  /** The row a pass over the users `users` leaves in place of row `s`. */
  function RowAfterPass(users: seq<User>, s: User): (r: User)
  {
    match Find(users, s.id)
    case Some(k) => if CanUpgradeLevel(users[k]) then Promoted(users[k]) else s
    case None => s
  }

  /** The index of the first eligible user whose step is made to fail, or |users| if there is none. */
  function FirstFault(users: seq<User>, fails: string -> bool): (k: nat)
    ensures k <= |users|
    ensures forall j :: 0 <= j < k ==> !(CanUpgradeLevel(users[j]) && fails(users[j].id))
    ensures k < |users| ==> CanUpgradeLevel(users[k]) && fails(users[k].id)
  {
    if users == [] then 0
    else if CanUpgradeLevel(users[0]) && fails(users[0].id) then 0
    else 1 + FirstFault(users[1..], fails)
  }

  lemma {:induction false} ApplyTraceAppend(store: Store, a: seq<Event>, b: seq<Event>)
    ensures ApplyTrace(store, a + b) == ApplyTrace(ApplyTrace(store, a), b)
    decreases |a|
  {
    if a == [] {
      assert a + b == b;
    } else {
      assert (a + b)[1..] == a[1..] + b;
      var next := match a[0]
        case Updated(u) => Update(store, u)
        case Notified(_) => store;
      ApplyTraceAppend(next, a[1..], b);
    }
  }

  /** Applying one user's effects to the store overwrites that user's row with its promoted form, if eligible. */
  lemma ApplyStep(store: Store, u: User, i: nat)
    requires i < |store|
    ensures ApplyTrace(store, UpgradeStep(u))[i] ==
      if store[i].id == u.id && CanUpgradeLevel(u) then Promoted(u) else store[i]
  {
    if CanUpgradeLevel(u) {
      var v := Promoted(u);
      var s1 := Update(store, v);
      assert UpgradeStep(u)[1..] == [Notified(v)];
      assert UpgradeStep(u)[1..][1..] == [];
      assert ApplyTrace(store, UpgradeStep(u)) == ApplyTrace(s1, [Notified(v)]);
      assert ApplyTrace(s1, [Notified(v)]) == ApplyTrace(s1, []);
    }
  }

  /** With unique ids, the first user's id occurs nowhere after it. */
  lemma HeadIdAbsentFromTail(users: seq<User>)
    requires UniqueIds(users) && users != []
    ensures Find(users[1..], users[0].id).None?
  {
  }

  /**
    Applying the effects of a pass over `users` (ids unique) to any store
    replaces each row by the promoted form of the user of the same id, if that
    user was eligible, and leaves every other row alone.
  */
  lemma {:induction false} ApplyPassRow(store: Store, users: seq<User>, i: nat)
    requires UniqueIds(users) && i < |store|
    ensures ApplyTrace(store, UpgradeLevels(users))[i] == RowAfterPass(users, store[i])
    decreases |users|
  {
    if users != [] {
      var rest := users[1..];
      UniqueIdsTail(users);
      var s1 := ApplyTrace(store, UpgradeStep(users[0]));
      assert UpgradeLevels(users) == UpgradeStep(users[0]) + UpgradeLevels(rest);
      ApplyTraceAppend(store, UpgradeStep(users[0]), UpgradeLevels(rest));
      ApplyPassRow(s1, rest, i);
      ApplyStep(store, users[0], i);
      assert s1[i].id == store[i].id;
      if store[i].id == users[0].id {
        HeadIdAbsentFromTail(users);
        assert RowAfterPass(rest, s1[i]) == s1[i];
      } else {
        assert s1[i] == store[i];
        assert RowAfterPass(users, store[i]) == RowAfterPass(rest, store[i]);
      }
    }
  }

  /**
    After one full pass, with the store keyed by id, every row is the user
    promoted one tier if it was eligible and unchanged otherwise: GOLD rows
    and ineligible rows are never modified, and no row skips a tier.
  */
  lemma PassEffectOnStore(store: Store)
    requires UniqueIds(store)
    ensures var after := ApplyTrace(store, UpgradeLevels(GetAll(store)));
      && |after| == |store|
      && forall i :: 0 <= i < |store| ==> after[i] == Promoted(store[i])
  {
    forall i | 0 <= i < |store|
      ensures ApplyTrace(store, UpgradeLevels(store))[i] == Promoted(store[i])
    {
      ApplyPassRow(store, store, i);
      assert Find(store, store[i].id) == Some(i);
    }
  }

  /**
    A faulted pass ends at the first eligible user whose step fails, after
    issuing exactly the effects of the pass over the users before it; with no
    such user the pass completes with the ordinary trace.
  */
  lemma {:induction false} FaultStopsAtFirstFailingUser(users: seq<User>, fails: string -> bool)
    ensures var k := FirstFault(users, fails);
      UpgradeLevelsWithFault(users, fails) ==
        if k == |users| then Completed(UpgradeLevels(users))
        else Aborted(UpgradeLevels(users[..k]), users[k].id)
  {
    if users != [] {
      var rest := users[1..];
      FaultStopsAtFirstFailingUser(rest, fails);
      var k := FirstFault(users, fails);
      if k == 0 {
        assert users[..0] == [];
      } else {
        assert k == 1 + FirstFault(rest, fails);
        var step := UpgradeStep(users[0]);
        if k == |users| {
          assert UpgradeLevelsWithFault(rest, fails) == Completed(UpgradeLevels(rest));
          assert UpgradeLevelsWithFault(users, fails) == Completed(step + UpgradeLevels(rest));
        } else {
          assert rest[..k - 1] == users[..k][1..];
          assert rest[k - 1] == users[k];
          assert UpgradeLevelsWithFault(rest, fails) == Aborted(UpgradeLevels(rest[..k - 1]), users[k].id);
          assert UpgradeLevelsWithFault(users, fails) == Aborted(step + UpgradeLevels(rest[..k - 1]), users[k].id);
          assert UpgradeLevels(users[..k]) == step + UpgradeLevels(users[..k][1..]);
        }
      }
    }
  }

  /** Without any failing eligible user, the faulted pass is the ordinary pass. */
  lemma NoFaultMeansOrdinaryPass(users: seq<User>, fails: string -> bool)
    requires forall u :: u in users && CanUpgradeLevel(u) ==> !fails(u.id)
    ensures UpgradeLevelsWithFault(users, fails) == Completed(UpgradeLevels(users))
  {
    FaultStopsAtFirstFailingUser(users, fails);
  }

  /** In a store keyed by id, looking up a row's id finds that very row. */
  lemma FindInUniqueStore(store: Store, i: nat)
    requires UniqueIds(store) && i < |store|
    ensures Find(store, store[i].id) == Some(i)
  {
  }

  /** Looking up, in a prefix of a store keyed by id, the id of a row beyond the prefix finds nothing. */
  lemma FindBeyondPrefix(store: Store, k: nat, i: nat)
    requires UniqueIds(store) && k <= i < |store|
    ensures Find(store[..k], store[i].id).None?
  {
  }

  /**
    After a pass that failed at one user, that user's row is unchanged, but the
    rows of the eligible users evaluated before it have been promoted: the
    pass itself does not undo updates already issued.
  */
  lemma AbortedPassEffectOnStore(store: Store, fails: string -> bool)
    requires UniqueIds(store)
    ensures var k := FirstFault(store, fails);
      var after := ApplyTrace(store, UpgradeLevelsWithFault(GetAll(store), fails).trace);
      && |after| == |store|
      && forall i :: 0 <= i < |store| ==> after[i] == if i < k then Promoted(store[i]) else store[i]
  {
    var k := FirstFault(store, fails);
    FaultStopsAtFirstFailingUser(store, fails);
    var prefix := store[..k];
    assert k == |store| ==> prefix == store;
    assert UpgradeLevelsWithFault(GetAll(store), fails).trace == UpgradeLevels(prefix);
    UniqueIdsPrefix(store, k);
    forall i | 0 <= i < |store|
      ensures ApplyTrace(store, UpgradeLevels(prefix))[i] == if i < k then Promoted(store[i]) else store[i]
    {
      ApplyPassRow(store, prefix, i);
      if i < k {
        FindInUniqueStore(prefix, i);
      } else {
        FindBeyondPrefix(store, k, i);
      }
    }
  }
}
