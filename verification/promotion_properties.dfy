/** What the promotion rule and the promotion pass guarantee. */
module PromotionProperties {
  import opened Wrappers
  import opened Levels
  import opened Users
  import opened UserService

  // ---------------------------------------------------------------------------
  // The rule

  /** More logins or recommendations never take eligibility away from a user of the same tier. */
  lemma EligibilityIsMonotone(u: User, w: User)
    requires w.level == u.level && w.login >= u.login && w.recommend >= u.recommend
    ensures CanUpgradeLevel(u) ==> CanUpgradeLevel(w)
  {
  }

  /** A promoted user moves exactly one tier up, and no other field changes. */
  lemma PromotionIsOneStep(u: User)
    requires CanUpgradeLevel(u)
    ensures var v := UpgradeLevel(u).value;
      && Rank(v.level) == Rank(u.level) + 1
      && NextLevel(u.level) == Some(v.level)
      && v.id == u.id && v.name == u.name && v.password == u.password
      && v.login == u.login && v.recommend == u.recommend
  {
  }

  // ---------------------------------------------------------------------------
  // Reference views of a pass

  /** The eligible users, in the order given. */
  function Eligible(users: seq<User>): (r: seq<User>)
    ensures |r| <= |users|
    ensures forall u :: u in r ==> u in users && CanUpgradeLevel(u)
  {
    if users == [] then []
    else if CanUpgradeLevel(users[0]) then [users[0]] + Eligible(users[1..])
    else Eligible(users[1..])
  }

  /** The users the store was asked to update, in the order of the requests. */
  function UpdatedUsers(trace: seq<Event>): (r: seq<User>)
    ensures |r| <= |trace|
    ensures forall u :: u in r ==> Updated(u) in trace
  {
    if trace == [] then []
    else if trace[0].Updated? then [trace[0].user] + UpdatedUsers(trace[1..])
    else UpdatedUsers(trace[1..])
  }

  lemma {:induction false} UpdatedUsersAppend(a: seq<Event>, b: seq<Event>)
    ensures UpdatedUsers(a + b) == UpdatedUsers(a) + UpdatedUsers(b)
  {
    if a != [] {
      UpdatedUsersAppend(a[1..], b);
      assert (a + b)[1..] == a[1..] + b;
    } else {
      assert a + b == b;
    }
  }

  // ---------------------------------------------------------------------------
  // The pass

  /** Evaluating one more user only appends that user's effects after everything before it. */
  lemma {:induction false} UpgradeLevelsAppend(users: seq<User>, u: User)
    ensures UpgradeLevels(users + [u]) == UpgradeLevels(users) + UpgradeStep(u)
  {
    if users == [] {
      assert [u][1..] == [];
      assert users + [u] == [u];
    } else {
      var ext := users + [u];
      assert ext[0] == users[0];
      assert ext[1..] == users[1..] + [u];
      calc {
        UpgradeLevels(ext);
        UpgradeStep(users[0]) + UpgradeLevels(users[1..] + [u]);
        { UpgradeLevelsAppend(users[1..], u); }
        UpgradeStep(users[0]) + (UpgradeLevels(users[1..]) + UpgradeStep(u));
        (UpgradeStep(users[0]) + UpgradeLevels(users[1..])) + UpgradeStep(u);
      }
    }
  }

  /** The pass over the first i+1 users extends the pass over the first i by the effects for user i. */
  lemma UpgradeLevelsExtend(users: seq<User>, i: nat)
    requires i < |users|
    ensures UpgradeLevels(users[..i + 1]) == UpgradeLevels(users[..i]) + UpgradeStep(users[i])
  {
    assert users[..i + 1] == users[..i] + [users[i]];
    UpgradeLevelsAppend(users[..i], users[i]);
  }

  /** The pass over a prefix is a prefix of the pass: effects are issued in store order. */
  lemma {:induction false} UpgradeLevelsPrefix(users: seq<User>, k: nat)
    requires k <= |users|
    ensures UpgradeLevels(users) == UpgradeLevels(users[..k]) + UpgradeLevels(users[k..])
  {
    if k == 0 {
      assert users[..k] == [] && users[k..] == users;
    } else {
      var head := users[..k];
      assert head[0] == users[0] && head[1..] == users[1..][..k - 1];
      assert users[1..][k - 1..] == users[k..];
      calc {
        UpgradeLevels(users);
        UpgradeStep(users[0]) + UpgradeLevels(users[1..]);
        { UpgradeLevelsPrefix(users[1..], k - 1); }
        UpgradeStep(users[0]) + (UpgradeLevels(users[1..][..k - 1]) + UpgradeLevels(users[k..]));
        (UpgradeStep(users[0]) + UpgradeLevels(head[1..])) + UpgradeLevels(users[k..]);
        UpgradeLevels(head) + UpgradeLevels(users[k..]);
      }
    }
  }

  /**
    The store is asked to update exactly the eligible users, once each, in
    store order, each promoted one tier; no ineligible user is ever updated.
  */
  lemma {:induction false} UpdatesAreEligibleUsersPromoted(users: seq<User>)
    ensures var updated := UpdatedUsers(UpgradeLevels(users));
      var eligible := Eligible(users);
      && |updated| == |eligible|
      && forall k :: 0 <= k < |eligible| ==> UpgradeLevel(eligible[k]) == Some(updated[k])
  {
    if users != [] {
      UpdatesAreEligibleUsersPromoted(users[1..]);
      UpdatedUsersAppend(UpgradeStep(users[0]), UpgradeLevels(users[1..]));
      var v := UpgradeLevel(users[0]);
      if CanUpgradeLevel(users[0]) {
        assert UpdatedUsers(UpgradeStep(users[0])) == [v.value] by {
          assert UpgradeStep(users[0])[1..] == [Notified(v.value)];
          assert UpgradeStep(users[0])[1..][1..] == [];
        }
      } else {
        assert UpgradeStep(users[0]) == [];
      }
    }
  }

  /** The pass emits two effects per eligible user and nothing else. */
  lemma {:induction false} TraceLengthCountsEligibleUsers(users: seq<User>)
    ensures |UpgradeLevels(users)| == 2 * |Eligible(users)|
  {
    if users != [] {
      TraceLengthCountsEligibleUsers(users[1..]);
    }
  }

  /** Every update is immediately followed by the notification of the same user. */
  predicate UpdateThenNotify(t: seq<Event>)
  {
    && (forall i :: 0 <= i < |t| && t[i].Updated? ==> i + 1 < |t| && t[i + 1] == Notified(t[i].user))
    && (forall i :: 0 <= i < |t| && t[i].Notified? ==> 0 < i && t[i - 1] == Updated(t[i].user))
  }

  /**
    Per promoted user the store update comes first and the notification right
    after it, before anything happens for the next user.
  */
  lemma {:induction false} PassPairsUpdateWithNotification(users: seq<User>)
    ensures UpdateThenNotify(UpgradeLevels(users))
  {
    if users != [] {
      PassPairsUpdateWithNotification(users[1..]);
      var s := UpgradeStep(users[0]);
      var rest := UpgradeLevels(users[1..]);
      var t := s + rest;
      assert t == UpgradeLevels(users);
      forall i | 0 <= i < |t| && t[i].Updated?
        ensures i + 1 < |t| && t[i + 1] == Notified(t[i].user)
      {
        if i >= |s| {
          assert t[i] == rest[i - |s|];
          assert t[i + 1] == rest[i - |s| + 1];
        }
      }
      forall i | 0 <= i < |t| && t[i].Notified?
        ensures 0 < i && t[i - 1] == Updated(t[i].user)
      {
        if i >= |s| {
          assert t[i] == rest[i - |s|];
          if i - |s| > 0 {
            assert t[i - 1] == rest[i - |s| - 1];
          }
        }
      }
    }
  }

  /** Every effect of the pass concerns the promoted form of some eligible user of the input. */
  lemma {:induction false} EffectsComeFromEligibleUsers(users: seq<User>)
    ensures forall e :: e in UpgradeLevels(users) ==>
      exists w :: w in users && CanUpgradeLevel(w) && UpgradeLevel(w) == Some(e.user)
  {
    if users != [] {
      EffectsComeFromEligibleUsers(users[1..]);
      forall e | e in UpgradeLevels(users)
        ensures exists w :: w in users && CanUpgradeLevel(w) && UpgradeLevel(w) == Some(e.user)
      {
        if e in UpgradeStep(users[0]) {
          assert CanUpgradeLevel(users[0]) && UpgradeLevel(users[0]) == Some(e.user);
        } else {
          assert e in UpgradeLevels(users[1..]);
          var w :| w in users[1..] && CanUpgradeLevel(w) && UpgradeLevel(w) == Some(e.user);
          assert w in users;
        }
      }
    }
  }

  /** In a store keyed by id, a GOLD user is never updated or notified by a pass, whatever its counters. */
  lemma GoldUserIsNeverTouched(users: seq<User>, g: User)
    requires UniqueIds(users) && g in users && g.level == Gold
    ensures forall e :: e in UpgradeLevels(users) ==> e.user.id != g.id
  {
    EffectsComeFromEligibleUsers(users);
    forall e | e in UpgradeLevels(users)
      ensures e.user.id != g.id
    {
      var w :| w in users && CanUpgradeLevel(w) && UpgradeLevel(w) == Some(e.user);
      var i :| 0 <= i < |users| && users[i] == w;
      var j :| 0 <= j < |users| && users[j] == g;
      assert w != g;
    }
  }
}
