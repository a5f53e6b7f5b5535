/** The five-user fixture of the service's tests, and what the model says about it. */
module Fixture {
  import opened Wrappers
  import opened Levels
  import opened Users
  import opened UserService
  import opened StoreEffects
  import PromotionProperties

  /** Java's Integer.MAX_VALUE, the recommendation count of the GOLD fixture user. */
  const IntMax: nat := 0x7fff_ffff

  function Bumjin(): User { User("bumjin", "박범진", "p1", Basic, MinLogCountForSilver - 1, 0) }
  function Joytouch(): User { User("joytouch", "강명성", "p2", Basic, MinLogCountForSilver + 1, 0) }
  function Erwins(): User { User("erwins", "신승한", "p3", Silver, 60, MinRecommendForGold - 1) }
  function Madnite1(): User { User("madnite1", "이상호", "p4", Silver, 60, MinRecommendForGold) }
  function Green(): User { User("green", "오민규", "p5", Gold, 100, IntMax) }

  /** The fixture in store order: one user just below and one at or above each threshold, and a GOLD user. */
  function FixtureUsers(): (r: seq<User>)
  {
    [Bumjin(), Joytouch(), Erwins(), Madnite1(), Green()]
  }

  /** The fixture ids are pairwise distinct: they already differ in their first letter. */
  lemma FixtureIdsAreUnique()
    ensures UniqueIds(FixtureUsers())
  {
    var u := FixtureUsers();
    forall i, j | 0 <= i < |u| && 0 <= j < |u| && i != j
      ensures u[i].id != u[j].id
    {
      assert u[i].id[0] != u[j].id[0];
    }
  }

  /** The pass over a user followed by more users: that user's effects, then the rest. */
  lemma PassCons(u: User, rest: seq<User>)
    ensures UpgradeLevels([u] + rest) == UpgradeStep(u) + UpgradeLevels(rest)
  {
    assert ([u] + rest)[1..] == rest;
  }

  /** One pass updates exactly joytouch to SILVER and then madnite1 to GOLD, each followed by its notification. */
  lemma FixturePass()
    ensures UpgradeLevels(FixtureUsers()) == [
      Updated(Joytouch().(level := Silver)), Notified(Joytouch().(level := Silver)),
      Updated(Madnite1().(level := Gold)), Notified(Madnite1().(level := Gold))]
    ensures |PromotionProperties.UpdatedUsers(UpgradeLevels(FixtureUsers()))| == 2
  {
    var s := Joytouch().(level := Silver);
    var g := Madnite1().(level := Gold);
    PassCons(Green(), []);
    assert UpgradeLevels([Green()]) == [];
    PassCons(Madnite1(), [Green()]);
    assert UpgradeLevels([Madnite1(), Green()]) == [Updated(g), Notified(g)];
    PassCons(Erwins(), [Madnite1(), Green()]);
    assert UpgradeLevels([Erwins(), Madnite1(), Green()]) == [Updated(g), Notified(g)];
    PassCons(Joytouch(), [Erwins(), Madnite1(), Green()]);
    assert UpgradeLevels([Joytouch(), Erwins(), Madnite1(), Green()]) == [Updated(s), Notified(s), Updated(g), Notified(g)];
    PassCons(Bumjin(), [Joytouch(), Erwins(), Madnite1(), Green()]);
    PromotionProperties.TraceLengthCountsEligibleUsers(FixtureUsers());
    PromotionProperties.UpdatesAreEligibleUsersPromoted(FixtureUsers());
  }

  /** The step for madnite1 is the first eligible step made to fail. */
  lemma FirstFaultIsMadnite1(fails: string -> bool)
    requires forall id :: fails(id) <==> id == "madnite1"
    ensures FirstFault(FixtureUsers(), fails) == 3
  {
    var u := FixtureUsers();
    assert u[1..][1..][1..] == [Madnite1(), Green()];
  }

  /** The pass over the three users before madnite1 updates joytouch only. */
  lemma FixturePrefixPass()
    ensures UpgradeLevels(FixtureUsers()[..3]) ==
      [Updated(Joytouch().(level := Silver)), Notified(Joytouch().(level := Silver))]
  {
    assert FixtureUsers()[..3] == [Bumjin(), Joytouch(), Erwins()];
    PassCons(Erwins(), []);
    PassCons(Joytouch(), [Erwins()]);
    PassCons(Bumjin(), [Joytouch(), Erwins()]);
  }

  /** With the step for madnite1 made to fail, the pass stops at madnite1 after the effects of the users before it. */
  lemma FixtureStopsAtMadnite1(fails: string -> bool)
    requires forall id :: fails(id) <==> id == "madnite1"
    ensures UpgradeLevelsWithFault(FixtureUsers(), fails) == Aborted(UpgradeLevels(FixtureUsers()[..3]), "madnite1")
  {
    FirstFaultIsMadnite1(fails);
    FaultStopsAtFirstFailingUser(FixtureUsers(), fails);
  }

  /** With the step for madnite1 made to fail, the pass stops there, after joytouch's update and notification. */
  lemma FixtureFailingOnMadnite1(fails: string -> bool)
    requires forall id :: fails(id) <==> id == "madnite1"
    ensures UpgradeLevelsWithFault(FixtureUsers(), fails) ==
      Aborted([Updated(Joytouch().(level := Silver)), Notified(Joytouch().(level := Silver))], "madnite1")
  {
    FixtureStopsAtMadnite1(fails);
    FixturePrefixPass();
  }

  /**
    After that failed pass madnite1's row is still SILVER, while joytouch's
    row, updated before the failure, stays promoted.
  */
  lemma FixtureStoreAfterFailure(fails: string -> bool)
    requires forall id :: fails(id) <==> id == "madnite1"
    ensures var after := ApplyTrace(FixtureUsers(), UpgradeLevelsWithFault(FixtureUsers(), fails).trace);
      && after[3] == Madnite1()
      && after[1] == Joytouch().(level := Silver)
  {
    var u := FixtureUsers();
    FixtureFailingOnMadnite1(fails);
    assert UpgradeLevelsWithFault(u, fails).trace == UpgradeStep(Joytouch());
    ApplyStep(u, Joytouch(), 3);
    ApplyStep(u, Joytouch(), 1);
  }

  /** Adding a GOLD user keeps GOLD; adding a user without a tier stores it as BASIC. */
  lemma FixtureAdd()
    ensures var withLevel := UserDraft("green", "오민규", "p5", Some(Gold), 100, IntMax);
      var withoutLevel := UserDraft("bumjin", "박범진", "p1", None, MinLogCountForSilver - 1, 0);
      var s1 := Add(DeleteAll(), withLevel);
      && s1.Ok?
      && var s2 := Add(s1.value, withoutLevel);
      && s2.Ok?
      && Get(s2.value, "green") == Ok(Green())
      && Get(s2.value, "bumjin") == Ok(Bumjin())
  {
  }
}
