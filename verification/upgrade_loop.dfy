/** The promotion pass written as the loop the service runs, checked against the functional model. */
module UpgradeLoop {
  import opened Users
  import opened UserService
  import opened StoreEffects
  import PromotionProperties

  /**
    Walk the users in order; for each eligible one, run the (possibly failing)
    step: promote, request the update, send the notification. A failing step
    ends the walk, before any effect for that user. The method reports where
    the walk stopped: the index of the user whose step failed, or |users| when
    the pass completed.
  */
  method RunUpgradeLevels(users: seq<User>, fails: string -> bool) returns (trace: seq<Event>, stoppedAt: nat)
    ensures stoppedAt == FirstFault(users, fails)
    ensures trace == UpgradeLevels(users[..stoppedAt])
  {
    trace := [];
    var aborted := false;
    var i := 0;
    while i < |users| && !aborted
      invariant i <= |users|
      invariant i <= FirstFault(users, fails)
      invariant trace == UpgradeLevels(users[..i])
      invariant aborted ==> i < |users| && FirstFault(users, fails) == i
      decreases |users| - i, if aborted then 0 else 1
    {
      var u := users[i];
      if CanUpgradeLevel(u) && fails(u.id) {
        aborted := true;
      } else {
        PromotionProperties.UpgradeLevelsExtend(users, i);
        if CanUpgradeLevel(u) {
          var v := Promoted(u);
          trace := trace + [Updated(v)];
          trace := trace + [Notified(v)];
          assert trace == UpgradeLevels(users[..i]) + UpgradeStep(u);
        } else {
          assert UpgradeStep(u) == [];
        }
        i := i + 1;
      }
    }
    stoppedAt := i;
  }
}
