/**
  The user service: the promotion rule, the batch promotion pass, and the
  store-facing operations `add`, `get`, `getAll`, `update` and `deleteAll`.

  The store is a value: the sequence of rows in the order `getAll` returns
  them. The pass is a pure function from that sequence to the ordered trace of
  its side effects (a store update, then the notification, per promoted user).
*/
module UserService {
  import opened Wrappers
  import opened Levels
  import opened Users

  /** Logins a BASIC user needs to be promoted to SILVER. */
  const MinLogCountForSilver: nat := 50
  /** Recommendations a SILVER user needs to be promoted to GOLD. */
  const MinRecommendForGold: nat := 30

  /** The rows of the user store, in store order. */
  type Store = seq<User>

  datatype StoreError =
    | NotFound(id: string)     // no row has the requested id
    | DuplicateId(id: string)  // a row with that id already exists

  /** An observable side effect of the promotion pass. */
  datatype Event =
    | Updated(user: User)   // the store was asked to overwrite the user's row
    | Notified(user: User)  // the upgrade e-mail was sent to the user

  /** How a promotion pass ends: it runs to completion, or the step for one user throws. */
  datatype PassOutcome =
    | Completed(trace: seq<Event>)
    | Aborted(trace: seq<Event>, failedId: string)

  // ---------------------------------------------------------------------------
  // The promotion rule

  /** Whether `u` is due for promotion: BASIC by logins, SILVER by recommendations, GOLD never. */
  function CanUpgradeLevel(u: User): (r: bool)
    ensures u.level == Basic ==> (r <==> u.login >= MinLogCountForSilver)
    ensures u.level == Silver ==> (r <==> u.recommend >= MinRecommendForGold)
    ensures u.level == Gold ==> !r
    ensures r ==> UpgradeLevel(u).Some?
  {
    match u.level
    case Basic => u.login >= MinLogCountForSilver
    case Silver => u.recommend >= MinRecommendForGold
    case Gold => false
  }

  /** A user as one successful pass leaves it: promoted one tier when eligible, otherwise as it was. */
  function Promoted(u: User): (v: User)
    ensures CanUpgradeLevel(u) ==> Rank(v.level) == Rank(u.level) + 1
    ensures !CanUpgradeLevel(u) ==> v == u
    ensures v.id == u.id && v.login == u.login && v.recommend == u.recommend
  {
    if CanUpgradeLevel(u) then UpgradeLevel(u).value else u
  }

  // ---------------------------------------------------------------------------
  // The promotion pass

  /**
    `upgradeLevel` for one user of the pass: nothing for an ineligible user;
    otherwise the store update of the upgraded user, then its notification.
  */
  function UpgradeStep(u: User): (r: seq<Event>)
    ensures r == [] <==> !CanUpgradeLevel(u)
  {
    if CanUpgradeLevel(u) then [Updated(Promoted(u)), Notified(Promoted(u))] else []
  }

  /** An eligible user's step is the update of its upgraded form, then the notification of that same user. */
  lemma UpgradeStepIsUpdateThenNotify(u: User)
    ensures var r := UpgradeStep(u);
      r != [] ==> && |r| == 2 && r[0] == Updated(r[0].user) && r[1] == Notified(r[0].user)
                  && UpgradeLevel(u) == Some(r[0].user)
  {
  }

  /**
    The promotion pass over the users `getAll` returned, in that order.
    Every effect concerns a promoted user, so no event carries a BASIC user,
    and the effects come in pairs.
  */
  function UpgradeLevels(users: seq<User>): (r: seq<Event>)
    ensures |r| % 2 == 0
    ensures |r| <= 2 * |users|
    ensures forall e :: e in r ==> e.user.level != Basic
  {
    if users == [] then [] else UpgradeStep(users[0]) + UpgradeLevels(users[1..])
  }

  /**
    The pass with an injected fault: the step for an eligible user whose id
    satisfies `fails` throws before touching that user, ending the pass.
    Effects already issued for earlier users stay in the trace.
  */
  function UpgradeLevelsWithFault(users: seq<User>, fails: string -> bool): (r: PassOutcome)
    ensures r.Aborted? ==> exists u :: u in users && CanUpgradeLevel(u) && fails(u.id) && u.id == r.failedId
    ensures r.Completed? ==> forall u :: u in users && CanUpgradeLevel(u) ==> !fails(u.id)
  {
    if users == [] then
      Completed([])
    else if CanUpgradeLevel(users[0]) && fails(users[0].id) then
      Aborted([], users[0].id)
    else
      match UpgradeLevelsWithFault(users[1..], fails)
      case Completed(t) => Completed(UpgradeStep(users[0]) + t)
      case Aborted(t, id) => Aborted(UpgradeStep(users[0]) + t, id)
  }

  // ---------------------------------------------------------------------------
  // The store-facing operations

  /** Index of the first row with the given id, if any. */
  function Find(store: Store, id: string): (r: Option<nat>)
    ensures r.Some? ==> r.value < |store| && store[r.value].id == id
    ensures r.Some? ==> forall j :: 0 <= j < r.value ==> store[j].id != id
    ensures r.None? ==> forall j :: 0 <= j < |store| ==> store[j].id != id
  {
    if store == [] then None
    else if store[0].id == id then Some(0)
    else match Find(store[1..], id)
      case Some(k) => Some(k + 1)
      case None => None
  }

  /** `get`: the row with the given id, or NotFound when no row has it. */
  function Get(store: Store, id: string): (r: Result<User, StoreError>)
    ensures r.Ok? ==> r.value in store && r.value.id == id
    ensures r.Err? <==> forall u :: u in store ==> u.id != id
    ensures r.Err? ==> r.error == NotFound(id)
  {
    match Find(store, id)
    case Some(k) => Ok(store[k])
    case None => Err(NotFound(id))
  }

  /** `getAll`: every row, in store order. */
  function GetAll(store: Store): (r: seq<User>)
  {
    store
  }

  /** Every stored id is exactly an id `get` finds. */
  lemma GetAllAgreesWithGet(store: Store, id: string)
    ensures Get(store, id).Ok? <==> exists u :: u in GetAll(store) && u.id == id
  {
  }

  /** `update`: overwrite the row carrying `u`'s id with `u`; with no such row the store is unchanged. */
  function Update(store: Store, u: User): (r: Store)
    ensures |r| == |store|
    ensures forall i :: 0 <= i < |store| ==> r[i].id == store[i].id
    ensures Get(r, u.id) == (if Get(store, u.id).Ok? then Ok(u) else Err(NotFound(u.id)))
    ensures forall id :: id != u.id ==> Get(r, id) == Get(store, id)
  {
    var r := seq(|store|, i requires 0 <= i < |store| => if store[i].id == u.id then u else store[i]);
    FindAfterUpdate(store, u, r);
    r
  }

  /** Overwriting rows by id keeps every row's id, so every lookup finds the same index. */
  lemma {:induction false} FindAfterUpdate(store: Store, u: User, r: Store)
    requires |r| == |store|
    requires forall i :: 0 <= i < |store| ==> r[i] == if store[i].id == u.id then u else store[i]
    ensures forall id :: Find(r, id) == Find(store, id)
  {
    forall id
      ensures Find(r, id) == Find(store, id)
    {
      if store != [] {
        FindAfterUpdate(store[1..], u, r[1..]);
      }
    }
  }

  /** `deleteAll`: the store with every row removed. */
  function DeleteAll(): (r: Store)
    ensures forall id :: Get(r, id) == Err(NotFound(id))
  {
    []
  }

  /** The user `add` hands to the store: a missing tier becomes BASIC, everything else is kept. */
  function WithDefaultLevel(d: UserDraft): (u: User)
    ensures d.level.None? ==> u.level == Basic
    ensures d.level.Some? ==> u.level == d.level.value
    ensures u.id == d.id && u.name == d.name && u.password == d.password
    ensures u.login == d.login && u.recommend == d.recommend
  {
    User(d.id, d.name, d.password, if d.level.Some? then d.level.value else Basic, d.login, d.recommend)
  }

  /** A user whose tier is already set passes through the defaulting untouched, whatever the tier. */
  lemma DefaultingKeepsGivenLevel(u: User)
    ensures WithDefaultLevel(UserDraft(u.id, u.name, u.password, Some(u.level), u.login, u.recommend)) == u
  {
  }

  /**
    `add`: store the user with its tier defaulted. The store is keyed by id,
    so a second row with the same id is refused.
  */
  function Add(store: Store, d: UserDraft): (r: Result<Store, StoreError>)
    ensures r.Err? <==> Get(store, d.id).Ok?
    ensures r.Err? ==> r.error == DuplicateId(d.id)
    ensures r.Ok? ==> Get(r.value, d.id) == Ok(WithDefaultLevel(d))
    ensures r.Ok? ==> forall id :: id != d.id ==> Get(r.value, id) == Get(store, id)
  {
    if Get(store, d.id).Ok? then
      Err(DuplicateId(d.id))
    else
      var r := store + [WithDefaultLevel(d)];
      FindAfterAppend(store, WithDefaultLevel(d));
      Ok(r)
  }

  /** Appending a row leaves every lookup that succeeded before unchanged, and makes the new id findable. */
  lemma {:induction false} FindAfterAppend(store: Store, u: User)
    ensures forall id :: Find(store, id).Some? ==> Find(store + [u], id) == Find(store, id)
    ensures forall id :: Find(store, id).None? && id == u.id ==> Find(store + [u], id) == Some(|store|)
    ensures forall id :: Find(store, id).None? && id != u.id ==> Find(store + [u], id).None?
  {
    if store != [] {
      FindAfterAppend(store[1..], u);
      assert (store + [u])[1..] == store[1..] + [u];
    }
  }

  /** `add` keeps the store keyed by id: a refused duplicate leaves it as it was, an accepted id is new. */
  lemma AddKeepsUniqueIds(store: Store, d: UserDraft)
    requires UniqueIds(store)
    ensures Add(store, d).Ok? ==> UniqueIds(Add(store, d).value)
  {
  }

  /** `update` keeps the store keyed by id, since it never changes the id of a row. */
  lemma UpdateKeepsUniqueIds(store: Store, u: User)
    requires UniqueIds(store)
    ensures UniqueIds(Update(store, u))
  {
  }

  /** The store `deleteAll` leaves is trivially keyed by id. */
  lemma DeleteAllHasUniqueIds()
    ensures UniqueIds(DeleteAll())
  {
  }

  /** The store after the update events of a trace have been applied in order; notifications do not touch it. */
  function ApplyTrace(store: Store, trace: seq<Event>): (r: Store)
    ensures |r| == |store|
    ensures forall i :: 0 <= i < |store| ==> r[i].id == store[i].id
    decreases |trace|
  {
    if trace == [] then store
    else
      var next := match trace[0]
        case Updated(u) => Update(store, u)
        case Notified(_) => store;
      ApplyTrace(next, trace[1..])
  }
}
