/** The user record, and the record as handed to `add` before its tier is defaulted. */
module Users {
  import opened Wrappers
  import opened Levels

  /** A stored user: identity, display name, credential, tier and the two activity counters. */
  datatype User = User(id: string, name: string, password: string, level: Level, login: nat, recommend: nat)

  /** A user as a caller builds it: the tier may still be missing (null in the Java code). */
  datatype UserDraft = UserDraft(id: string, name: string, password: string, level: Option<Level>, login: nat, recommend: nat)

  /** The user advanced one tier, every other field kept; None when the tier is terminal. */
  function UpgradeLevel(u: User): (r: Option<User>)
    ensures r.None? <==> u.level == Gold
    ensures r.Some? ==> Rank(r.value.level) == Rank(u.level) + 1
    ensures r.Some? ==> r.value == u.(level := r.value.level)
  {
    match NextLevel(u.level)
    case Some(l) => Some(u.(level := l))
    case None => None
  }

  /** True when no two records share an id (the store is keyed by id). */
  predicate UniqueIds(users: seq<User>)
  {
    forall i, j :: 0 <= i < |users| && 0 <= j < |users| && i != j ==> users[i].id != users[j].id
  }

  /** Dropping the first record keeps the ids unique. */
  lemma UniqueIdsTail(users: seq<User>)
    requires UniqueIds(users) && users != []
    ensures UniqueIds(users[1..])
  {
    var rest := users[1..];
    forall a, b | 0 <= a < |rest| && 0 <= b < |rest| && a != b
      ensures rest[a].id != rest[b].id
    {
      assert rest[a] == users[a + 1] && rest[b] == users[b + 1];
    }
  }

  /** A prefix of records with unique ids has unique ids. */
  lemma UniqueIdsPrefix(users: seq<User>, k: nat)
    requires UniqueIds(users) && k <= |users|
    ensures UniqueIds(users[..k])
  {
    var head := users[..k];
    forall a, b | 0 <= a < |head| && 0 <= b < |head| && a != b
      ensures head[a].id != head[b].id
    {
      assert head[a] == users[a] && head[b] == users[b];
    }
  }
}
