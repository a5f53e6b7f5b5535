# User tier promotion — a Dafny model of `UserServiceImpl`

This project models the user service of a small Spring/JDBC sample
application. Users have a tier (BASIC, SILVER, GOLD) and two activity
counters (logins and recommendations). The service does four things:

- `canUpgradeLevel` decides whether a user is due for promotion. A BASIC user
  needs at least 50 logins. A SILVER user needs at least 30 recommendations.
  GOLD is terminal.
- `upgradeLevels` reads every user once, in the order the store returns them.
  For each eligible user it advances the tier by one step, asks the store to
  update the row, and then sends an upgrade notification.
- `add` gives a user without a tier the tier BASIC, then stores it.
- `get`, `getAll`, `update` and `deleteAll` pass straight through to the store.

The model uses values only:

- The store is a `seq<User>` in the order `getAll` returns it.
- The pass is a pure function from that sequence to the ordered trace of its
  side effects: `Updated(user)` for each store update and `Notified(user)` for
  each notification.
- `ApplyTrace` replays the updates of a trace against a store. That is how the
  lemmas state what a pass leaves in the store.
- `UpgradeLevelsWithFault` models the test subclass that throws in the
  per-user step for a chosen id. It takes an injected predicate `fails` on ids.
- `UpgradeLoop.RunUpgradeLevels` is the imperative loop. It is proved equal to
  the functional model.

The modules are:

- `Wrappers`: Option and Result.
- `Levels`: the tiers, their rank and the next tier.
- `Users`: the user record and the record before its tier is defaulted.
- `UserService`: the rule, the pass and the store operations.
- `PromotionProperties`: what a pass emits.
- `StoreEffects`: what a pass leaves in the store, with and without a fault.
- `UpgradeLoop`: the loop.
- `Fixture`: the five-user test fixture and the test scenarios.

The Java definitions of the `Level` and `User` classes are not modelled. Their shape comes
from how the service and its tests use them:

- `nextLevel` takes BASIC to SILVER and SILVER to GOLD. GOLD has no next tier.
- `upgradeLevel` changes only the tier.

Because `Level` has exactly three values, the `default:` branch of
`canUpgradeLevel`, which throws on an unknown tier, cannot be reached.
`CanUpgradeLevel` has no such case.

Two behaviours of the code shape the model:

- The pass is not all-or-nothing. `UserServiceImpl` has no transaction, the
  rollback test's proxy wiring is commented out, and that test checks only the
  failing user's row. `StoreEffects.AbortedPassEffectOnStore` states what the
  code does: updates issued before the failure stay applied, and the failing
  user's row is unchanged.
- Notification failures are not handled. `sendUpgradeEMail` is a bare
  `println`. The model records the notification only as a trace event.

`getAll` returns the store's rows as they are. `UserService.GetAll` is the
identity on the store, and `UserService.GetAllAgreesWithGet` is the property
that stands for it: it lists a user exactly when `get` finds that user's id.

The properties of a whole pass over a store assume its rows are keyed by id.
`UserService.AddKeepsUniqueIds`, `UserService.UpdateKeepsUniqueIds` and
`UserService.DeleteAllHasUniqueIds` show that the store operations keep this.

## Model

| member | source | states |
|---|---|---|
| Levels.NextLevel | src/test/java/com/example/spring_start/user/service/UserServiceTest.java:122-128 | the next tier exists exactly when the tier is not GOLD, and it is one rank higher |
| Levels.NextLevelIsRankSuccessor | src/test/java/com/example/spring_start/user/service/UserServiceTest.java:152-155 | NextLevel is exactly the rank-successor relation, so no tier is ever skipped |
| Users.UpgradeLevel | src/main/java/com/example/spring_start/user/service/UserServiceImpl.java:51 | upgrading fails only for GOLD; otherwise the tier rises by one rank and every other field is kept |
| UserService.CanUpgradeLevel | src/main/java/com/example/spring_start/user/service/UserServiceImpl.java:36-48 | BASIC is eligible iff login >= 50; SILVER iff recommend >= 30; GOLD never; an eligible user always has a next tier, so the unknown-tier error cannot arise |
| UserService.UpgradeStep | src/main/java/com/example/spring_start/user/service/UserServiceImpl.java:50-54 | one user's step yields no effect exactly when that user is not eligible |
| UserService.UpgradeStepIsUpdateThenNotify | src/main/java/com/example/spring_start/user/service/UserServiceImpl.java:50-54 | an eligible user's step is exactly two effects: the update of its upgraded form, then the notification of that same user |
| UserService.UpgradeLevels | src/main/java/com/example/spring_start/user/service/UserServiceImpl.java:26-33 | the pass emits effects in pairs, at most two per user, and never for a user left at BASIC |
| UserService.UpgradeLevelsWithFault | src/test/java/com/example/spring_start/user/service/UserServiceTest.java:183-186 | an aborted pass names the id of an eligible user whose step was made to fail; a completed pass had no such user |
| UserService.Get | src/main/java/com/example/spring_start/user/service/UserServiceImpl.java:61-64 | a found user is in the store with the requested id; NotFound exactly when no stored user has that id |
| UserService.GetAllAgreesWithGet | src/main/java/com/example/spring_start/user/service/UserServiceImpl.java:66-69 | getAll lists a user with a given id exactly when get finds that id |
| UserService.Update | src/main/java/com/example/spring_start/user/service/UserServiceImpl.java:71-74 | afterwards get returns the new user for its id if that id was stored, NotFound if not; every other id reads back as before; row count and ids are kept |
| UserService.DeleteAll | src/main/java/com/example/spring_start/user/service/UserServiceImpl.java:76-79 | afterwards every id reads back NotFound |
| UserService.AddKeepsUniqueIds | src/main/java/com/example/spring_start/user/service/UserServiceImpl.java:56-59 | adding to a store keyed by id leaves it keyed by id |
| UserService.UpdateKeepsUniqueIds | src/main/java/com/example/spring_start/user/service/UserServiceImpl.java:71-74 | updating a store keyed by id leaves it keyed by id |
| UserService.DeleteAllHasUniqueIds | src/main/java/com/example/spring_start/user/service/UserServiceImpl.java:76-79 | the emptied store is keyed by id |
| UserService.WithDefaultLevel | src/main/java/com/example/spring_start/user/service/UserServiceImpl.java:57 | a missing tier becomes BASIC, a given tier is kept, and all other fields are copied |
| UserService.DefaultingKeepsGivenLevel | src/main/java/com/example/spring_start/user/service/UserServiceImpl.java:56-57 | a user whose tier is set, GOLD included, passes through the defaulting unchanged |
| UserService.Add | src/main/java/com/example/spring_start/user/service/UserServiceImpl.java:56-59 | adding a new id then getting it returns the user with its tier defaulted; a duplicate id is refused; other ids read back as before |
| PromotionProperties.EligibilityIsMonotone | src/main/java/com/example/spring_start/user/service/UserServiceImpl.java:39-42 | at the same tier, more logins or recommendations never make a user ineligible |
| PromotionProperties.PromotionIsOneStep | src/main/java/com/example/spring_start/user/service/UserServiceImpl.java:29-30 | a promoted user moves exactly one tier up with all other fields unchanged, never BASIC to GOLD |
| PromotionProperties.UpgradeLevelsAppend | src/main/java/com/example/spring_start/user/service/UserServiceImpl.java:28-32 | evaluating one more user only appends that user's effects after all earlier ones |
| PromotionProperties.UpgradeLevelsExtend | src/main/java/com/example/spring_start/user/service/UserServiceImpl.java:28-32 | the effects for the first i+1 users are those for the first i followed by user i's |
| PromotionProperties.UpgradeLevelsPrefix | src/main/java/com/example/spring_start/user/service/UserServiceImpl.java:27-32 | the pass over any prefix of the users is a prefix of the whole pass, so effects follow store order |
| PromotionProperties.UpdatesAreEligibleUsersPromoted | src/main/java/com/example/spring_start/user/service/UserServiceImpl.java:26-33 | the users sent to update are exactly the eligible users, in store order, once each, each promoted one tier |
| PromotionProperties.TraceLengthCountsEligibleUsers | src/test/java/com/example/spring_start/user/service/UserServiceTest.java:150 | a pass emits exactly two effects per eligible user |
| PromotionProperties.PassPairsUpdateWithNotification | src/main/java/com/example/spring_start/user/service/UserServiceImpl.java:50-54 | each update is immediately followed by the notification of the same user, and each notification immediately follows that user's update |
| PromotionProperties.EffectsComeFromEligibleUsers | src/main/java/com/example/spring_start/user/service/UserServiceImpl.java:29-30 | every effect concerns the promoted form of some eligible input user |
| PromotionProperties.GoldUserIsNeverTouched | src/main/java/com/example/spring_start/user/service/UserServiceImpl.java:43-44 | with unique ids, no effect of a pass concerns a GOLD user, whatever its counters |
| StoreEffects.ApplyStep | src/main/java/com/example/spring_start/user/service/UserServiceImpl.java:50-54 | replaying one user's step replaces the row with that user's id by its promoted form if it was eligible, and leaves every other row alone |
| StoreEffects.ApplyPassRow | src/main/java/com/example/spring_start/user/service/UserServiceImpl.java:26-33 | replaying a pass over users with unique ids replaces each row by the promoted user of the same id if that user was eligible, and leaves all other rows alone |
| StoreEffects.PassEffectOnStore | src/test/java/com/example/spring_start/user/service/UserServiceTest.java:122-128 | after a pass over a store keyed by id, each row is promoted one tier if eligible and unchanged otherwise |
| StoreEffects.FaultStopsAtFirstFailingUser | src/test/java/com/example/spring_start/user/service/UserServiceTest.java:169-186 | a faulted pass aborts at the first eligible user whose step fails, after exactly the effects for the users before it; otherwise it completes with the ordinary trace |
| StoreEffects.NoFaultMeansOrdinaryPass | src/test/java/com/example/spring_start/user/service/UserServiceTest.java:183-185 | if no eligible user's step fails, the faulted pass equals the ordinary pass |
| StoreEffects.AbortedPassEffectOnStore | src/test/java/com/example/spring_start/user/service/UserServiceTest.java:101-120 | after a failed pass, rows before the failure point are promoted if eligible, and the failing row and all rows after it are unchanged |
| UpgradeLoop.RunUpgradeLevels | src/main/java/com/example/spring_start/user/service/UserServiceImpl.java:26-33 | the loop stops at the first eligible user whose step fails, or after the last user if none fails, and its trace is exactly the pass over the users before that point |
| Fixture.FixtureIdsAreUnique | src/test/java/com/example/spring_start/user/service/UserServiceTest.java:43-50 | the five fixture users have pairwise distinct ids |
| Fixture.FixturePass | src/test/java/com/example/spring_start/user/service/UserServiceTest.java:53-79 | on the fixture a pass updates exactly joytouch to SILVER and then madnite1 to GOLD, so two updates |
| Fixture.FixtureFailingOnMadnite1 | src/test/java/com/example/spring_start/user/service/UserServiceTest.java:101-117 | when madnite1's step fails, the pass aborts there after joytouch's update and notification |
| Fixture.FixtureStoreAfterFailure | src/test/java/com/example/spring_start/user/service/UserServiceTest.java:118 | after that failed pass madnite1's row is still SILVER, and joytouch's row, updated before the failure, is SILVER |
| Fixture.FixtureAdd | src/test/java/com/example/spring_start/user/service/UserServiceTest.java:81-97 | adding the GOLD user keeps GOLD, and adding a user with no tier stores BASIC |

## Left out

- UserDao's JDBC implementation is not part of this model: connections, prepared statements, the statement strategy and resource cleanup. The store is an abstract sequence of rows keyed by id. `update` overwrites the row with the same id and is a no-op when there is none. `add` refuses an id that is already stored. `UserDao` has no `update`/`getAll`, and its `add`/`get` carry only id, name and password. So the round trip in `UserService.Add` is a property of the abstract store, not of that DAO.
- Mail sending: `sendUpgradeEMail` only prints, and its mailer code is commented out. It is modelled only as the `Notified` trace event.
- Transactions and rollback: no transaction code exists in the service, so none is modelled. Passes that fail part-way keep their earlier updates (see `StoreEffects.AbortedPassEffectOnStore`).
- The `UserService` interface and the `setUserDao`/`setMailSender` setters: wiring with no behaviour of its own.
- The test subclass's `getAll` override, which updates every user and returns null. `upgradeLevels` reads users through the DAO and never calls the overridden method. The `readOnlyTransactionAttribute` test depends on the Spring test configuration (`test-applicationContext.xml`), which is not modelled, and on a `testUserService` field that is never initialised (UserServiceTest.java:39).
- Aliasing: the Java code mutates the shared `User` objects that the caller's list holds. The model uses values, so a promoted user is a new value carried by the trace.
- UserService.Update: takes a `User`, whose tier is always set. `UserServiceImpl.update` passes its user on without defaulting the tier, and the tests set a null tier themselves. A stored row with a null tier would make `canUpgradeLevel` throw a NullPointerException and abort the pass. The model assumes every stored row has a tier.
- Integer width: logins and recommendations are `nat`. The fixture's `Integer.MAX_VALUE` is just a large number, and the service never adds to the counters, so 32-bit wrap-around never arises.
