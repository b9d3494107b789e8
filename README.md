# Coordinator registry and selector of presto-gateway, in Dafny

The gateway keeps an in-memory list of backend Presto coordinators and a
rotation cursor, and hands out one coordinator base URL (`http://host:port`)
per inbound query. This project models that component, `CoordinatorService`,
as a Dafny class with the same two pieces of state:

- `coordinators`, the list of `(host, port, active)` records (`seq<Coordinator>`);
- `index`, the rotation cursor (`nat`).

It also models the four operations that change that state:

- **reload** replaces the list with the store's active coordinators;
- **add** admits a node only if the liveness probe says it is live, and appends it only if the store inserted a row;
- **fetch** picks the next coordinator and builds its URL;
- **remove** deletes the node from the store and then drops its first record from the list.

Two pure parts are modelled as functions. One is the liveness decision: live
only on HTTP 200 with `starting` present and false. Its partner is its own
if-and-only-if `ensures` together with `Liveness.RejectsByDefault`. The other is
the URL text, whose partner is a parser that reads it back. The selection rule is
a state machine (`Rotation.Step`) whose runs are characterised by lemmas.

Files:

- `Wrappers.dfy`: `Option` and `Result`.
- `Coordinators.dfy`: the record, its `(host, port)` key, decimal text of an int, `Url` and its inverse `ParseUrl`.
- `Liveness.dfy`: the probe outcome and the `IsActive` decision.
- `Rotation.dfy`: the selection rule as a state machine, and what repeated selections return.
- `Registry.dfy`: first-match lookup and removal on the list.
- `Service.dfy`: the `CoordinatorService` class, plus two scenarios over fresh services.

Modelling decisions:

- **Record equality.** `CoordinatorPO.equals` is not part of this model. Removal builds a probe record that carries only host and port (CoordinatorService.java:129). The model therefore takes equality on the `(host, port)` key and ignores `active`. This is an assumption.
- **Inputs from outside.** The store's results are method parameters: the active list (`None` for Java `null`), the insert row count and the delete row count. So is the probe's outcome.
- **Sequential execution.** Calls run one at a time. So the compare-and-set that resets the cursor always succeeds and is an assignment.
- **Cursor width.** The cursor is a `nat`. Sequentially it is never negative, and it is incremented only while it is below the list size. So the 32-bit `AtomicInteger` overflow cannot be reached.

The model follows the code as written; in particular:

- Selection is not a strict round robin. The rotation has period n + 1 and picks the first coordinator twice per period (`Rotation.PeriodCounts`). From the cursor value n, which the first round leaves behind, n calls miss the last coordinator (`Rotation.NotStrictRoundRobin`).
- A zero-row insert returns the list unchanged, with no error.
- Selection has no retry.
- Admission does not check for a duplicate key. So one removal can leave the key present (`Registry.DuplicateSurvivesRemoval`). With distinct keys it cannot (`Registry.RemoveFirstDistinct`).
- Reload does not reset the cursor. The next selection resets it if the new list has at most as many records as the cursor.

## Model

| member | source | states |
|---|---|---|
| `Service.CoordinatorService.constructor` | src/main/java/personal/leo/presto/gateway/service/CoordinatorService.java:34-36 | a new service has an empty list and the cursor at 0 |
| `Service.CoordinatorService.ReloadCoordinators` | src/main/java/personal/leo/presto/gateway/service/CoordinatorService.java:50-56 | the list becomes the store's active list, or empty when the store gives null or an empty list, whatever it held before; the cursor is untouched; so two reloads with the same store result leave the same list |
| `Service.CoordinatorService.AddCoordinator` | src/main/java/personal/leo/presto/gateway/service/CoordinatorService.java:58-70 | an inactive probe fails with `Inactive(host, port)` and leaves the list unchanged; an active probe with insert count > 0 appends exactly `(host, port, true)`; with count <= 0 the list is unchanged and no error is raised; on an active probe the current list is returned; the cursor is untouched |
| `Service.CoordinatorService.FetchCoordinatorUrl` | src/main/java/personal/leo/presto/gateway/service/CoordinatorService.java:110-126 | an empty list fails with `NoActiveCoordinator` and changes nothing; cursor i below the size returns the URL of element i and moves the cursor to i + 1; otherwise returns the URL of element 0 and resets the cursor to 0; the list is unchanged; the result is `Step` of the size and old cursor, and the cursor ends in [0, size] |
| `Service.CoordinatorService.RemoveCoordinator` | src/main/java/personal/leo/presto/gateway/service/CoordinatorService.java:128-145 | a delete count <= 0 fails with `RemovalFailed(host, port)` and keeps the list; a positive count succeeds and the list becomes `RemoveFirst` of the old list on the key; the cursor is untouched |
| `Service.RotationScenario` | src/main/java/personal/leo/presto/gateway/service/CoordinatorService.java:110-126 | with [(a,1),(b,2),(c,3)] loaded into a fresh service, six selections return a:1, b:2, c:3, a:1, a:1, b:2 |
| `Service.FailedRemovalScenario` | src/main/java/personal/leo/presto/gateway/service/CoordinatorService.java:138-145 | removing (b,2) when the store deleted no row fails and the list still holds (b,2) |
| `Liveness.IsActive` | src/main/java/personal/leo/presto/gateway/service/CoordinatorService.java:76-107 | the node is live exactly on the outcome "status 200, `starting` present and false"; every other outcome, including an exception, yields false and no error |
| `Liveness.RejectsByDefault` | src/main/java/personal/leo/presto/gateway/service/CoordinatorService.java:87-106 | an exception, any non-200 status, and a missing or true `starting` each yield "not live" |
| `Coordinators.Url` | src/main/java/personal/leo/presto/gateway/service/CoordinatorService.java:125 | the URL starts with `http://` and has a ':' right after the host |
| `Coordinators.NatText` | src/main/java/personal/leo/presto/gateway/service/CoordinatorService.java:125 | a port's magnitude is written as a non-empty string of decimal digits without a leading zero |
| `Coordinators.IntText` | src/main/java/personal/leo/presto/gateway/service/CoordinatorService.java:125 | the decimal text of the port contains no ':' |
| `Coordinators.IntTextRoundTrip` | src/main/java/personal/leo/presto/gateway/service/CoordinatorService.java:125 | every int, negative ones included, is read back from its decimal text |
| `Coordinators.UrlRoundTrip` | src/main/java/personal/leo/presto/gateway/service/CoordinatorService.java:125 | splitting the URL at its last ':' after the scheme gives back exactly the record's host and port, for every host |
| `Coordinators.UrlIdentifiesKey` | src/main/java/personal/leo/presto/gateway/service/CoordinatorService.java:125 | two records get the same URL if and only if they have the same (host, port) |
| `Rotation.Step` | src/main/java/personal/leo/presto/gateway/service/CoordinatorService.java:115-123 | one selection over a non-empty list picks an index below the size and leaves the cursor in [0, size], either reset to 0 or one past the pick |
| `Rotation.CursorBounded` | src/main/java/personal/leo/presto/gateway/service/CoordinatorService.java:115-123 | after one or more selections over an unchanged list, from any cursor, the cursor is at most the size |
| `Rotation.CursorCompose` | src/main/java/personal/leo/presto/gateway/service/CoordinatorService.java:115-123 | k selections after j selections leave the cursor where j + k selections do |
| `Rotation.PickFromZero` | src/main/java/personal/leo/presto/gateway/service/CoordinatorService.java:115-123 | from cursor 0, after q periods of n + 1 calls plus r <= n calls the cursor is r, and that call returns r, or 0 when r = n |
| `Rotation.FirstRound` | src/main/java/personal/leo/presto/gateway/service/CoordinatorService.java:115-123 | from cursor 0, n calls return 0..n-1 in order and leave the cursor at n; call n+1 returns 0 and resets the cursor to 0; call n+2 returns 0 again |
| `Rotation.Periodic` | src/main/java/personal/leo/presto/gateway/service/CoordinatorService.java:115-123 | from any cursor in [0, n] the cursor and the picks repeat with period n + 1 |
| `Rotation.PeriodCounts` | src/main/java/personal/leo/presto/gateway/service/CoordinatorService.java:115-123 | one period from cursor 0 is 0, 1, ..., n-1, 0: index 0 twice, every other index once |
| `Rotation.NotStrictRoundRobin` | src/main/java/personal/leo/presto/gateway/service/CoordinatorService.java:115-123 | from cursor n with n >= 2, n calls return 0, 0, 1, ..., n-2 and never the last index |
| `Registry.IndexOfKey` | src/main/java/personal/leo/presto/gateway/service/CoordinatorService.java:141 | finds the position of the first record with the key, and no position exactly when no record has it |
| `Registry.RemoveFirst` | src/main/java/personal/leo/presto/gateway/service/CoordinatorService.java:141 | removal shortens the list by one exactly when the key is present, and only drops records |
| `Registry.RemoveFirstSpec` | src/main/java/personal/leo/presto/gateway/service/CoordinatorService.java:141 | an absent key leaves the list unchanged; a present key loses exactly its first record with that key, the rest kept in place, so exactly one record with the key goes; every record with another key is kept in order |
| `Registry.RemoveFirstDistinct` | src/main/java/personal/leo/presto/gateway/service/CoordinatorService.java:141 | on a list with distinct keys, removal leaves the key absent and the keys distinct |
| `Registry.DuplicateSurvivesRemoval` | src/main/java/personal/leo/presto/gateway/service/CoordinatorService.java:141 | a list that holds the same node twice still holds it after one removal |

## Left out

- Concurrency is not modelled. That covers the copy-on-write list, the atomic cursor, the compare-and-set race on the cursor reset, and selection racing with removal. Calls are modelled one at a time.
- The HTTP client, the `/v1/info` request URL, the one-second socket timeout and reading the response body are network I/O. The probe is an abstract `ProbeOutcome`.
- JSON parsing belongs to a foreign library. The parsed `starting` field is an `Option<bool>`, and a parse failure, including a body that parses to nothing, is the `Failed` outcome.
- The database mapper's row counts and lists are parameters. Exceptions the mapper itself throws are not modelled.
- Spring wiring, the start-up hook that calls reload, the unused query service and logging are framework concerns. The constructor followed by `ReloadCoordinators` has the same effect as start-up.
- The two delegating overloads are merged into the modelled operations. `isActive(CoordinatorPO)` becomes `IsActive` and `removeCoordinator(host, port)` becomes `RemoveCoordinator`.
- `CoordinatorPO` is not part of this model. Only its host, port and active fields are represented.
- The exception message texts are not modelled. Each error is a `ServiceError` case carrying the host and port.
- Service.CoordinatorService.AddCoordinator: the Java method returns the live list object, which later mutations change. The model returns a copy of the list value, so aliasing is not captured.
- Ports are unbounded `int`s. A Java `int` port renders the same way, and the 32-bit range does not affect any property stated here.
