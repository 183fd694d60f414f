# DriftGate: a verified model of the contract guard and the schema monitor

DriftGate watches the JSON a service sends and tells its consumers when the shape of it
changes. This project models the parts of it that decide and remember, and proves what
they promise:

- **The versioned registry** (`app/runtime/registry.py`, `service.py`). Each `/track` call is
  a transaction of many statements. `RegistryModel` interleaves any number of them over
  committed tables, private writes, advisory locks and UNIQUE constraints; the modules
  around it prove what every interleaving keeps, that its inserts never meet exactly when
  all processes derive the same lock ids, what the version table is a refinement of, and
  that with inline delivery off the webhook outbox is transactional. `RegistryService` is the same service
  as a class that updates its tables statement by statement; a call nobody interrupts is
  proved to be a run of the protocol, so the protocol's invariants hold between calls. The
  fingerprint and the class of a schema against the one before it are functions the protocol
  is given; `RegistryCompatibility` takes the class to be the summary of the diff.
- **The webhook outbox** (`app/workers/outbox_worker.py`, `app/runtime/webhook.py`).
  `OutboxModel` interleaves workers, inline deliveries, replays and crashes commit by commit.
  `OutboxSafety` proves that a row's status is always backed by the delivery log and the dead
  letters; `OneWorker`, `OutboxDrain` and `OutboxFairness` bound, space and end the attempts of
  a row when one worker runs; `EndToEnd` runs the outbox beside the registry, from the commit
  of a version to the end of its deliveries; `OutboxWorker` is the worker's poll and the delivery loop as a class, tied to
  the protocol in the same way.
- **The runtime classifier** (`app/runtime/canonical.py`, `classifier.py`) and the engine before
  it (`app/core/engine.py`). Schema trees are flattened to path-keyed dictionaries and
  compared path by path. Every item of the diff is proved to say what the two payloads hold
  (`DiffItems`, `LegacyItems`), flattening to lose nothing, the diff to be empty exactly
  when nothing visible differs, compatibility to compose along the versions, and the two
  engines to agree.
- **The structural string** (`app/core/parser.py`), proved to be a complete invariant of a
  payload's shape, where shapes are defined without reference to any text.
- **The scheduled monitor** (`backend/app/core/`): inference as a walk that mutates
  accumulators, the diff of two inferred schemas, the hash shortcut, and the normaliser with
  its size cap.

Some promises hold only under a condition. Each has an input for which it fails and the
condition under which it holds, an if-and-only-if unless it is about the form of keys:

- A breaking change between two snapshots is reported by some consecutive pair between them,
  except exactly when the path is an array in every snapshot and each change of its item
  type comes with one of nullability (`SchemaHistory.LostOverDocuments`; for arbitrary node
  lists also with one of enum values, `SchemaHistory.LostIffMasked`). Three responses lose
  one without any breaking report at any path (`SchemaHistory.ThreeResponsesLoseOne`).
- A change of a field that is not breaking is risky exactly when new values are admitted,
  except that the end of null hides new strings, which is then reported as safe
  (`AdmittedValues.SeverityMeans`, `AdmittedValues.NullGoneHidesNewString`).
- A SAFE successor contains the schema exactly when that shows no object with a key `type`,
  and a successor that is not BREAKING keeps its paths exactly when no such object has an
  empty list or object under `required` (`TypedObjects.SafeContainsIffUntyped`,
  `TypedObjects.CompatibleIffRequired`, `VersionChain.TypeKeyHidesBreakingChange`).
- The schema hash changes exactly when the diff reports something or a common path differs
  in whether it is required, in whether its values are listed, or in the item type left on
  what is not an array (`SchemaHash.InferredHashSees`, `SchemaHash.OptionalChangesHashOnly`).
- No insert waits or violates a UNIQUE constraint exactly when all processes derive the same
  lock ids (`RegistryLocks.NeverClashesIffSharedLocks`, `RegistryLocks.SaltedHashesClash`).
- A body over the size cap is replaced by the marker unless it is a number whose cut text is a
  number again (`Normalizer.OverCapIsMarker`, `Normalizer.NumbersCanBeCut`).
- Flattening tells payloads apart when their keys hold no dot and no opening bracket, the
  structural string when they hold no bracket and no semicolon; a dot and a semicolon can
  make different payloads alike (`VersionChain.DottedKeyHidesChange`,
  `StructuralString.PunctuatedKeyCollides`). Colons and commas in keys do the string no harm.

Where the code and its documentation disagree the model follows the code.
`docs/FAILURE_MODES.md` says that concurrent registrations of one endpoint cannot create
duplicate versions because of the advisory lock; the lock id comes from Python's per-process
`hash`, so across processes it is the UNIQUE constraints that prevent it, and one of the
calls aborts (`RegistryLocks.TwoProcessesCanClash`). It also says that inactive subscriptions never
reach the dead letters; in the worker they use up their attempts and do
(`OutboxDrain.RowsDrain`).

The assumptions are those of the setting: SHA-256 is an uninterpreted function, with
injectivity named where it is used; the database is READ COMMITTED and fails only by
constraint abort or crash; there is one non-decreasing clock. HTTP answers, the polled row
ids, the request payloads and `json.loads` are parameters. A clean key is nonempty and
holds neither `.` nor `[`.

`dafny verify dfyconfig.toml` checks the whole project.

## Files

| files | subject |
|---|---|
| `Texts`, `Json`, `Paths`, `Severities` | strings as Python orders and prints them, JSON values, rendered field paths, classes and ranks |
| `Classifier`, `ClassifierLoops`, `Drift`, `Compatibility`, `VersionChain`, `TypedObjects`, `DiffItems` | canonical schemas, flattening, the diff, what its items say, when it is empty, what summaries along a chain guarantee, and for which payloads |
| `LegacyEngine`, `LegacyItems` | the older engine, its agreement with the classifier, and the severities it sets |
| `StructuralString` | the canonical structural string |
| `EndpointRows`, `RegistryModel`, `RegistryChain`, `RegistryRuns`, `RegistryLocks`, `RegistryHistory`, `RegistryOutbox`, `RegistryAnnouncements`, `RegistryCompatibility`, `RegistryService` | the registry protocol and the service |
| `OutboxModel`, `OutboxSafety`, `OneWorker`, `OutboxDrain`, `OutboxFairness`, `OutboxWorker`, `EndToEnd` | the outbox protocol, the worker, and the registry and the outbox side by side |
| `SchemaInfer`, `InferOrder`, `InferLeaf`, `InferOptional`, `InferTypes`, `InferDocument`, `InferWalk`, `SchemaDiff`, `SchemaHistory`, `AdmittedValues`, `SchemaHash` | schema inference of the monitor, its diff alone and over histories, its hash |
| `JsonText`, `Normalizer`, `ReadBack` | JSON texts, the compact printer, a reader of what it prints, and the size cap |

## Model

| member | source | states |
|---|---|---|
| EndpointRows.OneIdPerEndpoint | app/runtime/registry.py:19-89 | However calls on any keys interleave, all committed calls on one key are answered with one row id, calls on different keys with different ones, and the second look of a call always finds a row. |
| EndpointRows.RunsKeepInv | app/runtime/registry.py:52-69 | In every such state a call that inserted a key is alone with it until it commits, and every answered id is that of the committed row. |
| RegistryChain.RunsKeepChain | app/runtime/registry.py:122-235 | In every state of every run of any number of calls, whatever lock ids they use, each endpoint has versions 1..n, one current row and that the last, distinct fingerprints and ids, each row linked to the row before it, and stores the class of its difference from that row (SAFE for the first). |
| RegistryChain.StepKeepsInv | app/runtime/registry.py:141-224 | Every statement, commit, abort and subscription change keeps the chain together with what the transactions in flight have read and privately written; at most one uncommitted row per endpoint. |
| RegistryChain.CommitExtendsByOne | app/runtime/registry.py:193-224 | The commit of an inserted version adds exactly that row to its endpoint, clears the current flag of the others, changes no other field and no other endpoint. |
| RegistryChain.StaleInsertAborts | migrations/003_event_driven_registry.sql:22-23 | An insert hits UNIQUE(endpoint, version) or UNIQUE(endpoint, fingerprint) and aborts exactly when another commit overtook its read of the current row or committed its fingerprint; all others go on. |
| RegistryChain.InsertExtends | app/runtime/registry.py:190-224 | Whatever its transaction read before, a row that clashes with no committed row is the next version, linked to the last one, with a new fingerprint. |
| RegistryChain.InsertIsAlone | app/runtime/registry.py:201-224 | An insert that does not wait for another uncommitted one is the only uncommitted row of its endpoint. |
| RegistryChain.PublishExtends | app/runtime/registry.py:193-224 | Committing a pending row to a chain gives a chain one longer. |
| RegistryChain.CurrentIsLast | app/runtime/registry.py:92-119 | On a chain the current-row query returns the last version, or nothing when there is none. |
| RegistryChain.FindFpSound | app/runtime/registry.py:141-160 | The fingerprint lookup returns a row with the fingerprint, and nothing only when no row has it. |
| RegistryLocks.OneProcessNeverClashes | app/runtime/registry.py:162-224 | When all calls derive the same lock id for an endpoint, as calls of one process do, an insert never waits for another uncommitted insert and never violates a UNIQUE constraint. |
| RegistryLocks.ProcessLockId | app/runtime/registry.py:14-16 | A lock id is a non-negative number below 2147483647, whatever the sign of the hash. |
| RegistryLocks.LockIdMeans | app/runtime/registry.py:14-16 | The lock id is the remainder of the hash's magnitude by 2147483647. |
| RegistryLocks.NeverClashesIffSharedLocks | app/runtime/registry.py:162-224 | In every reachable state no insert waits for another uncommitted one or violates a UNIQUE constraint if and only if all processes derive the same lock id for every endpoint. |
| RegistryLocks.HashesDecideClashes | app/runtime/registry.py:14-16 | With the ids taken from each process's string hash: processes that hash alike never meet, and two processes whose hashes of one endpoint reduce to different ids do. |
| RegistryLocks.SaltedHashesClash | app/runtime/registry.py:14-16 | Hashes salted by the process are such: calls meet. |
| RegistryLocks.RunsKeepLocks | app/runtime/registry.py:14-16 | In such runs, from taking the lock to the commit that releases it, a call is alone with its lock id and what it has read is still so. |
| RegistryLocks.SameEndpointExcludes | app/runtime/registry.py:162-164 | Two calls between lock and commit are on different endpoints. |
| RegistryLocks.TwoProcessesCanClash | app/runtime/registry.py:14-16 | Any two processes whose lock ids for an endpoint differ reach a state in which one call's insert meets the other's committed row and aborts. |
| RegistryHistory.TableRefinesFirstSeen | app/runtime/registry.py:141-235 | After any run an endpoint's fingerprints are the first-occurrence de-duplication of those submitted, in commit order; every committed call was answered with its fingerprint's position, with or without the lock; a call reports an insertion exactly when it is the first committed with its fingerprint. |
| RegistryHistory.ExactlyOneInserts | app/runtime/registry.py:226-235 | For every committed call there is exactly one committed call with its endpoint and fingerprint that inserted the version. |
| RegistryHistory.FirstSeenIsDeduplication | app/runtime/registry.py:141-188 | The simple list has exactly the submitted fingerprints, in the order of their first occurrences. |
| RegistryHistory.LastSeenBefore | app/runtime/registry.py:169-188 | A committing call's fingerprint was submitted before exactly when the table has it. |
| RegistryAnnouncements.OutboxIsTransactional | app/runtime/service.py:49-87 | With inline delivery off, over any run with crashes: a committed version with a predecessor was published by one commit, before which it had no outbox row; since then it has exactly one for each subscription that this transaction's own select, between its begin and the commit, found active, allowing the version and with a threshold at most the class, and none for any other. First and uncommitted versions have none. |
| RegistryAnnouncements.MatchingThroughoutIsTold | app/runtime/service.py:49-87 | So a subscription that matches throughout the transaction that published a version is told of it exactly once, one that matches at no moment of it never. |
| RegistryAnnouncements.RunsTraceVersions | app/runtime/service.py:133-241 | Every version with a predecessor is traced to the begin, the select and the commit of one transaction, which submitted its schema and read what is recorded for it. |
| RegistryAnnouncements.RunsTraceTxs | app/runtime/service.py:133-241 | Every transaction in flight is traced to its own begin and, once it enqueues, to its own select. |
| RegistryOutbox.RunsKeepOutbox | app/runtime/service.py:184-241 | What a transaction has written to the outbox is the announcement, so far, to what its select read; a committed version with a predecessor has exactly the announcement to what was read for it, any other none. |
| RegistryOutbox.CommitAnnounces | app/runtime/service.py:58-87 | A commit announces its own version to all it selected and changes no other version's announcements. |
| RegistryOutbox.AffectedCount | app/runtime/subscriptions.py:126-153 | The affected subscriptions contain an id once if a subscription with it is active, allows the version and has a threshold at most the class, and not at all otherwise. |
| RegistryOutbox.HigherClassesReachMore | app/runtime/subscriptions.py:139-153 | A higher class reaches every subscription a lower one does, BREAKING all that the query returns, and a threshold that names no class lets every class through. |
| RegistryOutbox.ThresholdsMean | app/runtime/subscriptions.py:139-153 | For each named threshold, exactly which of the five classes reach it: all for SAFE, all but SAFE for BACKWARD_COMPATIBLE, then FORWARD_COMPATIBLE, RISKY and BREAKING upwards. |
| RegistryCompatibility.StoredClassIsSummary | app/runtime/service.py:184-231 | In every committed state a version with a predecessor stores exactly the summary of the diff of their schemas, and a first version SAFE; the provisional SAFE is never visible. |
| RegistryCompatibility.StoredClassInAnyOrder | app/runtime/service.py:184-200 | For payloads with clean keys and without a key `type` it is also the summary of the diff against the predecessor as the database gives it back, with its keys in any order. |
| Compatibility.OrderIsNoDifference | app/runtime/classifier.py:102-123 | For such payloads the order of keys at any depth makes no difference to the diff. |
| RegistryCompatibility.StoredClassesCompose | app/runtime/service.py:184-231 | In every reachable state: if none of the stored classes after version i up to j is BREAKING, every flat path of i is in j with its type kept or widened, for payloads whose schemas show no object with a key `type` and an empty list or object under `required`. |
| RegistryCompatibility.StoredSafetyComposes | app/runtime/service.py:184-231 | If all of them are SAFE, i's flat schema is contained in j's, for payloads whose schemas show no object with a key `type`. |
| RegistryCompatibility.NewVersionsHaveADiff | app/runtime/service.py:184-200 | In every reachable state, for payloads with clean keys and no nested empty object, a version with a predecessor has at least one difference from it, with no assumption on the hash. |
| RegistryService.TrackedIsReachable | app/runtime/service.py:133-241 | The effect of a call that nobody interrupts is that of a run of the protocol. |
| RegistryService.Registry.constructor | migrations/003_event_driven_registry.sql:12-24 | A new registry is the empty, reachable state. |
| RegistryService.Registry.InsertUnderLock | app/runtime/registry.py:167-235 | Under the lock: returns the row with the fingerprint and changes nothing, or clears the flags and adds the next version linked to the current one. |
| RegistryService.Registry.UpsertSchemaVersion | app/runtime/registry.py:122-235 | Reports an insertion exactly when no row had the fingerprint; otherwise returns that row and changes nothing; on insertion the table ends as the published next version. |
| RegistryService.Registry.Reclassify | app/runtime/service.py:184-231 | Stores, for the row's id only, the class of the row's schema against the schema stored under its predecessor's id. |
| RegistryService.Registry.ReclassifyInserted | app/runtime/service.py:184-231 | For the version just inserted that is its class against the version current before, and every other row keeps its class. |
| RegistryService.PriorAfterInsert | app/runtime/service.py:185-197 | Reading the predecessor by id after the insert still gives the schema it had before. |
| RegistryService.QueryThenRank | app/runtime/subscriptions.py:126-153 | Filtering by the query and then by rank selects the subscriptions that match all four conditions. |
| RegistryService.KeepAtLeast | app/runtime/subscriptions.py:139-153 | The loop keeps, in order, exactly the queried rows whose threshold the class reaches. |
| RegistryService.SelectAffected | app/runtime/subscriptions.py:119-153 | Returns exactly the affected subscriptions, in table order. |
| RegistryService.Registry.EnqueueWebhooks | app/runtime/service.py:49-87 | Appends one outbox row for each affected subscription, in order, and returns their number. |
| RegistryService.Registry.ClassifyAndAnnounce | app/runtime/service.py:184-241 | Leaves the tables with the version reclassified and announced. |
| RegistryService.Registry.TrackContract | app/runtime/service.py:133-278 | One call takes a reachable registry to the reachable state of the protocol for that call; it is answered with the stored row of its fingerprint, whose version is the row's place in the table (for a new fingerprint the one after the last, for a known one the tables stay as they are), whether the fingerprint was new, the class, and how many subscriptions hear of it. |
| RegistryService.AnswerIsStored | app/runtime/registry.py:141-235 | The row a call is answered with is that of its fingerprint, number i + 1 at place i, whether found or added. |
| OutboxSafety.StatusIsBacked | app/workers/outbox_worker.py:42-148 | In every state of every run of workers, inline deliveries, replays and crashes: a DELIVERED row has a successful attempt logged for its event and consumer, a FAILED row a dead letter for them, a PENDING row attempts left; its subscription exists. |
| OutboxSafety.StepKeepsInv | app/workers/outbox_worker.py:42-148 | Every commit of every participant keeps that, together with what workers read about rows still identifying them. |
| OutboxSafety.EvidenceGrows | app/runtime/webhook.py:15-55 | No step shortens the log, removes a dead letter or lowers its attempt count. |
| OutboxSafety.UpsertKeepsGreater | app/runtime/webhook.py:26-44 | A dead letter's count becomes the greater of its own and the new one, and no other dead letter changes. |
| OutboxSafety.EnqueuedIsReady | app/runtime/service.py:58-87 | A row enqueued is due at once, with none of its five attempts made. |
| OutboxSafety.PostIsLogged | app/runtime/webhook.py:58-142 | A post is logged once, with its event, consumer and answer; none is made to an inactive subscription, and the attempt fails. |
| OutboxSafety.SettledAttempt | app/workers/outbox_worker.py:98-148 | A settled attempt leaves the row DELIVERED, due again after exactly 2, 4, 8, 16, 32 and then 60 seconds, or FAILED with a dead letter that counts all its attempts. |
| OutboxSafety.OutcomeBacked | app/workers/outbox_worker.py:98-148 | The status a worker writes after an attempt is backed by what the attempt left behind. |
| OutboxSafety.InlinePostKeeps | app/runtime/service.py:58-126 | A delivery inside the request commits the status decided for the previous row, the new row, its attempt and, on failure, its dead letter, and keeps every row backed even if a worker has touched the rows in between. |
| OutboxSafety.EndInlineKeeps | app/runtime/service.py:105-126 | So does the final commit of the request. |
| OneWorker.PostsBoundedAndSpaced | app/workers/outbox_worker.py:18-148 | With one worker and no inline delivery, over any run with crashes, a row is picked and posted at most five times (the default of max_attempts), whether it still exists or was deleted meanwhile, and its n-th pick is at least 2^n - 2 seconds after its first for n up to 6 and 62 + 60 (n - 6) beyond. |
| OneWorker.SpacedDelay | app/workers/outbox_worker.py:18-19 | Picks each delayed by the backoff of the attempts before them have the closed-form distance from the first. |
| OneWorker.DelayStep | app/workers/outbox_worker.py:18-19 | The closed form grows by exactly the backoff of the attempts made. |
| OneWorker.RunsKeepOne | app/workers/outbox_worker.py:31-148 | In every state of such runs each row's attempts, picks, posts and retry time agree with its status, and the batch in hand is current. |
| OneWorker.FinishedRow | app/workers/outbox_worker.py:98-148 | Settling an attempt keeps a row's counts and spacing for each of the three outcomes. |
| OutboxDrain.CalmRunsEndRows | app/workers/outbox_worker.py:42-148 | In a run without crashes, when the worker is idle no row is DELIVERING; a PENDING row was picked as often as it was attempted, fewer than max_attempts times. |
| OutboxDrain.LeadsThroughAttempt | app/workers/outbox_worker.py:42-148 | One attempt at a PENDING row raises its count by one and ends DELIVERED, FAILED with a dead letter, or PENDING, as the answer and the remaining attempts say. |
| OutboxDrain.RowsDrain | app/workers/outbox_worker.py:42-148 | Every fate is possible: for every sequence of outcomes of the remaining attempts there is a crash-free schedule that ends the row as they decide, DELIVERED exactly when its subscription is active and some outcome succeeds, else FAILED with a dead letter; an inactive subscription's row gets there without a post. |
| OutboxFairness.ReadyPollsAreBounded | app/workers/outbox_worker.py:22-148 | In every run of one worker without crashes that polls oldest first in batches of at most fifty: from any moment on, the polls that find a row ready plus the attempts it has left are at most the attempts it had, plus a fiftieth of those of the rows created no later. |
| OutboxFairness.ReadyPollsEndRows | app/workers/outbox_worker.py:22-148 | So once that many polls have found a row ready, it is DELIVERED, FAILED or deleted whenever the worker is idle. |
| OutboxFairness.PollBoundAtMost | app/workers/outbox_worker.py:22-40 | With m rows created no later the bound is at most 5 m / 50 + 5 polls. |
| OutboxFairness.SkipsSpend | app/workers/outbox_worker.py:27-40 | Each poll that leaves a ready row out takes fifty rows created no later. |
| OutboxFairness.TakenAtMost | app/workers/outbox_worker.py:42-148 | A row is taken from any moment on at most as often as it has attempts left. |
| EndToEnd.AnnouncementsEnd | app/workers/outbox_worker.py:22-148 | End to end, with inline delivery off and one worker without crashes that polls oldest first, whatever calls and crashes the registry sees: a committed version with a predecessor has one outbox row for each subscription its publishing transaction selected and none for others; once the bounded number of polls has found that row ready and the worker is idle, it is deleted or it has an accepted attempt or a dead letter for the version's event and the subscription's consumer. |
| EndToEnd.RunsKeepLinked | app/runtime/service.py:58-87 | In every joint run, several workers and crashes included, the rows in the worker's tables are those the registry's commits wrote, with their subscription and event, each under its own number. |
| EndToEnd.RowEnds | app/workers/outbox_worker.py:42-148 | So each committed outbox row ends within the bound, with its evidence. |
| OutboxWorker.PollLeads | app/workers/outbox_worker.py:22-155 | Taking a batch and processing it uninterrupted is a crash-free run of the protocol. |
| OutboxWorker.ItemLeads | app/workers/outbox_worker.py:42-148 | Processing one item is the protocol's mark, lookup, post and finish. |
| OutboxWorker.LeadsKeeps | app/workers/outbox_worker.py:22-155 | Such runs keep both outbox invariants. |
| OutboxWorker.Tables.constructor | migrations/005_webhook_outbox.sql:7-18 | New tables are the empty state, with the invariants. |
| OutboxWorker.Tables.UpsertDlq | app/runtime/webhook.py:26-44 | Adds the dead letter, or keeps the greater of the two attempt counts. |
| OutboxWorker.Tables.DeliverWithRetry | app/runtime/webhook.py:58-142 | Succeeds exactly when the subscription is active and one of the first max answers accepts; logs one attempt for each post up to the first success; dead-letters exactly when an active delivery with persistence used all of a positive number of attempts; an inactive subscription changes nothing. |
| OutboxWorker.Tables.DeliverInline | app/runtime/service.py:58-126 | A request's own delivery leaves the new row DELIVERED or FAILED with one attempt counted, one attempt logged and, on failure, a dead letter. |
| OutboxWorker.InlineIsProtocol | app/runtime/service.py:58-126 | That is the protocol's inline delivery, commit by commit, when nobody comes between. |
| OutboxWorker.InlineKeepsInv | app/runtime/service.py:58-126 | So every row is backed after it. |
| OutboxWorker.Tables.ReplayDlqEntry | app/runtime/webhook.py:237-304 | A replay of a missing entry or subscription changes nothing; any other logs at most one attempt, succeeds exactly when the subscription is active and accepts, and never changes the dead letters. |
| OutboxWorker.Tables.SettleItem | app/workers/outbox_worker.py:98-148 | Leaves the row and the dead letters as the protocol's finish does. |
| OutboxWorker.Tables.PostItem | app/workers/outbox_worker.py:88-96 | Leaves the log and the post count as the protocol's post does. |
| OutboxWorker.Tables.ProcessItem | app/workers/outbox_worker.py:42-150 | Takes the tables through one item's mark, lookup, post and settlement. |
| OutboxWorker.Tables.PollOnce | app/workers/outbox_worker.py:22-155 | Processes every selected row in order and leaves the tables in a state of the protocol with its invariants. |
| Paths.SlotInjective | app/runtime/classifier.py:42-52 | Rendered paths with clean keys name different fields whenever the paths differ, the root included. |
| Paths.PathsRead | app/runtime/classifier.py:42-50 | A path reads as keys after dots and positions between `[*` and `]`, the first key without its dot, and the root as `[root]`. |
| Classifier.FlattenSound | app/runtime/classifier.py:36-52 | Every flat entry is what the schema tree shows at the path its key renders. |
| Classifier.FlattenComplete | app/runtime/classifier.py:36-52 | Everything the tree shows is in the flat dictionary under its rendered path: no entry overwrites another. |
| ClassifierLoops.FlattenLoop | app/runtime/classifier.py:36-52 | The recursive loop that updates a dictionary builds the flat schema. |
| ClassifierLoops.DiffAndClassify | app/runtime/classifier.py:102-123 | The loop over the sorted union of paths computes the diff. |
| Drift.DiffReports | app/runtime/classifier.py:102-123 | The diff lists exactly the paths at which the flat schemas differ, once each and in path order, each with the item of its two entries. |
| DiffItems.ItemsDescribe | app/runtime/classifier.py:102-123 | For payloads with clean keys, every item of the diff is about a path at which the payloads hold different kinds of value, and says by those values its old and new type ("integer" for an integer and so on), its nullability (true exactly for null), and its class: added is SAFE, removed BREAKING, integer to float RISKY, any other new kind BREAKING, with what objects with a key `type` say of themselves. |
| DiffItems.DifferentKindsAreListed | app/runtime/classifier.py:102-123 | A path has an item if and only if the two payloads hold different kinds there. |
| DiffItems.ShownAt | app/runtime/canonical.py:8-23 | What a canonical schema shows at a path is what the payload holds there. |
| DiffItems.ChangeHasClass | app/runtime/classifier.py:55-99 | The class of a change by the values held on either side. |
| Drift.DiffEmptyIffSameVisible | app/runtime/classifier.py:102-123 | The diff is empty exactly when the schemas differ at most in dictionaries that show nothing. |
| Drift.DifferenceShows | app/runtime/classifier.py:36-52 | Two schemas that differ visibly show different things at some path. |
| Drift.WideningBreaksInReverse | app/runtime/classifier.py:68-99 | A change of a field that is RISKY, BACKWARD_COMPATIBLE or FORWARD_COMPATIBLE is BREAKING when undone, and one that is BREAKING with the type unchanged is tolerated when undone. |
| Drift.AddedThenRemoved | app/runtime/classifier.py:56-66 | An added field is never BREAKING; removing it again is RISKY exactly when it says it is not required. |
| Drift.ListedValuesClass | app/runtime/classifier.py:88-99 | Of two leaves alike in type and nullability, the one that gains listed values is FORWARD_COMPATIBLE, the one that loses some BREAKING. |
| Severities.RanksAreNames | app/runtime/models.py:16-57 | Ranks tell the five classes apart and a stored class ranks as itself. |
| Compatibility.DiffEmptyIffEqual | app/runtime/canonical.py:8-23 | For payloads with clean keys and no nested empty object the diff is empty exactly when the canonical schemas are equal. |
| Compatibility.CanonicalIsOrdered | app/runtime/canonical.py:9-10 | Canonical schemas have sorted, distinct keys at every depth. |
| Compatibility.CanonicalIsPlain | app/runtime/canonical.py:13-23 | Their leaves are the five scalar types, nullable exactly for null. |
| Compatibility.SolidSameVisibleEqual | app/runtime/canonical.py:8-23 | Ordered schemas without hollow dictionaries that look the same are the same. |
| VersionChain.SummarizeIsMaximum | app/runtime/classifier.py:126-130 | The summary is the highest-ranked class among the differences and one of them, SAFE when there are none. |
| VersionChain.NonBreakingStep | app/runtime/classifier.py:55-130 | A step that is not BREAKING keeps or widens every flat entry, if none of them says it is not required. |
| VersionChain.SafeStep | app/runtime/classifier.py:55-130 | A SAFE step leaves every flat entry as it is, if none of them is an object with a key `type`. |
| VersionChain.CompatibilityComposes | app/runtime/classifier.py:55-130 | If no version after i up to j is BREAKING, every flat path of i is in j with its type kept or widened from integer to number. |
| VersionChain.SafetyComposes | app/runtime/classifier.py:55-130 | If all of them are SAFE, i's flat schema is contained in j's. |
| VersionChain.DottedKeyHidesChange | app/runtime/classifier.py:42-44 | With a dot in a key, two payloads with different schemas have an empty diff. |
| VersionChain.TypeKeyHidesBreakingChange | app/runtime/classifier.py:39-41 | From the payload `{"type": "s", "x": 1}` to `{"type": "s", "x": "s"}` the class is SAFE, and the first schema is not contained in the second. |
| TypedObjects.SafeContainsIffUntyped | app/runtime/classifier.py:36-99 | Every SAFE successor of a payload contains its flat schema if and only if that schema shows no object with a key `type`. |
| TypedObjects.CompatibleIffRequired | app/runtime/classifier.py:55-99 | For payloads with clean keys: every successor that is not BREAKING keeps or widens all flat paths if and only if no object shown with a key `type` has an empty list or object under `required`. |
| TypedObjects.SafeSuccessor | app/runtime/classifier.py:36-99 | The payload with another key put into each such object is a SAFE successor that does not contain it. |
| TypedObjects.NonBreakingSuccessor | app/runtime/classifier.py:64-66 | The payload with the objects that say they are not required emptied is a successor that is not BREAKING and loses their paths. |
| LegacyEngine.EnginesAgree | app/core/engine.py:179-238 | For object payloads with clean keys and no key `type` the two engines report the same paths in the same order, each with the same types in its own vocabulary; a severity the passes set equals the runtime class, and where they set none the runtime says BREAKING. |
| LegacyItems.EntriesDescribe | app/core/engine.py:179-238 | For such payloads every entry of the engine's diff names by its values what either payload holds at its path, and ends SAFE when added, BREAKING when removed, RISKY from int to float, BREAKING for any other change between boolean, int, float and string, and without severity exactly when both are there and one of them is null or a list. |
| LegacyItems.PassesSet | app/core/engine.py:196-238 | Exactly which severities the three passes set. |
| LegacyEngine.NullableLost | app/core/engine.py:220-231 | Of two different names that are not both primitive, a severity is set exactly when the second is the first without its `nullable_`, and it is BREAKING. |
| LegacyEngine.FlattenersAgree | app/core/engine.py:16-29 | The two flatteners give the same paths, each with the same type in its own vocabulary. |
| LegacyEngine.FormsCorrespond | app/core/parser.py:21-26 | The two normal forms of a payload are the same tree in two vocabularies. |
| LegacyEngine.ClassesAgree | app/runtime/classifier.py:55-99 | At one path, the class of a change and the severity of the three passes agree. |
| LegacyEngine.StructuralDiffLoop | app/core/engine.py:179-193 | The loop builds the legacy diff. |
| LegacyEngine.FlattenSchemaLoop | app/core/engine.py:16-29 | The recursive loop builds the legacy flat dictionary. |
| LegacyEngine.ClassifySafeChanges | app/core/engine.py:196-200 | Marks exactly the added paths SAFE, in place, and leaves the other entries alone. |
| LegacyEngine.ClassifyRiskyMutations | app/core/engine.py:203-217 | Sets, in place and only where unset, RISKY for int to float and BREAKING for other changes between primitive types. |
| LegacyEngine.ClassifyBreakingChanges | app/core/engine.py:220-231 | Sets, in place and only where unset, BREAKING for removed paths and for types that lost their nullable prefix. |
| LegacyEngine.ClassifyContractDrift | app/core/engine.py:234-238 | The three passes in order leave every entry with the severity of its own before and after. |
| StructuralString.StructuralTextIffShape | app/core/parser.py:84-91 | With keys free of `; { } [ ]`, two object payloads have equal structural strings exactly when they have the same shape: at every level the same keys, and for lists the same set of scalar types and the same multiset of structured shapes. |
| StructuralString.TextIffShape | app/core/parser.py:29-63 | The same for the text of any value below the root. |
| StructuralString.ShapeTextIsToken | app/core/parser.py:54-63 | A printed shape opens the brackets it closes and has no semicolon or comma outside them, so it ends at one place only. |
| StructuralString.TokenEnds | app/core/parser.py:54-63 | A token followed by a separator or closer splits off in one way. |
| StructuralString.PrintInjective | app/core/parser.py:57-59 | A printed member is told apart from others by its key and the text of its value, colons in the key included. |
| StructuralString.TextOfOneField | app/core/parser.py:8-91 | The string of an object of one field, for each kind of scalar, the empty list and the empty object, and any key. |
| StructuralString.ObjectsIff | app/core/parser.py:57-59 | Two objects print alike exactly when their keys and the shapes under them agree. |
| StructuralString.ListsIff | app/core/parser.py:32-50 | Two lists print alike exactly when their scalar types agree as sets and their structures as multisets. |
| StructuralString.PunctuatedKeyCollides | app/core/parser.py:84-91 | With a semicolon in a key, payloads of different shape have one string: for any keys a and b in order, `{"a:int;b": 1}` and `{"a": 1, "b": 1}`. |
| StructuralString.ExtractList | app/core/parser.py:32-50 | The list branch computes the sorted scalar types followed by the sorted printed structures. |
| StructuralString.CollectItems | app/core/parser.py:36-45 | The loop collects the scalar types as a set and the printed structures in order. |
| InferOrder.KeyOrderIrrelevant | backend/app/core/schema_infer.py:68-123 | Permuting the keys of any object at any depth of a document with clean keys gives the same node list. |
| InferOrder.FieldsAt | backend/app/core/schema_infer.py:78-81 | Of an object's fields only the one that owns a path updates it. |
| InferOrder.OneOwner | backend/app/core/schema_infer.py:60-65 | A path lies under the child path of at most one clean key. |
| InferOrder.OptionalsSame | backend/app/core/schema_infer.py:96-108 | Which keys of a list of objects are optional does not depend on key order. |
| InferOrder.TallyItemsOk | backend/app/core/schema_infer.py:96-99 | The tally counts, for each key, the objects that have it. |
| InferOrder.OptionalsAt | backend/app/core/schema_infer.py:103-107 | A key's path is marked optional exactly when some object lacks the key. |
| InferOrder.WalkSame | backend/app/core/schema_infer.py:75-123 | Documents that differ in key order make the same updates, in the same order, at every path. |
| SchemaInfer.InferIsSorted | backend/app/core/schema_infer.py:68-72 | The node list is strictly sorted by path: no path twice. |
| SchemaInfer.SameUpdatesSameNodes | backend/app/core/schema_infer.py:68-72 | The schema depends only on the sequence of updates of each path. |
| InferLeaf.StreamingIsBatch | backend/app/core/schema_infer.py:135-157 | For every nonempty sequence of scalars the streaming accumulator holds the join of the types, whether a null was seen, and the distinct strings or, beyond ten, none. |
| InferLeaf.FinishedLeaf | backend/app/core/schema_infer.py:166-178 | The finished leaf has the joined type, is nullable exactly when a null was seen, and lists its sorted distinct strings exactly when there are 1 to 10. |
| InferTypes.TypesMean | backend/app/core/schema_infer.py:40-51 | By the kinds of the values alone: a leaf's type, and a list's item type, is boolean, integer, number or string exactly when some value is of that kind and all others are of it or null, null when all are null, mixed when two non-null ones differ in kind, and for items unknown when they are lists and objects. |
| InferTypes.FirstExample | backend/app/core/schema_infer.py:54-57 | A leaf's example is the first value that is not null, a longer string cut to its first 200 characters. |
| InferTypes.NodeOfValue | backend/app/core/schema_infer.py:68-157 | For an object document with clean keys, the schema has at every dotted path of keys a required node that says what the document holds there: its type by its kind, nullable exactly for null, the item type of a list, a string as its one listed value, a scalar as its example. |
| InferDocument.LeavesOfDocument | backend/app/core/schema_infer.py:68-178 | For an object document with clean keys: wherever keys and list items, at any depth, lead to scalars alone, the schema has at that path the leaf of those scalars: its type by their kinds, nullable exactly with a null among them, its sorted distinct strings when there are 1 to 10, the first value as example, and required unless some list of objects has the key in one object and lacks it in another. |
| InferDocument.EmitReached | backend/app/core/schema_infer.py:75-157 | What a path observes are, in document order, the values that its keys and list items lead to. |
| InferDocument.NodesLead | backend/app/core/schema_infer.py:68-157 | The schema has nodes for paths that keys and list items of the document lead along, and for no others. |
| InferLeaf.LeafIgnoresOrder | backend/app/core/schema_infer.py:135-178 | Order and repetition of the values change nothing but the example. |
| InferLeaf.LeafOfTrace | backend/app/core/schema_infer.py:68-72 | A path whose updates are observed scalars and notes that a key is lacking has the leaf of those scalars, required unless such a note follows a scalar. |
| InferOptional.LeafOfDocument | backend/app/core/schema_infer.py:68-108 | In a document's schema a path that only observes scalars is the leaf of their values, and is required unless some list of objects in the document has its key in one object and lacks it in another. |
| InferOptional.MarkedIffLacking | backend/app/core/schema_infer.py:96-108 | For any path of any document: it is noted as optional, and only after its first update, exactly when some list of objects in the document has its key in one object and lacks it in another. |
| InferLeaf.JoinGrows | backend/app/core/schema_infer.py:142-146 | One more value joins its type: null is the bottom, two different types are mixed. |
| InferLeaf.ArrayItemTypeMeans | backend/app/core/schema_infer.py:110-119 | The item type of a list is null exactly when all items are, mixed exactly when two others differ in type, and otherwise the type they share. |
| InferWalk.RunAt | backend/app/core/schema_infer.py:160-163 | After any updates a path's accumulator is the fold of that path's updates. |
| InferWalk.Inference.Ensure | backend/app/core/schema_infer.py:160-163 | Creates an accumulator where there is none and changes nothing otherwise. |
| InferWalk.Inference.EmitScalar | backend/app/core/schema_infer.py:135-157 | Updates one path's accumulator by one scalar. |
| InferWalk.Inference.EmitValue | backend/app/core/schema_infer.py:126-157 | Makes exactly the updates of a value at a path, in order. |
| InferWalk.Inference.WalkValue | backend/app/core/schema_infer.py:75-123 | Makes exactly the updates of a document below a parent path, in order. |
| InferWalk.Inference.WalkArray | backend/app/core/schema_infer.py:83-119 | The same for a list: item type, items, and optional keys. |
| InferWalk.CountKeys | backend/app/core/schema_infer.py:96-99 | The nested loops compute the tally of keys. |
| InferWalk.Inference.InferSchema | backend/app/core/schema_infer.py:68-72 | The whole inference returns the document's schema. |
| SchemaDiff.NoBreakingChangeLost | backend/app/core/schema_diff.py:93-157 | Over any history of node lists, a breaking difference between first and last at a path is reported as breaking by some consecutive pair there; the only exception is a changed array item type that some pair changes together with nullability or enum values. |
| SchemaDiff.ItemTypeReportedIffUnmasked | backend/app/core/schema_diff.py:66-90 | A changed array item type is reported as breaking exactly when nullability is the same and the enum values, where both list them, are the same. |
| SchemaHistory.LostOverDocuments | backend/app/core/schema_diff.py:93-157 | Over the schemas of any documents, a breaking difference between first and last at a path is reported by no consecutive pair if and only if the path is an array in all of them and each change of its item type comes with one of nullability. |
| SchemaHistory.LostIffMasked | backend/app/core/schema_diff.py:66-90 | Over any history of node lists: if and only if the path is an array throughout and each change of its item type comes with one of nullability or of enum values both list. |
| SchemaHistory.ThreeResponsesLoseOne | backend/app/core/schema_diff.py:66-90 | For the responses `[{"a": []}]`, `[{"a": [1]}, {"a": null}]` and `[{"a": [1]}]` no consecutive pair reports a breaking change at any path; the first and the last do. |
| SchemaHistory.ArraysListNoValues | backend/app/core/schema_infer.py:142-178 | A node inferred as an array lists no enum values. |
| SchemaHistory.LookupInferred | backend/app/core/schema_infer.py:68-72 | The node of a document's schema at a path is its finished accumulator, and there is none exactly when the path has no accumulator. |
| SchemaDiff.QuietPair | backend/app/core/schema_diff.py:93-157 | Without a breaking report a path stays, its type kept or widened from integer to number. |
| SchemaDiff.ChangesUndo | backend/app/core/schema_diff.py:66-90 | A path changes in one direction exactly when it does in the other, by the opposite kind. |
| SchemaDiff.ChangesMean | backend/app/core/schema_diff.py:66-90 | No change is found exactly for nodes that agree in type, nullability, the values both list and the item type of an array; widening, nullability and enum kinds name the direction they have. |
| SchemaDiff.DiffReports | backend/app/core/schema_diff.py:93-157 | An item is in the diff exactly when it is what the two nodes of its path say. |
| SchemaDiff.DiffOncePerPath | backend/app/core/schema_diff.py:100-157 | No path is reported twice. |
| SchemaDiff.LastNodeCounts | backend/app/core/schema_diff.py:95-96 | Of several nodes of one path the last one counts. |
| SchemaDiff.PairBreaks | backend/app/core/severity.py:15-34 | A path whose change is known is reported as breaking exactly when the table says so. |
| AdmittedValues.SeverityMeans | backend/app/core/severity.py:15-28 | A change that is not breaking is risky if and only if the node then admits a value it did not, except when null is taken away at the same time; a safe one takes a value away, and lets one in only when it is reported as the end of null and a string is new. |
| AdmittedValues.NullGoneHidesNewString | backend/app/core/schema_diff.py:66-90 | From `{"a": [x, null]}` to `{"a": [x, y]}` the items' change is reported as the end of null, which is safe, and the string y is new. |
| AdmittedValues.QuietGains | backend/app/core/schema_diff.py:66-90 | Where no change is found a node admits a new value exactly when it lists values no longer. |
| AdmittedValues.ItemSays | backend/app/core/schema_diff.py:93-157 | An item has the types of its two nodes and, when both are there, their examples; a path that appears is safe, one that goes breaking, an object under its own kind. |
| AdmittedValues.InferredListsStrings | backend/app/core/schema_infer.py:142-178 | Inference lists values only where strings were observed. |
| SchemaDiff.AddRemoved | backend/app/core/schema_diff.py:100-112 | The first loop reports each removed path, nested objects under their own kind. |
| SchemaDiff.AddAdded | backend/app/core/schema_diff.py:114-125 | The second loop reports each added path. |
| SchemaDiff.AddChanged | backend/app/core/schema_diff.py:127-155 | The third loop reports each common path with a change, and no other. |
| SchemaDiff.ComputeDiff | backend/app/core/schema_diff.py:93-157 | The three loops compute the diff. |
| SchemaHash.EqualProjectionsEmptyDiff | backend/app/core/canonical.py:12-26 | For node lists with unique paths, in any order, equal hash inputs leave an empty diff. |
| SchemaHash.HashSeesDiffAndUnseen | backend/app/core/canonical.py:9-26 | For node lists with unique paths: the hash inputs are equal if and only if the diff is empty and common paths agree in whether they are required, in whether and in which order their values are listed, and in the item type of what is not an array. |
| SchemaHash.InferredHashSees | backend/app/core/canonical.py:9-26 | For two inferred schemas the order of the values needs no mention. |
| SchemaHash.SkippingLosesNothing | backend/app/workers/monitor_runner.py:168-173 | Skipping the diff of two inferred schemas on equal hashes loses nothing when the digest tells their inputs apart. |
| SchemaHash.HashIgnoresOrder | backend/app/core/canonical.py:16-26 | The hash input does not depend on the order of the nodes. |
| SchemaHash.OptionalChangesHashOnly | backend/app/core/canonical.py:9-9 | An empty diff alone does not give equal hashes: a field that becomes optional changes the hash input and leaves an empty diff. |
| Normalizer.OverCapIsMarker | backend/app/core/normalizer.py:15-26 | A body over the cap becomes the marker with its size, unless it is a number whose cut text is a number again, and then it becomes that number. |
| Normalizer.ContainersNeverPartial | backend/app/core/normalizer.py:15-26 | For objects and arrays the result is the whole sorted value or the marker, never a part. |
| Normalizer.CutParsesIffNumber | backend/app/core/normalizer.py:19-26 | A proper prefix of a printed value is a JSON text exactly when the value is a number and the prefix is one. |
| Normalizer.NumbersCanBeCut | backend/app/core/normalizer.py:19-22 | The body 123 with cap 2 is kept as whatever 12 parses to. |
| Normalizer.DumpIsText | backend/app/core/normalizer.py:17-17 | What is printed compactly is the text of a well-formed tree, so it parses. |
| ReadBack.DumpLosesNothing | backend/app/core/normalizer.py:17-17 | A reader of compact JSON, defined without the printer, gives back every value from its printed text (escapes and surrogate pairs included), so no two values print alike. |
| ReadBack.DumpSize | backend/app/core/normalizer.py:17-18 | The number of characters of the printed text: one for each printable ASCII character, two for the short escapes, six or twelve for the others, and one for each quote, bracket, comma and colon. |
| ReadBack.SizeDecides | backend/app/core/normalizer.py:9-26 | An object or array is kept, keys sorted, if and only if that number is at most the cap, and is otherwise replaced by the marker of that number. |
| ReadBack.CapsMean | backend/app/core/normalizer.py:15-15 | No cap and the cap 0 are the default, any other is itself. |
| ReadBack.NegativeCapCutsTheEnd | backend/app/core/normalizer.py:18-22 | A negative cap cuts characters off the end: 123 with the cap -1 is kept as whatever 12 parses to. |
| ReadBack.CharPrintsSized | backend/app/core/normalizer.py:17-17 | A printable ASCII character other than the quote and the backslash prints as itself. |
| Normalizer.SortKeysCanonical | backend/app/core/normalizer.py:29-34 | Responses equal up to key order normalise to the same value. |
| Normalizer.SortKeysSame | backend/app/core/normalizer.py:29-34 | Sorting changes nothing but the order of keys. |
| Normalizer.NormalizeIsStable | backend/app/core/normalizer.py:9-26 | Equivalent responses are kept alike, cap included. |
| Normalizer.InferenceSeesThrough | backend/app/workers/monitor_runner.py:148-149 | What is inferred from the normalised value: under the cap the response's own schema; over it the two nodes of the marker, unless the response is a number whose cut text is one, and then the one node of that number. |
| Normalizer.NormalizeBody | backend/app/core/normalizer.py:9-26 | The body as it runs computes the kept value. |
| JsonText.CutContainerIsNotJson | backend/app/core/normalizer.py:19-26 | No proper prefix of the text of an object or array is a JSON text (sections 2, 4 and 5 of RFC 8259). |
| JsonText.CutStringIsNotJson | backend/app/core/normalizer.py:19-26 | No proper prefix of the text of a string is a JSON text (section 7 of RFC 8259). |
| JsonText.CutBareIsJsonIffNumber | backend/app/core/normalizer.py:19-26 | A word or number cut short is a JSON text exactly when a number is left (sections 3 and 6 of RFC 8259). |
| JsonText.TreeBalanced | backend/app/core/normalizer.py:19-26 | Every JSON text opens the brackets and quotes it closes. |

## Left out

- RegistryService.Registry.TrackContract: requires inline delivery to be off; with it on, commits fall inside the subscription loop, which the protocol in RegistryModel has, but the class has not.
- RegistryAnnouncements.OutboxIsTransactional: says nothing with inline delivery on, where each delivery commits and the outbox is not transactional.
- OutboxFairness.ReadyPollsEndRows: counts polls that find the row ready; that such polls come, as time passes and the loop goes on, is the scheduler's part. The time a row says it was created is at most the time of its insertion, and for a delivery inside the request it is that of the commit.
- OutboxWorker.Tables.DeliverWithRetry: the attempt number, reason and time of a log line are not modelled.
- InferOrder.KeyOrderIrrelevant: order of list elements does matter to the source where containers and scalars share a path, and is not claimed to be irrelevant.
- ReadBack.DumpLosesNothing: a float's text has a point, an exponent or a word, as Python prints floats, and so is told from an integer's.
- Normalizer.OverCapIsMarker: strings are sequences of Unicode scalar values, so lone surrogates do not occur; floats are known by the text Python prints for them.
- In the registry protocol an endpoint is known by its unique key; how its row comes to be is modelled on its own, in EndpointRows.
- Row locks of the `is_current` update: the model lets the update proceed where the database would wait, which only adds interleavings.
- The fingerprint is any function of the canonical schema; `app/runtime/canonical.py:26-28` is not modelled further.
- RegistryCompatibility.StoredClassIsSummary: with a key `type`, takes the predecessor's schema as it was stored, with its keys sorted by code point, where the database gives a JSONB copy back with shorter keys first. The classifier notices only where a key `type` holds an object with several keys, whose printed text (`app/runtime/classifier.py:20-22`) shows their order: from `{"type": {"aa": 1, "b": 2}, "x": 1}` to the same with `"x": "s"` the service says BREAKING and the model SAFE.
- TypedObjects.SafeSuccessor: says SAFE where the JSONB copy of such an object under `type` would print in another order; the same holds for the other direction of TypedObjects.SafeContainsIffUntyped.
- Reason and message texts of both diffs, metrics, events, document stores and the payload of a webhook beyond its event id.
- Payloads without an event id in the outbox (`app/workers/outbox_worker.py:85-86`): the service always writes one.
- Enum values in the runtime classifier that are not strings, and the branch of `_flatten` for bare scalars, which canonical schemas do not have. For two changed objects with the same `type` that both hold a list under `enum`, one of them nonempty, the source fails on an unhashable set (`app/runtime/classifier.py:92-93`); the model goes on to SAFE.
- EndToEnd.AnnouncementsEnd: a transaction that enqueues for a subscription deleted after its select has no joint run in which its rows enter, as the foreign key would abort it. The event of a version is any function of its endpoint and number.
- RegistryModel's changes of the subscription table leave outbox rows of a deleted subscription in place, where the database deletes them with it (OutboxModel does), and let a transaction enqueue for a subscription deleted after its select, where the foreign key would abort it.
- A row left in DELIVERING by a crash is never polled again; the model has such rows, and no liveness is claimed for them.
- Exclusive delivery by several workers: a batch's row locks end with its first commit, so two workers can post one row.
- OutboxWorker.Tables.PollOnce: takes any distinct ready rows, as the safety results do; the order and the limit of the select are in OutboxFairness.
- Deletion of whole endpoints with all their rows.
- `structural_ast`, the legacy snapshot tables and their baseline selection (`app/main.py:120-175`), and the legacy fingerprint.
- Monitor run orchestration, the retention sweep, the gateway, the OpenAPI diff scripts, the frontend and the migration runner.
