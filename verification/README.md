# Verified model of the prosody-js binding

This project models the decisions that the JavaScript and Rust layers of prosody-js make, and proves
properties of them with Dafny 4.11. `dafny verify dfyconfig.toml` checks everything.

The core of Prosody is not in the repository. The model takes its documented contract as given: an ordered
collection, a query builder whose calls narrow an interval (`src/state/query.rs:3-9`,
`lib/state/query.d.ts:13-48`, `README.md:790-801`), and the attempt rules of keyed state
(`README.md:672`, `README.md:753-760`, `README.md:823-833`).

## How the pieces fit

A scan runs through six modules. `QueryCheck` checks the caller's options on the heap and copies them into a
fresh object. `Lowering` turns the checked options into an interval, one narrowing per option, and `Numbers`
converts their JavaScript numbers. `Scans` describes what the core reads and what the options promise.
`Cursor` converts the core's chunks and hands them to the generator. `Generator` is the async generator as a
state machine, and `StateIterator` is the object that runs it, with the chunk array whose slots it overwrites.
`Pipeline` joins them: the values a consumer receives are the selected entries, reversed for a backward scan, up
to the limit, for every split into chunks and every timing of the calls. `ScanMeaning` says which entries these are
once more, from the caller's options alone. When a chunk does not convert or a pull
fails, they are the chunks before it. `Paging` proves the paging recipe of the documentation.

`GeneratorRuns` holds the central result about the generator. `Serve` describes a scan that answers one call
at a time. `EveryInterleavingIsSequential` says that whatever order calls and native completions arrive in,
call `k` gets the answer `Serve` gives it. `ConsumerSeesScan` gives these answers in closed form.

`Windowing` and `KeyedState` model the two example handlers, with the attempts of `Attempts`. Every awaited operation of an attempt takes a
fate: it works, or it throws before, during, or after its effect, and a timer may fire just before it. A
failed attempt drops its staged state and keeps its timers and notifications. `WindowRuns` and the end of
`KeyedState` prove what holds over every run of such attempts. `WindowOperations` and `WindowOutcomes` list the
operations of each handler and say exactly when an attempt succeeds and what it leaves.

`Rounding` models rounding to a double as IEEE 754-2019 section 4.3.1 defines it. `Durations` divides a
millisecond count by 1000 with it and converts the seconds to the nearest nanosecond. `Errors` follows the retry category of an error through
native tags, typed errors, decorators, and classification. `Abort` models calls that share one abort signal.
`DequeAt` compares `at` with `Array.prototype.at`.

## Where the code and its text differ

- `src/number.rs:36-44` says that a negative number of milliseconds is an error. Down to 500 of the smallest
  steps of a double it is accepted as an empty duration (`Durations.NegativeMilliseconds`).
- `src/number.rs:4-7` says that a conversion rejects a number without an exact form. A count of milliseconds is
  rounded instead. With `t` the power of two that scales its number of seconds to between 2^52 and 2^53, and `d`
  the distance of `count * 2^t` from the nearest multiple of 1000, the duration is exact if and only if
  `2,000,000 * d <= 2^t` (`Durations.MillisecondsAreExact`, `Durations.ExactBySize`). So every count up to
  8,388,608,003 is exact, the next one is not, and some later ones are (`Durations.FirstInexactCount`).
- `lib/state/bridge.js:31` says that the human message is never parsed. A second conversion of a state error
  reads the first error's message, so converting twice differs from converting once exactly when that message
  is a category token (`Errors.ConvertingTwice`).
- `examples/windowing.ts:36-37` says that a retried event keeps exactly one timer. Exactly one timer is ever
  scheduled, but a timer of a rolled-back attempt may have fired and still be owed. One timer is left if and only
  if, before the attempt, no fired timer is owed and no scheduled one fires during its four operations
  (`WindowRuns.OpeningTimers`, `WindowRuns.StaleTimerCanOverlap`).
- `src/client/mod.rs:223-227` answers an abort promise that resolves with success, and
  `src/client/mod.rs:480-486` answers it with an error. JavaScript only ever rejects that promise
  (`Abort.RaceSuccess`, `Abort.ListenersAreWatchingCalls`).
- `at` differs from `Array.prototype.at` on deques longer than a u32 (`DequeAt.AtAgreesWithArrays`).

## Model

| member | source | states |
|---|---|---|
| `Order.PrefixIsBlock` | lib/state/query.d.ts:73-76 | The keys with a prefix are exactly one contiguous block of the order |
| `Order.KeyOrderIsLexicographic` | lib/state/map.d.ts:62 | A key comes first when it is a proper prefix, or smaller at the first code point where the two differ |
| `Lowering.IntoKeyQuery` | src/state/query.rs:76-107 | The reassigned builder ends as the specified core query, or with the conversion error |
| `Lowering.IntoPositionQuery` | src/state/query.rs:109-139 | The same for positions, each of which may fail to convert |
| `Lowering.NarrowingIsConjunction` | src/state/query.rs:81-101 | Successive narrowings keep a key exactly when every separate condition holds, in either direction and for inverted or disjoint bounds |
| `Lowering.KeyLoweringIsCorrect` | src/state/query.rs:81-106 | A key query lowers exactly when its limit is absent or a positive native integer. It runs forward unless the query says backward, keeps the limit, and contains exactly the keys its edges, range, and prefix select |
| `Lowering.PositionLoweringIsCorrect` | src/state/query.rs:114-138 | The same for deque positions. It lowers exactly when every position and the limit fit a native integer |
| `Numbers.WholeIsExact` | src/number.rs:23-34 | A conversion yields n exactly when the number equals n and n fits the target type |
| `Numbers.SafeIntegersConvert` | lib/state/query.js:111-123 | Every number the JavaScript check accepts converts to the same integer |
| `Scans.SliceIsKept` | README.md:790-801 | In a sorted collection the entries inside an interval are one slice |
| `Scans.KeyScanIsDescribed` | src/state/query.rs:81-106 | A lowered key scan reads the selected entries, reversed when backward, up to the limit |
| `Scans.PositionScanIsDescribed` | src/state/query.rs:114-138 | The same for a deque |
| `Scans.MirrorLaw` | lib/state/query.d.ts:13-37 | Without a limit a scan is the exact reverse of the scan in the other direction with its edges swapped |
| `Scans.PositionMirrorLaw` | src/state/query.rs:114-133 | The mirror law for deque positions |
| `ScanMeaning.KeyScanReadsExactly` | src/state/query.rs:81-106 | From the caller's options alone: a scan reads entries that meet every option, in ascending order unless the direction is "backward", at most `limit` of them, and leaves out only wanted entries that come after all of these |
| `ScanMeaning.DequeScanReadsExactly` | src/state/query.rs:114-138 | The same for the positions of a deque |
| `Paging.PagingIsScan` | README.md:803-819 | Paging with `after` ends, fills every page but the last, and concatenates to the unpaged scan |
| `Paging.ScanHasNoRepeats` | README.md:803-819 | No two entries of a scan share a key, so paging yields every item once |
| `Paging.NextPageIsAccepted` | README.md:803-819 | The options of the next page pass the checks, and cross as the query that paging follows |
| `QueryCheck.QueryOptions` | lib/state/query.js:53-100 | The result is the specified error, or a fresh object with its own range array holding exactly the set fields |
| `QueryCheck.KeyOptions` | lib/state/query.js:132-139 | The same with the string checks of a key query |
| `QueryCheck.PositionOptions` | lib/state/query.js:174-179 | The same with the count checks of a position query |
| `QueryCheck.ArgumentMeaning` | lib/state/query.js:54-62 | No argument is no option, a string is a direction, an object is its entries, and `null`, numbers, and non-empty arrays are TypeErrors |
| `QueryCheck.EntryMeaning` | lib/state/query.js:62-67 | Each entry stands for its own value, and a range array for its elements in order |
| `QueryCheck.CheckedQueryKeepsOptions` | lib/state/query.js:62-67 | An accepted query holds exactly the options that are set, each with its value |
| `QueryCheck.KeyCheckDecides` | lib/state/query.js:53-139 | A key query is accepted exactly when it has the documented shape, a positive safe limit, and string keys and bounds. It is a RangeError exactly when it has the shape and its limit is a number out of range |
| `QueryCheck.PositionCheckDecides` | lib/state/query.js:174-179 | A position query is accepted exactly when it has the documented shape, a positive safe limit, and non-negative safe integer positions and bounds. It is a RangeError exactly when it has the shape and the first of limit, positions, and bounds that fails is a number out of range |
| `QueryCheck.CheckingIsIdempotent` | lib/state/query.js:53-100 | Checking a checked query returns it unchanged |
| `QueryCheck.AcceptedKeysLower` | lib/state/query.js:132-139 | Every accepted key query lowers, loses no option, and keeps its limit |
| `QueryCheck.AcceptedPositionsLower` | lib/state/query.js:174-179 | Every accepted position query lowers, and each native integer equals the caller's number |
| `Cursor.ChunkIsAllOrNothing` | src/state/cursor.rs:19-30 | A chunk arrives whole and in order exactly when every item converts. Otherwise the pull fails with a permanent error that describes the first item that does not |
| `GeneratorRuns.EveryInterleavingIsSequential` | lib/state/iterator.js:27-46 | Calls settle in call order, and each gets the answer of the one-call-at-a-time description |
| `GeneratorRuns.OneNativeCallAtATime` | lib/state/iterator.js:28-62 | At most one native call is in flight, a call waits exactly while one is, a started body closes exactly once when it ends, and it never pulls afterwards |
| `GeneratorRuns.DeliveryIsPrefix` | lib/state/iterator.js:30-39 | Delivered values are a prefix of the concatenated chunks without repeats, and the unreleased slots are exactly the items that follow |
| `GeneratorRuns.ConsumerSeesScan` | lib/state/iterator.js:27-62 | For any calls and any transform, a consumer sees items in order, one answer that ends the scan, and then every call is settled by its own request: `next` with done, `return` with its value, `throw` with its error |
| `GeneratorRuns.NextOnlyAnswers` | lib/state/iterator.js:28-62 | A consumer that only asks for items is rejected at most once, by the call that ends the scan, and only when an item, a pull, or the close failed. Later calls are done |
| `GeneratorRuns.NothingIsRefused` | lib/state/iterator.js:13-14 | A call is accepted at any time, and the native call in flight may end in each of its ways |
| `GeneratorRuns.FinishedScanDeliversAll` | lib/state/iterator.js:27-46 | A scan that ends without early exit or decode error delivered every item |
| `StateIterators.StateIterator.RunBody` | lib/state/iterator.js:30-39 | The inner loop over the chunk array, in place, does what the state machine says |
| `StateIterators.StateIterator.Ask` | lib/state/iterator.js:13-14 | A call to `next`, `return`, or `throw` makes exactly one step of the state machine |
| `StateIterators.StateIterator.OnChunk` | lib/state/iterator.js:31-38 | A chunk makes one step. The iterator keeps the array it was given and releases its slots |
| `StateIterators.StateIterator.OnPullEnd` | lib/state/iterator.js:32-43 | The end of a scan or a failed pull makes one step |
| `StateIterators.StateIterator.OnClosed` | lib/state/iterator.js:56-62 | The end of the close settles the head call and every waiting call |
| `Cursor.StreamIsRead` | src/state/cursor.rs:19-30 | Over every run the generator held the converted items of the chunks before the last pull when that pull ended the scan, and the end is natural exactly when that pull was the end. A failure keeps its category and message |
| `Cursor.EndingIsDecided` | lib/state/iterator.js:31-43 | When no item failed, the answer that ends the scan is done exactly when the core reached the end and the close worked. A failed pull is rejected with its category and message |
| `Cursor.DoneMeansWhole` | lib/state/iterator.js:31-32 | A consumer that sees done before any rejection has the whole scan |
| `Pipeline.EntriesAreOracle` | lib/state/map.js:52-58 | For every chunking and timing `entries` delivers a prefix of the described entries, converted and decoded. A finished scan delivers all of them when the core reached the end, and otherwise exactly the chunks before the last pull |
| `Pipeline.DoneEntriesAreOracle` | lib/state/map.js:52-58 | A consumer of `entries` that sees done before any rejection received every described entry |
| `Pipeline.FailedDecodeIsRejected` | lib/state/map.js:54-57 | An entry that does not decode rejects with the error of its decoding, after every entry before it |
| `Pipeline.EntryErrorsAreItsOwn` | lib/state/map.js:54-69 | Converting and decoding an entry keeps its key, and fails exactly as its payload does |
| `Pipeline.KeysAndValuesAreProjections` | lib/state/map.js:60-70 | `keys` and `values` deliver the two projections of `entries`, limit included: they agree as far as they go, and are equal at the end |
| `Pipeline.DequeValuesAreOracle` | lib/state/deque.js:63-68 | A deque scan delivers a prefix of the values at the selected positions, converted and decoded, and all of them when it finished at the end |
| `Pipeline.DoneValuesAreOracle` | lib/state/deque.js:63-68 | A consumer of a deque scan that sees done before any rejection received every described value |
| `Rounding.RoundingIsNearest` | src/number.rs:42-44 | The modelled rounding picks a double that no other double is nearer than, and the one with the even significand when another is equally near |
| `Rounding.DoubleRange` | src/number.rs:42-44 | The doubles reach from 2^-1074 to (2^53 - 1) * 2^971 |
| `Durations.DivisionIsNearest` | src/number.rs:42-44 | The division of any double by 1000, negative and zero included, is the exact quotient rounded this way |
| `Durations.MillisecondsAreExact` | src/number.rs:42-55 | Every whole millisecond count becomes exactly that duration if and only if its distance from the nearest double is small enough, an integer condition on the count |
| `Durations.ExactBySize` | src/number.rs:42-55 | The condition from the power of two around the count. It always holds with 30 binary digits after the point, and with at most 20 only when the number of seconds is a double |
| `Durations.ExactWhenLong` | src/number.rs:42-55 | The condition from 2^53 seconds on: the count is a whole number of steps and below 2^64 seconds |
| `Durations.FirstInexactCount` | src/number.rs:42-55 | Every count up to 8,388,608,003 is exact, the next one is not, and 8,388,608,009 is |
| `Durations.MillisecondsAreMonotone` | src/number.rs:42-55 | A longer count never becomes a shorter duration, over all accepted numbers |
| `Durations.NegativeMilliseconds` | src/number.rs:36-44 | A negative count is accepted exactly when its quotient rounds to zero |
| `Durations.MillisecondsAreAccepted` | src/number.rs:36-44 | Milliseconds are accepted exactly between the negative bound and 1000 times the point halfway between 2^64 and the double below it. NaN and infinities are errors |
| `Durations.SecondsAreAccepted` | src/number.rs:46-55 | Seconds are accepted exactly from 0 up to 2^64, and become the nearest number of nanoseconds. NaN and infinities are errors |
| `Errors.OutermostMatchDecides` | lib/errors.js:56-87 | The outermost matching decorator decides the category. Without one the error leaves unchanged, and is permanent exactly when it is a PermanentError. The message survives |
| `Errors.DecoratorWrapsListed` | lib/errors.js:63-68 | A decorator wraps an instance of any class it lists, with its message and as the cause, and lets everything else through |
| `Errors.CategoryIsDecided` | lib/client.js:213-219 | Any thrown value is permanent exactly when it is a PermanentError and the classification works |
| `Errors.ClassTree` | lib/errors.js:10-39 | Which error classes extend which |
| `Errors.TagSelectsClass` | lib/state/bridge.js:39-47 | The cause's message selects the typed state error, which keeps the message and the native error. Any other value passes through |
| `Errors.CoreCategorySurvives` | src/state/mod.rs:114-133 | A core category survives tag, typed error, rethrow, and classification. A failed classification is transient |
| `Errors.ConvertingTwice` | lib/state/bridge.js:39-47 | Converting twice equals converting once exactly when the error is untagged or its message is no token |
| `Windowing.HandleMessage` | examples/windowing.ts:28-43 | The handler does what the specified attempt does, under any fates |
| `Windowing.HandleTimer` | examples/windowing.ts:45-58 | The same for the timer |
| `Windowing.ReadBatch` | examples/windowing.ts:49-52 | The scan loop collects exactly the pending messages, in order, unless a pull throws |
| `Windowing.HandleExcise` | examples/windowing.ts:20-26 | The same for the excise |
| `WindowOperations.MessagePerforms` | examples/windowing.ts:28-43 | The operations of a message attempt, in order: read, then notify, open, and replace the timer, or save |
| `WindowOperations.TimerPerforms` | examples/windowing.ts:45-58 | The operations of a timer attempt: the pulls, the notification of a non-empty batch, and the two clears |
| `WindowOperations.ExcisePerforms` | examples/windowing.ts:20-26 | The operations of an excise attempt: the two clears and the timer |
| `WindowOperations.ThrowingMayTakeEffect` | README.md:753-760 | An operation that throws may have taken effect, in part, or not at all, and a timer may fire before it |
| `WindowOutcomes.AttemptIsDecided` | examples/windowing.ts:20-58 | In every reachable state an attempt succeeds exactly when each of its operations works, and then leaves exactly the stated window, messages, timers, and notifications. One that fails commits nothing |
| `WindowOutcomes.NotificationIsDecided` | examples/windowing.ts:28-58 | A notification goes out exactly when its operation takes effect, also from an attempt that then fails |
| `WindowOutcomes.WindowCanClose` | examples/windowing.ts:45-58 | Every open window can be closed by its timer, unless an excise awaits its retry |
| `WindowRuns.EveryRunCommits` | examples/windowing.ts:16-58 | Committed state depends only on the events that succeeded. No window is stuck and at most one timer is scheduled |
| `WindowRuns.FailedAttemptsAreInvisible` | examples/windowing.ts:16-58 | Two runs that succeeded on the same events committed the same state, whatever failed in between |
| `WindowRuns.ExciseForgets` | examples/windowing.ts:20-26 | An excise either changes no committed state and is retried, or leaves nothing saved, the window closed, and no timer scheduled |
| `WindowRuns.SavedHasNoRepeats` | examples/windowing.ts:16-17 | The saved messages have no repeats, and there are none when the window is closed |
| `WindowRuns.NothingIsLost` | examples/windowing.ts:28-58 | Every handled message was notified, is saved, was pushed out by at least 100 later ones, or was excised |
| `WindowRuns.ClearedBatchWasNotified` | examples/windowing.ts:53-57 | A timer attempt either leaves the committed state alone, or clears the batch with exactly that batch as its last notification |
| `WindowRuns.OpeningTimers` | examples/windowing.ts:33-38 | Opening a window succeeds exactly when its four operations work. It then leaves exactly one outstanding timer if and only if no timer was owed before and no scheduled one fires during those operations |
| `WindowRuns.StaleTimerCanOverlap` | examples/windowing.ts:36-38 | A run in which a rolled-back attempt leaves a second outstanding timer |
| `KeyedState.HandleMessage` | examples/keyed-state.ts:34-58 | The handler does what the specified attempt does, under any fates |
| `KeyedState.HandleExcise` | examples/keyed-state.ts:25-32 | The same for the excise |
| `KeyedState.MessagePerforms` | examples/keyed-state.ts:34-58 | The operations of a message attempt, in order. One that finds its order ends after the first |
| `KeyedState.ExcisePerforms` | examples/keyed-state.ts:25-32 | The four clears of an excise attempt, in order |
| `KeyedState.AttemptIsDecided` | examples/keyed-state.ts:25-58 | In every reachable state an attempt succeeds exactly when each of its operations works, and then leaves exactly the stated collections. One that fails commits nothing |
| `KeyedState.CollectionsStayCoupled` | examples/keyed-state.ts:19-58 | The cart has no repeats, its set is the seen set, the backlog holds its newest 100 in order, and the total is the newest |
| `KeyedState.FirstsCoverMessages` | examples/keyed-state.ts:34-43 | The cart holds exactly the ids of the messages handled since the last excise |
| `Abort.RaceSuccess` | src/client/mod.rs:223-233 | Unless its operation completed, a request never succeeds, and a send succeeds exactly when a resolved abort promise wins |
| `Abort.RaceIsDecided` | src/client/mod.rs:223-233 | The race takes the branch that is ready, and either one when both are. A rejecting abort promise gives the abort error |
| `Abort.ListenersAreWatchingCalls` | lib/client.js:299-312 | Listeners are exactly the unsettled calls that have not seen the abort. A call settles with success or failure only when its own operation ended so, and with the abort error only after the abort |
| `Abort.AbortEndsCalls` | src/client/mod.rs:223-233 | After the abort every call in flight can settle at once with the abort error, and leaves no listener |
| `Abort.OperationSettlesCall` | src/client/mod.rs:223-233 | A call whose operation ends can settle with its result, whatever the signal did |
| `Abort.SharedSignal.BeginCall` | lib/client.js:299-306 | A call that starts makes one step: it listens unless the signal has already fired |
| `Abort.SharedSignal.Fire` | lib/client.js:302-306 | The abort runs every listener once and removes it |
| `Abort.SharedSignal.LeaveCall` | lib/client.js:308-312 | A call that settles removes its listener |
| `DequeAt.AtAgreesWithArrays` | lib/state/query.js:191-200 | `at` equals `Array.prototype.at` exactly when the length fits a u32, or the index is -1, fits a u32, or is past the end |
| `DequeAt.AtRejects` | lib/state/query.js:191-200 | `at` rejects exactly for an index that is no safe integer, and for a negative one other than -1 on a deque longer than a u32 |

## Left out

- Kafka, Cassandra, peer gRPC, and the prosody crate: not in the repository. The contracts above stand for them.
- The `await` that an async generator puts around each yielded and returned value: it adds a turn of the event
  loop and changes no order. A `return` of a promise that rejects is not modelled.
- Decoding of items inside `transform`: a function that may fail, applied once per delivered item.
- The cap of 256 items per chunk: the results hold for chunks of every size.
- Trace carriers, spans, logging, and the text of error messages, except where a message carries a category.
- Lone surrogates in JavaScript strings: a string is its sequence of code points.
- The order of the entries of an options object: the check is proved for every order.
- JavaScript class hierarchies that override the `isPermanent` getter, and decorators on other members than
  methods.
- Expiry by time to live, explicit `commit` and `rollback`, and `readUncommitted`.
- An event that Prosody redelivers after its handler succeeded, and a commit that fails: success and commit are
  one step.
- The payload of a windowing message, and a stored total that is not a number.
- `shutdown`, subscription, configuration, admin, definitions, and the context handle cache: direct calls and
  copies.
