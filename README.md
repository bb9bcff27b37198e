# Decryption-failure tracker

This project models the decryption-failure tracker of a Matrix chat client (matrix-react-sdk). The
tracker collects telemetry about messages the client could not decrypt. It is told the outcome of
each decryption attempt through `eventDecrypted(event)`. After a grace period, `checkFailures(now)`
moves failures that are still unresolved into a ready-to-report queue. Each `trackFailure()` poll
hands the oldest queued failure, `{failedEventId}`, to a reporting callback given to the
constructor. The tracker reports each event at most once per lifetime. Reports come in the order
of the failures still standing, by when each was observed: a failure withdrawn by a successful
decryption and then recurring counts from its recurrence. A failure that a later successful
decryption resolves before it is queued is never reported. A failure that no later successful
decryption resolves is reported once `checkFailures(Infinity)` has run and `trackFailure` has been
polled often enough.

`src/DecryptionFailureTracker.js` is not part of this model. The tracker's behaviour is taken from
its unit tests, `test/DecryptionFailureTracker-test.js`, which fix it completely for the cases they
exercise. Where those tests leave a choice open, the model makes one:

- `trackFailure` hands over at most one failure per call. The tests call it as a poller, several
  times in a row ("simulated polling"), and only the totals and the order of the reports are
  observable. `PollsReportInQueueOrder` shows that `n` polls report the first `n` queued failures
  in order and that extra polls do nothing. The comments in the tests call the failure a poll
  hands over "the newest failure", but the order test (test/DecryptionFailureTracker-test.js:105-128)
  expects two polls to deliver the first event's failure and then the second's. With one failure
  per poll, that holds only if each poll hands over the oldest queued failure, so the model does
  that.
- A repeated failure of an event that is already pending, queued or reported changes nothing. The
  first observation keeps its place and its timestamp.
- A successful decryption withdraws only a *pending* failure. Once a failure is queued, the report
  stands.
- A withdrawn failure that recurs is a new failure: it is observed anew and queued after the
  failures observed in between. So if `a` fails, `b` fails, `a` decrypts and then `a` fails again,
  `b` is reported before `a`.
- A failure may be queued once `now > ts + GracePeriodMs`, where `ts` is when it was first observed.
  The grace period is a constant whose value is left open. The tests only ever pass `Infinity`.
- `eventDecrypted` reads the clock itself. The model passes the reading in as a parameter and
  requires it not to be earlier than any failure the tracker holds, as a clock's readings are.
  Under that condition the failures held stay in order of first observation, so those whose grace
  period has passed at a given `now` are always the oldest pending ones.

## Layout

- `events.dfy` (module `Events`): the event as an id plus clear content, and the failure
  classification. The clear content's msgtype is `m.bad.encrypted` exactly for failures.
- `tracker_spec.dfy` (module `TrackerSpec`): the tracker as a state machine over values. It holds
  the state (`pending`, `queue`, `tracked`, `reports`), one step function per public operation, the
  invariant `Inv`, and `Run` over a sequence of calls. `History` is the reports, then the queue,
  then the pending failures; `InTimeOrder` says their observation times never decrease.
- `tracker_properties.dfy` (module `TrackerProperties`): lemmas over all states and call sequences.
- `tracker_order.dfy` (module `TrackerOrder`): the order of the failures the tracker holds, while
  the clock readings never go back.
- `tracker.dfy` (module `DecryptionFailureTracker`): class `Tracker`, whose methods update the
  fields in place. Each method is specified by the matching step function and keeps `Inv` and the
  time order of the failures held. The loop of `CheckFailures` over the pending failures is
  `SplitByGrace`. The ghost field `reports` records every callback invocation.
- `tracker_tests.dfy` (module `TrackerTests`): the five live test cases, written as calls on the
  class.
  Each one's postcondition is what the test expects.

## Model

| member | source | states |
|---|---|---|
| `Events.CreateFailedDecryptionEvent` | test/DecryptionFailureTracker-test.js:23-31 | the event it builds has the given id and is classified as a decryption failure |
| `Events.ClassifiedByMsgtypeOnly` | test/DecryptionFailureTracker-test.js:60-62 | any bad-encrypted message content counts as a failure; content with any other msgtype, or none (`{}`), counts as success |
| `Events.BadEncryptedMessage` | test/DecryptionFailureTracker-test.js:27-29 | the client's placeholder content `_badEncryptedMessage(reason)` carries the reason as its body, and any event holding it is classified as a decryption failure |
| `Events.IsDecryptionFailure` | test/DecryptionFailureTracker-test.js:60-62 | an event whose clear msgtype is `m.bad.encrypted` is a failure; an event with empty clear content (`{}`) is a successful decryption |
| `Events.SetClearData` | test/DecryptionFailureTracker-test.js:63-64 | replacing the clear content keeps the event's id |
| `TrackerSpec.Eligible` | test/DecryptionFailureTracker-test.js:40-44 | the grace-period rule `now > ts + GracePeriodMs`: every failure may be queued at `Infinity`, and none at or before the moment it was observed |
| `TrackerSpec.StepEventDecrypted` | test/DecryptionFailureTracker-test.js:54-72 | after a failure the id is pending unless already tracked; after a success the id has no pending failure; other ids' pending failures, the queue, `tracked` and the reports are unchanged |
| `TrackerSpec.StepCheckFailures` | test/DecryptionFailureTracker-test.js:40-44 | the old queue is a prefix of the new one; exactly the eligible pending failures join the queue; exactly the ineligible ones stay pending; the reports are unchanged (the order in which they join is `TrackerOrder.CheckFailuresQueuesAPrefix`) |
| `TrackerSpec.StepTrackFailure` | test/DecryptionFailureTracker-test.js:46-47 | reports followed by queue is unchanged, so nothing is lost or duplicated; one report is added exactly when the queue is non-empty |
| `TrackerProperties.StepEventDecryptedKeepsInv` | test/DecryptionFailureTracker-test.js:81-89 | `eventDecrypted` keeps the invariant: distinct reported or queued ids, `tracked` equal to them, distinct pending ids disjoint from `tracked` |
| `TrackerProperties.StepCheckFailuresKeepsInv` | test/DecryptionFailureTracker-test.js:91-92 | `checkFailures` keeps the invariant |
| `TrackerProperties.StepTrackFailureKeepsInv` | test/DecryptionFailureTracker-test.js:94-100 | `trackFailure` keeps the invariant |
| `TrackerProperties.StepKeepsInv` | test/DecryptionFailureTracker-test.js:74-103 | every public operation keeps the invariant |
| `TrackerProperties.RunKeepsInv` | test/DecryptionFailureTracker-test.js:74-103 | every sequence of calls keeps the invariant |
| `TrackerProperties.RunOnlyAppendsReports` | test/DecryptionFailureTracker-test.js:130-152 | reporting is final: later calls only append to the reports already made |
| `TrackerProperties.AtMostOneReportPerEvent` | test/DecryptionFailureTracker-test.js:74-103 | from a new tracker, any sequence of calls reports each event id at most once |
| `TrackerProperties.ReportIsFinal` | test/DecryptionFailureTracker-test.js:130-152 | once an id has been reported, no later report in any call sequence carries that id |
| `TrackerProperties.UnfailedIdIsNeverReported` | test/DecryptionFailureTracker-test.js:54-72 | an id that is neither pending nor tracked never reaches the queue or the reports unless it fails to decrypt again |
| `TrackerProperties.DecryptedEventIsNeverReported` | test/DecryptionFailureTracker-test.js:54-72 | after a successful decryption of an untracked event, no call sequence without a new failure of it reports it |
| `TrackerProperties.PollsReportInQueueOrder` | test/DecryptionFailureTracker-test.js:94-100 | `n` polls report the first min(n, queue length) queued failures in queue order and leave the rest queued; extra polls invoke the callback no further |
| `TrackerProperties.PollsOnEmptyQueue` | test/DecryptionFailureTracker-test.js:46-47 | polling an empty queue changes nothing: the callback is not invoked |
| `TrackerProperties.CheckFailuresAtInfinityQueuesAll` | test/DecryptionFailureTracker-test.js:40-44 | `checkFailures(Infinity)` appends all pending failures to the queue, in pending order, and leaves nothing pending |
| `TrackerProperties.GracePeriodWithholdsFailure` | test/DecryptionFailureTracker-test.js:40-44 | a failure still inside its grace period stays pending and its id does not reach the queue |
| `TrackerProperties.RepeatedFailureIsIgnored` | test/DecryptionFailureTracker-test.js:81-89 | a further failure of an event that is already pending, queued or reported leaves the state unchanged |
| `TrackerProperties.QueuedFailureIsReported` | test/DecryptionFailureTracker-test.js:94-98 | a queued failure is delivered by as many polls as there are queued failures |
| `TrackerProperties.FailuresPendInFirstFailureOrder` | test/DecryptionFailureTracker-test.js:105-128 | after any run of failed decryptions, the pending ids are the old ones followed by each new id once, in order of first failure, whatever the repetitions |
| `TrackerProperties.FailuresQueueInFirstFailureOrder` | test/DecryptionFailureTracker-test.js:105-128 | from a new tracker, failed decryptions and `checkFailures(Infinity)` queue each failing event once, in the order it first failed, and report nothing yet |
| `TrackerProperties.ReportsInFirstFailureOrder` | test/DecryptionFailureTracker-test.js:105-128 | from a new tracker, after failed decryptions, `checkFailures(Infinity)` and `n` polls, the callback has received the first `n` failing events in the order they first failed, each once, whatever their clock readings |
| `TrackerProperties.StepKeepsHeld` | test/DecryptionFailureTracker-test.js:34-51 | a failure pending, queued or reported stays so across any call other than a successful decryption of its event |
| `TrackerProperties.HeldFailureStaysHeld` | test/DecryptionFailureTracker-test.js:34-51 | across any call sequence without a successful decryption of the event, its failure stays pending, queued or reported, and the failures queued or pending grow by at most one per call |
| `TrackerProperties.FailureIsEventuallyReported` | test/DecryptionFailureTracker-test.js:34-51 | an event that fails is reported, whatever calls follow, provided none of them decrypts it successfully, once `checkFailures(Infinity)` has run and `trackFailure` has been polled more times than failures were held plus calls made |
| `TrackerOrder.FilterIsSubsequence` | test/DecryptionFailureTracker-test.js:54-72 | withdrawing a failure, or splitting the pending failures by grace period, only leaves failures out: what remains keeps its order |
| `TrackerOrder.EligibleFormAPrefix` | test/DecryptionFailureTracker-test.js:40-44 | in a sequence of failures in order of first observation, those whose grace period has passed at any `now` come first and the waiting ones after them |
| `TrackerOrder.CheckFailuresQueuesAPrefix` | test/DecryptionFailureTracker-test.js:105-128 | for any `now`, `checkFailures` on time-ordered pending failures appends a prefix of them to the queue in pending order and leaves exactly the rest pending; no failure held is lost or reordered |
| `TrackerOrder.CheckFailuresKeepsHistory` | test/DecryptionFailureTracker-test.js:91-92 | when the grace-period split cuts the pending failures in two, `checkFailures` leaves the failures held, in order, unchanged |
| `TrackerOrder.CheckFailuresKeepsOrder` | test/DecryptionFailureTracker-test.js:91-92 | `checkFailures` keeps the invariant and the time order of the failures held, and queues a prefix of the pending failures |
| `TrackerOrder.StepKeepsTimeOrder` | test/DecryptionFailureTracker-test.js:105-128 | with a clock reading not before any failure held, every call keeps the failures held in order of first observation; a failed decryption leaves them as they are or appends its own failure, a successful one removes the event's pending failure and keeps the rest in order, and `checkFailures` and `trackFailure` neither lose nor reorder one |
| `TrackerOrder.RunKeepsTimeOrder` | test/DecryptionFailureTracker-test.js:105-128 | every call sequence whose clock readings never go back keeps the failures held in order of first observation |
| `TrackerOrder.ReportsInFailureTimeOrder` | test/DecryptionFailureTracker-test.js:105-128 | from a new tracker, with clock readings that never go back, the observation times of the reported failures never decrease |
| `DecryptionFailureTracker.SplitByGrace` | test/DecryptionFailureTracker-test.js:40-44 | the loop returns exactly the failures whose grace period has passed and exactly those still waiting, each in the original order |
| `DecryptionFailureTracker.Tracker.constructor` | test/DecryptionFailureTracker-test.js:37-39 | a new tracker is in the initial state, with nothing pending, queued, tracked or reported |
| `DecryptionFailureTracker.Tracker.EventDecrypted` | test/DecryptionFailureTracker-test.js:81-89 | given a clock reading not before any failure held, the new state is `StepEventDecrypted` of the old one; the invariant and the time order of the failures held are kept |
| `DecryptionFailureTracker.Tracker.CheckFailures` | test/DecryptionFailureTracker-test.js:91-92 | the new state is `StepCheckFailures` of the old one; the queue grows by a prefix of the pending failures, in order, and exactly the rest stays pending; the invariant and the time order are kept |
| `DecryptionFailureTracker.Tracker.TrackFailure` | test/DecryptionFailureTracker-test.js:94-98 | the new state is `StepTrackFailure` of the old one, and no failure held is lost or reordered; the result is the oldest queued failure, or None when the queue is empty and the callback is not invoked |
| `TrackerTests.TracksAFailedDecryption` | test/DecryptionFailureTracker-test.js:34-51 | one failure, `checkFailures(Infinity)` and one poll deliver that event's failure to the callback |
| `TrackerTests.DoesNotTrackSubsequentlyDecryptedEvent` | test/DecryptionFailureTracker-test.js:54-72 | a failure resolved by a successful decryption before `checkFailures` is never delivered |
| `TrackerTests.TracksOneFailurePerEvent` | test/DecryptionFailureTracker-test.js:74-103 | five failures of one event and three of another, then four polls, invoke the callback exactly twice |
| `TrackerTests.TracksFailuresInOrder` | test/DecryptionFailureTracker-test.js:105-128 | two events that fail in turn are delivered in that order, each with its own `failedEventId` |
| `TrackerTests.DoesNotTrackEventTrackedPreviously` | test/DecryptionFailureTracker-test.js:130-152 | an event that fails again after being reported gets no second report |

## Left out

- `src/components/structures/RoomView.js`: a React component whose logic cannot be separated from
  rendering, DOM and window listeners, drag-and-drop upload, asynchronous client calls, dialogs and
  `localStorage`. None of it is modelled.
- Persistence of tracked event ids across sessions: its only test is disabled
  (test/DecryptionFailureTracker-test.js:154-184) and relies on `localStorage`.
- The reporting callback as a function value: the constructor takes no argument. Each invocation
  of the callback is the `Some` result of `Tracker.TrackFailure`, and the ghost field `reports`
  records it. What a callback does with the failure (the tests push it or count it) happens in the
  scenario methods.
- Timers and the actual grace-period value: `GracePeriodMs` is an unspecified constant. Any periodic
  scheduling of `checkFailures` and `trackFailure` is the caller's concern.
- The clock: `eventDecrypted` takes the time of the observation as a parameter, `nowTs`, instead of
  reading a clock. `Tracker.EventDecrypted` requires the reading not to be earlier than any failure
  the tracker holds (`NotBefore`). The value-level `StepEventDecrypted` accepts any reading. The
  order lemmas over call sequences require readings that never go back (`ReadingsFrom`).
- TrackerSpec.StepCheckFailures: its own contract says which failures join the queue, not in what
  order. The order is `TrackerOrder.CheckFailuresQueuesAPrefix`: a prefix of the pending failures,
  in pending order. That holds only while the pending failures are in order of first observation.
  A clock that goes back can break that, and then eligible failures may join in another order.
- TrackerOrder.ReportsInFailureTimeOrder: it orders reports by observation time only, so it says
  nothing about two failures observed at the same reading. For traces made only of failed
  decryptions, `TrackerProperties.ReportsInFirstFailureOrder` fixes the order exactly. For general
  traces, the order among equal readings follows from `TrackerOrder.StepKeepsTimeOrder` call by
  call; no single lemma states it for a whole trace.
- The random event ids of the tests: ids are arbitrary strings, distinct where a test uses two
  events.
- `MatrixEvent` internals: an event is reduced to its id and clear content (msgtype and body). The
  exact body text of the bad-encrypted placeholder is not modelled; the body is the reason string.
