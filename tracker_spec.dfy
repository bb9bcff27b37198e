/** The decryption-failure tracker as a state machine over values: its state, the effect of each
    public operation, the invariant every operation keeps, and call traces. */
module TrackerSpec {
  import opened Events

  /** A clock reading handed to checkFailures; `Infinite` is the tests' `Infinity`. */
  datatype Time = Finite(ms: int) | Infinite

  /** How long, in milliseconds, a failure waits before it may be queued. Its value is left open. */
  const GracePeriodMs: nat

  /** A failure record, the value handed to the reporting callback: the failing event's id
      and the time the failure was first observed. */
  datatype DecryptionFailure = DecryptionFailure(failedEventId: string, ts: int)

  /** A failure may be queued once its grace period has passed: always at `Infinite`, and never
      at or before the moment it was observed. */
  predicate Eligible(f: DecryptionFailure, now: Time): (r: bool)
    ensures now.Infinite? ==> r
    ensures now.Finite? && now.ms <= f.ts ==> !r
  {
    match now
    case Infinite => true
    case Finite(n) => n > f.ts + GracePeriodMs
  }

  function Ids(fs: seq<DecryptionFailure>): seq<string>
  {
    seq(|fs|, i requires 0 <= i < |fs| => fs[i].failedEventId)
  }

  function IdSet(fs: seq<DecryptionFailure>): set<string>
  {
    set f | f in fs :: f.failedEventId
  }

  predicate Distinct(ids: seq<string>)
  {
    forall i, j | 0 <= i < j < |ids| :: ids[i] != ids[j]
  }

  /** Which failures a filter keeps: those whose eligibility at `now` is `eligible`,
      or those that belong to an event other than `id`. */
  datatype Keep = EligibleAt(now: Time, eligible: bool) | OtherThan(id: string)

  predicate Keeps(k: Keep, f: DecryptionFailure)
  {
    match k
    case EligibleAt(now, eligible) => Eligible(f, now) == eligible
    case OtherThan(id) => f.failedEventId != id
  }

  /** `a` is `b` with some elements left out: what is left keeps its order. */
  predicate SubsequenceOf(a: seq<DecryptionFailure>, b: seq<DecryptionFailure>)
    decreases |b|
  {
    if b == [] then a == []
    else
      var n := |b| - 1;
      || (a != [] && a[|a| - 1] == b[n] && SubsequenceOf(a[..|a| - 1], b[..n]))
      || SubsequenceOf(a, b[..n])
  }

  /** The failures of `fs` that `k` keeps, in their original order. */
  function Filter(fs: seq<DecryptionFailure>, k: Keep): (r: seq<DecryptionFailure>)
    ensures |r| <= |fs|
    ensures forall f :: f in r <==> f in fs && Keeps(k, f)
  {
    if fs == [] then []
    else
      var last := fs[|fs| - 1];
      assert fs == fs[..|fs| - 1] + [last];
      Filter(fs[..|fs| - 1], k) + (if Keeps(k, last) then [last] else [])
  }

  /** Ids that occur in `ids` and not in `seen`, each once, in order of first occurrence. */
  function FirstOccurrences(ids: seq<string>, seen: set<string>): (r: seq<string>)
    ensures Distinct(r)
    ensures forall id :: id in r <==> id in ids && id !in seen
  {
    if ids == [] then []
    else if ids[0] in seen then FirstOccurrences(ids[1..], seen)
    else [ids[0]] + FirstOccurrences(ids[1..], seen + {ids[0]})
  }

  /** The tracker's state.
      pending: failures still within their grace period, in first-failure order;
      queue:   failures ready to report, oldest first;
      tracked: ids ever moved to the queue (queued or already reported);
      reports: every failure handed to the reporting callback, in order. */
  datatype TrackerState = TrackerState(
    pending: seq<DecryptionFailure>,
    queue: seq<DecryptionFailure>,
    tracked: set<string>,
    reports: seq<DecryptionFailure>)

  function Init(): TrackerState
  {
    TrackerState([], [], {}, [])
  }

  /** At most one report or queued entry per id, `tracked` is exactly the ids reported or queued,
      and a pending failure has a distinct id that is not tracked. */
  predicate Inv(s: TrackerState)
  {
    && Distinct(Ids(s.reports + s.queue))
    && s.tracked == IdSet(s.reports + s.queue)
    && Distinct(Ids(s.pending))
    && IdSet(s.pending) !! s.tracked
  }

  /** eventDecrypted: a failure of an id that is neither pending nor tracked becomes pending;
      a successful decryption withdraws the id's pending failure. */
  function StepEventDecrypted(s: TrackerState, ev: MatrixEvent, ts: int): (s': TrackerState)
    ensures s'.queue == s.queue && s'.tracked == s.tracked && s'.reports == s.reports
    ensures IsDecryptionFailure(ev) ==> ev.id in s.tracked || ev.id in IdSet(s'.pending)
    ensures !IsDecryptionFailure(ev) ==> ev.id !in IdSet(s'.pending)
    ensures forall f: DecryptionFailure :: f.failedEventId != ev.id ==> (f in s'.pending <==> f in s.pending)
  {
    if !IsDecryptionFailure(ev) then
      s.(pending := Filter(s.pending, OtherThan(ev.id)))
    else if ev.id in s.tracked || ev.id in IdSet(s.pending) then
      s
    else
      s.(pending := s.pending + [DecryptionFailure(ev.id, ts)])
  }

  /** checkFailures: every pending failure whose grace period has passed moves to the end of the
      queue, in pending order, and its id becomes tracked. */
  function StepCheckFailures(s: TrackerState, now: Time): (s': TrackerState)
    ensures s'.reports == s.reports
    ensures s.queue <= s'.queue
    ensures forall f :: f in s'.queue <==> f in s.queue || (f in s.pending && Eligible(f, now))
    ensures forall f :: f in s'.pending <==> f in s.pending && !Eligible(f, now)
  {
    var ready := Filter(s.pending, EligibleAt(now, true));
    TrackerState(
      Filter(s.pending, EligibleAt(now, false)),
      s.queue + ready,
      s.tracked + IdSet(ready),
      s.reports)
  }

  /** trackFailure: hands the oldest queued failure, if there is one, to the callback. */
  function StepTrackFailure(s: TrackerState): (s': TrackerState)
    ensures s'.reports + s'.queue == s.reports + s.queue
    ensures |s'.reports| == if s.queue == [] then |s.reports| else |s.reports| + 1
    ensures s'.pending == s.pending && s'.tracked == s.tracked
  {
    if s.queue == [] then s
    else s.(queue := s.queue[1..], reports := s.reports + [s.queue[0]])
  }

  /** Every failure the tracker holds, in the order it hands them over: reported, queued, pending. */
  function History(s: TrackerState): seq<DecryptionFailure>
  {
    s.reports + s.queue + s.pending
  }

  /** First-observation times never decrease along `fs`. */
  predicate InTimeOrder(fs: seq<DecryptionFailure>)
  {
    forall i, j | 0 <= i < j < |fs| :: fs[i].ts <= fs[j].ts
  }

  /** A clock reading no earlier than the observation of any failure the tracker holds. */
  predicate NotBefore(s: TrackerState, nowTs: int)
  {
    forall f | f in History(s) :: f.ts <= nowTs
  }

  /** A call of one of the tracker's public operations. */
  datatype Call = EventDecryptedCall(ev: MatrixEvent, ts: int) | CheckFailuresCall(now: Time) | TrackFailureCall

  function Step(s: TrackerState, c: Call): TrackerState
  {
    match c
    case EventDecryptedCall(ev, ts) => StepEventDecrypted(s, ev, ts)
    case CheckFailuresCall(now) => StepCheckFailures(s, now)
    case TrackFailureCall => StepTrackFailure(s)
  }

  /** The state after a sequence of calls, made in order. */
  function Run(s: TrackerState, calls: seq<Call>): TrackerState
    decreases |calls|
  {
    if calls == [] then s else Run(Step(s, calls[0]), calls[1..])
  }

  /** The clock readings the calls hand to eventDecrypted are no earlier than `t` and never go back. */
  predicate ReadingsFrom(t: int, calls: seq<Call>)
    decreases |calls|
  {
    if calls == [] then true
    else if calls[0].EventDecryptedCall? then t <= calls[0].ts && ReadingsFrom(calls[0].ts, calls[1..])
    else ReadingsFrom(t, calls[1..])
  }

  /** `n` polls of trackFailure. */
  function Polls(n: nat): seq<Call>
  {
    if n == 0 then [] else [TrackFailureCall] + Polls(n - 1)
  }
}
