/** What the tracker promises over whole call sequences: the invariant holds throughout, reports are
    final and at most one per event, a failure that is never resolved is reported, a resolved one is
    not, and failed decryptions are reported in the order the events first failed. */
module TrackerProperties {
  import opened Events
  import opened TrackerSpec

  lemma IdsAppend(a: seq<DecryptionFailure>, b: seq<DecryptionFailure>)
    ensures Ids(a + b) == Ids(a) + Ids(b)
  {
    assert |Ids(a + b)| == |Ids(a) + Ids(b)|;
    forall i | 0 <= i < |a + b| ensures Ids(a + b)[i] == (Ids(a) + Ids(b))[i] {
      if i >= |a| {
        assert (a + b)[i] == b[i - |a|];
      }
    }
  }

  lemma IdSetAppend(a: seq<DecryptionFailure>, b: seq<DecryptionFailure>)
    ensures IdSet(a + b) == IdSet(a) + IdSet(b)
  {
    forall id | id in IdSet(a + b) ensures id in IdSet(a) + IdSet(b) {
      var f :| f in a + b && f.failedEventId == id;
    }
    forall id | id in IdSet(a) + IdSet(b) ensures id in IdSet(a + b) {
      var f :| (f in a || f in b) && f.failedEventId == id;
      assert f in a + b;
    }
  }

  /** Within a sequence of failures with distinct ids, an id determines the failure. */
  lemma SameIdSameFailure(fs: seq<DecryptionFailure>, f: DecryptionFailure, g: DecryptionFailure)
    requires Distinct(Ids(fs)) && f in fs && g in fs && f.failedEventId == g.failedEventId
    ensures f == g
  {
    var i :| 0 <= i < |fs| && fs[i] == f;
    var j :| 0 <= j < |fs| && fs[j] == g;
    assert Ids(fs)[i] == Ids(fs)[j];
  }

  lemma {:induction false} FilterKeepsDistinct(fs: seq<DecryptionFailure>, k: Keep)
    requires Distinct(Ids(fs))
    ensures Distinct(Ids(Filter(fs, k)))
  {
    if fs != [] {
      var n := |fs| - 1;
      var init, last := fs[..n], fs[n];
      assert fs == init + [last];
      IdsAppend(init, [last]);
      assert Ids(init) == Ids(fs)[..n];
      FilterKeepsDistinct(init, k);
      var r0 := Filter(init, k);
      if !Keeps(k, last) {
        assert Filter(fs, k) == r0;
      } else {
        assert Filter(fs, k) == r0 + [last];
        forall i | 0 <= i < |r0| ensures r0[i].failedEventId != last.failedEventId {
          assert r0[i] in init;
          var j :| 0 <= j < n && init[j] == r0[i];
          assert Ids(fs)[j] == r0[i].failedEventId && Ids(fs)[n] == last.failedEventId;
        }
        IdsAppend(r0, [last]);
      }
    }
  }

  /** Two id-distinct sequences with disjoint ids concatenate to an id-distinct sequence. */
  lemma AppendDistinct(a: seq<DecryptionFailure>, b: seq<DecryptionFailure>)
    requires Distinct(Ids(a)) && Distinct(Ids(b)) && IdSet(a) !! IdSet(b)
    ensures Distinct(Ids(a + b))
  {
    IdsAppend(a, b);
    forall i, j | 0 <= i < |a| <= j < |a + b| ensures Ids(a + b)[i] != Ids(a + b)[j] {
      assert a[i] in a && b[j - |a|] in b;
      assert a[i].failedEventId in IdSet(a) && b[j - |a|].failedEventId in IdSet(b);
      assert Ids(a + b)[i] == a[i].failedEventId;
      assert Ids(a + b)[j] == b[j - |a|].failedEventId;
    }
  }

  lemma FilterIdSubset(fs: seq<DecryptionFailure>, k: Keep)
    ensures IdSet(Filter(fs, k)) <= IdSet(fs)
  {
    forall id | id in IdSet(Filter(fs, k)) ensures id in IdSet(fs) {
      var f :| f in Filter(fs, k) && f.failedEventId == id;
    }
  }

  /** Filtering with a criterion no element meets leaves nothing. */
  lemma FilterNoneKept(fs: seq<DecryptionFailure>, k: Keep)
    requires forall f | f in fs :: !Keeps(k, f)
    ensures Filter(fs, k) == []
  {
  }

  /** Filtering with a criterion every element meets changes nothing. */
  lemma {:induction false} FilterAllKept(fs: seq<DecryptionFailure>, k: Keep)
    requires forall f | f in fs :: Keeps(k, f)
    ensures Filter(fs, k) == fs
  {
    if fs != [] {
      var n := |fs| - 1;
      assert fs == fs[..n] + [fs[n]];
      FilterAllKept(fs[..n], k);
    }
  }

  lemma StepEventDecryptedKeepsInv(s: TrackerState, ev: MatrixEvent, ts: int)
    requires Inv(s)
    ensures Inv(StepEventDecrypted(s, ev, ts))
  {
    var s' := StepEventDecrypted(s, ev, ts);
    if !IsDecryptionFailure(ev) {
      FilterKeepsDistinct(s.pending, OtherThan(ev.id));
      FilterIdSubset(s.pending, OtherThan(ev.id));
    } else if s' != s {
      var f := DecryptionFailure(ev.id, ts);
      IdsAppend(s.pending, [f]);
      IdSetAppend(s.pending, [f]);
      assert IdSet([f]) == {ev.id};
    }
  }

  lemma StepCheckFailuresKeepsInv(s: TrackerState, now: Time)
    requires Inv(s)
    ensures Inv(StepCheckFailures(s, now))
  {
    var s' := StepCheckFailures(s, now);
    var ready := Filter(s.pending, EligibleAt(now, true));
    var waiting := Filter(s.pending, EligibleAt(now, false));
    var reported := s.reports + s.queue;
    assert s'.reports + s'.queue == reported + ready;
    FilterKeepsDistinct(s.pending, EligibleAt(now, true));
    FilterKeepsDistinct(s.pending, EligibleAt(now, false));
    FilterIdSubset(s.pending, EligibleAt(now, true));
    FilterIdSubset(s.pending, EligibleAt(now, false));
    AppendDistinct(reported, ready);
    IdSetAppend(reported, ready);
    WaitingAndReadyDisjoint(s.pending, now);
  }

  /** The failures checkFailures keeps pending and those it queues belong to different events. */
  lemma WaitingAndReadyDisjoint(pending: seq<DecryptionFailure>, now: Time)
    requires Distinct(Ids(pending))
    ensures IdSet(Filter(pending, EligibleAt(now, false))) !! IdSet(Filter(pending, EligibleAt(now, true)))
  {
    var waiting := Filter(pending, EligibleAt(now, false));
    var ready := Filter(pending, EligibleAt(now, true));
    forall id | id in IdSet(waiting) && id in IdSet(ready) ensures false {
      var f :| f in waiting && f.failedEventId == id;
      var g :| g in ready && g.failedEventId == id;
      SameIdSameFailure(pending, f, g);
    }
  }

  lemma StepTrackFailureKeepsInv(s: TrackerState)
    requires Inv(s)
    ensures Inv(StepTrackFailure(s))
  {
    var s' := StepTrackFailure(s);
    assert s'.reports + s'.queue == s.reports + s.queue;
  }

  lemma StepKeepsInv(s: TrackerState, c: Call)
    requires Inv(s)
    ensures Inv(Step(s, c))
  {
    match c
    case EventDecryptedCall(ev, ts) => StepEventDecryptedKeepsInv(s, ev, ts);
    case CheckFailuresCall(now) => StepCheckFailuresKeepsInv(s, now);
    case TrackFailureCall => StepTrackFailureKeepsInv(s);
  }

  /** Every sequence of calls keeps the invariant; in particular the initial state satisfies it. */
  lemma {:induction false} RunKeepsInv(s: TrackerState, calls: seq<Call>)
    requires Inv(s)
    ensures Inv(Run(s, calls))
    decreases |calls|
  {
    if calls != [] {
      StepKeepsInv(s, calls[0]);
      RunKeepsInv(Step(s, calls[0]), calls[1..]);
    }
  }

  lemma {:induction false} RunAppend(s: TrackerState, a: seq<Call>, b: seq<Call>)
    ensures Run(s, a + b) == Run(Run(s, a), b)
    decreases |a|
  {
    if a == [] {
      assert a + b == b;
    } else {
      assert (a + b)[0] == a[0] && (a + b)[1..] == a[1..] + b;
      RunAppend(Step(s, a[0]), a[1..], b);
    }
  }

  /** Reporting is final: calls only ever append to the reports already made. */
  lemma {:induction false} RunOnlyAppendsReports(s: TrackerState, calls: seq<Call>)
    ensures s.reports <= Run(s, calls).reports
    decreases |calls|
  {
    if calls != [] {
      RunOnlyAppendsReports(Step(s, calls[0]), calls[1..]);
    }
  }

  /** Over a tracker's whole lifetime the callback receives at most one failure per event id. */
  lemma AtMostOneReportPerEvent(calls: seq<Call>)
    ensures Distinct(Ids(Run(Init(), calls).reports))
  {
    assert Inv(Init()) by {
      assert Init().reports + Init().queue == [];
    }
    RunKeepsInv(Init(), calls);
    var r := Run(Init(), calls);
    IdsAppend(r.reports, r.queue);
    forall i, j | 0 <= i < j < |r.reports| ensures Ids(r.reports)[i] != Ids(r.reports)[j] {
      assert Ids(r.reports + r.queue)[i] != Ids(r.reports + r.queue)[j];
    }
  }

  /** Once a failure for an id has been reported, no later call reports that id again. */
  lemma ReportIsFinal(s: TrackerState, calls: seq<Call>, id: string)
    requires Inv(s)
    requires id in Ids(s.reports)
    ensures forall j | |s.reports| <= j < |Run(s, calls).reports| :: Run(s, calls).reports[j].failedEventId != id
  {
    var r := Run(s, calls).reports;
    RunKeepsInv(s, calls);
    RunOnlyAppendsReports(s, calls);
    IdsAppend(r, Run(s, calls).queue);
    var i :| 0 <= i < |s.reports| && Ids(s.reports)[i] == id;
    forall j | |s.reports| <= j < |r| ensures r[j].failedEventId != id {
      assert Ids(r + Run(s, calls).queue)[i] != Ids(r + Run(s, calls).queue)[j];
    }
  }

  /** No call except a failed decryption of `id` itself can make `id` pending or tracked. */
  predicate NoFailureOf(calls: seq<Call>, id: string)
  {
    forall i | 0 <= i < |calls| ::
      calls[i].EventDecryptedCall? && calls[i].ev.id == id ==> !IsDecryptionFailure(calls[i].ev)
  }

  lemma StepKeepsIdUnfailed(s: TrackerState, c: Call, id: string)
    requires Inv(s)
    requires id !in s.tracked && id !in IdSet(s.pending)
    requires NoFailureOf([c], id)
    ensures id !in Step(s, c).tracked && id !in IdSet(Step(s, c).pending)
  {
    assert [c][0] == c;
  }

  /** An id that is neither pending nor tracked is never reported or queued by any sequence of
      calls in which it does not fail to decrypt. */
  lemma {:induction false} UnfailedIdIsNeverReported(s: TrackerState, calls: seq<Call>, id: string)
    requires Inv(s)
    requires id !in s.tracked && id !in IdSet(s.pending)
    requires NoFailureOf(calls, id)
    ensures id !in IdSet(Run(s, calls).reports) && id !in IdSet(Run(s, calls).queue)
    decreases |calls|
  {
    if calls == [] {
      IdSetAppend(s.reports, s.queue);
    } else {
      StepKeepsInv(s, calls[0]);
      StepKeepsIdUnfailed(s, calls[0], id);
      UnfailedIdIsNeverReported(Step(s, calls[0]), calls[1..], id);
    }
  }

  /** A failure withdrawn by a successful decryption before it was queued is never reported, as long
      as the event does not fail again. */
  lemma DecryptedEventIsNeverReported(s: TrackerState, ev: MatrixEvent, ts: int, calls: seq<Call>)
    requires Inv(s)
    requires !IsDecryptionFailure(ev) && ev.id !in s.tracked
    requires NoFailureOf(calls, ev.id)
    ensures ev.id !in IdSet(Run(s, [EventDecryptedCall(ev, ts)] + calls).reports)
  {
    RunAppend(s, [EventDecryptedCall(ev, ts)], calls);
    var s1 := StepEventDecrypted(s, ev, ts);
    assert Run(s, [EventDecryptedCall(ev, ts)]) == s1;
    StepEventDecryptedKeepsInv(s, ev, ts);
    UnfailedIdIsNeverReported(s1, calls, ev.id);
  }

  /** Polling trackFailure `n` times reports the first `n` queued failures in queue order; polls
      beyond the queue's length invoke the callback no further. */
  lemma {:induction false} PollsReportInQueueOrder(s: TrackerState, n: nat)
    ensures Run(s, Polls(n)).reports == s.reports + s.queue[..Min(n, |s.queue|)]
    ensures Run(s, Polls(n)).queue == s.queue[Min(n, |s.queue|)..]
    ensures Run(s, Polls(n)).pending == s.pending && Run(s, Polls(n)).tracked == s.tracked
    decreases n
  {
    var r := Run(s, Polls(n));
    if n == 0 {
      assert r == s;
    } else if s.queue == [] {
      PollsOnEmptyQueue(s, n);
    } else {
      var s1 := StepTrackFailure(s);
      assert r == Run(s1, Polls(n - 1)) by {
        assert Polls(n)[0] == TrackFailureCall && Polls(n)[1..] == Polls(n - 1);
      }
      PollsReportInQueueOrder(s1, n - 1);
      var m := Min(n, |s.queue|);
      assert Min(n - 1, |s1.queue|) == m - 1;
      assert s1.queue[m - 1..] == s.queue[m..];
      assert s1.reports + s1.queue[..m - 1] == s.reports + s.queue[..m] by {
        assert s.queue[..m] == [s.queue[0]] + s.queue[1..][..m - 1];
      }
    }
  }

  function Min(a: int, b: int): int
  {
    if a < b then a else b
  }

  /** Polling an empty queue leaves the tracker as it is: the callback is not invoked. */
  lemma {:induction false} PollsOnEmptyQueue(s: TrackerState, n: nat)
    requires s.queue == []
    ensures Run(s, Polls(n)) == s
    decreases n
  {
    if n > 0 {
      assert Polls(n)[0] == TrackFailureCall && Polls(n)[1..] == Polls(n - 1);
      PollsOnEmptyQueue(s, n - 1);
    }
  }

  /** With unbounded elapsed time every pending failure is queued, in pending order. */
  lemma CheckFailuresAtInfinityQueuesAll(s: TrackerState)
    ensures StepCheckFailures(s, Infinite).queue == s.queue + s.pending
    ensures StepCheckFailures(s, Infinite).pending == []
  {
    FilterAllKept(s.pending, EligibleAt(Infinite, true));
    var waiting := Filter(s.pending, EligibleAt(Infinite, false));
    if waiting != [] {
      assert waiting[0] in waiting;
    }
  }

  /** A failure still inside its grace period stays pending and does not reach the queue. */
  lemma GracePeriodWithholdsFailure(s: TrackerState, f: DecryptionFailure, n: int)
    requires Inv(s)
    requires f in s.pending && n <= f.ts + GracePeriodMs
    ensures f in StepCheckFailures(s, Finite(n)).pending
    ensures f.failedEventId !in IdSet(StepCheckFailures(s, Finite(n)).queue)
  {
    var s' := StepCheckFailures(s, Finite(n));
    assert f in s'.pending && f in s.pending;
    assert f.failedEventId in IdSet(s'.pending) && f.failedEventId in IdSet(s.pending);
    WaitingAndReadyDisjoint(s.pending, Finite(n));
    IdSetAppend(s.reports, s.queue);
    IdSetAppend(s.queue, Filter(s.pending, EligibleAt(Finite(n), true)));
  }

  /** Every call is a failed decryption. */
  predicate AllFailures(calls: seq<Call>)
  {
    forall i | 0 <= i < |calls| :: calls[i].EventDecryptedCall? && IsDecryptionFailure(calls[i].ev)
  }

  function FailedIds(calls: seq<Call>): seq<string>
    requires AllFailures(calls)
  {
    if calls == [] then [] else [calls[0].ev.id] + FailedIds(calls[1..])
  }

  /** A further failure of an event already pending, queued or reported changes nothing. */
  lemma RepeatedFailureIsIgnored(s: TrackerState, ev: MatrixEvent, ts: int)
    requires IsDecryptionFailure(ev) && ev.id in s.tracked + IdSet(s.pending)
    ensures StepEventDecrypted(s, ev, ts) == s
  {
  }

  /** However often each event fails, pending holds one failure per new id, in the order the
      events first failed. */
  lemma {:induction false} FailuresPendInFirstFailureOrder(s: TrackerState, calls: seq<Call>)
    requires Inv(s)
    requires AllFailures(calls)
    ensures var s' := Run(s, calls);
      && Ids(s'.pending) == Ids(s.pending) + FirstOccurrences(FailedIds(calls), s.tracked + IdSet(s.pending))
      && s'.queue == s.queue && s'.tracked == s.tracked && s'.reports == s.reports
    decreases |calls|
  {
    var seen := s.tracked + IdSet(s.pending);
    if calls == [] {
      assert Ids(s.pending) + [] == Ids(s.pending);
    } else {
      var c := calls[0];
      var s1 := StepEventDecrypted(s, c.ev, c.ts);
      assert Run(s, calls) == Run(s1, calls[1..]);
      StepEventDecryptedKeepsInv(s, c.ev, c.ts);
      assert AllFailures(calls[1..]) by {
        forall i | 0 <= i < |calls[1..]| ensures calls[1..][i] == calls[i + 1] { }
      }
      FailuresPendInFirstFailureOrder(s1, calls[1..]);
      FailedStepPends(s, c.ev, c.ts);
      assert FailedIds(calls) == [c.ev.id] + FailedIds(calls[1..]);
    }
  }

  /** One failed decryption appends its id to the pending ids exactly when the id is new. */
  lemma FailedStepPends(s: TrackerState, ev: MatrixEvent, ts: int)
    requires IsDecryptionFailure(ev)
    ensures var s' := StepEventDecrypted(s, ev, ts);
      && Ids(s'.pending) == Ids(s.pending) + (if ev.id in s.tracked + IdSet(s.pending) then [] else [ev.id])
      && s'.tracked + IdSet(s'.pending) == s.tracked + IdSet(s.pending) + {ev.id}
  {
    if ev.id !in s.tracked + IdSet(s.pending) {
      var f := DecryptionFailure(ev.id, ts);
      IdsAppend(s.pending, [f]);
      IdSetAppend(s.pending, [f]);
      assert IdSet([f]) == {ev.id};
    }
  }

  lemma RunTwo(s: TrackerState, c1: Call, c2: Call)
    ensures Run(s, [c1, c2]) == Step(Step(s, c1), c2)
  {
    assert [c1, c2][1..] == [c2];
    assert Run(Step(s, c1), [c2]) == Run(Step(Step(s, c1), c2), []);
  }

  /** A queued failure is reported by as many polls as there are queued failures. */
  lemma QueuedFailureIsReported(s: TrackerState, f: DecryptionFailure, n: nat)
    requires f in s.queue && n >= |s.queue|
    ensures f in Run(s, Polls(n)).reports
  {
    PollsReportInQueueOrder(s, n);
    assert s.queue[..|s.queue|] == s.queue;
  }

  lemma IdsPrefix(fs: seq<DecryptionFailure>, m: nat)
    requires m <= |fs|
    ensures Ids(fs[..m]) == Ids(fs)[..m]
  {
  }

  /** From a new tracker, failed decryptions followed by `checkFailures(Infinity)` queue each
      failing event once, in the order it first failed, and report nothing yet. */
  lemma FailuresQueueInFirstFailureOrder(calls: seq<Call>)
    requires AllFailures(calls)
    ensures var s := Run(Init(), calls + [CheckFailuresCall(Infinite)]);
      Ids(s.queue) == FirstOccurrences(FailedIds(calls), {}) && s.reports == []
  {
    assert Inv(Init()) by {
      assert Init().reports + Init().queue == [];
    }
    assert Init().tracked + IdSet(Init().pending) == {};
    FailuresPendInFirstFailureOrder(Init(), calls);
    var s1 := Run(Init(), calls);
    assert Ids(s1.pending) == FirstOccurrences(FailedIds(calls), {}) && s1.queue == [] && s1.reports == [];
    var s2 := StepCheckFailures(s1, Infinite);
    CheckFailuresAtInfinityQueuesAll(s1);
    assert s2.queue == s1.pending && s2.reports == [];
    RunAppend(Init(), calls, [CheckFailuresCall(Infinite)]);
    assert Run(s1, [CheckFailuresCall(Infinite)]) == s2;
  }

  /** From a new tracker, after failed decryptions, `checkFailures(Infinity)` and `n` polls, the
      callback has received the first `n` failing events, each once, in the order they first failed,
      even when they failed at the same clock reading. */
  lemma ReportsInFirstFailureOrder(calls: seq<Call>, n: nat)
    requires AllFailures(calls)
    ensures var order := FirstOccurrences(FailedIds(calls), {});
      Ids(Run(Init(), calls + [CheckFailuresCall(Infinite)] + Polls(n)).reports) == order[..Min(n, |order|)]
  {
    var order := FirstOccurrences(FailedIds(calls), {});
    FailuresQueueInFirstFailureOrder(calls);
    var s2 := Run(Init(), calls + [CheckFailuresCall(Infinite)]);
    RunAppend(Init(), calls + [CheckFailuresCall(Infinite)], Polls(n));
    PollsReportInQueueOrder(s2, n);
    assert |s2.queue| == |order|;
    IdsPrefix(s2.queue, Min(n, |order|));
  }

  /** No call is a successful decryption of `id`. */
  predicate NoSuccessOf(calls: seq<Call>, id: string)
  {
    forall i | 0 <= i < |calls| ::
      calls[i].EventDecryptedCall? && calls[i].ev.id == id ==> IsDecryptionFailure(calls[i].ev)
  }

  /** The tracker holds a failure of `id`: it is pending, queued or reported. */
  predicate Holds(s: TrackerState, id: string)
  {
    id in s.tracked || id in IdSet(s.pending)
  }

  lemma StepKeepsHeld(s: TrackerState, c: Call, id: string)
    requires Holds(s, id)
    requires c.EventDecryptedCall? && c.ev.id == id ==> IsDecryptionFailure(c.ev)
    ensures Holds(Step(s, c), id)
  {
    if id !in s.tracked {
      var f :| f in s.pending && f.failedEventId == id;
      match c
      case EventDecryptedCall(ev, ts) =>
        if !IsDecryptionFailure(ev) {
          assert f in Step(s, c).pending;
        }
      case CheckFailuresCall(now) =>
        if Eligible(f, now) {
          assert f in Filter(s.pending, EligibleAt(now, true));
        } else {
          assert f in Step(s, c).pending;
        }
      case TrackFailureCall =>
    }
  }

  /** A failure the tracker holds stays held, pending or tracked, through every call sequence
      without a successful decryption of its event; meanwhile the failures queued or pending grow by
      at most one per call. */
  lemma {:induction false} HeldFailureStaysHeld(s: TrackerState, calls: seq<Call>, id: string)
    requires Holds(s, id)
    requires NoSuccessOf(calls, id)
    ensures Holds(Run(s, calls), id)
    ensures |Run(s, calls).queue| + |Run(s, calls).pending| <= |s.queue| + |s.pending| + |calls|
    decreases |calls|
  {
    if calls != [] {
      var c := calls[0];
      assert NoSuccessOf(calls[1..], id) by {
        forall i | 0 <= i < |calls[1..]| ensures calls[1..][i] == calls[i + 1] { }
      }
      StepKeepsHeld(s, c, id);
      StepGrowsByAtMostOne(s, c);
      HeldFailureStaysHeld(Step(s, c), calls[1..], id);
    }
  }

  /** checkFailures splits the pending failures without losing any. */
  lemma {:induction false} FilterEligibleSplitsLength(fs: seq<DecryptionFailure>, now: Time)
    ensures |Filter(fs, EligibleAt(now, true))| + |Filter(fs, EligibleAt(now, false))| == |fs|
  {
    if fs != [] {
      FilterEligibleSplitsLength(fs[..|fs| - 1], now);
    }
  }

  lemma StepGrowsByAtMostOne(s: TrackerState, c: Call)
    ensures |Step(s, c).queue| + |Step(s, c).pending| <= |s.queue| + |s.pending| + 1
  {
    match c
    case EventDecryptedCall(ev, ts) =>
    case CheckFailuresCall(now) => FilterEligibleSplitsLength(s.pending, now);
    case TrackFailureCall =>
  }

  /** An event that fails is reported, whatever calls follow, as long as none of them is a
      successful decryption of it: after `checkFailures(Infinity)` and enough `trackFailure` polls
      its failure has reached the callback. */
  lemma FailureIsEventuallyReported(s: TrackerState, ev: MatrixEvent, ts: int, calls: seq<Call>, n: nat)
    requires Inv(s)
    requires IsDecryptionFailure(ev) && NoSuccessOf(calls, ev.id)
    requires n >= |s.queue| + |s.pending| + 1 + |calls|
    ensures ev.id in IdSet(Run(s, [EventDecryptedCall(ev, ts)] + calls + [CheckFailuresCall(Infinite)] + Polls(n)).reports)
  {
    var s1 := StepEventDecrypted(s, ev, ts);
    StepEventDecryptedKeepsInv(s, ev, ts);
    assert Holds(s1, ev.id);
    assert |s1.queue| + |s1.pending| <= |s.queue| + |s.pending| + 1;
    assert Run(s, [EventDecryptedCall(ev, ts)]) == s1;
    HeldFailureStaysHeld(s1, calls, ev.id);
    RunKeepsInv(s1, calls);
    var s2 := Run(s1, calls);
    var s3 := StepCheckFailures(s2, Infinite);
    StepCheckFailuresKeepsInv(s2, Infinite);
    CheckFailuresAtInfinityQueuesAll(s2);
    StepKeepsHeld(s2, CheckFailuresCall(Infinite), ev.id);
    assert ev.id in IdSet(s3.reports + s3.queue);
    IdSetAppend(s3.reports, s3.queue);
    RunAppend(s, [EventDecryptedCall(ev, ts)], calls);
    RunAppend(s, [EventDecryptedCall(ev, ts)] + calls, [CheckFailuresCall(Infinite)]);
    assert Run(s2, [CheckFailuresCall(Infinite)]) == s3;
    RunAppend(s, [EventDecryptedCall(ev, ts)] + calls + [CheckFailuresCall(Infinite)], Polls(n));
    var f :| f in s3.reports + s3.queue && f.failedEventId == ev.id;
    if f in s3.reports {
      RunOnlyAppendsReports(s3, Polls(n));
    } else {
      QueuedFailureIsReported(s3, f, n);
    }
  }
}
