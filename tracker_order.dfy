/** The order in which the tracker hands failures over. While the clock readings given to
    eventDecrypted never go back, the failures the tracker holds (reported, then queued, then
    pending) stay in order of first observation: checkFailures queues a prefix of the pending
    failures, trackFailure hands over the head of the queue, and eventDecrypted only appends a new
    failure or withdraws a pending one. */
module TrackerOrder {
  import opened Events
  import opened TrackerSpec
  import TrackerProperties

  /** Two time-ordered sequences make a time-ordered one when nothing in the first was observed
      after anything in the second. */
  lemma TimeOrderAppend(a: seq<DecryptionFailure>, b: seq<DecryptionFailure>)
    requires InTimeOrder(a) && InTimeOrder(b)
    requires forall f, g | f in a && g in b :: f.ts <= g.ts
    ensures InTimeOrder(a + b)
  {
    forall i, j | 0 <= i < j < |a + b| ensures (a + b)[i].ts <= (a + b)[j].ts {
      if i >= |a| {
        assert (a + b)[i] == b[i - |a|] && (a + b)[j] == b[j - |a|];
      } else if j >= |a| {
        assert (a + b)[i] in a && (a + b)[j] == b[j - |a|];
      }
    }
  }

  /** Both parts of a time-ordered sequence are time-ordered, and the first part was observed
      no later than the second. */
  lemma TimeOrderSplit(a: seq<DecryptionFailure>, b: seq<DecryptionFailure>)
    requires InTimeOrder(a + b)
    ensures InTimeOrder(a) && InTimeOrder(b)
    ensures forall f, g | f in a && g in b :: f.ts <= g.ts
  {
    forall i, j | 0 <= i < j < |a| ensures a[i].ts <= a[j].ts {
      assert a[i] == (a + b)[i] && a[j] == (a + b)[j];
    }
    forall i, j | 0 <= i < j < |b| ensures b[i].ts <= b[j].ts {
      assert b[i] == (a + b)[|a| + i] && b[j] == (a + b)[|a| + j];
    }
    forall f, g | f in a && g in b ensures f.ts <= g.ts {
      var i :| 0 <= i < |a| && a[i] == f;
      var j :| 0 <= j < |b| && b[j] == g;
      assert (a + b)[i] == f && (a + b)[|a| + j] == g;
    }
  }

  lemma {:induction false} FilterKeepsTimeOrder(fs: seq<DecryptionFailure>, k: Keep)
    requires InTimeOrder(fs)
    ensures InTimeOrder(Filter(fs, k))
  {
    if fs != [] {
      var n := |fs| - 1;
      var init, last := fs[..n], fs[n];
      assert fs == init + [last];
      TimeOrderSplit(init, [last]);
      FilterKeepsTimeOrder(init, k);
      var r0 := Filter(init, k);
      if Keeps(k, last) {
        assert Filter(fs, k) == r0 + [last];
        TimeOrderAppend(r0, [last]);
      } else {
        assert Filter(fs, k) == r0;
      }
    }
  }

  /** Filtering a sequence with one more failure at the end. */
  lemma FilterSnoc(init: seq<DecryptionFailure>, last: DecryptionFailure, k: Keep)
    ensures Filter(init + [last], k) == Filter(init, k) + (if Keeps(k, last) then [last] else [])
  {
    assert (init + [last])[..|init|] == init;
  }

  /** A filter only leaves failures out: those it keeps stay in their original order. */
  lemma {:induction false} FilterIsSubsequence(fs: seq<DecryptionFailure>, k: Keep)
    ensures SubsequenceOf(Filter(fs, k), fs)
  {
    if fs != [] {
      var n := |fs| - 1;
      var init, last := fs[..n], fs[n];
      assert fs == init + [last];
      FilterIsSubsequence(init, k);
      var r0 := Filter(init, k);
      if Keeps(k, last) {
        assert Filter(fs, k) == r0 + [last];
        assert (r0 + [last])[..|r0|] == r0;
      } else {
        assert Filter(fs, k) == r0;
      }
    }
  }

  /** In a time-ordered sequence the failures whose grace period has passed at `now` come first
      and those still waiting come after them: the two filters split the sequence in two. */
  lemma {:induction false} EligibleFormAPrefix(fs: seq<DecryptionFailure>, now: Time)
    requires InTimeOrder(fs)
    ensures Filter(fs, EligibleAt(now, true)) + Filter(fs, EligibleAt(now, false)) == fs
  {
    if fs != [] {
      var n := |fs| - 1;
      var init, last := fs[..n], fs[n];
      assert fs == init + [last];
      TimeOrderSplit(init, [last]);
      EligibleFormAPrefix(init, now);
      if Eligible(last, now) {
        LastEligible(init, last, now);
      } else {
        LastWaiting(init, last, now);
      }
    }
  }

  /** The step of EligibleFormAPrefix where the newest failure may be queued: then so may all. */
  lemma LastEligible(init: seq<DecryptionFailure>, last: DecryptionFailure, now: Time)
    requires forall f | f in init :: f.ts <= last.ts
    requires Eligible(last, now)
    ensures Filter(init + [last], EligibleAt(now, true)) + Filter(init + [last], EligibleAt(now, false)) == init + [last]
  {
    forall f | f in init ensures Keeps(EligibleAt(now, true), f) && !Keeps(EligibleAt(now, false), f) {
      assert f.ts <= last.ts;
    }
    TrackerProperties.FilterAllKept(init, EligibleAt(now, true));
    TrackerProperties.FilterNoneKept(init, EligibleAt(now, false));
    FilterSnoc(init, last, EligibleAt(now, true));
    FilterSnoc(init, last, EligibleAt(now, false));
  }

  /** The step of EligibleFormAPrefix where the newest failure still waits. */
  lemma LastWaiting(init: seq<DecryptionFailure>, last: DecryptionFailure, now: Time)
    requires Filter(init, EligibleAt(now, true)) + Filter(init, EligibleAt(now, false)) == init
    requires !Eligible(last, now)
    ensures Filter(init + [last], EligibleAt(now, true)) + Filter(init + [last], EligibleAt(now, false)) == init + [last]
  {
    var ready, waiting := Filter(init, EligibleAt(now, true)), Filter(init, EligibleAt(now, false));
    assert Filter(init + [last], EligibleAt(now, true)) == ready by {
      FilterSnoc(init, last, EligibleAt(now, true));
    }
    assert Filter(init + [last], EligibleAt(now, false)) == waiting + [last] by {
      FilterSnoc(init, last, EligibleAt(now, false));
    }
    assert ready + (waiting + [last]) == (ready + waiting) + [last];
  }

  lemma SplitConcat(a: seq<DecryptionFailure>, b: seq<DecryptionFailure>, c: seq<DecryptionFailure>)
    requires a + b == c
    ensures a == c[..|c| - |b|] && b == c[|c| - |b|..]
  {
    assert c[..|a|] == a && c[|a|..] == b;
  }

  /** checkFailures on a time-ordered pending list moves a prefix of it, the failures whose grace
      period has passed, to the end of the queue in pending order, and leaves the rest pending.
      No failure the tracker holds is lost or reordered. */
  lemma CheckFailuresQueuesAPrefix(s: TrackerState, now: Time)
    requires InTimeOrder(s.pending)
    ensures var s' := StepCheckFailures(s, now);
      var k := |s.pending| - |s'.pending|;
      && s'.queue == s.queue + s.pending[..k]
      && s'.pending == s.pending[k..]
      && History(s') == History(s)
  {
    EligibleFormAPrefix(s.pending, now);
    var ready, waiting := Filter(s.pending, EligibleAt(now, true)), Filter(s.pending, EligibleAt(now, false));
    var s' := StepCheckFailures(s, now);
    assert s'.queue == s.queue + ready && s'.pending == waiting;
    SplitConcat(ready, waiting, s.pending);
    CheckFailuresKeepsHistory(s, now);
  }

  /** When the two filters split the pending failures in two, checkFailures only moves the
      boundary between queue and pending: the failures held, in order, are unchanged. */
  lemma CheckFailuresKeepsHistory(s: TrackerState, now: Time)
    requires Filter(s.pending, EligibleAt(now, true)) + Filter(s.pending, EligibleAt(now, false)) == s.pending
    ensures History(StepCheckFailures(s, now)) == History(s)
  {
    var ready, waiting := Filter(s.pending, EligibleAt(now, true)), Filter(s.pending, EligibleAt(now, false));
    assert History(StepCheckFailures(s, now)) == s.reports + (s.queue + ready) + waiting;
    assert s.reports + (s.queue + ready) + waiting == s.reports + s.queue + (ready + waiting);
  }

  /** checkFailures keeps both the tracker's invariant and the time order of the failures it
      holds, and queues a prefix of the pending failures. */
  lemma CheckFailuresKeepsOrder(s: TrackerState, now: Time)
    requires Inv(s) && InTimeOrder(History(s))
    ensures var s' := StepCheckFailures(s, now);
      var k := |s.pending| - |s'.pending|;
      && Inv(s') && InTimeOrder(History(s'))
      && History(s') == History(s)
      && s'.queue == s.queue + s.pending[..k]
      && s'.pending == s.pending[k..]
  {
    TrackerProperties.StepCheckFailuresKeepsInv(s, now);
    assert History(s) == (s.reports + s.queue) + s.pending;
    TimeOrderSplit(s.reports + s.queue, s.pending);
    CheckFailuresQueuesAPrefix(s, now);
  }

  /** One call keeps the failures the tracker holds in order of first observation, provided a
      clock reading given to eventDecrypted is not before any of them. A failed decryption at
      most appends its failure, a successful one withdraws the event's pending failure and keeps
      the rest in order, and checkFailures and trackFailure neither lose nor reorder a failure. */
  lemma StepKeepsTimeOrder(s: TrackerState, c: Call)
    requires InTimeOrder(History(s))
    requires c.EventDecryptedCall? ==> NotBefore(s, c.ts)
    ensures InTimeOrder(History(Step(s, c)))
    ensures c.EventDecryptedCall? ==> NotBefore(Step(s, c), c.ts)
    ensures c.EventDecryptedCall? && IsDecryptionFailure(c.ev) ==>
      || History(Step(s, c)) == History(s)
      || History(Step(s, c)) == History(s) + [DecryptionFailure(c.ev.id, c.ts)]
    ensures c.EventDecryptedCall? && !IsDecryptionFailure(c.ev) ==>
      History(Step(s, c)) == s.reports + s.queue + Filter(s.pending, OtherThan(c.ev.id))
    ensures !c.EventDecryptedCall? ==> History(Step(s, c)) == History(s)
  {
    var held := s.reports + s.queue;
    assert History(s) == held + s.pending;
    TimeOrderSplit(held, s.pending);
    match c
    case EventDecryptedCall(ev, ts) =>
      var s' := Step(s, c);
      if !IsDecryptionFailure(ev) {
        var kept := Filter(s.pending, OtherThan(ev.id));
        FilterKeepsTimeOrder(s.pending, OtherThan(ev.id));
        TimeOrderAppend(held, kept);
        assert History(s') == held + kept;
      } else if s' != s {
        var f := DecryptionFailure(ev.id, ts);
        assert History(s') == History(s) + [f];
        TimeOrderAppend(History(s), [f]);
      }
    case CheckFailuresCall(now) =>
      CheckFailuresQueuesAPrefix(s, now);
    case TrackFailureCall =>
      assert History(Step(s, c)) == History(s);
  }

  /** A sequence of calls whose clock readings never go back keeps the failures the tracker holds
      in order of first observation. */
  lemma {:induction false} RunKeepsTimeOrder(s: TrackerState, calls: seq<Call>, t: int)
    requires InTimeOrder(History(s)) && NotBefore(s, t) && ReadingsFrom(t, calls)
    ensures InTimeOrder(History(Run(s, calls)))
    decreases |calls|
  {
    if calls != [] {
      var c := calls[0];
      StepKeepsTimeOrder(s, c);
      if c.EventDecryptedCall? {
        RunKeepsTimeOrder(Step(s, c), calls[1..], c.ts);
      } else {
        RunKeepsTimeOrder(Step(s, c), calls[1..], t);
      }
    }
  }

  /** Over a tracker's whole lifetime, with a clock that never goes back, the reporting callback
      receives failures in order of their first observation. */
  lemma ReportsInFailureTimeOrder(calls: seq<Call>, t: int)
    requires ReadingsFrom(t, calls)
    ensures InTimeOrder(Run(Init(), calls).reports)
  {
    RunKeepsTimeOrder(Init(), calls, t);
    var s := Run(Init(), calls);
    assert History(s) == s.reports + (s.queue + s.pending);
    TimeOrderSplit(s.reports, s.queue + s.pending);
  }
}
