/** The tracker's test scenarios, written as calls on the class. Each method collects what the reporting
    callback receives, as the callbacks in the tests do, and its postcondition states what the
    test expects of it. Event ids are arbitrary strings (distinct where a scenario has two events);
    every event is observed at clock reading `ts`. */
module TrackerTests {
  import opened Events
  import opened TrackerSpec
  import opened DecryptionFailureTracker

  /** The failure the callback receives, appended to `failures` when the callback is invoked. */
  function Collect(failures: seq<DecryptionFailure>, failure: Option<DecryptionFailure>): seq<DecryptionFailure>
  {
    match failure
    case None => failures
    case Some(f) => failures + [f]
  }

  /** What the callback collects from polls that invoke it twice and then not at all. */
  lemma CollectTwoThenNone(a: DecryptionFailure, b: DecryptionFailure)
    ensures Collect(Collect([], Some(a)), Some(b)) == [a, b]
    ensures Collect(Collect([a, b], None), None) == [a, b]
  {
  }

  /** One failed decryption, then checkFailures(Infinity) and one poll: the failure is tracked. */
  method TracksAFailedDecryption(id: string, ts: int) returns (trackedFailure: Option<DecryptionFailure>)
    ensures trackedFailure == Some(DecryptionFailure(id, ts))
  {
    var tracker := new Tracker();
    tracker.EventDecrypted(CreateFailedDecryptionEvent(id), ts);
    assert tracker.pending == [DecryptionFailure(id, ts)];
    label before:
    tracker.CheckFailures(Infinite);
    TrackerProperties.CheckFailuresAtInfinityQueuesAll(old@before(tracker.State()));
    assert tracker.queue == [DecryptionFailure(id, ts)];
    trackedFailure := tracker.TrackFailure();
  }

  /** A failed decryption followed by a successful one before checkFailures: nothing is tracked. */
  method DoesNotTrackSubsequentlyDecryptedEvent(id: string, ts: int) returns (failures: seq<DecryptionFailure>)
    ensures failures == []
  {
    var tracker := new Tracker();
    var ev := CreateFailedDecryptionEvent(id);
    tracker.EventDecrypted(ev, ts);
    assert tracker.pending == [DecryptionFailure(id, ts)];
    ev := SetClearData(ev, EmptyContent);
    label failed:
    tracker.EventDecrypted(ev, ts);
    TrackerProperties.FilterNoneKept(old@failed(tracker.pending), OtherThan(id));
    assert tracker.pending == [];
    label before:
    tracker.CheckFailures(Infinite);
    TrackerProperties.CheckFailuresAtInfinityQueuesAll(old@before(tracker.State()));
    assert tracker.queue == [];
    var failure := tracker.TrackFailure();
    failures := Collect([], failure);
  }

  /** The states a new tracker passes through when two events fail at clock reading `ts`, perhaps
      repeatedly, and are then queued by checkFailures(Infinity) and polled. */
  lemma TwoFailuresStates(id1: string, id2: string, ts: int)
    requires id1 != id2
    ensures var ev1, ev2 := CreateFailedDecryptionEvent(id1), CreateFailedDecryptionEvent(id2);
      var f1, f2 := DecryptionFailure(id1, ts), DecryptionFailure(id2, ts);
      var one := TrackerState([f1], [], {}, []);
      var two := TrackerState([f1, f2], [], {}, []);
      var queued := TrackerState([], [f1, f2], {id1, id2}, []);
      var polled := TrackerState([], [f2], {id1, id2}, [f1]);
      var done := TrackerState([], [], {id1, id2}, [f1, f2]);
      && StepEventDecrypted(Init(), ev1, ts) == one && NotBefore(one, ts)
      && StepEventDecrypted(one, ev1, ts) == one
      && StepEventDecrypted(one, ev2, ts) == two && NotBefore(two, ts)
      && StepEventDecrypted(two, ev2, ts) == two
      && StepCheckFailures(two, Infinite) == queued
      && StepTrackFailure(queued) == polled
      && StepTrackFailure(polled) == done
      && StepTrackFailure(done) == done
  {
    var f1, f2 := DecryptionFailure(id1, ts), DecryptionFailure(id2, ts);
    var one := TrackerState([f1], [], {}, []);
    var two := TrackerState([f1, f2], [], {}, []);
    assert f1 in one.pending && f2 in two.pending;
    TrackerProperties.RepeatedFailureIsIgnored(one, CreateFailedDecryptionEvent(id1), ts);
    TrackerProperties.RepeatedFailureIsIgnored(two, CreateFailedDecryptionEvent(id2), ts);
    TrackerProperties.CheckFailuresAtInfinityQueuesAll(two);
    assert IdSet([f1, f2]) == {id1, id2};
  }

  /** Five failed decryptions of one event and three of another, then four polls:
      the callback runs exactly twice. */
  method TracksOneFailurePerEvent(id1: string, id2: string, ts: int) returns (count: nat)
    requires id1 != id2
    ensures count == 2
  {
    var ev1, ev2 := CreateFailedDecryptionEvent(id1), CreateFailedDecryptionEvent(id2);
    ghost var f1, f2 := DecryptionFailure(id1, ts), DecryptionFailure(id2, ts);
    ghost var one := TrackerState([f1], [], {}, []);
    ghost var two := TrackerState([f1, f2], [], {}, []);
    ghost var queued := TrackerState([], [f1, f2], {id1, id2}, []);
    ghost var polled := TrackerState([], [f2], {id1, id2}, [f1]);
    ghost var done := TrackerState([], [], {id1, id2}, [f1, f2]);
    TwoFailuresStates(id1, id2, ts);
    var tracker := new Tracker();
    tracker.EventDecrypted(ev1, ts);
    tracker.EventDecrypted(ev1, ts);
    tracker.EventDecrypted(ev1, ts);
    tracker.EventDecrypted(ev1, ts);
    tracker.EventDecrypted(ev1, ts);
    assert tracker.State() == one;
    tracker.EventDecrypted(ev2, ts);
    tracker.EventDecrypted(ev2, ts);
    tracker.EventDecrypted(ev2, ts);
    assert tracker.State() == two;
    tracker.CheckFailures(Infinite);
    assert tracker.State() == queued;
    var r1 := tracker.TrackFailure();
    assert r1 == Some(f1) && tracker.State() == polled;
    var r2 := tracker.TrackFailure();
    assert r2 == Some(f2) && tracker.State() == done;
    var r3 := tracker.TrackFailure();
    assert r3 == None && tracker.State() == done;
    var r4 := tracker.TrackFailure();
    assert r4 == None;
    CollectTwoThenNone(f1, f2);
    count := |Collect(Collect(Collect(Collect([], r1), r2), r3), r4)|;
  }

  /** Two events fail in turn; two polls report them in that order. */
  method TracksFailuresInOrder(id1: string, id2: string, ts: int) returns (failures: seq<DecryptionFailure>)
    requires id1 != id2
    ensures |failures| == 2
    ensures failures[0].failedEventId == id1 && failures[1].failedEventId == id2
  {
    ghost var f1, f2 := DecryptionFailure(id1, ts), DecryptionFailure(id2, ts);
    ghost var two := TrackerState([f1, f2], [], {}, []);
    ghost var queued := TrackerState([], [f1, f2], {id1, id2}, []);
    TwoFailuresStates(id1, id2, ts);
    var tracker := new Tracker();
    tracker.EventDecrypted(CreateFailedDecryptionEvent(id1), ts);
    tracker.EventDecrypted(CreateFailedDecryptionEvent(id2), ts);
    assert tracker.State() == two;
    tracker.CheckFailures(Infinite);
    assert tracker.State() == queued;
    var first := tracker.TrackFailure();
    assert first == Some(f1);
    var second := tracker.TrackFailure();
    assert second == Some(f2);
    CollectTwoThenNone(f1, f2);
    failures := Collect(Collect([], first), second);
  }

  /** An event fails, is queued and reported, then fails again: no second report. */
  method DoesNotTrackEventTrackedPreviously(id: string, ts: int) returns (failures: seq<DecryptionFailure>)
    ensures failures == [DecryptionFailure(id, ts)]
  {
    var tracker := new Tracker();
    var ev := CreateFailedDecryptionEvent(id);
    tracker.EventDecrypted(ev, ts);
    assert tracker.pending == [DecryptionFailure(id, ts)];
    label before:
    tracker.CheckFailures(Infinite);
    TrackerProperties.CheckFailuresAtInfinityQueuesAll(old@before(tracker.State()));
    assert tracker.queue == [DecryptionFailure(id, ts)];
    var first := tracker.TrackFailure();
    assert id in tracker.tracked && tracker.queue == [];
    tracker.EventDecrypted(ev, ts);
    var second := tracker.TrackFailure();
    failures := Collect(Collect([], first), second);
  }
}
