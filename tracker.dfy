/** The decryption-failure tracker as an object whose operations update its fields in place.
    Each operation is specified by the matching step of the state machine in TrackerSpec, and
    keeps that module's invariant. The failures it holds stay in order of first observation, as
    long as the clock readings it is given never go back. */
module DecryptionFailureTracker {
  import opened Events
  import opened TrackerSpec
  import TrackerProperties
  import TrackerOrder

  /** The loop of checkFailures: splits `fs` into the failures whose grace period has passed at
      `now` and those still waiting, each in the order of `fs`. */
  method SplitByGrace(fs: seq<DecryptionFailure>, now: Time) returns (ready: seq<DecryptionFailure>, waiting: seq<DecryptionFailure>)
    ensures ready == Filter(fs, EligibleAt(now, true))
    ensures waiting == Filter(fs, EligibleAt(now, false))
  {
    ready, waiting := [], [];
    var i := 0;
    while i < |fs|
      invariant 0 <= i <= |fs|
      invariant ready == Filter(fs[..i], EligibleAt(now, true))
      invariant waiting == Filter(fs[..i], EligibleAt(now, false))
    {
      var f := fs[i];
      assert fs[..i + 1][..i] == fs[..i];
      if Eligible(f, now) {
        ready := ready + [f];
      } else {
        waiting := waiting + [f];
      }
      i := i + 1;
    }
    assert fs[..i] == fs;
  }

  class Tracker {
    /** Failures still within their grace period, in first-failure order. */
    var pending: seq<DecryptionFailure>
    /** Failures ready to hand to the reporting callback, oldest first. */
    var queue: seq<DecryptionFailure>
    /** Ids of events whose failure has been queued or reported. */
    var tracked: set<string>
    /** Every failure handed to the reporting callback, in order. */
    ghost var reports: seq<DecryptionFailure>

    ghost function State(): TrackerState
      reads this
    {
      TrackerState(pending, queue, tracked, reports)
    }

    ghost predicate Valid()
      reads this
    {
      Inv(State()) && InTimeOrder(History(State()))
    }

    /** A tracker that has seen no event and reported nothing. */
    constructor ()
      ensures Valid() && State() == Init()
    {
      pending, queue, tracked := [], [], {};
      reports := [];
      new;
      assert State().reports + State().queue == [];
    }

    /** Records the latest decryption outcome of `ev`, observed at clock reading `nowTs`; the
        clock has not gone back past any failure the tracker holds. */
    method EventDecrypted(ev: MatrixEvent, nowTs: int)
      requires Valid() && NotBefore(State(), nowTs)
      modifies this
      ensures Valid() && NotBefore(State(), nowTs)
      ensures State() == StepEventDecrypted(old(State()), ev, nowTs)
    {
      if !IsDecryptionFailure(ev) {
        pending := Filter(pending, OtherThan(ev.id));
      } else if ev.id !in tracked && ev.id !in IdSet(pending) {
        pending := pending + [DecryptionFailure(ev.id, nowTs)];
      }
      TrackerProperties.StepEventDecryptedKeepsInv(old(State()), ev, nowTs);
      TrackerOrder.StepKeepsTimeOrder(old(State()), EventDecryptedCall(ev, nowTs));
    }

    /** Moves every pending failure whose grace period has passed at `now` to the end of the
        queue, in pending order, and marks its event tracked. Those failures are the oldest
        pending ones, so the queue grows by a prefix of the pending list. */
    method CheckFailures(now: Time)
      requires Valid()
      modifies this
      ensures Valid()
      ensures State() == StepCheckFailures(old(State()), now)
      ensures var k := |old(pending)| - |pending|;
        queue == old(queue) + old(pending)[..k] && pending == old(pending)[k..]
      ensures History(State()) == History(old(State()))
    {
      ghost var s0 := State();
      var ready, waiting := SplitByGrace(pending, now);
      pending := waiting;
      queue := queue + ready;
      tracked := tracked + IdSet(ready);
      assert State() == StepCheckFailures(s0, now);
      TrackerOrder.CheckFailuresKeepsOrder(s0, now);
    }

    /** Hands the oldest queued failure, if there is one, to the reporting callback; the result
        is the callback's argument, or None when the callback is not invoked. */
    method TrackFailure() returns (failure: Option<DecryptionFailure>)
      requires Valid()
      modifies this
      ensures Valid()
      ensures State() == StepTrackFailure(old(State()))
      ensures History(State()) == History(old(State()))
      ensures failure == if old(queue) == [] then None else Some(old(queue)[0])
    {
      if queue == [] {
        failure := None;
      } else {
        failure := Some(queue[0]);
        reports := reports + [queue[0]];
        queue := queue[1..];
      }
      TrackerProperties.StepTrackFailureKeepsInv(old(State()));
      TrackerOrder.StepKeepsTimeOrder(old(State()), TrackFailureCall);
    }
  }
}
