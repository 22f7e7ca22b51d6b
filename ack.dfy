/** Acknowledgment state: the notification classifier (`_notification_handler`)
    and the wait on it (`_wait_for_ack`), with the radio replaced by the list
    of notifications the transport delivers. */
module Ack {
  import opened Base
  import opened Protocol

  /** `_ack_stage` and whether `_ack_event` is set. */
  datatype AckState = AckState(stage: nat, signalled: bool)

  /** One notification payload from the notify characteristic. */
  type Notification = seq<byte>

  /** The stage a notification announces: 1, 2 or 3 by its first five bytes,
      checked in that order; 0 when it is too short or announces none. */
  function Classify(payload: Notification): (k: nat)
    ensures k <= 3
  {
    if |payload| < PrefixLength then 0
    else
      var prefix := payload[..PrefixLength];
      if prefix == AckStageOne[..PrefixLength] || prefix == AckStageOneAlt[..PrefixLength] then 1
      else if prefix == AckStageTwo[..PrefixLength] || prefix == AckStageTwoAlt[..PrefixLength] then 2
      else if prefix == AckStageThree[..PrefixLength] then 3
      else 0
  }

  /** The effect of one notification on the acknowledgment state. */
  function Notify(s: AckState, payload: Notification): AckState {
    if |payload| < PrefixLength then s
    else
      var k := Classify(payload);
      AckState(if k == 0 then s.stage else k, true)
  }

  /** The state after the transport delivers `window`, in order. */
  function Deliver(s: AckState, window: seq<Notification>): AckState
    decreases |window|
  {
    if window == [] then s
    else Notify(Deliver(s, window[..|window| - 1]), window[|window| - 1])
  }

  /** Whether `_wait_for_ack` returned true, and the state it leaves. */
  datatype WaitOutcome = WaitOutcome(acked: bool, after: AckState)

  /** `_wait_for_ack(expected)`, where `window` is every notification delivered
      before the waiter resumes. Woken when the event is set by then; a wake
      clears the event and compares the stage; otherwise the wait times out. */
  function Wait(s: AckState, expected: nat, window: seq<Notification>): WaitOutcome {
    var d := Deliver(s, window);
    if d.signalled then WaitOutcome(d.stage == expected, AckState(d.stage, false))
    else WaitOutcome(false, d)
  }

  /** A notification of fewer than five bytes changes nothing. */
  lemma NotifyIgnoresShort(s: AckState, payload: Notification)
    requires |payload| < PrefixLength
    ensures Notify(s, payload) == s
  {
  }

  /** Any notification of five bytes or more sets the event, recognised or not;
      an unrecognised one leaves the stage alone. */
  lemma NotifySignals(s: AckState, payload: Notification)
    requires |payload| >= PrefixLength
    ensures Notify(s, payload).signalled
    ensures Classify(payload) == 0 ==> Notify(s, payload).stage == s.stage
    ensures Classify(payload) != 0 ==> Notify(s, payload).stage == Classify(payload)
  {
  }

  /** The classifier, both directions: each stage is announced exactly by its prefixes. */
  lemma ClassifyExactly(payload: Notification)
    ensures Classify(payload) == 1 <==>
      |payload| >= 5 && (payload[..5] == AckStageOne[..5] || payload[..5] == AckStageOneAlt[..5])
    ensures Classify(payload) == 2 <==>
      |payload| >= 5 && (payload[..5] == AckStageTwo[..5] || payload[..5] == AckStageTwoAlt[..5])
    ensures Classify(payload) == 3 <==> |payload| >= 5 && payload[..5] == AckStageThree[..5]
  {
    if |payload| >= 5 {
      var b := payload[4];
      assert AckStageOne[..5][4] == 0x81 && AckStageOneAlt[..5][4] == 0x83;
      assert AckStageTwo[..5][4] == 0x0B && AckStageTwoAlt[..5][4] == 0x0E;
      assert AckStageThree[..5][4] == 0x03;
      assert payload[..5][4] == b;
    }
  }

  /** Only the first five bytes matter: what follows them never changes the outcome. */
  lemma NotifyPrefixOnly(s: AckState, p: Notification, q: Notification)
    requires |p| >= PrefixLength && |q| >= PrefixLength && p[..PrefixLength] == q[..PrefixLength]
    ensures Notify(s, p) == Notify(s, q)
  {
  }

  /** A reference acknowledgment, followed by any bytes at all, is classified
      as its stage. */
  lemma ClassifyReference(suffix: seq<byte>)
    ensures Classify(AckStageOne + suffix) == 1 && Classify(AckStageOneAlt + suffix) == 1
    ensures Classify(AckStageTwo + suffix) == 2 && Classify(AckStageTwoAlt + suffix) == 2
    ensures Classify(AckStageThree + suffix) == 3
  {
    assert (AckStageOne + suffix)[..5] == AckStageOne[..5];
    assert (AckStageOneAlt + suffix)[..5] == AckStageOneAlt[..5];
    assert (AckStageTwo + suffix)[..5] == AckStageTwo[..5];
    assert (AckStageTwoAlt + suffix)[..5] == AckStageTwoAlt[..5];
    assert (AckStageThree + suffix)[..5] == AckStageThree[..5];
    ClassifyExactly(AckStageOne + suffix);
    ClassifyExactly(AckStageOneAlt + suffix);
    ClassifyExactly(AckStageTwo + suffix);
    ClassifyExactly(AckStageTwoAlt + suffix);
    ClassifyExactly(AckStageThree + suffix);
  }

  /** After a window, the event is set exactly when it already was or some
      notification in the window had five bytes or more. */
  lemma {:induction false} DeliverSignals(s: AckState, window: seq<Notification>)
    ensures Deliver(s, window).signalled <==>
      s.signalled || exists i :: 0 <= i < |window| && |window[i]| >= PrefixLength
  {
    if window != [] {
      var init := window[..|window| - 1];
      DeliverSignals(s, init);
      if exists i :: 0 <= i < |init| && |init[i]| >= PrefixLength {
        var i :| 0 <= i < |init| && |init[i]| >= PrefixLength;
        assert window[i] == init[i];
      }
      if exists i :: 0 <= i < |window| && |window[i]| >= PrefixLength {
        var i :| 0 <= i < |window| && |window[i]| >= PrefixLength;
        if i < |init| {
          assert init[i] == window[i];
        }
      }
    }
  }

  /** A window of short notifications only leaves the state as it was. */
  lemma {:induction false} DeliverQuiet(s: AckState, window: seq<Notification>)
    requires forall i :: 0 <= i < |window| ==> |window[i]| < PrefixLength
    ensures Deliver(s, window) == s
  {
    if window != [] {
      var init := window[..|window| - 1];
      assert forall i :: 0 <= i < |init| ==> init[i] == window[i];
      DeliverQuiet(s, init);
    }
  }

  /** Delivery keeps the stage among 0..3. */
  lemma {:induction false} DeliverStageBound(s: AckState, window: seq<Notification>)
    requires s.stage <= 3
    ensures Deliver(s, window).stage <= 3
  {
    if window != [] {
      DeliverStageBound(s, window[..|window| - 1]);
    }
  }

  /** The stage after a window is that of its last recognised notification,
      whatever came before it. */
  lemma {:induction false} DeliverLastRecognised(s: AckState, window: seq<Notification>, later: seq<Notification>)
    requires window != [] && Classify(window[|window| - 1]) != 0
    requires forall i :: 0 <= i < |later| ==> Classify(later[i]) == 0
    ensures Deliver(s, window + later).stage == Classify(window[|window| - 1])
    decreases |later|
  {
    if later == [] {
      assert window + later == window;
    } else {
      var w := window + later;
      var pre := later[..|later| - 1];
      assert w[..|w| - 1] == window + pre;
      assert w[|w| - 1] == later[|later| - 1];
      assert forall i :: 0 <= i < |pre| ==> pre[i] == later[i];
      DeliverLastRecognised(s, window, pre);
    }
  }

  /** `_wait_for_ack(k)` is true exactly when the waiter was woken (the event
      was set, or a notification of five bytes or more came) and the stage
      is then `k`; the wait never changes the stage. */
  lemma WaitAckedExactly(s: AckState, expected: nat, window: seq<Notification>)
    ensures Wait(s, expected, window).acked <==>
      (s.signalled || exists i :: 0 <= i < |window| && |window[i]| >= PrefixLength)
      && Deliver(s, window).stage == expected
    ensures Wait(s, expected, window).after.stage == Deliver(s, window).stage
  {
    DeliverSignals(s, window);
  }

  /** After every wait the event is clear, woken or timed out. */
  lemma WaitLeavesEventClear(s: AckState, expected: nat, window: seq<Notification>)
    ensures !Wait(s, expected, window).after.signalled
  {
  }

  /** A wait with the event clear and no notification of five bytes or more
      times out: false, and nothing changes. */
  lemma WaitTimesOut(s: AckState, expected: nat, window: seq<Notification>)
    requires !s.signalled
    requires forall i :: 0 <= i < |window| ==> |window[i]| < PrefixLength
    ensures Wait(s, expected, window) == WaitOutcome(false, s)
  {
    DeliverQuiet(s, window);
  }

  /** A wait whose window ends with a notification announcing the expected
      stage succeeds, whatever came earlier in the window. */
  lemma WaitSucceeds(s: AckState, expected: nat, window: seq<Notification>, ack: Notification)
    requires expected != 0 && Classify(ack) == expected
    ensures Wait(s, expected, window + [ack]).acked
  {
    var w := window + [ack];
    assert w[..|w| - 1] == window;
    assert w[|w| - 1] == ack;
  }
}
