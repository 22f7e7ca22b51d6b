/** The three-stage exchange of `send_image` (its part after the frame is
    built), as a function of a scripted transport. */
module Handshake {
  import opened Base
  import opened Protocol
  import opened Ack

  /** One `write_gatt_char` call on the write characteristic; `withResponse`
      is its `response` flag (Write Characteristic Value rather than Write
      Without Response). */
  datatype Write = Write(data: seq<byte>, withResponse: bool)

  /** What the transport does during one exchange: whether each write call
      returns or raises, and the notifications it delivers during each wait
      (before the waiter resumes) and each inter-stage sleep. */
  datatype Exchange = Exchange(
    first: CallResult, firstAck: seq<Notification>, firstPause: seq<Notification>,
    second: CallResult, secondAck: seq<Notification>, secondPause: seq<Notification>,
    frame: CallResult, frameAck: seq<Notification>)

  /** The result of one exchange: whether it succeeded, the writes issued
      (a write that raises counts as issued), and the acknowledgment state left. */
  datatype Run = Run(ok: bool, writes: seq<Write>, ack: AckState)

  const FirstWrite: Write := Write(HandshakeFirst, false)
  const SecondWrite: Write := Write(HandshakeSecond, false)
  function FrameWrite(frame: seq<byte>): Write { Write(frame, true) }

  /** The three writes of a complete exchange, in protocol order. */
  function FullOrder(frame: seq<byte>): seq<Write> {
    [FirstWrite, SecondWrite, FrameWrite(frame)]
  }

  /** `_ack_stage = 0` and a cleared event: done once, before stage 1. */
  const Reset: AckState := AckState(0, false)

  /** A sleep that lets `pause` through, then the `_ack_event.clear()` before the next write. */
  function Settle(s: AckState, pause: seq<Notification>): AckState {
    AckState(Deliver(s, pause).stage, false)
  }

  function FirstWait(x: Exchange): WaitOutcome { Wait(Reset, 1, x.firstAck) }
  function SecondStart(x: Exchange): AckState { Settle(FirstWait(x).after, x.firstPause) }
  function SecondWait(x: Exchange): WaitOutcome { Wait(SecondStart(x), 2, x.secondAck) }
  function FrameStart(x: Exchange): AckState { Settle(SecondWait(x).after, x.secondPause) }
  function FrameWait(x: Exchange): WaitOutcome { Wait(FrameStart(x), 3, x.frameAck) }

  /** The exchange: write the first handshake and require stage 1; write the
      second and wait for stage 2, ignoring the answer; write the frame with
      response and require stage 3. Any raised write, and a missing stage-1
      or stage-3 acknowledgment, ends it with false. */
  function Transfer(frame: seq<byte>, x: Exchange): Run {
    if x.first.Raised? then Run(false, [FirstWrite], Reset)
    else if !FirstWait(x).acked then Run(false, [FirstWrite], FirstWait(x).after)
    else if x.second.Raised? then Run(false, [FirstWrite, SecondWrite], SecondStart(x))
    else if x.frame.Raised? then Run(false, FullOrder(frame), FrameStart(x))
    else Run(FrameWait(x).acked, FullOrder(frame), FrameWait(x).after)
  }

  /** The writes are always a non-empty prefix of first handshake, second
      handshake, frame: never another order, never a repeat. */
  lemma WriteOrder(frame: seq<byte>, x: Exchange)
    ensures var w := Transfer(frame, x).writes;
      1 <= |w| <= 3 && w == FullOrder(frame)[..|w|]
    ensures Transfer(frame, x).writes[0] == Write(HandshakeFirst, false)
  {
  }

  /** The exchange succeeds exactly when no write raised and both mandatory
      waits (stage 1 and stage 3) returned true; the stage-2 wait's answer
      does not enter. */
  lemma Outcome(frame: seq<byte>, x: Exchange)
    ensures Transfer(frame, x).ok <==>
      && x.first.Returned? && x.second.Returned? && x.frame.Returned?
      && FirstWait(x).acked && FrameWait(x).acked
    ensures Transfer(frame, x).ok ==> Transfer(frame, x).writes == FullOrder(frame)
  {
  }

  /** A failed stage-1 wait ends the exchange after exactly one write. */
  lemma StageOneMandatory(frame: seq<byte>, x: Exchange)
    requires !FirstWait(x).acked
    ensures !Transfer(frame, x).ok && Transfer(frame, x).writes == [FirstWrite]
  {
  }

  /** When stage 1 never answers (no notification of five bytes or more) the
      exchange fails without writing the frame. */
  lemma StageOneTimeout(frame: seq<byte>, x: Exchange)
    requires forall i :: 0 <= i < |x.firstAck| ==> |x.firstAck[i]| < PrefixLength
    ensures !Transfer(frame, x).ok
    ensures FrameWrite(frame) !in Transfer(frame, x).writes
  {
    WaitTimesOut(Reset, 1, x.firstAck);
  }

  /** A stage-2 timeout is tolerated: once stage 1 is acknowledged and the
      second write returns, the frame is written whatever the second wait says. */
  lemma StageTwoTolerated(frame: seq<byte>, x: Exchange)
    requires x.first.Returned? && FirstWait(x).acked && x.second.Returned?
    ensures Transfer(frame, x).writes == FullOrder(frame)
  {
  }

  /** The stage is set to 0 only before stage 1: at the frame wait it still
      holds what the notifications since then left, so a stage-3
      acknowledgment that came early, followed in the frame window by any
      unrecognised notification of five bytes or more, completes the exchange. */
  lemma StageNotResetBeforeFrame(frame: seq<byte>, x: Exchange, stray: Notification)
    requires x.first.Returned? && FirstWait(x).acked && x.second.Returned? && x.frame.Returned?
    requires FrameStart(x).stage == 3
    requires x.frameAck == [stray] && |stray| >= PrefixLength && Classify(stray) == 0
    ensures Transfer(frame, x).ok
  {
    assert x.frameAck[..0] == [];
    assert Deliver(FrameStart(x), x.frameAck) == Notify(FrameStart(x), stray);
    NotifySignals(FrameStart(x), stray);
  }

  /** The device answering as expected, with no stage-2 acknowledgment at all:
      stage-1 ack, silence, stage-3 ack. The frame is written and the send succeeds. */
  lemma ExpectedExchange(frame: seq<byte>)
    ensures var x := Exchange(Returned, [AckStageOne], [], Returned, [], [], Returned, [AckStageThree]);
      Transfer(frame, x) == Run(true, FullOrder(frame), AckState(3, false))
  {
    var x := Exchange(Returned, [AckStageOne], [], Returned, [], [], Returned, [AckStageThree]);
    ClassifyReference([]);
    assert AckStageOne + [] == AckStageOne && AckStageThree + [] == AckStageThree;
    WaitSucceeds(Reset, 1, [], AckStageOne);
    assert [] + [AckStageOne] == [AckStageOne];
    assert SecondStart(x) == AckState(1, false);
    WaitTimesOut(SecondStart(x), 2, []);
    assert FrameStart(x) == AckState(1, false);
    WaitSucceeds(FrameStart(x), 3, [], AckStageThree);
    assert [] + [AckStageThree] == [AckStageThree];
  }
}
