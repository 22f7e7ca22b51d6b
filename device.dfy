/** The device session, `BKLightDevice`: the link fields, the acknowledgment
    state the notification callback shares with the handshake, and the
    operations connect, disconnect, send_image and set_brightness. The BLE
    stack is replaced by scripted results (`ConnectScript`, `Exchange`) and a
    log of the writes issued. */
module Device {
  import opened Base
  import opened Protocol
  import Frame
  import opened Ack
  import opened Handshake

  /** One `BleakScanner.find_device_by_address` call: a device, `None`, a
      `TypeError` (a bleak release without the `cached` parameter), or any
      other error. */
  datatype Lookup = Found | NotFound | RejectsCached | Fails

  /** The scripted transport for one `connect`: the uncached lookup, the
      lookup without `cached` tried after a `TypeError`, the cached retry
      tried when no device was found, then the connection and the
      notification subscription. */
  datatype ConnectScript = ConnectScript(
    uncached: Lookup, legacy: Lookup, cached: Lookup,
    open: CallResult, subscribe: CallResult)

  /** Where discovery ends: a device, none, or an exception. */
  datatype Discovery = Located | Missing | Error

  /** The lookups that are actually made, in order. */
  function Attempts(s: ConnectScript): (r: seq<Lookup>)
    ensures 1 <= |r| <= 3 && r[0] == s.uncached
  {
    var first := if s.uncached == RejectsCached then [s.uncached, s.legacy] else [s.uncached];
    var last := first[|first| - 1];
    if last == NotFound then first + [s.cached] else first
  }

  /** The discovery of `connect`: uncached first; on `TypeError` the lookup
      without `cached`, whose own `TypeError` is not caught; when that gives
      no device, the cached retry, whose `TypeError` is ignored. */
  function Discover(s: ConnectScript): Discovery {
    var first :=
      match s.uncached
      case Found => Located
      case NotFound => Missing
      case Fails => Error
      case RejectsCached =>
        (match s.legacy
         case Found => Located
         case NotFound => Missing
         case _ => Error);
    if first != Missing then first
    else
      match s.cached
      case Found => Located
      case Fails => Error
      case _ => Missing
  }

  /** Discovery finds the device exactly when one of the lookups made finds it. */
  lemma DiscoverFinds(s: ConnectScript)
    ensures Discover(s) == Located <==> Found in Attempts(s)
  {
  }

  /** Discovery raises exactly when a lookup made fails, or the lookup
      without `cached` rejects its arguments too. */
  lemma DiscoverRaises(s: ConnectScript)
    ensures Discover(s) == Error <==>
      Fails in Attempts(s) || (s.uncached == RejectsCached && s.legacy == RejectsCached)
  {
  }

  /** An uncached hit is final: neither fallback is consulted. */
  lemma DiscoverUncachedHit(s: ConnectScript)
    requires s.uncached == Found
    ensures Discover(s) == Located && Attempts(s) == [Found]
  {
  }

  /** `client`: absent, or a client whose transport reports `is_connected`
      as `linked`. */
  datatype Handle = NoClient | Client(linked: bool)

  /** The session's link fields, `client` and `_is_connected`. */
  datatype Link = Link(client: Handle, connected: bool)

  /** `self.client and self.client.is_connected`. */
  predicate LinkUp(l: Link) {
    l.client.Client? && l.client.linked
  }

  /** The session invariant: the flag is only set while a client is held. */
  predicate Consistent(l: Link) {
    l.connected ==> l.client.Client?
  }

  datatype ConnectResult = ConnectResult(ok: bool, link: Link)

  /** What `connect` returns and leaves in the link fields. */
  function ConnectOutcome(l: Link, s: ConnectScript): ConnectResult {
    if LinkUp(l) then ConnectResult(true, l)
    else
      match Discover(s)
      case Missing => ConnectResult(false, l)
      case Error => ConnectResult(false, Link(NoClient, false))
      case Located =>
        if s.open.Raised? || s.subscribe.Raised? then ConnectResult(false, Link(NoClient, false))
        else ConnectResult(true, Link(Client(true), true))
  }

  /** A live link is reused: true, no discovery, nothing changes. */
  lemma ConnectReusesLiveLink(l: Link, s: ConnectScript, t: ConnectScript)
    requires LinkUp(l)
    ensures ConnectOutcome(l, s) == ConnectOutcome(l, t) == ConnectResult(true, l)
  {
  }

  /** `connect` succeeds exactly when the link was live, or a device was
      found and both the connection and the subscription returned; success
      always leaves a live link. */
  lemma ConnectSucceeds(l: Link, s: ConnectScript)
    ensures ConnectOutcome(l, s).ok <==>
      LinkUp(l) || (Discover(s) == Located && s.open.Returned? && s.subscribe.Returned?)
    ensures ConnectOutcome(l, s).ok ==> LinkUp(ConnectOutcome(l, s).link)
  {
  }

  /** No device found: false, and the state is left as it was. */
  lemma ConnectDeviceMissing(l: Link, s: ConnectScript)
    requires !LinkUp(l) && Discover(s) == Missing
    ensures ConnectOutcome(l, s) == ConnectResult(false, l)
  {
  }

  /** Every exception path drops the client and clears the flag. */
  lemma ConnectErrorReleases(l: Link, s: ConnectScript)
    requires !LinkUp(l)
    requires Discover(s) == Error || (Discover(s) == Located && (s.open.Raised? || s.subscribe.Raised?))
    ensures ConnectOutcome(l, s) == ConnectResult(false, Link(NoClient, false))
  {
  }

  /** `connect` keeps the session invariant. */
  lemma ConnectConsistent(l: Link, s: ConnectScript)
    requires Consistent(l)
    ensures Consistent(ConnectOutcome(l, s).link)
  {
  }

  /** `max(0.1, min(1.0, b))`. */
  function Clamp(b: real): (r: real)
    ensures 0.1 <= r <= 1.0
    ensures 0.1 <= b <= 1.0 ==> r == b
    ensures b < 0.1 ==> r == 0.1
    ensures b > 1.0 ==> r == 1.0
  {
    var upper := if b < 1.0 then b else 1.0;
    if upper < 0.1 then 0.1 else upper
  }

  /** Clamping twice is clamping once. */
  lemma ClampIdempotent(b: real)
    ensures Clamp(Clamp(b)) == Clamp(b)
  {
  }

  /** The default brightness lies inside the range and the clamp keeps it. */
  lemma DefaultBrightnessKept()
    ensures 0.1 <= DefaultBrightness <= 1.0 && Clamp(DefaultBrightness) == DefaultBrightness
  {
  }

  /** The image library calls `_adjust_image` makes, in order. */
  datatype ImageStep = Rotate(degrees: int) | Darken(factor: real) | EncodePng

  /** `_adjust_image`'s branches: rotate by the negated angle when the
      rotation is not 0, scale brightness when it is below 1.0, always
      encode as PNG last. */
  function AdjustPlan(rotation: int, brightness: real): seq<ImageStep> {
    (if rotation != 0 then [Rotate(-rotation)] else [])
    + (if brightness < 1.0 then [Darken(brightness)] else [])
    + [EncodePng]
  }

  /** Each step is there exactly when its condition holds, and encoding is last. */
  lemma AdjustPlanSteps(rotation: int, brightness: real)
    ensures var plan := AdjustPlan(rotation, brightness);
      && plan[|plan| - 1] == EncodePng
      && (forall d :: Rotate(d) in plan <==> rotation != 0 && d == -rotation)
      && (forall f :: Darken(f) in plan <==> brightness < 1.0 && f == brightness)
  {
    var plan := AdjustPlan(rotation, brightness);
    var r: seq<ImageStep> := if rotation != 0 then [Rotate(-rotation)] else [];
    var e: seq<ImageStep> := if brightness < 1.0 then [Darken(brightness)] else [];
    assert plan == r + e + [EncodePng];
    forall d ensures Rotate(d) in plan <==> rotation != 0 && d == -rotation {
      assert Rotate(d) in plan <==> Rotate(d) in r || Rotate(d) in e;
    }
    forall f ensures Darken(f) in plan <==> brightness < 1.0 && f == brightness {
      assert Darken(f) in plan <==> Darken(f) in r || Darken(f) in e;
    }
  }

  /** With no rotation and full brightness the image goes straight to the encoder. */
  lemma AdjustPlanIdentity()
    ensures AdjustPlan(0, 1.0) == [EncodePng]
  {
  }

  class BKLightDevice {
    const address: string
    var rotation: int
    var brightness: real
    var client: Handle
    var connected: bool
    var ackStage: nat
    var ackSignalled: bool
    /** Every `write_gatt_char` call issued on the write characteristic, in order. */
    var writes: seq<Write>

    ghost predicate Valid()
      reads this
    {
      Consistent(Link(client, connected)) && ackStage <= 3
    }

    function LinkState(): Link
      reads this
    {
      Link(client, connected)
    }

    function AckNow(): AckState
      reads this
    {
      AckState(ackStage, ackSignalled)
    }

    constructor (address: string, rotation: int := DefaultRotation, brightness: real := DefaultBrightness)
      ensures Valid()
      ensures this.address == address && this.rotation == rotation && this.brightness == brightness
      ensures client == NoClient && !connected
      ensures AckNow() == AckState(0, false) && writes == []
    {
      this.address := address;
      this.rotation := rotation;
      this.brightness := brightness;
      client := NoClient;
      ackStage := 0;
      ackSignalled := false;
      connected := false;
      writes := [];
    }

    /** `_notification_handler`: classify by the first five bytes and wake the waiter. */
    method NotificationHandler(data: Notification)
      requires Valid()
      modifies this`ackStage, this`ackSignalled
      ensures Valid()
      ensures AckNow() == Notify(old(AckNow()), data)
    {
      if |data| >= PrefixLength {
        var prefix := data[..PrefixLength];
        if prefix == AckStageOne[..PrefixLength] || prefix == AckStageOneAlt[..PrefixLength] {
          ackStage := 1;
        } else if prefix == AckStageTwo[..PrefixLength] || prefix == AckStageTwoAlt[..PrefixLength] {
          ackStage := 2;
        } else if prefix == AckStageThree[..PrefixLength] {
          ackStage := 3;
        }
        ackSignalled := true;
      }
    }

    /** The transport invoking the handler once for each notification of `window`. */
    method ReceiveNotifications(window: seq<Notification>)
      requires Valid()
      modifies this`ackStage, this`ackSignalled
      ensures Valid()
      ensures AckNow() == Deliver(old(AckNow()), window)
    {
      for i := 0 to |window|
        invariant Valid()
        invariant AckNow() == Deliver(old(AckNow()), window[..i])
      {
        assert window[..i + 1][..i] == window[..i];
        NotificationHandler(window[i]);
      }
      assert window[..|window|] == window;
    }

    /** `_wait_for_ack`: `window` is what arrives before the waiter resumes. */
    method WaitForAck(expected: nat, window: seq<Notification>) returns (acked: bool)
      requires Valid()
      modifies this`ackStage, this`ackSignalled
      ensures Valid()
      ensures WaitOutcome(acked, AckNow()) == Wait(old(AckNow()), expected, window)
    {
      ReceiveNotifications(window);
      if ackSignalled {
        ackSignalled := false;
        acked := ackStage == expected;
      } else {
        acked := false;
      }
    }

    /** The `except` blocks of `connect`: clear the flag, and disconnect and
        drop a client if one is held (an error from that disconnect is ignored). */
    method AbandonClient()
      modifies this`client, this`connected
      ensures client == NoClient && !connected
    {
      connected := false;
      if client.Client? {
        client := NoClient;
      }
    }

    method Connect(script: ConnectScript) returns (ok: bool)
      requires Valid()
      modifies this`client, this`connected
      ensures Valid()
      ensures ConnectResult(ok, LinkState()) == ConnectOutcome(old(LinkState()), script)
    {
      if client.Client? && client.linked {
        return true;
      }
      var device := Discover(script);
      if device == Missing {
        return false;
      }
      if device == Error {
        AbandonClient();
        return false;
      }
      client := Client(false);
      if script.open.Raised? {
        AbandonClient();
        return false;
      }
      client := Client(true);
      if script.subscribe.Raised? {
        AbandonClient();
        return false;
      }
      connected := true;
      return true;
    }

    /** `disconnect`: with a client, unsubscribe and close while the transport
        is connected; whatever they raise is logged, and the client and the
        flag are always cleared. Without a client, nothing happens. */
    method Disconnect()
      requires Valid()
      modifies this`client, this`connected
      ensures Valid()
      ensures old(client).Client? ==> client == NoClient && !connected
      ensures old(client).NoClient? ==> client == old(client) && connected == old(connected)
    {
      if client.Client? {
        client := NoClient;
        connected := false;
      }
    }

    /** `send_image`: `encoded` is what `_adjust_image` returns (none when it
        raises), `link` scripts the `connect` made when the link is not live,
        `exchange` scripts the handshake. */
    method SendImage(encoded: Option<seq<byte>>, link: ConnectScript, exchange: Exchange) returns (ok: bool)
      requires Valid()
      modifies this
      ensures Valid()
      ensures rotation == old(rotation) && brightness == old(brightness)
      ensures var c := ConnectOutcome(old(LinkState()), link);
        && LinkState() == c.link
        && if !c.ok || encoded.None? || !Frame.Fits(encoded.value) then
             !ok && writes == old(writes) && AckNow() == old(AckNow())
           else
             var run := Transfer(Frame.Frame(encoded.value), exchange);
             ok == run.ok && writes == old(writes) + run.writes && AckNow() == run.ack
    {
      if !(client.Client? && client.linked) {
        var up := Connect(link);
        if !up {
          return false;
        }
      }
      if encoded.None? {
        return false;
      }
      var frame := Frame.BuildFrame(encoded.value);
      if frame.Err? {
        return false;
      }
      ok := RunExchange(frame.value, exchange);
    }

    /** The handshake part of `send_image`, once the frame is built. */
    method RunExchange(frame: seq<byte>, x: Exchange) returns (ok: bool)
      requires Valid()
      modifies this`ackStage, this`ackSignalled, this`writes
      ensures Valid()
      ensures var run := Transfer(frame, x);
        ok == run.ok && writes == old(writes) + run.writes && AckNow() == run.ack
    {
      ghost var w0 := writes;
      // Handshake stage 1
      ackStage := 0;
      ackSignalled := false;
      writes := writes + [FirstWrite];
      if x.first.Raised? {
        return false;
      }
      var first := WaitForAck(1, x.firstAck);
      assert WaitOutcome(first, AckNow()) == FirstWait(x);
      if !first {
        return false;
      }
      ReceiveNotifications(x.firstPause);
      // Handshake stage 2: its acknowledgment may never come
      ackSignalled := false;
      assert AckNow() == SecondStart(x);
      writes := writes + [SecondWrite];
      if x.second.Raised? {
        return false;
      }
      var second := WaitForAck(2, x.secondAck);
      ReceiveNotifications(x.secondPause);
      // The frame
      ackSignalled := false;
      assert AckNow() == FrameStart(x);
      writes := writes + [FrameWrite(frame)];
      assert writes == w0 + FullOrder(frame);
      if x.frame.Raised? {
        return false;
      }
      ok := WaitForAck(3, x.frameAck);
    }

    /** `set_brightness`. */
    method SetBrightness(b: real)
      requires Valid()
      modifies this`brightness
      ensures Valid()
      ensures brightness == Clamp(b)
    {
      var upper := if 1.0 < b then 1.0 else b;
      brightness := if 0.1 < upper then upper else 0.1;
    }
  }
}
