/** The fixed wire constants of the BK Light ACT1026 protocol (const.py). */
module Protocol {
  import opened Base
  import LittleEndian

  const DisplayWidth: nat := 32
  const DisplayHeight: nat := 32
  const DefaultBrightness: real := 0.85
  const DefaultRotation: int := 0

  /** GATT characteristic written to, and the one that notifies. */
  const WriteCharacteristic: string := "0000fa02-0000-1000-8000-00805f9b34fb"
  const NotifyCharacteristic: string := "0000fa03-0000-1000-8000-00805f9b34fb"

  const HandshakeFirst: seq<byte> := [0x08, 0x00, 0x01, 0x80, 0x0E, 0x06, 0x32, 0x00]
  const HandshakeSecond: seq<byte> := [0x04, 0x00, 0x05, 0x80]
  const AckStageOne: seq<byte> := [0x0C, 0x00, 0x01, 0x80, 0x81, 0x06, 0x32, 0x00, 0x00, 0x01, 0x00, 0x01]
  const AckStageOneAlt: seq<byte> := [0x0B, 0x00, 0x01, 0x80, 0x83, 0x06, 0x32, 0x00, 0x00, 0x01, 0x00]
  const AckStageTwo: seq<byte> := [0x08, 0x00, 0x05, 0x80, 0x0B, 0x03, 0x07, 0x02]
  const AckStageTwoAlt: seq<byte> := [0x08, 0x00, 0x05, 0x80, 0x0E, 0x03, 0x07, 0x01]
  const AckStageThree: seq<byte> := [0x05, 0x00, 0x02, 0x00, 0x03]

  /** The number of leading bytes of a notification that identify it. */
  const PrefixLength: nat := 5

  /** All seven fixed messages. */
  const Messages: seq<seq<byte>> :=
    [HandshakeFirst, HandshakeSecond, AckStageOne, AckStageOneAlt, AckStageTwo, AckStageTwoAlt, AckStageThree]

  /** The five acknowledgment prefixes the classifier compares against. */
  const AckPrefixes: seq<seq<byte>> :=
    [AckStageOne[..5], AckStageOneAlt[..5], AckStageTwo[..5], AckStageTwoAlt[..5], AckStageThree[..5]]

  /** The five prefixes are pairwise distinct, so the classifier's branches exclude
      each other; their fifth bytes (81, 83, 0B, 0E, 03) already tell them apart. */
  lemma AckPrefixesDistinct()
    ensures forall i, j :: 0 <= i < j < |AckPrefixes| ==> AckPrefixes[i] != AckPrefixes[j]
  {
    forall i, j | 0 <= i < j < |AckPrefixes|
      ensures AckPrefixes[i] != AckPrefixes[j]
    {
      assert AckPrefixes[i][4] != AckPrefixes[j][4];
    }
  }

  /** Every fixed message opens with its own total length, two bytes little-endian,
      the same convention as the image frame's total-length field. */
  lemma MessagesSelfDescribing()
    ensures forall m :: m in Messages ==> |m| >= 2 && LittleEndian.Decode(m[..2]) == |m|
  {
    forall m | m in Messages
      ensures |m| >= 2 && LittleEndian.Decode(m[..2]) == |m|
    {
      assert LittleEndian.Decode(m[..2]) == m[0] + 256 * m[1] by {
        assert m[..2][1..] == [m[1]];
        assert m[..2][1..][1..] == [];
      }
    }
  }

  /** The stage-3 acknowledgment is exactly five bytes, so its prefix is the whole message. */
  lemma StageThreeIsItsOwnPrefix()
    ensures |AckStageThree| == PrefixLength && AckStageThree[..PrefixLength] == AckStageThree
  {
  }

  /** Each acknowledgment echoes the command bytes (2 and 3) of the handshake it answers. */
  lemma AcksEchoCommand()
    ensures AckStageOne[2..4] == AckStageOneAlt[2..4] == HandshakeFirst[2..4] == [0x01, 0x80]
    ensures AckStageTwo[2..4] == AckStageTwoAlt[2..4] == HandshakeSecond[2..4] == [0x05, 0x80]
  {
  }
}
