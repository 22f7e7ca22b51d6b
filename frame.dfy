/** The image frame envelope written after the handshake (`_build_frame`). */
module Frame {
  import opened Base
  import LittleEndian
  import Crc32

  /** Bytes in front of the payload: 2 + 1 + 2 + 2 + 2 + 4 + 2. */
  const HeaderLength: nat := 15
  /** The frame-type marker byte. */
  const Marker: byte := 0x02
  /** The two bytes that close the header. */
  const Suffix: seq<byte> := [0x00, 0x65]

  /** `total_length.to_bytes(2, "little")` raises OverflowError. */
  datatype FrameError = LengthOverflow

  /** The payloads whose total length the 2-byte field can hold. */
  predicate Fits(payload: seq<byte>) {
    |payload| + HeaderLength < LittleEndian.Bound(2)
  }

  lemma FitsBound(payload: seq<byte>)
    ensures Fits(payload) <==> |payload| <= 65520
  {
    assert LittleEndian.Bound(2) == 65536;
  }

  lemma {:induction false} CrcFits(payload: seq<byte>)
    ensures Crc32.Checksum(payload) < LittleEndian.Bound(4)
  {
    assert LittleEndian.Bound(4) == 0x1_0000_0000;
  }

  /** The fifteen header bytes for `payload`. */
  function Header(payload: seq<byte>): (h: seq<byte>)
    requires Fits(payload)
    ensures |h| == HeaderLength
  {
    CrcFits(payload);
    LittleEndian.Encode(|payload| + HeaderLength, 2) + [Marker, 0x00, 0x00]
      + LittleEndian.Encode(|payload|, 2) + [0x00, 0x00]
      + LittleEndian.Encode(Crc32.Checksum(payload), 4) + Suffix
  }

  /** The frame for `payload`: the header, then the payload unchanged. */
  function Frame(payload: seq<byte>): (f: seq<byte>)
    requires Fits(payload)
    ensures |f| == |payload| + HeaderLength
    ensures f[HeaderLength..] == payload
  {
    Header(payload) + payload
  }

  /** `_build_frame`, appending field after field to a growing buffer. */
  method BuildFrame(png: seq<byte>) returns (r: Result<seq<byte>, FrameError>)
    ensures r.Ok? <==> Fits(png)
    ensures r.Ok? ==> r.value == Frame(png)
  {
    var dataLength := |png|;
    var totalLength := dataLength + HeaderLength;
    var frame: seq<byte> := [];
    var total := LittleEndian.ToBytes(totalLength, 2);
    if total.None? {
      return Err(LengthOverflow);
    }
    frame := frame + total.value;
    frame := frame + [Marker];
    frame := frame + [0x00, 0x00];
    frame := frame + LittleEndian.ToBytes(dataLength, 2).value;
    frame := frame + [0x00, 0x00];
    CrcFits(png);
    frame := frame + LittleEndian.ToBytes(Crc32.Checksum(png), 4).value;
    frame := frame + Suffix;
    frame := frame + png;
    return Ok(frame);
  }

  /** Reads a frame back: the payload, when every header field is what the
      encoder writes for it. */
  function Parse(f: seq<byte>): (r: Option<seq<byte>>)
    ensures r.Some? ==> |r.value| + HeaderLength == |f|
  {
    if |f| < HeaderLength then None
    else if && LittleEndian.Decode(f[0..2]) == |f|
            && f[2] == Marker
            && f[3..5] == [0x00, 0x00]
            && LittleEndian.Decode(f[5..7]) == |f| - HeaderLength
            && f[7..9] == [0x00, 0x00]
            && LittleEndian.Decode(f[9..13]) == Crc32.Checksum(f[HeaderLength..])
            && f[13..15] == Suffix
    then Some(f[HeaderLength..])
    else None
  }

  /** Field by field: the total length (payload + 15) and payload length
      little-endian, the marker, the reserved zeros, the CRC-32 of the payload
      alone, the suffix, and the payload. */
  lemma FrameLayout(payload: seq<byte>)
    requires Fits(payload)
    ensures var f := Frame(payload);
      && |f| == |payload| + HeaderLength
      && LittleEndian.Decode(f[0..2]) == |f|
      && f[2] == 0x02
      && f[3..5] == [0x00, 0x00]
      && LittleEndian.Decode(f[5..7]) == |payload|
      && f[7..9] == [0x00, 0x00]
      && LittleEndian.Decode(f[9..13]) == Crc32.Checksum(payload)
      && f[13..15] == [0x00, 0x65]
      && f[15..] == payload
  {
    var f := Frame(payload);
    CrcFits(payload);
    assert f[0..2] == LittleEndian.Encode(|payload| + HeaderLength, 2);
    assert f[5..7] == LittleEndian.Encode(|payload|, 2);
    assert f[9..13] == LittleEndian.Encode(Crc32.Checksum(payload), 4);
    LittleEndian.DecodeEncode(|payload| + HeaderLength, 2);
    LittleEndian.DecodeEncode(|payload|, 2);
    LittleEndian.DecodeEncode(Crc32.Checksum(payload), 4);
  }

  /** Every frame the encoder builds reads back as its payload. */
  lemma ParseFrame(payload: seq<byte>)
    requires Fits(payload)
    ensures Parse(Frame(payload)) == Some(payload)
  {
    FrameLayout(payload);
  }

  /** Conversely, whatever reads back as a payload is exactly that payload's frame. */
  lemma FrameOfParse(f: seq<byte>)
    requires Parse(f).Some?
    ensures Fits(Parse(f).value) && Frame(Parse(f).value) == f
  {
    var p := f[HeaderLength..];
    assert Parse(f).value == p;
    ParsedHeader(f);
    assert f == f[..HeaderLength] + p;
  }

  /** The first fifteen bytes of a frame that parses are the header of its payload. */
  lemma ParsedHeader(f: seq<byte>)
    requires Parse(f).Some?
    ensures Fits(f[HeaderLength..]) && f[..HeaderLength] == Header(f[HeaderLength..])
  {
    var p := f[HeaderLength..];
    assert LittleEndian.Decode(f[0..2]) < LittleEndian.Bound(2);
    CrcFits(p);
    assert f[0..2] == LittleEndian.Encode(|p| + HeaderLength, 2) by {
      LittleEndian.EncodeDecode(f[0..2]);
    }
    assert f[5..7] == LittleEndian.Encode(|p|, 2) by {
      LittleEndian.EncodeDecode(f[5..7]);
    }
    assert f[9..13] == LittleEndian.Encode(Crc32.Checksum(p), 4) by {
      LittleEndian.EncodeDecode(f[9..13]);
    }
    assert f[2..5] == [Marker, 0x00, 0x00];
    assert f[..5] == f[0..2] + f[2..5];
    assert f[..7] == f[..5] + f[5..7];
    assert f[..9] == f[..7] + f[7..9];
    assert f[..13] == f[..9] + f[9..13];
    assert f[..HeaderLength] == f[..13] + f[13..15];
  }

  /** The CRC field depends on the payload only, never on header bytes: two
      frames carry the same checksum bytes exactly when their payloads'
      checksums agree. */
  lemma ChecksumOverPayloadOnly(p: seq<byte>, q: seq<byte>)
    requires Fits(p) && Fits(q)
    ensures Frame(p)[9..13] == Frame(q)[9..13] <==> Crc32.Checksum(p) == Crc32.Checksum(q)
  {
    CrcFits(p);
    CrcFits(q);
    assert Frame(p)[9..13] == LittleEndian.Encode(Crc32.Checksum(p), 4);
    assert Frame(q)[9..13] == LittleEndian.Encode(Crc32.Checksum(q), 4);
    LittleEndian.EncodeInjective(Crc32.Checksum(p), Crc32.Checksum(q), 4);
  }

  /** A 100-byte payload gives total length 115 (`73 00`) and payload length 100 (`64 00`). */
  lemma HundredBytePayload(payload: seq<byte>)
    requires |payload| == 100
    ensures Fits(payload)
    ensures Frame(payload)[0..2] == [0x73, 0x00] && Frame(payload)[5..7] == [0x64, 0x00]
  {
    FitsBound(payload);
    var f := Frame(payload);
    assert f[0..2] == LittleEndian.Encode(115, 2);
    assert f[5..7] == LittleEndian.Encode(100, 2);
  }
}
