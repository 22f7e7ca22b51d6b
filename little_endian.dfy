/** Python's `int.to_bytes(width, "little")` and its inverse. */
module LittleEndian {
  import opened Base

  /** 256 to the power `width`: the first value that no longer fits in `width` bytes. */
  function Bound(width: nat): (r: nat)
    ensures r > 0
  {
    if width == 0 then 1 else 256 * Bound(width - 1)
  }

  /** The `width` bytes of `n`, least significant first. */
  function Encode(n: nat, width: nat): (r: seq<byte>)
    requires n < Bound(width)
    ensures |r| == width
  {
    if width == 0 then [] else [n % 256] + Encode(n / 256, width - 1)
  }

  /** The number that little-endian bytes `bs` stand for. */
  function Decode(bs: seq<byte>): (r: nat)
    ensures r < Bound(|bs|)
  {
    if bs == [] then 0 else bs[0] + 256 * Decode(bs[1..])
  }

  /** `n.to_bytes(width, "little")`: raises OverflowError (here `None`)
      when `n` needs more than `width` bytes. */
  function ToBytes(n: nat, width: nat): (r: Option<seq<byte>>)
    ensures r.Some? <==> n < Bound(width)
    ensures r.Some? ==> |r.value| == width && Decode(r.value) == n
  {
    if n < Bound(width) then
      DecodeEncode(n, width);
      Some(Encode(n, width))
    else None
  }

  lemma {:induction false} DecodeEncode(n: nat, width: nat)
    requires n < Bound(width)
    ensures Decode(Encode(n, width)) == n
  {
    if width > 0 {
      DecodeEncode(n / 256, width - 1);
    }
  }

  lemma {:induction false} EncodeDecode(bs: seq<byte>)
    ensures Encode(Decode(bs), |bs|) == bs
  {
    if bs != [] {
      EncodeDecode(bs[1..]);
      assert Decode(bs) % 256 == bs[0];
      assert Decode(bs) / 256 == Decode(bs[1..]);
      assert bs == [bs[0]] + bs[1..];
    }
  }

  /** Two equally wide encodings agree exactly when the numbers do. */
  lemma EncodeInjective(m: nat, n: nat, width: nat)
    requires m < Bound(width) && n < Bound(width)
    ensures Encode(m, width) == Encode(n, width) <==> m == n
  {
    if Encode(m, width) == Encode(n, width) {
      DecodeEncode(m, width);
      DecodeEncode(n, width);
    }
  }
}
