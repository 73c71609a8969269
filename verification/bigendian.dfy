/** Unsigned big-endian integers of a fixed byte width, as written by the
    `struct` format characters `H` and `I` in `>` mode. */
module BigEndian {
  import opened Common

  /** The unsigned number that `bs` denotes, most significant byte first. */
  function Decode(bs: seq<Byte>): (n: nat)
    ensures n < Pow256(|bs|)
  {
    if bs == [] then 0 else Decode(bs[..|bs| - 1]) * 256 + bs[|bs| - 1]
  }

  /** The `width` bytes that denote `n`; defined only when `n` fits. */
  function Encode(n: nat, width: nat): (bs: seq<Byte>)
    requires n < Pow256(width)
    ensures |bs| == width
    ensures Decode(bs) == n
  {
    if width == 0 then []
    else
      var bs := Encode(n / 256, width - 1) + [n % 256];
      assert bs[..|bs| - 1] == Encode(n / 256, width - 1);
      bs
  }

  /** Decoding loses nothing: re-encoding at the same width gives back the bytes. */
  lemma {:induction false} EncodeDecode(bs: seq<Byte>)
    ensures Encode(Decode(bs), |bs|) == bs
  {
    if bs != [] {
      var init := bs[..|bs| - 1];
      EncodeDecode(init);
      var n := Decode(bs);
      assert n / 256 == Decode(init) && n % 256 == bs[|bs| - 1];
      assert bs == init + [bs[|bs| - 1]];
    }
  }
}
