/** The part of Python's `struct` module the services use: big-endian (`>`)
    packing and unpacking of a fixed sequence of format characters. A float
    field is carried as its four raw IEEE-754 bytes and never interpreted. */
module Struct {
  import opened Common
  import BigEndian

  /** The four raw bytes of a single-precision float, in wire order. */
  type Float32 = w: seq<Byte> | |w| == 4 witness [0, 0, 0, 0]

  /** The format characters that occur in the services' layouts. */
  datatype FormatChar =
    | UShort  // 'H': unsigned 16-bit integer
    | UChar   // 'B': unsigned 8-bit integer
    | UInt    // 'I': unsigned 32-bit integer
    | Float   // 'f': 32-bit float, kept opaque

  /** A Python value handed to `pack` or returned by `unpack`. */
  datatype Field = Int(n: int) | Flt(bits: Float32)

  /** Bytes taken by one format character (`struct.calcsize` of it). */
  function Size(c: FormatChar): nat
  {
    match c
    case UShort => 2
    case UChar => 1
    case UInt => 4
    case Float => 4
  }

  /** `struct.calcsize`: total width of a format, with no padding in `>` mode. */
  function CalcSize(fmt: seq<FormatChar>): nat
  {
    if fmt == [] then 0 else Size(fmt[0]) + CalcSize(fmt[1..])
  }

  /** Whether `pack` accepts `f` for the format character `c`: an integer
      code takes an integer in its unsigned range, `f` takes a float. */
  predicate Fits(c: FormatChar, f: Field)
  {
    if c == Float then f.Flt? else f.Int? && 0 <= f.n < Pow256(Size(c))
  }

  /** Whether `pack(fmt, *vals)` succeeds: one fitting value per character. */
  predicate AllFit(fmt: seq<FormatChar>, vals: seq<Field>)
  {
    if fmt == [] then vals == []
    else vals != [] && Fits(fmt[0], vals[0]) && AllFit(fmt[1..], vals[1..])
  }

  /** The recursive definition agrees with the pointwise one. */
  lemma {:induction false} AllFitPointwise(fmt: seq<FormatChar>, vals: seq<Field>)
    ensures AllFit(fmt, vals) <==> |vals| == |fmt| && forall i :: 0 <= i < |fmt| ==> Fits(fmt[i], vals[i])
    decreases |fmt|
  {
    if fmt != [] && vals != [] {
      AllFitPointwise(fmt[1..], vals[1..]);
      if |vals| == |fmt| && forall i :: 0 <= i < |fmt| ==> Fits(fmt[i], vals[i]) {
        forall i | 0 <= i < |fmt| - 1 ensures Fits(fmt[1..][i], vals[1..][i]) {
          assert Fits(fmt[i + 1], vals[i + 1]);
        }
      }
      if AllFit(fmt, vals) {
        forall i | 0 <= i < |fmt| ensures Fits(fmt[i], vals[i]) {
          if i > 0 { assert Fits(fmt[1..][i - 1], vals[1..][i - 1]); }
        }
      }
    }
  }

  function PackOne(c: FormatChar, f: Field): (bs: seq<Byte>)
    requires Fits(c, f)
    ensures |bs| == Size(c)
  {
    if c == Float then f.bits else BigEndian.Encode(f.n, Size(c))
  }

  function UnpackOne(c: FormatChar, bs: seq<Byte>): (f: Field)
    requires |bs| == Size(c)
    ensures Fits(c, f)
  {
    if c == Float then Flt(bs) else Int(BigEndian.Decode(bs))
  }

  /** `struct.pack(fmt, *vals)`; `None` is the `struct.error` Python raises
      for a wrong number of values, a value of the wrong type or one out of
      range. */
  function Pack(fmt: seq<FormatChar>, vals: seq<Field>): (r: Option<seq<Byte>>)
    ensures r.Some? <==> AllFit(fmt, vals)
    ensures r.Some? ==> |r.value| == CalcSize(fmt)
  {
    if fmt == [] then
      if vals == [] then Some([]) else None
    else if vals == [] || !Fits(fmt[0], vals[0]) then None
    else
      match Pack(fmt[1..], vals[1..])
      case None => None
      case Some(rest) => Some(PackOne(fmt[0], vals[0]) + rest)
  }

  function UnpackExact(fmt: seq<FormatChar>, data: seq<Byte>): (vals: seq<Field>)
    requires |data| == CalcSize(fmt)
    ensures AllFit(fmt, vals)
  {
    if fmt == [] then []
    else
      var k := Size(fmt[0]);
      [UnpackOne(fmt[0], data[..k])] + UnpackExact(fmt[1..], data[k..])
  }

  /** `struct.unpack(fmt, data)`; `None` is the `struct.error` Python raises
      when `data` is not exactly `calcsize(fmt)` bytes long. */
  function Unpack(fmt: seq<FormatChar>, data: seq<Byte>): (r: Option<seq<Field>>)
    ensures r.Some? <==> |data| == CalcSize(fmt)
    ensures r.Some? ==> AllFit(fmt, r.value)
  {
    if |data| == CalcSize(fmt) then Some(UnpackExact(fmt, data)) else None
  }

  /** Unpacking what was packed returns the packed values. */
  lemma {:induction false} UnpackPack(fmt: seq<FormatChar>, vals: seq<Field>)
    requires AllFit(fmt, vals)
    ensures Unpack(fmt, Pack(fmt, vals).value) == Some(vals)
  {
    if fmt != [] {
      UnpackPack(fmt[1..], vals[1..]);
      assert Fits(fmt[0], vals[0]);
      var head := PackOne(fmt[0], vals[0]);
      var data := Pack(fmt, vals).value;
      assert data == head + Pack(fmt[1..], vals[1..]).value;
      assert data[..Size(fmt[0])] == head;
      assert data[Size(fmt[0])..] == Pack(fmt[1..], vals[1..]).value;
      if fmt[0] != Float {
        BigEndian.EncodeDecode(head);
      }
      assert UnpackOne(fmt[0], head) == vals[0];
      assert vals == [vals[0]] + vals[1..];
    }
  }

  /** Packing what was unpacked returns the original bytes. */
  lemma {:induction false} PackUnpack(fmt: seq<FormatChar>, data: seq<Byte>)
    requires |data| == CalcSize(fmt)
    ensures Pack(fmt, Unpack(fmt, data).value) == Some(data)
  {
    if fmt != [] {
      var k := Size(fmt[0]);
      PackUnpack(fmt[1..], data[k..]);
      var vals := Unpack(fmt, data).value;
      assert vals == [UnpackOne(fmt[0], data[..k])] + UnpackExact(fmt[1..], data[k..]);
      PackOneUnpackOne(fmt[0], data[..k]);
      assert data == data[..k] + data[k..];
    }
  }

  /** One value: packing what was unpacked returns its bytes. */
  lemma PackOneUnpackOne(c: FormatChar, bs: seq<Byte>)
    requires |bs| == Size(c)
    ensures PackOne(c, UnpackOne(c, bs)) == bs
  {
    if c != Float {
      BigEndian.EncodeDecode(bs);
    }
  }
}
