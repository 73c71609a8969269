/** Errors reported by the far end: an error frame carries the id of the
    failed service and a 32-bit error code, which a fixed table names. */
module Errors {
  import opened Common
  import opened Struct
  import BigEndian

  /** The named error codes of the user-info and parameter services. */
  const ErrorIdentifiers: map<int, string> := map[
    0x01 := "INVALID_FRAME",
    0x02 := "DEVICE_NOT_FOUND",
    0x03 := "RESPONSE_TIMEOUT",
    0x12 := "INVALID_SERVICE_ARGUMENT",
    0x13 := "GATEWAY_BUSY",
    0x22 := "OBJECT_ID_NOT_FOUND",
    0x24 := "INVALID_DATA_LENGTH",
    0x25 := "PROPERTY_IS_READ_ONLY",
    0x26 := "INVALID_DATA",
    0x27 := "DATA_TOO_SMALL",
    0x28 := "DATA_TOO_BIG",
    0x29 := "WRITE_PROPERTY_FAILED",
    0x2A := "READ_PROPERTY_FAILED",
    0x2B := "ACCESS_DENIED",
    0x2D := "MULTICAST_READ_NOT_SUPPORTED"
  ]

  const UNKNOWN: string := "UNKNOWN"

  /** The category label of an error code, `UNKNOWN` for codes the table lacks. */
  function Category(code: int): (name: string)
    ensures code in ErrorIdentifiers ==> name == ErrorIdentifiers[code]
    ensures name == UNKNOWN <==> code !in ErrorIdentifiers
  {
    if code in ErrorIdentifiers then ErrorIdentifiers[code] else UNKNOWN
  }

  /** A `StuCanPublicError`: service id and code from the frame, and the label. */
  datatype ProtocolError = ProtocolError(id: int, errorCode: int, identifier: string)

  /** Layout of an error payload: `'>HI'`. */
  const ERROR_FORMAT: seq<FormatChar> := [UShort, UInt]

  /** The receive path's decoding of an error payload; `None` is the
      `struct.error` raised for a payload that is not exactly 6 bytes. */
  function DecodeError(data: seq<Byte>): (r: Option<ProtocolError>)
    ensures r.Some? <==> |data| == 6
    ensures r.Some? ==> r.value.id == BigEndian.Decode(data[..2])
    ensures r.Some? ==> r.value.errorCode == BigEndian.Decode(data[2..])
    ensures r.Some? ==> r.value.identifier == Category(r.value.errorCode)
  {
    assert CalcSize(ERROR_FORMAT) == 6 by {
      assert ERROR_FORMAT[1..][1..] == [];
    }
    match Unpack(ERROR_FORMAT, data)
    case None => None
    case Some(vals) =>
      assert ERROR_FORMAT[1..] == [UInt];
      assert vals[1..] == UnpackExact([UInt], data[2..]);
      assert data[2..][..4] == data[2..];
      Some(ProtocolError(vals[0].n, vals[1].n, Category(vals[1].n)))
  }

  /** The error payload a far end sends for service `id` failing with `code`. */
  function EncodeError(id: int, code: int): (r: seq<Byte>)
    requires 0 <= id < 0x1_0000 && 0 <= code < 0x1_0000_0000
    ensures |r| == 6
  {
    Pow256Values();
    assert CalcSize(ERROR_FORMAT) == 6 by {
      assert ERROR_FORMAT[1..][1..] == [];
    }
    AllFitPointwise(ERROR_FORMAT, [Int(id), Int(code)]);
    Pack(ERROR_FORMAT, [Int(id), Int(code)]).value
  }

  /** An error frame's payload decodes to the service id and code it was
      built from, labelled by the table. */
  lemma DecodeEncodeError(id: int, code: int)
    requires 0 <= id < 0x1_0000 && 0 <= code < 0x1_0000_0000
    ensures DecodeError(EncodeError(id, code)) == Some(ProtocolError(id, code, Category(code)))
  {
    Pow256Values();
    UnpackPack(ERROR_FORMAT, [Int(id), Int(code)]);
  }
}
