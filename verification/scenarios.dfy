/** A worked example: a client at address 1 reads parameter
    1286 (flash part) from the device at address 101. */
module Scenarios {
  import opened Common
  import opened Struct
  import opened Services
  import opened Errors
  import opened Identifier
  import opened Addresses
  import opened Node
  import opened Correlation
  import opened Client

  /** 230.0 as an IEEE-754 single-precision word, 0x43660000. */
  const VOLTS_230: Float32 := [0x43, 0x66, 0x00, 0x00]

  /** (101 << 19) + (1 << 9) + (1 << 6): parameter read from 1 to 101. */
  const REQUEST_ID: nat := 52953664

  /** (1 << 19) + (101 << 9) + (1 << 6): parameter read from 101 to 1. */
  const REPLY_ID: nat := 576064

  /** 1286 = 0x0506, part 0, then 230.0. */
  const REPLY_DATA: seq<Byte> := [0x05, 0x06, 0x00, 0x43, 0x66, 0x00, 0x00]

  lemma BigEndian2(a: Byte, b: Byte)
    ensures BigEndian.Decode([a, b]) == a * 256 + b
  {
    assert [a, b][..1] == [a] && [a][..0] == [];
  }

  /** The request payload: 1286 as a big-endian u16, then part 0. */
  lemma RequestBytes()
    ensures Services.Encode(ReadParameterRequest(1286, 0)) == Some([0x05, 0x06, 0x00])
  {
    var req: seq<Byte> := [0x05, 0x06, 0x00];
    BigEndian2(0x05, 0x06);
    assert req[..2] == [0x05, 0x06] && req[2..][..1] == [0x00] && req[2..][1..] == [];
    var vals := UnpackExact([UShort, UChar], req);
    assert vals == [Int(1286), Int(0)];
    EncodeDecode(RequestClass(ParameterRead), req);
  }

  /** The request frame a client at 1 sends to 101. */
  lemma RequestOnTheBus(n: Node, inbound: seq<RxFrame>)
    requires n.address == 1 && n.sent == []
    ensures var w := WaitResponse(n, 101, ReadParameterRequest(1286, PARAMETER_PART_FLASH), inbound);
            && !w.outcome.SendFailed?
            && w.node.sent == [TxFrame(REQUEST_ID, [0x05, 0x06, 0x00], true)]
  {
    var w := WaitResponse(n, 101, ReadParameterRequest(1286, PARAMETER_PART_FLASH), inbound);
    var f := w.node.sent[0];
    BuildParse(f.identifier);
    assert f.identifier == REQUEST_ID;
    EncodeDecode(RequestClass(ParameterRead), f.data);
    RequestBytes();
  }

  /** The reply payload decodes to parameter 1286, part 0, value 230.0. */
  lemma ReplyDecodes()
    ensures Services.Decode(ResponseClass(ParameterRead), REPLY_DATA) == Some(ReadParameterResponse(1286, 0, VOLTS_230))
  {
    BigEndian2(0x05, 0x06);
    var d := REPLY_DATA;
    assert d[..2] == [0x05, 0x06] && d[2..][..1] == [0x00] && d[2..][1..][..4] == VOLTS_230 && d[2..][1..][4..] == [];
    var fmt := [UShort, UChar, Float];
    assert fmt[1..] == [UChar, Float] && fmt[1..][1..] == [Float] && fmt[1..][1..][1..] == [];
    assert [0x00][..0] == [];
    assert BigEndian.Decode([0x00]) == 0;
    var last := UnpackExact([Float], d[2..][1..]);
    assert last == [Flt(VOLTS_230)];
    var tail := UnpackExact([UChar, Float], d[2..]);
    assert tail == [Int(0)] + last;
    var vals := UnpackExact(fmt, d);
    assert vals == [Int(1286)] + tail;
  }

  /** A success reply resolves the read with 230.0. */
  lemma ReadParameterAnswered()
    ensures var c := ReadParameter(Enter(1), 101, 1286, PARAMETER_PART_FLASH, [RxFrame(REPLY_ID, REPLY_DATA)]);
            && c.result == Ok(VOLTS_230)
            && c.node.sent == [TxFrame(REQUEST_ID, [0x05, 0x06, 0x00], true)]
  {
    ClientRegistry(1);
    var n := Enter(1);
    var frame := RxFrame(REPLY_ID, REPLY_DATA);
    ReplyParts();
    ReplyDecodes();
    var request := ReadParameterRequest(1286, PARAMETER_PART_FLASH);
    AnsweredByResponse(n, 101, request, [frame]);
    RequestOnTheBus(n, [frame]);
  }

  /** The wait behind the refused read: the error frame raises the
      protocol error its payload names. */
  lemma RefusedWait(inbound: seq<RxFrame>)
    requires inbound == [RxFrame(REPLY_ID + 1, EncodeError(1, 2))]
    ensures WaitResponse(Enter(1), 101, ReadParameterRequest(1286, PARAMETER_PART_FLASH), inbound).outcome
         == Raised(ProtocolError(1, 2, Category(2)))
  {
    var n := Enter(1);
    var request: Request := ReadParameterRequest(1286, PARAMETER_PART_FLASH);
    ClientRegistry(1);
    ReplyParts();
    assert Sendable(n, 101, request);
    AnsweredByError(n, 101, request, inbound, 1, 2);
  }

  /** The reply identifiers carry destination 1, source 101 and service id 1;
      the second one has the error flag set. */
  lemma ReplyParts()
    ensures Parse(REPLY_ID) == Parts(1, 101, 1, 0, 0)
    ensures Parse(REPLY_ID + 1) == Parts(1, 101, 1, 1, 1)
  {
  }

  /** An error reply with payload (service id 1, code 2) fails the read with
      `DEVICE_NOT_FOUND`. */
  lemma ReadParameterRefused()
    ensures var c := ReadParameter(Enter(1), 101, 1286, PARAMETER_PART_FLASH, [RxFrame(REPLY_ID + 1, EncodeError(1, 2))]);
            c.result == Err(PublicError(ProtocolError(1, 2, "DEVICE_NOT_FOUND")))
  {
    RefusedWait([RxFrame(REPLY_ID + 1, EncodeError(1, 2))]);
    assert Category(2) == "DEVICE_NOT_FOUND";
  }

  /** With no reply before the timeout the read fails with `Timeout`. */
  lemma ReadParameterTimesOut()
    ensures ReadParameter(Enter(1), 101, 1286, PARAMETER_PART_FLASH, []).result == Err(Timeout)
  {
    ForeignFramesTimeOut(Enter(1), 101, ReadParameterRequest(1286, PARAMETER_PART_FLASH), []);
  }

  /** The error payload for service id 1 and code 2 on the wire. */
  lemma ErrorPayloadBytes()
    ensures EncodeError(1, 2) == [0x00, 0x01, 0x00, 0x00, 0x00, 0x02]
  {
  }
}
