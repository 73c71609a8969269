/** The five service classes of the public protocol: a service id shared by
    the request and response of one kind, and a fixed `struct` layout per
    class. Request fields are whatever the caller passed, so encoding may
    fail; decoded fields are always in range. */
module Services {
  import opened Common
  import opened Struct

  /** The three request/response kinds; each has one correlation slot. */
  datatype Kind = UserInfoRead | ParameterWrite | ParameterRead

  /** The service classes. Request and response classes are tied to a kind;
      message notification has no request. */
  datatype ServiceClass = RequestClass(kind: Kind) | ResponseClass(kind: Kind) | NotificationClass

  /** A class the node can register to handle received frames. */
  type Handler = c: ServiceClass | !c.RequestClass? witness NotificationClass

  datatype Service =
    | ReadUserInfoRequest(infoId: int)
    | ReadUserInfoResponse(infoId: int, value: Float32)
    | WriteParameterRequest(parameterId: int, part: int, value: Float32)
    | WriteParameterResponse(parameterId: int, part: int, value: Float32)
    | ReadParameterRequest(parameterId: int, part: int)
    | ReadParameterResponse(parameterId: int, part: int, value: Float32)
    | MessageNotification(messageId: int, messageValue: int)
  {
    predicate IsRequest()
    {
      ReadUserInfoRequest? || WriteParameterRequest? || ReadParameterRequest?
    }
  }

  /** A service a caller can send and wait on. */
  type Request = s: Service | s.IsRequest() witness ReadUserInfoRequest(0)

  function ClassOf(s: Service): ServiceClass
  {
    match s
    case ReadUserInfoRequest(_) => RequestClass(UserInfoRead)
    case ReadUserInfoResponse(_, _) => ResponseClass(UserInfoRead)
    case WriteParameterRequest(_, _, _) => RequestClass(ParameterWrite)
    case WriteParameterResponse(_, _, _) => ResponseClass(ParameterWrite)
    case ReadParameterRequest(_, _) => RequestClass(ParameterRead)
    case ReadParameterResponse(_, _, _) => ResponseClass(ParameterRead)
    case MessageNotification(_, _) => NotificationClass
  }

  /** `SERVICE_ID` of each class. */
  function ServiceId(c: ServiceClass): nat
  {
    match c
    case RequestClass(UserInfoRead) => 0x0
    case ResponseClass(UserInfoRead) => 0x0
    case RequestClass(ParameterWrite) => 0x2
    case ResponseClass(ParameterWrite) => 0x2
    case RequestClass(ParameterRead) => 0x1
    case ResponseClass(ParameterRead) => 0x1
    case NotificationClass => 0x3
  }

  /** `PACK_FORMAT` of each class, without its leading `>`. */
  function Format(c: ServiceClass): seq<FormatChar>
  {
    match c
    case RequestClass(UserInfoRead) => [UShort]                       // '>H'
    case ResponseClass(UserInfoRead) => [UShort, Float]               // '>Hf'
    case RequestClass(ParameterWrite) => [UShort, UChar, Float]       // '>HBf'
    case ResponseClass(ParameterWrite) => [UShort, UChar, Float]      // '>HBf'
    case RequestClass(ParameterRead) => [UShort, UChar]               // '>HB'
    case ResponseClass(ParameterRead) => [UShort, UChar, Float]       // '>HBf'
    case NotificationClass => [UShort, UInt]                          // '>HI'
  }

  /** The arguments `__bytes__` hands to `pack`, in order. */
  function Fields(s: Service): seq<Field>
  {
    match s
    case ReadUserInfoRequest(i) => [Int(i)]
    case ReadUserInfoResponse(i, v) => [Int(i), Flt(v)]
    case WriteParameterRequest(p, q, v) => [Int(p), Int(q), Flt(v)]
    case WriteParameterResponse(p, q, v) => [Int(p), Int(q), Flt(v)]
    case ReadParameterRequest(p, q) => [Int(p), Int(q)]
    case ReadParameterResponse(p, q, v) => [Int(p), Int(q), Flt(v)]
    case MessageNotification(m, v) => [Int(m), Int(v)]
  }

  /** The class constructor applied to unpacked values. */
  function Construct(c: ServiceClass, vals: seq<Field>): (s: Service)
    requires AllFit(Format(c), vals)
    ensures ClassOf(s) == c && Fields(s) == vals
  {
    AllFitPointwise(Format(c), vals);
    match c
    case RequestClass(UserInfoRead) => ReadUserInfoRequest(vals[0].n)
    case ResponseClass(UserInfoRead) => ReadUserInfoResponse(vals[0].n, vals[1].bits)
    case RequestClass(ParameterWrite) => WriteParameterRequest(vals[0].n, vals[1].n, vals[2].bits)
    case ResponseClass(ParameterWrite) => WriteParameterResponse(vals[0].n, vals[1].n, vals[2].bits)
    case RequestClass(ParameterRead) => ReadParameterRequest(vals[0].n, vals[1].n)
    case ResponseClass(ParameterRead) => ReadParameterResponse(vals[0].n, vals[1].n, vals[2].bits)
    case NotificationClass => MessageNotification(vals[0].n, vals[1].n)
  }

  /** Whether every integer field lies in the range of its format character,
      written out per class: ids are u16, parts u8, the message value u32. */
  predicate InRange(s: Service)
  {
    match s
    case ReadUserInfoRequest(i) => 0 <= i < 0x1_0000
    case ReadUserInfoResponse(i, _) => 0 <= i < 0x1_0000
    case WriteParameterRequest(p, q, _) => 0 <= p < 0x1_0000 && 0 <= q < 0x100
    case WriteParameterResponse(p, q, _) => 0 <= p < 0x1_0000 && 0 <= q < 0x100
    case ReadParameterRequest(p, q) => 0 <= p < 0x1_0000 && 0 <= q < 0x100
    case ReadParameterResponse(p, q, _) => 0 <= p < 0x1_0000 && 0 <= q < 0x100
    case MessageNotification(m, v) => 0 <= m < 0x1_0000 && 0 <= v < 0x1_0000_0000
  }

  /** The wire width in bytes of each class's `PACK_FORMAT`. */
  function Width(c: ServiceClass): nat
  {
    match c
    case RequestClass(UserInfoRead) => 2
    case ResponseClass(UserInfoRead) => 6
    case RequestClass(ParameterWrite) => 7
    case ResponseClass(ParameterWrite) => 7
    case RequestClass(ParameterRead) => 3
    case ResponseClass(ParameterRead) => 7
    case NotificationClass => 6
  }

  /** The declared widths are what `struct.calcsize` gives for the layouts. */
  lemma FormatWidth(c: ServiceClass)
    ensures CalcSize(Format(c)) == Width(c)
  {
    var fmt := Format(c);
    var t1 := fmt[1..];
    assert CalcSize(fmt) == Size(fmt[0]) + CalcSize(t1);
    if t1 != [] {
      var t2 := t1[1..];
      assert CalcSize(t1) == Size(t1[0]) + CalcSize(t2);
      if t2 != [] {
        assert CalcSize(t2) == Size(t2[0]) + CalcSize(t2[1..]);
        assert t2[1..] == [];
      }
    }
  }

  /** `pack` accepts a service's fields exactly when they are in range. */
  lemma FieldsFit(s: Service)
    ensures AllFit(Format(ClassOf(s)), Fields(s)) <==> InRange(s)
  {
    Pow256Values();
    var fmt := Format(ClassOf(s));
    var vals := Fields(s);
    AllFitPointwise(fmt, vals);
    if InRange(s) {
      assert forall i :: 0 <= i < |fmt| ==> Fits(fmt[i], vals[i]);
    } else {
      assert !Fits(fmt[0], vals[0]) || !Fits(fmt[1], vals[1]);
    }
  }

  /** `bytes(service)`; `None` is the `struct.error` raised for a field out of range. */
  function Encode(s: Service): (r: Option<seq<Byte>>)
    ensures r.Some? <==> InRange(s)
    ensures r.Some? ==> |r.value| == Width(ClassOf(s)) <= 8
  {
    FormatWidth(ClassOf(s));
    FieldsFit(s);
    Pack(Format(ClassOf(s)), Fields(s))
  }

  /** `from_bytes` of a class: unpack exactly `Width(c)` bytes with the class
      layout and construct the service; `None` for any other length. */
  function Decode(c: ServiceClass, data: seq<Byte>): (r: Option<Service>)
    ensures r.Some? <==> |data| == Width(c)
    ensures r.Some? ==> ClassOf(r.value) == c && InRange(r.value)
  {
    FormatWidth(c);
    match Unpack(Format(c), data)
    case None => None
    case Some(vals) =>
      var s := Construct(c, vals);
      FieldsFit(s);
      Some(s)
  }

  /** Decoding an encoding with the encoder's class gives back the service:
      u16, u8 and u32 fields as numbers, float fields as the same four bytes. */
  lemma DecodeEncode(s: Service)
    requires InRange(s)
    ensures Decode(ClassOf(s), Encode(s).value) == Some(s)
  {
    var c := ClassOf(s);
    FieldsFit(s);
    UnpackPack(Format(c), Fields(s));
    var vals := Unpack(Format(c), Encode(s).value).value;
    assert Construct(c, vals) == s;
  }

  /** A decoded payload encodes back to the same bytes. */
  lemma EncodeDecode(c: ServiceClass, data: seq<Byte>)
    requires Decode(c, data).Some?
    ensures Encode(Decode(c, data).value) == Some(data)
  {
    PackUnpack(Format(c), data);
  }

  /** The request and the response of one kind share a service id; the four
      ids are pairwise distinct, so an id names at most one kind. */
  lemma ServiceIdsAgree(k: Kind, c: ServiceClass)
    ensures ServiceId(RequestClass(k)) == ServiceId(ResponseClass(k))
    ensures ServiceId(c) == ServiceId(ResponseClass(k)) <==> c == RequestClass(k) || c == ResponseClass(k)
  {
  }
}
