/** The client facade: it registers the four response/notification classes
    on a new node and offers one call per service, each a `wait_response`
    followed by a projection of the response. It catches nothing. */
module Client {
  import opened Common
  import opened Struct
  import opened Services
  import opened Errors
  import opened Identifier
  import opened Node
  import opened Correlation

  /** The classes `__enter__` registers, in registration order. */
  const ClientServices: seq<Handler> :=
    [ResponseClass(UserInfoRead), ResponseClass(ParameterWrite), ResponseClass(ParameterRead), NotificationClass]

  /** `__enter__`: a node at the client's source address with the four
      classes registered one after another (starting the receive thread is
      not modelled). */
  function Enter(sourceAddress: int): (n: Node)
    ensures n.address == sourceAddress && n.services == ClientServices
    ensures forall k :: n.slots.Get(k) == Slot(None, 0)
    ensures n.messages == [] && n.sent == []
  {
    var n := NewNode(sourceAddress);
    AddService(AddService(AddService(AddService(n, ResponseClass(UserInfoRead)),
      ResponseClass(ParameterWrite)), ResponseClass(ParameterRead)), NotificationClass)
  }

  /** The client's registry holds exactly four classes with service ids
      0, 2, 1 and 3 in that order, pairwise distinct, covering every
      response kind and message notification; a new client's node is well typed. */
  lemma ClientRegistry(sourceAddress: int)
    ensures var n := Enter(sourceAddress);
            && n.address == sourceAddress
            && |n.services| == 4
            && ServiceId(n.services[0]) == 0 && ServiceId(n.services[1]) == 2
            && ServiceId(n.services[2]) == 1 && ServiceId(n.services[3]) == 3
            && DistinctIds(n.services)
            && (forall k :: ResponseClass(k) in n.services)
            && NotificationClass in n.services
            && WellTyped(n)
            && n.messages == [] && n.sent == []
  {
    var n := Enter(sourceAddress);
    assert n.services == ClientServices;
    forall k ensures ResponseClass(k) in n.services {
      match k
      case UserInfoRead => assert n.services[0] == ResponseClass(k);
      case ParameterWrite => assert n.services[1] == ResponseClass(k);
      case ParameterRead => assert n.services[2] == ResponseClass(k);
    }
    assert n.services[3] == NotificationClass;
  }

  /** Every failure the facade can report; each is the exception Python
      raises, passed on unchanged. */
  datatype ClientError =
    | Timeout                           // `Timeout` from `wait_response`
    | PublicError(error: ProtocolError) // `StuCanPublicError` from the far end
    | PackError                         // `struct.error`: an argument out of range
    | AddressError                      // `AssertionError`: an address out of range
    | AttributeError                    // the slot read holds no response with the field

  /** The result of one facade call, with the node afterwards and the frames
      that arrived but were not handled before the caller woke. */
  datatype Call<T> = Call(node: Node, result: Result<T, ClientError>, pending: seq<RxFrame>)

  /** The exception a non-returning `wait_response` raises. */
  function Propagated(o: WaitOutcome): ClientError
    requires !o.Returned?
  {
    match o
    case Raised(e) => PublicError(e)
    case TimedOut => Timeout
    case NoResponse => AttributeError
    case SendFailed(StructError) => PackError
    case SendFailed(AssertionError) => AddressError
  }

  /** `read_user_info`: the response's `value`. On a well-typed node the
      call fails exactly when `wait_response` raises, and with the same
      exception; the same holds for the other two calls. */
  function ReadUserInfo(n: Node, destination: int, infoId: int, inbound: seq<RxFrame>): (c: Call<Float32>)
    ensures var w := WaitResponse(n, destination, ReadUserInfoRequest(infoId), inbound);
            && c.node == w.node && c.pending == w.pending
            && (WellTyped(n) ==> (c.result.Err? <==> !w.outcome.Returned?))
            && (!w.outcome.Returned? ==> c.result == Err(Propagated(w.outcome)))
            && (w.outcome.Returned? && w.outcome.response.ReadUserInfoResponse? ==> c.result == Ok(w.outcome.response.value))
  {
    var w := WaitResponse(n, destination, ReadUserInfoRequest(infoId), inbound);
    if !w.outcome.Returned? then Call(w.node, Err(Propagated(w.outcome)), w.pending)
    else if w.outcome.response.ReadUserInfoResponse? then Call(w.node, Ok(w.outcome.response.value), w.pending)
    else Call(w.node, Err(AttributeError), w.pending)
  }

  /** `write_parameter`: the response's `parameter_id`, not the value written. */
  function WriteParameter(n: Node, destination: int, parameterId: int, part: int, value: Float32, inbound: seq<RxFrame>): (c: Call<int>)
    ensures var w := WaitResponse(n, destination, WriteParameterRequest(parameterId, part, value), inbound);
            && c.node == w.node && c.pending == w.pending
            && (WellTyped(n) ==> (c.result.Err? <==> !w.outcome.Returned?))
            && (!w.outcome.Returned? ==> c.result == Err(Propagated(w.outcome)))
            && (w.outcome.Returned? && w.outcome.response.WriteParameterResponse? ==> c.result == Ok(w.outcome.response.parameterId))
  {
    var w := WaitResponse(n, destination, WriteParameterRequest(parameterId, part, value), inbound);
    if !w.outcome.Returned? then Call(w.node, Err(Propagated(w.outcome)), w.pending)
    else if w.outcome.response.WriteParameterResponse? then Call(w.node, Ok(w.outcome.response.parameterId), w.pending)
    else Call(w.node, Err(AttributeError), w.pending)
  }

  /** `read_parameter`: the response's `value`. */
  function ReadParameter(n: Node, destination: int, parameterId: int, part: int, inbound: seq<RxFrame>): (c: Call<Float32>)
    ensures var w := WaitResponse(n, destination, ReadParameterRequest(parameterId, part), inbound);
            && c.node == w.node && c.pending == w.pending
            && (WellTyped(n) ==> (c.result.Err? <==> !w.outcome.Returned?))
            && (!w.outcome.Returned? ==> c.result == Err(Propagated(w.outcome)))
            && (w.outcome.Returned? && w.outcome.response.ReadParameterResponse? ==> c.result == Ok(w.outcome.response.value))
  {
    var w := WaitResponse(n, destination, ReadParameterRequest(parameterId, part), inbound);
    if !w.outcome.Returned? then Call(w.node, Err(Propagated(w.outcome)), w.pending)
    else if w.outcome.response.ReadParameterResponse? then Call(w.node, Ok(w.outcome.response.value), w.pending)
    else Call(w.node, Err(AttributeError), w.pending)
  }

  /** `messages()` of the client: the node's log, unchanged. */
  function ClientMessages(n: Node): (r: seq<MessageRecord>)
    ensures r == n.messages
    ensures WellTyped(n) ==> forall i :: 0 <= i < |r| ==> LogTyped(r[i])
  {
    Messages(n)
  }

  /** A new client's `messages()` lists one record per message frame
      received since, in arrival order, whatever other frames arrive in
      between; error-flagged message frames give records with an empty
      message. */
  lemma ClientLogsMessages(sourceAddress: int, frames: seq<RxFrame>)
    ensures ClientMessages(Receive(Enter(sourceAddress), frames)) == LogEntries(sourceAddress, frames)
  {
    var n := Enter(sourceAddress);
    ClientListens(sourceAddress);
    ReceiveLogged(n, frames);
  }

  /** The client's registry routes message frames to a single class, and
      its log starts empty. */
  lemma ClientListens(sourceAddress: int)
    ensures DistinctIds(Enter(sourceAddress).services)
    ensures NotificationClass in Enter(sourceAddress).services
    ensures Enter(sourceAddress).messages == []
  {
    ClientRegistry(sourceAddress);
  }

  /** `write_parameter` answered by a matching response returns the
      parameter id the response carries, and the request on the bus carries
      the id, part and value written. */
  lemma WriteParameterReturnsId(n: Node, destination: int, parameterId: int, part: int, value: Float32, inbound: seq<RxFrame>)
    requires Sendable(n, destination, WriteParameterRequest(parameterId, part, value))
    requires DistinctIds(n.services) && ResponseClass(ParameterWrite) in n.services
    requires inbound != [] && IsResponseFrame(n, inbound[0], ParameterWrite)
    ensures var c := WriteParameter(n, destination, parameterId, part, value, inbound);
            && c.result == Ok(Carried(inbound[0], ParameterWrite).parameterId)
            && Services.Decode(RequestClass(ParameterWrite), c.node.sent[|n.sent|].data)
               == Some(WriteParameterRequest(parameterId, part, value))
  {
    AnsweredByResponse(n, destination, WriteParameterRequest(parameterId, part, value), inbound);
  }
}
