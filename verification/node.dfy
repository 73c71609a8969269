/** The public-protocol node: the receive path that routes frames to the
    service classes, the send path, and the request/response correlation
    through one slot per request kind.

    Threads are replaced by a sequential account: the frames the bus delivers
    while a caller waits are an explicit input, and "the condition was
    notified" is a boolean. All request classes share one condition variable,
    so a response of any kind whose count reaches zero wakes the waiter. */
module Node {
  import opened Common
  import opened Struct
  import opened Services
  import opened Errors
  import opened Identifier
  import opened Addresses

  /** What a response handler stores for its request kind. */
  datatype Stored = Answered(response: Service) | Failed(error: ProtocolError)

  /** The class attributes `response` and `response_count` of one request
      class; `response` is `None` until a response of that kind arrives. */
  datatype Slot = Slot(response: Option<Stored>, count: int)

  /** One slot per request kind. */
  datatype Slots = Slots(userInfo: Slot, parameterWrite: Slot, parameterRead: Slot)
  {
    function Get(k: Kind): Slot
    {
      match k
      case UserInfoRead => userInfo
      case ParameterWrite => parameterWrite
      case ParameterRead => parameterRead
    }

    function Set(k: Kind, s: Slot): (r: Slots)
      ensures r.Get(k) == s
      ensures forall j :: j != k ==> r.Get(j) == Get(j)
    {
      match k
      case UserInfoRead => this.(userInfo := s)
      case ParameterWrite => this.(parameterWrite := s)
      case ParameterRead => this.(parameterRead := s)
    }
  }

  const InitialSlots: Slots := Slots(Slot(None, 0), Slot(None, 0), Slot(None, 0))

  /** An entry of the message log: sender address and notification. An
      error-flagged message frame logs a notification whose fields are empty,
      written `None`. */
  datatype MessageRecord = MessageRecord(source: int, message: Option<Service>)

  /** A frame handed to the driver: identifier, payload, extended-id flag. */
  datatype TxFrame = TxFrame(identifier: nat, data: seq<Byte>, extended: bool)

  /** A frame delivered by the driver. */
  datatype RxFrame = RxFrame(identifier: nat, data: seq<Byte>)

  /** The node: its own address, the registered classes in registration
      order, the slots, the message log and every frame sent so far. */
  datatype Node = Node(address: int, services: seq<Handler>, slots: Slots,
                       messages: seq<MessageRecord>, sent: seq<TxFrame>)

  /** A fresh node, before any service is registered. */
  function NewNode(address: int): Node
  {
    Node(address, [], InitialSlots, [], [])
  }

  /** `add_service`: register one more class for the receive path. */
  function AddService(n: Node, c: Handler): Node
  {
    n.(services := n.services + [c])
  }

  /** Each slot holds only responses of its own kind, and the log only
      message notifications. */
  predicate WellTyped(n: Node)
  {
    && (forall k :: SlotTyped(n.slots.Get(k), k))
    && (forall i :: 0 <= i < |n.messages| ==> LogTyped(n.messages[i]))
  }

  predicate SlotTyped(s: Slot, k: Kind)
  {
    s.response.Some? && s.response.value.Answered? ==> ClassOf(s.response.value.response) == ResponseClass(k)
  }

  predicate LogTyped(m: MessageRecord)
  {
    m.message.Some? ==> m.message.value.MessageNotification?
  }

  /** Whether the node's destination filter lets a frame through. */
  predicate Accepts(n: Node, destination: int)
  {
    destination == n.address || destination == RCC_GROUP_DEVICE_ID
  }

  datatype Handled = Handled(slots: Slots, notified: bool)

  /** `Response.handle`: store the result in the kind's slot, decrement its
      count and notify only when the count becomes exactly zero. A late or
      repeated response still overwrites the slot and drives the count below
      zero, without a notification. */
  function ResponseHandle(slots: Slots, k: Kind, result: Stored): (h: Handled)
    ensures h.slots.Get(k).response == Some(result)
    ensures h.slots.Get(k).count == slots.Get(k).count - 1
    ensures h.notified <==> slots.Get(k).count == 1
    ensures forall j :: j != k ==> h.slots.Get(j) == slots.Get(j)
  {
    var s := Slot(Some(result), slots.Get(k).count - 1);
    Handled(slots.Set(k, s), s.count == 0)
  }

  /** `MessageNotification.handle`: append the record to the log. */
  function NotificationHandle(messages: seq<MessageRecord>, source: int, message: Option<Service>): (r: seq<MessageRecord>)
    ensures |r| == |messages| + 1
    ensures r[..|messages|] == messages
    ensures r[|messages|] == MessageRecord(source, message)
  {
    messages + [MessageRecord(source, message)]
  }

  /** One registered class handling a frame whose service id matched it:
      decode the payload (as an error when the error bit is set), then call
      the class's handler. `None` is the `struct.error` raised by a payload
      of the wrong length, before any handler runs. */
  function HandleWith(n: Node, c: Handler, source: int, error: bool, data: seq<Byte>): (r: Option<(Node, bool)>)
    ensures r.Some? <==> |data| == (if error then 6 else Width(c))
    ensures r.Some? ==> r.value.0 == n.(slots := r.value.0.slots, messages := r.value.0.messages)
    ensures r.Some? && c.NotificationClass? ==>
              r.value.0.slots == n.slots && !r.value.1
              && r.value.0.messages == n.messages + [MessageRecord(source, if error then None else Services.Decode(c, data))]
    ensures r.Some? && c.ResponseClass? ==> r.value.0.messages == n.messages
    ensures r.Some? && c.ResponseClass? ==>
              && r.value.0.slots.Get(c.kind).count == n.slots.Get(c.kind).count - 1
              && (r.value.1 <==> n.slots.Get(c.kind).count == 1)
              && (forall j :: j != c.kind ==> r.value.0.slots.Get(j) == n.slots.Get(j))
    ensures r.Some? && WellTyped(n) ==> WellTyped(r.value.0)
  {
    var result: Option<Stored> :=
      if error then
        match DecodeError(data)
        case None => None
        case Some(e) => Some(Failed(e))
      else
        match Services.Decode(c, data)
        case None => None
        case Some(s) => Some(Answered(s));
    match result
    case None => None
    case Some(stored) =>
      if c.NotificationClass? then
        var message := if stored.Answered? then Some(stored.response) else None;
        var m := NotificationHandle(n.messages, source, message);
        assert WellTyped(n) ==> forall i :: 0 <= i < |m| ==> LogTyped(m[i]) by {
          if WellTyped(n) {
            forall i | 0 <= i < |m| ensures LogTyped(m[i]) {
              if i < |n.messages| { assert m[i] == n.messages[i]; }
            }
          }
        }
        Some((n.(messages := m), false))
      else
        var h := ResponseHandle(n.slots, c.kind, stored);
        Some((n.(slots := h.slots), h.notified))
  }

  /** The outcome of one received frame: the new node state, whether the
      shared condition was notified, and whether decoding raised. */
  datatype Rx = Rx(node: Node, notified: bool, raised: bool)

  /** The loop over the registered classes: every class whose service id
      equals the frame's handles it, in registration order; an exception
      stops the loop, keeping what earlier handlers did. */
  function Dispatch(n: Node, classes: seq<Handler>, source: int, serviceId: int, error: bool, data: seq<Byte>): (r: Rx)
    ensures r.node == n.(slots := r.node.slots, messages := r.node.messages)
    ensures |n.messages| <= |r.node.messages| && r.node.messages[..|n.messages|] == n.messages
    ensures (forall i :: 0 <= i < |classes| ==> ServiceId(classes[i]) != serviceId) ==> r == Rx(n, false, false)
    ensures WellTyped(n) ==> WellTyped(r.node)
    decreases |classes|
  {
    if classes == [] then Rx(n, false, false)
    else if ServiceId(classes[0]) != serviceId then
      Dispatch(n, classes[1..], source, serviceId, error, data)
    else
      match HandleWith(n, classes[0], source, error, data)
      case None => Rx(n, false, true)
      case Some((n1, notified)) =>
        var rest := Dispatch(n1, classes[1..], source, serviceId, error, data);
        Rx(rest.node, notified || rest.notified, rest.raised)
  }

  /** `handle_rx_frame`: the destination filter, then the service-id lookup,
      then the error/success split inside the matching handler. A frame for
      another destination, or with an id no class is registered for, changes
      nothing. */
  function HandleRxFrame(n: Node, frame: RxFrame): (r: Rx)
    ensures r.node == n.(slots := r.node.slots, messages := r.node.messages)
    ensures |n.messages| <= |r.node.messages| && r.node.messages[..|n.messages|] == n.messages
    ensures !Accepts(n, Parse(frame.identifier).destination) ==> r == Rx(n, false, false)
    ensures (forall i :: 0 <= i < |n.services| ==> ServiceId(n.services[i]) != Parse(frame.identifier).serviceId)
            ==> r == Rx(n, false, false)
    ensures WellTyped(n) ==> WellTyped(r.node)
  {
    var p := Parse(frame.identifier);
    if !Accepts(n, p.destination) then Rx(n, false, false)
    else Dispatch(n, n.services, p.source, p.serviceId, p.error == 1, frame.data)
  }

  /** The receive loop with nobody waiting: frames handled one after another. */
  function Receive(n: Node, frames: seq<RxFrame>): (r: Node)
    ensures r == n.(slots := r.slots, messages := r.messages)
    ensures |n.messages| <= |r.messages| && r.messages[..|n.messages|] == n.messages
    ensures WellTyped(n) ==> WellTyped(r)
    decreases |frames|
  {
    if frames == [] then n else Receive(HandleRxFrame(n, frames[0]).node, frames[1..])
  }

  /** The registered classes have pairwise distinct service ids. */
  predicate DistinctIds(cs: seq<Handler>)
  {
    forall i, j :: 0 <= i < j < |cs| ==> ServiceId(cs[i]) != ServiceId(cs[j])
  }

  /** A frame handled by the class `c` alone. */
  function HandleAlone(n: Node, c: Handler, source: int, error: bool, data: seq<Byte>): Rx
  {
    match HandleWith(n, c, source, error, data)
    case None => Rx(n, false, true)
    case Some((n1, notified)) => Rx(n1, notified, false)
  }

  /** When exactly one registered class has the frame's service id, the
      loop amounts to that class's handler. */
  lemma {:induction false} DispatchUnique(n: Node, cs: seq<Handler>, i: nat, source: int, serviceId: int, error: bool, data: seq<Byte>)
    requires i < |cs| && ServiceId(cs[i]) == serviceId
    requires forall j :: 0 <= j < |cs| && j != i ==> ServiceId(cs[j]) != serviceId
    ensures Dispatch(n, cs, source, serviceId, error, data) == HandleAlone(n, cs[i], source, error, data)
  {
    if i == 0 {
      assert forall j :: 0 <= j < |cs[1..]| ==> ServiceId(cs[1..][j]) != serviceId by {
        forall j | 0 <= j < |cs[1..]| ensures ServiceId(cs[1..][j]) != serviceId {
          assert cs[1..][j] == cs[j + 1];
        }
      }
    } else {
      assert forall j :: 0 <= j < |cs[1..]| && j != i - 1 ==> ServiceId(cs[1..][j]) != serviceId by {
        forall j | 0 <= j < |cs[1..]| && j != i - 1 ensures ServiceId(cs[1..][j]) != serviceId {
          assert cs[1..][j] == cs[j + 1];
        }
      }
      DispatchUnique(n, cs[1..], i - 1, source, serviceId, error, data);
    }
  }

  /** The receive path for a frame that passes the filter and whose service
      id belongs to the registered class `c`, in a registry of distinct ids. */
  lemma RouteTo(n: Node, frame: RxFrame, c: Handler)
    requires DistinctIds(n.services) && c in n.services
    requires Accepts(n, Parse(frame.identifier).destination)
    requires Parse(frame.identifier).serviceId == ServiceId(c)
    ensures HandleRxFrame(n, frame)
         == HandleAlone(n, c, Parse(frame.identifier).source, Parse(frame.identifier).error == 1, frame.data)
  {
    var i :| 0 <= i < |n.services| && n.services[i] == c;
    var p := Parse(frame.identifier);
    forall j | 0 <= j < |n.services| && j != i ensures ServiceId(n.services[j]) != p.serviceId {
      if j < i { assert ServiceId(n.services[j]) != ServiceId(n.services[i]); }
      else { assert ServiceId(n.services[i]) != ServiceId(n.services[j]); }
    }
    DispatchUnique(n, n.services, i, p.source, p.serviceId, p.error == 1, frame.data);
  }

  /** A success frame for a response kind stores the decoded response in
      that kind's slot, decrements its count and notifies only when the count
      reaches zero; other slots and the log are untouched. */
  lemma ReceiveResponse(n: Node, frame: RxFrame, k: Kind)
    requires DistinctIds(n.services) && ResponseClass(k) in n.services
    requires Accepts(n, Parse(frame.identifier).destination)
    requires Parse(frame.identifier).serviceId == ServiceId(ResponseClass(k))
    requires Parse(frame.identifier).error == 0
    requires |frame.data| == Width(ResponseClass(k))
    ensures var r := HandleRxFrame(n, frame);
            && !r.raised
            && r.node.slots.Get(k) == Slot(Some(Answered(Services.Decode(ResponseClass(k), frame.data).value)),
                                           n.slots.Get(k).count - 1)
            && (r.notified <==> n.slots.Get(k).count == 1)
            && (forall j :: j != k ==> r.node.slots.Get(j) == n.slots.Get(j))
            && r.node.messages == n.messages
  {
    RouteTo(n, frame, ResponseClass(k));
  }

  /** An error frame for a response kind stores the decoded protocol error in
      the slot picked by the frame's service id, whatever service id the
      payload names; the error's label comes from the table. */
  lemma ReceiveError(n: Node, frame: RxFrame, k: Kind, id: int, code: int)
    requires DistinctIds(n.services) && ResponseClass(k) in n.services
    requires Accepts(n, Parse(frame.identifier).destination)
    requires Parse(frame.identifier).serviceId == ServiceId(ResponseClass(k))
    requires Parse(frame.identifier).error == 1
    requires 0 <= id < 0x1_0000 && 0 <= code < 0x1_0000_0000
    requires frame.data == EncodeError(id, code)
    ensures var r := HandleRxFrame(n, frame);
            && !r.raised
            && r.node.slots.Get(k) == Slot(Some(Failed(ProtocolError(id, code, Category(code)))),
                                           n.slots.Get(k).count - 1)
            && (r.notified <==> n.slots.Get(k).count == 1)
            && (forall j :: j != k ==> r.node.slots.Get(j) == n.slots.Get(j))
            && r.node.messages == n.messages
  {
    DecodeEncodeError(id, code);
    RouteTo(n, frame, ResponseClass(k));
  }

  /** A message frame appends `(source, message)` to the end of the log and
      touches no slot; when its error bit is set the logged message is empty. */
  lemma ReceiveNotification(n: Node, frame: RxFrame)
    requires DistinctIds(n.services) && NotificationClass in n.services
    requires Accepts(n, Parse(frame.identifier).destination)
    requires Parse(frame.identifier).serviceId == ServiceId(NotificationClass)
    requires |frame.data| == 6
    ensures var p, r := Parse(frame.identifier), HandleRxFrame(n, frame);
            && !r.raised && !r.notified
            && r.node.slots == n.slots
            && r.node.messages == n.messages
               + [MessageRecord(p.source, if p.error == 1 then None else Services.Decode(NotificationClass, frame.data))]
  {
    RouteTo(n, frame, NotificationClass);
  }

  /** A payload of the wrong length for a registered class raises before any
      handler runs, so nothing changes. */
  lemma ReceiveMalformed(n: Node, frame: RxFrame, c: Handler)
    requires DistinctIds(n.services) && c in n.services
    requires Accepts(n, Parse(frame.identifier).destination)
    requires Parse(frame.identifier).serviceId == ServiceId(c)
    requires |frame.data| != (if Parse(frame.identifier).error == 1 then 6 else Width(c))
    ensures HandleRxFrame(n, frame) == Rx(n, false, true)
  {
    RouteTo(n, frame, c);
  }

  /** The record a well-formed message frame adds to the log. */
  function RecordOf(frame: RxFrame): MessageRecord
  {
    MessageRecord(Parse(frame.identifier).source, Services.Decode(NotificationClass, frame.data))
  }

  /** A frame the node accepts as a well-formed, error-free message notification. */
  predicate IsMessageFrame(n: Node, frame: RxFrame)
  {
    && Accepts(n, Parse(frame.identifier).destination)
    && Parse(frame.identifier).serviceId == ServiceId(NotificationClass)
    && Parse(frame.identifier).error == 0
    && |frame.data| == 6
  }

  function Records(frames: seq<RxFrame>): (r: seq<MessageRecord>)
    ensures |r| == |frames|
  {
    if frames == [] then [] else [RecordOf(frames[0])] + Records(frames[1..])
  }

  /** On a run of well-formed message frames, the general log entries are
      one record per frame. */
  lemma {:induction false} EntriesAreRecords(n: Node, frames: seq<RxFrame>)
    requires forall i :: 0 <= i < |frames| ==> IsMessageFrame(n, frames[i])
    ensures LogEntries(n.address, frames) == Records(frames)
    decreases |frames|
  {
    if frames != [] {
      assert IsMessageFrame(n, frames[0]);
      EntriesAreRecords(n, frames[1..]);
    }
  }

  /** Message notifications accumulate in arrival order and leave every slot
      alone; the log part is the message-only case of `ReceiveLogged`. */
  lemma {:induction false} MessagesInArrivalOrder(n: Node, frames: seq<RxFrame>)
    requires DistinctIds(n.services) && NotificationClass in n.services
    requires forall i :: 0 <= i < |frames| ==> IsMessageFrame(n, frames[i])
    ensures Receive(n, frames).messages == n.messages + Records(frames)
    ensures Receive(n, frames).slots == n.slots
    decreases |frames|
  {
    ReceiveLogged(n, frames);
    EntriesAreRecords(n, frames);
    if frames != [] {
      var n1 := HandleRxFrame(n, frames[0]).node;
      MessageStep(n, frames[0]);
      MessageFramesStay(n, n1, frames[1..]);
      MessagesInArrivalOrder(n1, frames[1..]);
    }
  }

  /** What one frame adds to the log of a node at `address` that has
      message notification registered: one record for an accepted service-3
      frame of 6 bytes, with an empty message when its error flag is set,
      and nothing for any other frame. */
  function LogEntry(address: int, frame: RxFrame): seq<MessageRecord>
  {
    var p := Parse(frame.identifier);
    if (p.destination == address || p.destination == RCC_GROUP_DEVICE_ID)
       && p.serviceId == ServiceId(NotificationClass) && |frame.data| == 6
    then [MessageRecord(p.source, if p.error == 1 then None else Services.Decode(NotificationClass, frame.data))]
    else []
  }

  /** What a sequence of frames adds to the log, frame by frame. */
  function LogEntries(address: int, frames: seq<RxFrame>): seq<MessageRecord>
  {
    if frames == [] then [] else LogEntry(address, frames[0]) + LogEntries(address, frames[1..])
  }

  /** Any frame (response, error reply, message, malformed or foreign) adds
      exactly its log entry to the end of the log. */
  lemma FrameLogged(n: Node, frame: RxFrame)
    requires DistinctIds(n.services) && NotificationClass in n.services
    ensures HandleRxFrame(n, frame).node.messages == n.messages + LogEntry(n.address, frame)
    ensures HandleRxFrame(n, frame).node.address == n.address
    ensures HandleRxFrame(n, frame).node.services == n.services
  {
    var p := Parse(frame.identifier);
    if Accepts(n, p.destination) {
      if p.serviceId == ServiceId(NotificationClass) {
        if |frame.data| == 6 {
          ReceiveNotification(n, frame);
        } else {
          ReceiveMalformed(n, frame, NotificationClass);
        }
      } else if exists i :: 0 <= i < |n.services| && ServiceId(n.services[i]) == p.serviceId {
        var i :| 0 <= i < |n.services| && ServiceId(n.services[i]) == p.serviceId;
        RouteTo(n, frame, n.services[i]);
      }
    }
    assert n.messages + [] == n.messages;
  }

  /** Whatever mix of frames arrives, the log grows by exactly the entries of
      the message frames among them, in arrival order. */
  lemma {:induction false} ReceiveLogged(n: Node, frames: seq<RxFrame>)
    requires DistinctIds(n.services) && NotificationClass in n.services
    ensures Receive(n, frames).messages == n.messages + LogEntries(n.address, frames)
    decreases |frames|
  {
    if frames != [] {
      FrameLogged(n, frames[0]);
      ReceiveLogged(HandleRxFrame(n, frames[0]).node, frames[1..]);
      AppendAssociative(n.messages, LogEntry(n.address, frames[0]), LogEntries(n.address, frames[1..]));
    }
  }

  /** Regrouping the log after one more entry; stated apart so the
      induction step of `ReceiveLogged` stays small. */
  lemma AppendAssociative(a: seq<MessageRecord>, b: seq<MessageRecord>, c: seq<MessageRecord>)
    ensures (a + b) + c == a + (b + c)
  {
  }

  lemma MessageStep(n: Node, frame: RxFrame)
    requires DistinctIds(n.services) && NotificationClass in n.services
    requires IsMessageFrame(n, frame)
    ensures HandleRxFrame(n, frame).node.address == n.address
    ensures HandleRxFrame(n, frame).node.services == n.services
    ensures HandleRxFrame(n, frame).node.slots == n.slots
    ensures HandleRxFrame(n, frame).node.messages == n.messages + [RecordOf(frame)]
  {
    ReceiveNotification(n, frame);
  }

  lemma MessageFramesStay(n: Node, n1: Node, frames: seq<RxFrame>)
    requires n1.address == n.address
    requires forall i :: 0 <= i < |frames| ==> IsMessageFrame(n, frames[i])
    ensures forall i :: 0 <= i < |frames| ==> IsMessageFrame(n1, frames[i])
  {
  }

  // ---------------------------------------------------------------- sending

  /** Why a send raised: `struct.error` from packing, or a failed assertion
      on the service id or an address. */
  datatype SendError = StructError | AssertionError

  /** `send_from`: build the identifier (rejecting out-of-range fields) and
      hand the frame to the driver as an extended frame. */
  function SendFrom(n: Node, serviceId: int, destination: int, source: int, data: seq<Byte>): (r: Result<Node, SendError>)
    ensures r.Ok? <==> ValidServiceId(serviceId) && ValidAddress(destination) && ValidAddress(source)
    ensures r.Err? ==> r.error == AssertionError
    ensures r.Ok? ==> r.value == n.(sent := r.value.sent)
    ensures r.Ok? ==> |r.value.sent| == |n.sent| + 1 && r.value.sent[..|n.sent|] == n.sent
    ensures r.Ok? ==> var f := r.value.sent[|n.sent|];
                      && f.data == data && f.extended && f.identifier < IDENTIFIER_LIMIT
                      && Parse(f.identifier) == Parts(destination, source, serviceId, 0, 0)
  {
    match Build(destination, source, serviceId)
    case None => Err(AssertionError)
    case Some(id) =>
      ParseBuild(destination, source, serviceId);
      Ok(n.(sent := n.sent + [TxFrame(id, data, true)]))
  }

  /** `send_service`: encode the service (at most 8 bytes) and send it from
      the node's own address. The frame sent decodes back to the service. */
  function SendService(n: Node, address: int, s: Service): (r: Result<Node, SendError>)
    ensures r.Err? <==> !InRange(s) || !ValidAddress(address) || !ValidAddress(n.address)
    ensures r.Err? ==> (r.error == StructError <==> !InRange(s))
    ensures r.Ok? ==> r.value == n.(sent := r.value.sent)
    ensures r.Ok? ==> |r.value.sent| == |n.sent| + 1 && r.value.sent[..|n.sent|] == n.sent
    ensures r.Ok? ==> var f := r.value.sent[|n.sent|];
                      && |f.data| <= 8 && f.extended && f.identifier < IDENTIFIER_LIMIT
                      && Services.Decode(ClassOf(s), f.data) == Some(s)
                      && Parse(f.identifier) == Parts(address, n.address, ServiceId(ClassOf(s)), 0, 0)
  {
    match Services.Encode(s)
    case None => Err(StructError)
    case Some(data) =>
      DecodeEncode(s);
      SendFrom(n, ServiceId(ClassOf(s)), address, n.address, data)
  }

  // ------------------------------------------------------------ correlation

  /** The request kind whose slot a request uses. */
  function KindOf(r: Request): Kind
  {
    match r
    case ReadUserInfoRequest(_) => UserInfoRead
    case WriteParameterRequest(_, _, _) => ParameterWrite
    case ReadParameterRequest(_, _) => ParameterRead
  }

  datatype Woken = Woken(node: Node, woke: bool, rest: seq<RxFrame>)

  /** `cv.wait(timeout)`: the frames delivered before the timeout are handled
      in order until one notifies; `rest` are the frames not yet handled. */
  function Await(n: Node, inbound: seq<RxFrame>): (w: Woken)
    ensures w.node == n.(slots := w.node.slots, messages := w.node.messages)
    ensures |n.messages| <= |w.node.messages| && w.node.messages[..|n.messages|] == n.messages
    ensures !w.woke ==> w.rest == [] && w.node == Receive(n, inbound)
    ensures |w.rest| <= |inbound| && w.rest == inbound[|inbound| - |w.rest|..]
    ensures WellTyped(n) ==> WellTyped(w.node)
    decreases |inbound|
  {
    if inbound == [] then Woken(n, false, [])
    else
      var rx := HandleRxFrame(n, inbound[0]);
      if rx.notified then Woken(rx.node, true, inbound[1..])
      else Await(rx.node, inbound[1..])
  }

  /** Whether the frame at position `i` notifies when it is handled after
      the frames before it. */
  predicate NotifiesAt(n: Node, inbound: seq<RxFrame>, i: nat)
    requires i < |inbound|
  {
    HandleRxFrame(Receive(n, inbound[..i]), inbound[i]).notified
  }

  /** Handling a prefix one frame longer is handling the first frame, then
      the rest of the prefix. */
  lemma ReceivePrefixShift(n: Node, s: seq<RxFrame>, i: nat)
    requires i < |s|
    ensures Receive(n, s[..i + 1]) == Receive(HandleRxFrame(n, s[0]).node, s[1..][..i])
  {
    assert s[..i + 1][0] == s[0];
    assert s[..i + 1][1..] == s[1..][..i];
  }

  /** Whether a frame notifies, seen from the first frame's successor. */
  lemma NotifiesShift(n: Node, inbound: seq<RxFrame>)
    requires inbound != []
    ensures NotifiesAt(n, inbound, 0) == HandleRxFrame(n, inbound[0]).notified
    ensures forall i :: 0 <= i < |inbound| - 1 ==>
              NotifiesAt(n, inbound, i + 1) == NotifiesAt(HandleRxFrame(n, inbound[0]).node, inbound[1..], i)
  {
    assert inbound[..0] == [];
    forall i | 0 <= i < |inbound| - 1
      ensures Receive(n, inbound[..i + 1]) == Receive(HandleRxFrame(n, inbound[0]).node, inbound[1..][..i])
    {
      ReceivePrefixShift(n, inbound, i);
    }
  }

  /** The state after a frame, seen from the first frame's successor. */
  lemma NodeShift(n: Node, inbound: seq<RxFrame>, i: nat)
    requires i + 1 < |inbound|
    ensures HandleRxFrame(Receive(n, inbound[..i + 1]), inbound[i + 1]).node
            == HandleRxFrame(Receive(HandleRxFrame(n, inbound[0]).node, inbound[1..][..i]), inbound[1..][i]).node
  {
    ReceivePrefixShift(n, inbound, i);
  }

  /** The wait wakes exactly when some frame notifies. */
  lemma {:induction false} AwaitWakesIffNotified(n: Node, inbound: seq<RxFrame>)
    ensures Await(n, inbound).woke <==> exists i :: 0 <= i < |inbound| && NotifiesAt(n, inbound, i)
    decreases |inbound|
  {
    if inbound != [] {
      var rx := HandleRxFrame(n, inbound[0]);
      NotifiesShift(n, inbound);
      if !rx.notified {
        var tail := inbound[1..];
        AwaitWakesIffNotified(rx.node, tail);
        if exists i :: 0 <= i < |inbound| && NotifiesAt(n, inbound, i) {
          var i :| 0 <= i < |inbound| && NotifiesAt(n, inbound, i);
          assert NotifiesAt(rx.node, tail, i - 1);
        }
        if exists i :: 0 <= i < |tail| && NotifiesAt(rx.node, tail, i) {
          var i :| 0 <= i < |tail| && NotifiesAt(rx.node, tail, i);
          assert NotifiesAt(n, inbound, i + 1);
        }
      }
    }
  }

  /** Frames quiet for the first frame's successor, after a quiet first
      frame, are quiet for the node itself. */
  lemma QuietPrefixShift(n: Node, inbound: seq<RxFrame>, i: nat)
    requires i + 1 < |inbound| && !HandleRxFrame(n, inbound[0]).notified
    requires NotifiesAt(HandleRxFrame(n, inbound[0]).node, inbound[1..], i)
    requires forall j :: 0 <= j < i ==> !NotifiesAt(HandleRxFrame(n, inbound[0]).node, inbound[1..], j)
    ensures NotifiesAt(n, inbound, i + 1)
    ensures forall j :: 0 <= j < i + 1 ==> !NotifiesAt(n, inbound, j)
  {
    NotifiesShift(n, inbound);
    forall j | 0 <= j < i + 1 ensures !NotifiesAt(n, inbound, j) {
      if j > 0 { assert !NotifiesAt(HandleRxFrame(n, inbound[0]).node, inbound[1..], j - 1); }
    }
  }

  /** A wait that wakes does so on the first notifying frame. */
  lemma {:induction false} AwaitStopsAtFirst(n: Node, inbound: seq<RxFrame>)
    ensures var w := Await(n, inbound);
            w.woke ==>
              var i := |inbound| - |w.rest| - 1;
              && 0 <= i < |inbound| && NotifiesAt(n, inbound, i)
              && (forall j :: 0 <= j < i ==> !NotifiesAt(n, inbound, j))
    decreases |inbound|
  {
    if inbound != [] {
      var rx := HandleRxFrame(n, inbound[0]);
      if rx.notified {
        assert inbound[..0] == [];
      } else {
        var tail := inbound[1..];
        AwaitStopsAtFirst(rx.node, tail);
        var w := Await(rx.node, tail);
        if w.woke {
          QuietPrefixShift(n, inbound, |tail| - |w.rest| - 1);
        }
      }
    }
  }

  /** A wait that wakes leaves the node as it is right after the frame that
      woke it. */
  lemma {:induction false} AwaitNodeAtWake(n: Node, inbound: seq<RxFrame>)
    ensures var w := Await(n, inbound);
            w.woke ==>
              var i := |inbound| - |w.rest| - 1;
              && 0 <= i < |inbound|
              && w.node == HandleRxFrame(Receive(n, inbound[..i]), inbound[i]).node
    decreases |inbound|
  {
    if inbound != [] {
      var rx := HandleRxFrame(n, inbound[0]);
      if rx.notified {
        assert inbound[..0] == [];
      } else {
        var tail := inbound[1..];
        AwaitNodeAtWake(rx.node, tail);
        var w := Await(rx.node, tail);
        if w.woke {
          NodeShift(n, inbound, |tail| - |w.rest| - 1);
        }
      }
    }
  }

  /** A wait that wakes does so on the first notifying frame: the node is
      the state right after that frame and the frames after it stay pending. */
  lemma AwaitWakesAtFirst(n: Node, inbound: seq<RxFrame>)
    ensures var w := Await(n, inbound);
            w.woke ==>
              var i := |inbound| - |w.rest| - 1;
              && 0 <= i < |inbound| && NotifiesAt(n, inbound, i)
              && (forall j :: 0 <= j < i ==> !NotifiesAt(n, inbound, j))
              && w.node == HandleRxFrame(Receive(n, inbound[..i]), inbound[i]).node
  {
    AwaitStopsAtFirst(n, inbound);
    AwaitNodeAtWake(n, inbound);
  }

  /** Handling a prefix one frame longer is handling one more frame at its end. */
  lemma {:induction false} ReceiveSnoc(n: Node, s: seq<RxFrame>, i: nat)
    requires i < |s|
    ensures Receive(n, s[..i + 1]) == HandleRxFrame(Receive(n, s[..i]), s[i]).node
    decreases i
  {
    var n1 := HandleRxFrame(n, s[0]).node;
    ReceivePrefixShift(n, s, i);
    if i == 0 {
      assert s[1..][..0] == [] && s[..0] == [];
    } else {
      var t := s[1..];
      ReceiveSnoc(n1, t, i - 1);
      ReceivePrefixShift(n, s, i - 1);
      assert t[i - 1] == s[i];
      assert Receive(n, s[..i]) == Receive(n1, t[..i - 1]);
    }
  }

  /** With distinct service ids, a frame that does not notify leaves a slot
      whose count is 1 as it was: any handler of that kind would have
      brought the count to zero and notified. */
  lemma QuietFrameKeepsSlot(x: Node, f: RxFrame, k: Kind)
    requires DistinctIds(x.services)
    requires x.slots.Get(k).count == 1
    requires !HandleRxFrame(x, f).notified
    ensures HandleRxFrame(x, f).node.slots.Get(k) == x.slots.Get(k)
  {
    var p := Parse(f.identifier);
    if Accepts(x, p.destination) && exists i :: 0 <= i < |x.services| && ServiceId(x.services[i]) == p.serviceId {
      var i :| 0 <= i < |x.services| && ServiceId(x.services[i]) == p.serviceId;
      RouteTo(x, f, x.services[i]);
    }
  }

  /** While no frame notifies, a slot whose count is 1 stays as it was. */
  lemma {:induction false} QuietFramesKeepSlot(n: Node, inbound: seq<RxFrame>, i: nat, k: Kind)
    requires DistinctIds(n.services) && n.slots.Get(k).count == 1
    requires i <= |inbound|
    requires forall j :: 0 <= j < i ==> !NotifiesAt(n, inbound, j)
    ensures Receive(n, inbound[..i]).slots.Get(k) == n.slots.Get(k)
    decreases i
  {
    if i == 0 {
      assert inbound[..0] == [];
    } else {
      QuietFramesKeepSlot(n, inbound, i - 1, k);
      var x := Receive(n, inbound[..i - 1]);
      ReceiveSnoc(n, inbound, i - 1);
      assert !NotifiesAt(n, inbound, i - 1);
      QuietFrameKeepsSlot(x, inbound[i - 1], k);
    }
  }

  /** How `wait_response` ends. */
  datatype WaitOutcome =
    | Returned(response: Service)    // the stored response is returned
    | Raised(error: ProtocolError)   // the stored `StuCanPublicError` is raised
    | TimedOut                       // `Timeout` is raised
    | NoResponse                     // woken, but the kind's slot was never written
    | SendFailed(reason: SendError)  // sending the request raised

  datatype Waited = Waited(node: Node, outcome: WaitOutcome, pending: seq<RxFrame>)

  /** The first step of `wait_response`: the kind's count is set to 1,
      whatever it was; the stored response is kept. */
  function Begin(n: Node, k: Kind): (r: Node)
    ensures r.address == n.address && r.services == n.services
    ensures r.messages == n.messages && r.sent == n.sent
    ensures r.slots.Get(k) == Slot(n.slots.Get(k).response, 1)
    ensures forall j :: j != k ==> r.slots.Get(j) == n.slots.Get(j)
    ensures WellTyped(n) ==> WellTyped(r)
  {
    var r := n.(slots := n.slots.Set(k, n.slots.Get(k).(count := 1)));
    assert WellTyped(n) ==> WellTyped(r) by {
      if WellTyped(n) {
        forall j ensures SlotTyped(r.slots.Get(j), j) {
          assert SlotTyped(n.slots.Get(j), j);
        }
      }
    }
    r
  }

  /** The last step of `wait_response`: without a notification, `Timeout`;
      otherwise the kind's slot decides. */
  function Finish(a: Woken, k: Kind): (w: Waited)
    ensures w.node == a.node
    ensures !a.woke <==> w.outcome == TimedOut
    ensures w.pending == a.rest
    ensures w.outcome.Raised? ==> a.node.slots.Get(k).response == Some(Failed(w.outcome.error))
    ensures w.outcome.Returned? ==> a.node.slots.Get(k).response == Some(Answered(w.outcome.response))
    ensures w.outcome.NoResponse? <==> a.woke && a.node.slots.Get(k).response == None
    ensures !w.outcome.SendFailed?
  {
    if !a.woke then Waited(a.node, TimedOut, a.rest)
    else
      match a.node.slots.Get(k).response
      case None => Waited(a.node, NoResponse, a.rest)
      case Some(Failed(e)) => Waited(a.node, Raised(e), a.rest)
      case Some(Answered(s)) => Waited(a.node, Returned(s), a.rest)
  }

  /** `wait_response`: set the kind's count to 1, send the request, wait for a
      notification, then read the kind's slot: a stored error is raised, a
      stored response returned. No notification means `Timeout`. */
  function WaitResponse(n: Node, address: int, request: Request, inbound: seq<RxFrame>): (w: Waited)
    ensures w.node.address == n.address && w.node.services == n.services
    ensures |n.messages| <= |w.node.messages| && w.node.messages[..|n.messages|] == n.messages
    ensures w.outcome.SendFailed? <==> !InRange(request) || !ValidAddress(address) || !ValidAddress(n.address)
    ensures w.outcome.SendFailed? ==> (w.outcome.reason == StructError <==> !InRange(request))
    ensures w.outcome.SendFailed? ==> w.node.slots == n.slots.Set(KindOf(request), n.slots.Get(KindOf(request)).(count := 1))
                                       && w.node.sent == n.sent && w.pending == inbound
    ensures !w.outcome.SendFailed? ==>
              && |w.node.sent| == |n.sent| + 1 && w.node.sent[..|n.sent|] == n.sent
              && Services.Decode(ClassOf(request), w.node.sent[|n.sent|].data) == Some(request)
              && w.node.sent[|n.sent|].identifier < IDENTIFIER_LIMIT && w.node.sent[|n.sent|].extended
              && Parse(w.node.sent[|n.sent|].identifier) == Parts(address, n.address, ServiceId(ClassOf(request)), 0, 0)
    ensures w.outcome.TimedOut? ==> w.pending == []
    ensures w.outcome.Raised? ==> w.node.slots.Get(KindOf(request)).response == Some(Failed(w.outcome.error))
    ensures w.outcome.Returned? ==> w.node.slots.Get(KindOf(request)).response == Some(Answered(w.outcome.response))
    ensures w.outcome.NoResponse? ==> w.node.slots.Get(KindOf(request)).response == None
    ensures WellTyped(n) ==> WellTyped(w.node)
    ensures WellTyped(n) && w.outcome.Returned? ==> ClassOf(w.outcome.response) == ResponseClass(KindOf(request))
  {
    assert WellTyped(n) ==> SlotTyped(n.slots.Get(KindOf(request)), KindOf(request));
    var k := KindOf(request);
    var n1 := Begin(n, k);
    match SendService(n1, address, request)
    case Err(e) => Waited(n1, SendFailed(e), inbound)
    case Ok(n2) => Finish(Await(n2, inbound), k)
  }

  /** `messages()`: the whole log, oldest first. */
  function Messages(n: Node): (r: seq<MessageRecord>)
    ensures |r| == |n.messages|
    ensures WellTyped(n) ==> forall i :: 0 <= i < |r| ==> LogTyped(r[i])
  {
    n.messages
  }

  /** After frames arrive, `messages()` is the earlier log followed by the
      entries of the message frames among them, in arrival order. */
  lemma {:induction false} MessagesAfter(n: Node, frames: seq<RxFrame>)
    requires DistinctIds(n.services) && NotificationClass in n.services
    ensures Messages(Receive(n, frames)) == Messages(n) + LogEntries(n.address, frames)
  {
    ReceiveLogged(n, frames);
  }
}
