/** What `wait_response` delivers for the frames that arrive while it waits,
    including the consequences of one slot per kind and of the condition
    variable shared by all request kinds. */
module Correlation {
  import opened Common
  import opened Services
  import opened Errors
  import opened Identifier
  import opened Node

  /** Whether sending `request` to `address` from `n` gets past packing and
      the address assertions. */
  predicate Sendable(n: Node, address: int, request: Request)
  {
    InRange(request) && ValidAddress(address) && ValidAddress(n.address)
  }

  /** A frame the node accepts as a well-formed success response of kind `k`. */
  predicate IsResponseFrame(n: Node, frame: RxFrame, k: Kind)
  {
    && Accepts(n, Parse(frame.identifier).destination)
    && Parse(frame.identifier).serviceId == ServiceId(ResponseClass(k))
    && Parse(frame.identifier).error == 0
    && |frame.data| == Width(ResponseClass(k))
  }

  /** The response a well-formed response frame carries. */
  function Carried(frame: RxFrame, k: Kind): Service
    requires |frame.data| == Width(ResponseClass(k))
  {
    Services.Decode(ResponseClass(k), frame.data).value
  }

  /** The node while the caller waits: the kind's count set to 1 and the
      request on the bus; the log and the other slots are as before. */
  function Posted(n: Node, address: int, request: Request): (m: Node)
    requires Sendable(n, address, request)
    ensures m.address == n.address && m.services == n.services && m.messages == n.messages
    ensures m.slots.Get(KindOf(request)) == Slot(n.slots.Get(KindOf(request)).response, 1)
    ensures forall j :: j != KindOf(request) ==> m.slots.Get(j) == n.slots.Get(j)
  {
    SendService(Begin(n, KindOf(request)), address, request).value
  }

  /** A sent request times out exactly when no frame delivered during the
      wait notifies. */
  lemma WaitTimesOutIffQuiet(n: Node, address: int, request: Request, inbound: seq<RxFrame>)
    requires Sendable(n, address, request)
    ensures WaitResponse(n, address, request, inbound).outcome == TimedOut
        <==> forall i :: 0 <= i < |inbound| ==> !NotifiesAt(Posted(n, address, request), inbound, i)
  {
    AwaitWakesIffNotified(Posted(n, address, request), inbound);
  }

  /** A wait ends on the first notifying frame: the node is the state right
      after it, and the frames after it are left pending. */
  lemma WaitEndsAtFirstNotification(n: Node, address: int, request: Request, inbound: seq<RxFrame>, i: nat)
    requires Sendable(n, address, request)
    requires i < |inbound| && NotifiesAt(Posted(n, address, request), inbound, i)
    requires forall j :: 0 <= j < i ==> !NotifiesAt(Posted(n, address, request), inbound, j)
    ensures var w := WaitResponse(n, address, request, inbound);
            && w.outcome != TimedOut
            && w.pending == inbound[i + 1..]
            && w.node == HandleRxFrame(Receive(Posted(n, address, request), inbound[..i]), inbound[i]).node
  {
    var m := Posted(n, address, request);
    AwaitWakesIffNotified(m, inbound);
    AwaitWakesAtFirst(m, inbound);
    var a := Await(m, inbound);
    var i0 := |inbound| - |a.rest| - 1;
    assert i0 == i;
  }

  /** A matching success response preceded only by frames that do not
      notify (messages, foreign frames, malformed frames, responses of other
      kinds) answers the call with exactly that response. */
  lemma AnsweredAfterQuietFrames(n: Node, address: int, request: Request, inbound: seq<RxFrame>, i: nat)
    requires Sendable(n, address, request)
    requires DistinctIds(n.services) && ResponseClass(KindOf(request)) in n.services
    requires i < |inbound| && IsResponseFrame(n, inbound[i], KindOf(request))
    requires forall j :: 0 <= j < i ==> !NotifiesAt(Posted(n, address, request), inbound, j)
    ensures var w := WaitResponse(n, address, request, inbound);
            && w.outcome == Returned(Carried(inbound[i], KindOf(request)))
            && w.pending == inbound[i + 1..]
  {
    var k := KindOf(request);
    var m := Posted(n, address, request);
    QuietFramesKeepSlot(m, inbound, i, k);
    var x := Receive(m, inbound[..i]);
    ReceiveResponse(x, inbound[i], k);
    assert NotifiesAt(m, inbound, i);
    WaitEndsAtFirstNotification(n, address, request, inbound, i);
  }

  /** A matching error reply preceded only by frames that do not notify
      makes the call raise the protocol error that reply carries. */
  lemma RaisedAfterQuietFrames(n: Node, address: int, request: Request, inbound: seq<RxFrame>, i: nat, id: int, code: int)
    requires Sendable(n, address, request)
    requires DistinctIds(n.services) && ResponseClass(KindOf(request)) in n.services
    requires 0 <= id < 0x1_0000 && 0 <= code < 0x1_0000_0000
    requires i < |inbound| && Accepts(n, Parse(inbound[i].identifier).destination)
    requires Parse(inbound[i].identifier).serviceId == ServiceId(ResponseClass(KindOf(request)))
    requires Parse(inbound[i].identifier).error == 1
    requires inbound[i].data == EncodeError(id, code)
    requires forall j :: 0 <= j < i ==> !NotifiesAt(Posted(n, address, request), inbound, j)
    ensures var w := WaitResponse(n, address, request, inbound);
            && w.outcome == Raised(ProtocolError(id, code, Category(code)))
            && w.pending == inbound[i + 1..]
  {
    var k := KindOf(request);
    var m := Posted(n, address, request);
    QuietFramesKeepSlot(m, inbound, i, k);
    var x := Receive(m, inbound[..i]);
    ReceiveError(x, inbound[i], k, id, code);
    assert NotifiesAt(m, inbound, i);
    WaitEndsAtFirstNotification(n, address, request, inbound, i);
  }

  /** Frames for other destinations never wake a waiter and change nothing. */
  lemma {:induction false} AwaitForeign(n: Node, inbound: seq<RxFrame>)
    requires forall i :: 0 <= i < |inbound| ==> !Accepts(n, Parse(inbound[i].identifier).destination)
    ensures Await(n, inbound) == Woken(n, false, [])
    decreases |inbound|
  {
    if inbound != [] {
      assert !Accepts(n, Parse(inbound[0].identifier).destination);
      assert forall i :: 0 <= i < |inbound[1..]| ==> !Accepts(n, Parse(inbound[1..][i].identifier).destination) by {
        forall i | 0 <= i < |inbound[1..]| ensures !Accepts(n, Parse(inbound[1..][i].identifier).destination) {
          assert inbound[1..][i] == inbound[i + 1];
        }
      }
      AwaitForeign(n, inbound[1..]);
    }
  }

  /** With no frame for this node before the timeout, the call fails with
      `Timeout`; the only trace it leaves is the count set to 1 and the
      request on the bus. */
  lemma ForeignFramesTimeOut(n: Node, address: int, request: Request, inbound: seq<RxFrame>)
    requires Sendable(n, address, request)
    requires forall i :: 0 <= i < |inbound| ==> !Accepts(n, Parse(inbound[i].identifier).destination)
    ensures var w, k := WaitResponse(n, address, request, inbound), KindOf(request);
            && w.outcome == TimedOut
            && w.node.slots == n.slots.Set(k, n.slots.Get(k).(count := 1))
            && w.node.messages == n.messages
  {
    var k := KindOf(request);
    var n2 := SendService(Begin(n, k), address, request).value;
    AwaitForeign(n2, inbound);
  }

  /** A matching success response as the first frame wakes the caller, who
      gets exactly that response; later frames stay pending. */
  lemma AnsweredByResponse(n: Node, address: int, request: Request, inbound: seq<RxFrame>)
    requires Sendable(n, address, request)
    requires DistinctIds(n.services) && ResponseClass(KindOf(request)) in n.services
    requires inbound != [] && IsResponseFrame(n, inbound[0], KindOf(request))
    ensures var w := WaitResponse(n, address, request, inbound);
            && w.outcome == Returned(Carried(inbound[0], KindOf(request)))
            && w.pending == inbound[1..]
            && w.node.slots.Get(KindOf(request)).count == 0
  {
    var k := KindOf(request);
    var n2 := SendService(Begin(n, k), address, request).value;
    ReceiveResponse(n2, inbound[0], k);
  }

  /** A matching error frame as the first frame wakes the caller, who gets
      the protocol error with the payload's service id and code and the
      table's label, e.g. code 2 is `DEVICE_NOT_FOUND`. */
  lemma AnsweredByError(n: Node, address: int, request: Request, inbound: seq<RxFrame>, id: int, code: int)
    requires Sendable(n, address, request)
    requires DistinctIds(n.services) && ResponseClass(KindOf(request)) in n.services
    requires 0 <= id < 0x1_0000 && 0 <= code < 0x1_0000_0000
    requires inbound != [] && Accepts(n, Parse(inbound[0].identifier).destination)
    requires Parse(inbound[0].identifier).serviceId == ServiceId(ResponseClass(KindOf(request)))
    requires Parse(inbound[0].identifier).error == 1
    requires inbound[0].data == EncodeError(id, code)
    ensures var w := WaitResponse(n, address, request, inbound);
            && w.outcome == Raised(ProtocolError(id, code, Category(code)))
            && w.pending == inbound[1..]
  {
    var k := KindOf(request);
    var n2 := SendService(Begin(n, k), address, request).value;
    ReceiveError(n2, inbound[0], k, id, code);
  }

  /** After a call times out, its count stays at 1: the first late response
      still overwrites the slot and notifies (no one waits), and a second one
      overwrites it again and drives the count to -1 without notifying. */
  lemma LateResponsesOverwrite(n: Node, address: int, request: Request, late1: RxFrame, late2: RxFrame)
    requires Sendable(n, address, request)
    requires DistinctIds(n.services) && ResponseClass(KindOf(request)) in n.services
    requires IsResponseFrame(n, late1, KindOf(request)) && IsResponseFrame(n, late2, KindOf(request))
    ensures var k, w := KindOf(request), WaitResponse(n, address, request, []);
            var r1 := HandleRxFrame(w.node, late1);
            var r2 := HandleRxFrame(r1.node, late2);
            && w.outcome == TimedOut
            && r1.notified && r1.node.slots.Get(k) == Slot(Some(Answered(Carried(late1, k))), 0)
            && !r2.notified && r2.node.slots.Get(k) == Slot(Some(Answered(Carried(late2, k))), -1)
  {
    var k := KindOf(request);
    ForeignFramesTimeOut(n, address, request, []);
    var w := WaitResponse(n, address, request, []);
    ReceiveResponse(w.node, late1, k);
    ReceiveResponse(HandleRxFrame(w.node, late1).node, late2, k);
  }

  /** A response that arrives after its caller timed out answers the next
      request of the same kind instead of that request's own response. */
  lemma StaleResponseAnswersNextCall(n: Node, address: int, first: Request, second: Request, late: RxFrame, inbound: seq<RxFrame>)
    requires Sendable(n, address, first) && Sendable(n, address, second)
    requires KindOf(first) == KindOf(second)
    requires DistinctIds(n.services) && ResponseClass(KindOf(first)) in n.services
    requires IsResponseFrame(n, late, KindOf(first))
    ensures var w1 := WaitResponse(n, address, first, []);
            var w2 := WaitResponse(w1.node, address, second, [late] + inbound);
            && w1.outcome == TimedOut
            && w2.outcome == Returned(Carried(late, KindOf(first)))
            && w2.pending == inbound
  {
    ForeignFramesTimeOut(n, address, first, []);
    var w1 := WaitResponse(n, address, first, []);
    AnsweredByResponse(w1.node, address, second, [late] + inbound);
  }

  /** All request kinds share one condition variable: a late response of a
      timed-out kind wakes a caller waiting on another kind, who then reads
      its own slot as it was before the call, not an answer to its request. */
  lemma LateResponseWakesOtherKind(n: Node, address: int, first: Request, second: Request, late: RxFrame)
    requires Sendable(n, address, first) && Sendable(n, address, second)
    requires KindOf(first) != KindOf(second)
    requires DistinctIds(n.services) && ResponseClass(KindOf(first)) in n.services
    requires IsResponseFrame(n, late, KindOf(first))
    ensures var w1 := WaitResponse(n, address, first, []);
            var w2 := WaitResponse(w1.node, address, second, [late]);
            var before := n.slots.Get(KindOf(second)).response;
            && w1.outcome == TimedOut
            && w2.outcome != TimedOut
            && w2.node.slots.Get(KindOf(second)) == Slot(before, 1)
            && (before == None ==> w2.outcome == NoResponse)
            && (forall s :: before == Some(Answered(s)) ==> w2.outcome == Returned(s))
  {
    var k1, k2 := KindOf(first), KindOf(second);
    ForeignFramesTimeOut(n, address, first, []);
    var w1 := WaitResponse(n, address, first, []);
    var m2 := SendService(Begin(w1.node, k2), address, second).value;
    assert m2.slots.Get(k1).count == 1;
    assert m2.slots.Get(k2) == Slot(n.slots.Get(k2).response, 1);
    ReceiveResponse(m2, late, k1);
    assert Await(m2, [late]).woke;
  }
}
