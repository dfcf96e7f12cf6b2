/**
 What each transfer of a device connection leads to: the next transfer of its chain, or the end of the connection. These laws
 are about what was sent and received so far rather than about the handlers.
 */
module UsbProgress {
  import opened Common
  import opened LittleEndian
  import opened UsbMachine

  function Min(a: nat, b: nat): nat { if a < b then a else b }

  // ---------------------------------------------------------------- giving the device up

  /** A response that says the identification failed. */
  predicate BadIdentification(h: Header) { h.client == 0xffff_ffff && h.code != 0 }

  /**
   The device is given up when a transfer fails or the next one cannot be submitted, when object ids come in a transfer of the
   wrong size, and when the identification response, received whole, reports an error.
   */
  ghost predicate GivesUp(d: Device, e: Event)
    requires Inv(d) && Enabled(d, e)
  {
    match e
    case SendEvent(_, ok) => !ok
    case MetaOutEvent(ok) => !ok && d.tx.request.payload != []
    case DataOutEvent(actual, ok) => !ok && |Flat(d.tx.sent[|d.tx.sent| - 1].wire)| + actual < |d.tx.request.payload|
    case OutFailedEvent => true
    case InFailedEvent => true
    case MetaInTimeout(ok) => !ok
    case MetaInEvent(h, ok) => !ok || (h.payloadSize == 0 && h.objectCount == 0 && BadIdentification(h))
    case DataInEvent(bytes, ok) =>
      !ok || (|d.rx.received[|d.rx.received| - 1].bytes| + |bytes| == d.rx.header.payloadSize && d.rx.header.objectCount == 0 &&
              BadIdentification(d.rx.header))
    case ObjectInEvent(ids, actual, ok) =>
      actual != 4 * d.rx.header.objectCount || |ids| != d.rx.header.objectCount || !ok || BadIdentification(d.rx.header)
    case DestroyEvent => false
  }

  lemma GivesUpExactly(d: Device, e: Event)
    requires Inv(d) && Enabled(d, e)
    ensures Step(d, e).deleted <==> d.deleted || GivesUp(d, e)
  { }

  ghost predicate GivenUp(d: Device, events: seq<Event>)
    requires Inv(d) && Legal(d, events)
    decreases events
  {
    events != [] && (GivesUp(d, events[0]) || (StepKeeps(d, events[0]); GivenUp(Step(d, events[0]), events[1..])))
  }

  lemma {:induction false} DeletedFrom(d: Device, events: seq<Event>)
    requires Inv(d) && Legal(d, events)
    ensures Exec(d, events).deleted <==> d.deleted || GivenUp(d, events)
    decreases events
  {
    if events != [] {
      StepKeeps(d, events[0]);
      GivesUpExactly(d, events[0]);
      DeletedFrom(Step(d, events[0]), events[1..]);
    }
  }

  /** In every run the device is marked for deletion exactly when some event gave it up. */
  lemma DeletedExactly(events: seq<Event>)
    requires Legal(Begun(), events)
    ensures Inv(Begun())
    ensures Exec(Begun(), events).deleted <==> GivenUp(Begun(), events)
  {
    DeletedFrom(Begun(), events);
  }

  // ---------------------------------------------------------------- receiving

  /** Where in the stream of responses the connection is: the header, the bytes and the ids that arrived last. */
  ghost predicate Wants(rx: Receiver, h: Header, got: nat, ids: bool) {
    if got < h.payloadSize then rx.phase == AwaitData(Piece(got, Min(0x10000, h.payloadSize - got)))
    else if h.objectCount > 0 && !ids then rx.phase == AwaitObjects
    else rx.phase == AwaitHeader
  }

  /** How many responses are handed on: one, when the payload and the ids are complete. */
  function Completes(h: Header, got: nat, ids: bool): nat { if got < h.payloadSize || (h.objectCount > 0 && !ids) then 0 else 1 }

  /**
   After a header, the next transfer submitted asks for what is missing: as much of the payload as one transfer may carry, then
   the object ids, and with nothing missing the response is handed on and the next header is asked for.
   */
  lemma HeaderThen(d: Device, h: Header)
    requires Inv(d) && Enabled(d, MetaInEvent(h, true))
    ensures var n := Step(d, MetaInEvent(h, true)).rx;
            && Wants(n, h, 0, false) && |n.dispatched| == |d.rx.dispatched| + Completes(h, 0, false)
            && n.received == d.rx.received + [InLog(h, [], [])]
  { }

  lemma BytesThen(d: Device, bytes: seq<byte>)
    requires Inv(d) && Enabled(d, DataInEvent(bytes, true))
    ensures var k := |d.rx.received| - 1; var n := Step(d, DataInEvent(bytes, true)).rx;
            && k >= 0 && |n.received| == |d.rx.received| && n.received[..k] == d.rx.received[..k]
            && n.received[k] == d.rx.received[k].(bytes := d.rx.received[k].bytes + bytes)
            && var got := |d.rx.received[k].bytes| + |bytes|;
            && Wants(n, d.rx.header, got, false) && |n.dispatched| == |d.rx.dispatched| + Completes(d.rx.header, got, false)
  {
    var k := |d.rx.received| - 1;
    assert d.rx.received[k].ids + [] == d.rx.received[k].ids;
  }

  lemma IdsThen(d: Device, ids: seq<u32>)
    requires Inv(d) && |ids| == d.rx.header.objectCount && Enabled(d, ObjectInEvent(ids, 4 * |ids|, true))
    ensures var k := |d.rx.received| - 1; var n := Step(d, ObjectInEvent(ids, 4 * |ids|, true)).rx;
            && k >= 0 && n.phase == AwaitHeader && |n.dispatched| == |d.rx.dispatched| + 1
            && |n.received| == |d.rx.received| && n.received[k] == d.rx.received[k].(ids := ids)
  {
    var k := |d.rx.received| - 1;
    assert d.rx.received[k].bytes + [] == d.rx.received[k].bytes && [] + ids == ids;
  }

  /** As long as the device is not given up, an incoming transfer is submitted; so the stream of responses goes on. */
  lemma AlwaysListening(events: seq<Event>)
    requires Legal(Begun(), events)
    ensures Inv(Begun())
    ensures !GivenUp(Begun(), events) ==> !Exec(Begun(), events).rx.phase.Stopped?
  {
    DeletedExactly(events);
    RunKeeps(Begun(), events);
  }

  // ---------------------------------------------------------------- sending

  /** With `done` bytes of the request on the endpoint, the next piece is submitted, or the device is available again. */
  predicate SendsOn(tx: Sender, done: nat) {
    if done < |tx.request.payload| then tx.busy && tx.dataOut == Some(Piece(done, Min(0x10000, |tx.request.payload| - done)))
    else !tx.busy && tx.dataOut == None
  }

  /** A request is recorded, and its header submitted. */
  lemma RequestThen(d: Device, rq: Request)
    requires Inv(d) && Enabled(d, SendEvent(rq, true))
    ensures var n := Step(d, SendEvent(rq, true));
            && n.pending == d.pending + [rq] && n.tx.request == rq && n.tx.busy && n.tx.metaOut
            && n.tx.sent == d.tx.sent + [OutLog(rq, [])]
  { }

  lemma HeaderSentThen(d: Device)
    requires Inv(d) && Enabled(d, MetaOutEvent(true))
    ensures var n := Step(d, MetaOutEvent(true)).tx; SendsOn(n, 0) && n.request == d.tx.request && n.sent == d.tx.sent && !n.metaOut
  { }

  lemma PieceSentThen(d: Device, actual: nat)
    requires Inv(d) && Enabled(d, DataOutEvent(actual, true))
    ensures var p := d.tx.dataOut.value; var n := Step(d, DataOutEvent(actual, true)).tx;
            && p.off + actual <= |d.tx.request.payload| && SendsOn(n, p.off + actual) && n.request == d.tx.request
            && d.tx.sent != [] && Flat(d.tx.sent[|d.tx.sent| - 1].wire) == d.tx.request.payload[..p.off]
            && n.sent[|n.sent| - 1].wire == d.tx.sent[|d.tx.sent| - 1].wire + [d.tx.request.payload[p.off..p.off + actual]]
  { }

  /** While the device is not given up, a request that is not on the endpoint whole has a transfer submitted. */
  lemma AlwaysSending(events: seq<Event>)
    requires Legal(Begun(), events)
    ensures Inv(Begun())
    ensures var tx := Exec(Begun(), events).tx;
            !GivenUp(Begun(), events) && tx.busy ==> tx.metaOut || tx.dataOut.Some?
  {
    DeletedExactly(events);
    RunKeeps(Begun(), events);
  }

  // ---------------------------------------------------------------- the end

  /** A transfer that fails is not submitted any more, and neither is the next of its chain. */
  lemma FailedThen(d: Device, e: Event)
    requires Inv(d) && Enabled(d, e)
    ensures e.OutFailedEvent? ==> !Step(d, e).tx.metaOut && Step(d, e).tx.dataOut == None && Step(d, e).rx == d.rx
    ensures e.InFailedEvent? ==> Step(d, e).rx.phase.Stopped? && Step(d, e).tx == d.tx
    ensures e.ObjectInEvent? && (e.actual != 4 * d.rx.header.objectCount || |e.ids| != d.rx.header.objectCount) ==>
              Step(d, e).rx.phase.Stopped? && Step(d, e).rx.dispatched == d.rx.dispatched
  { }

  lemma ThenExec(d: Device, e: Event, events: seq<Event>)
    requires Enabled(d, e) && Legal(Step(d, e), events)
    ensures Legal(d, [e] + events) && Exec(d, [e] + events) == Exec(Step(d, e), events)
  {
    assert ([e] + events)[1..] == events;
  }

  /** The last transfers fail, as they do when they are cancelled, and the device is destroyed. */
  lemma CanBeDestroyed(d: Device) returns (events: seq<Event>)
    requires Inv(d) && d.deleted && !d.destroyed
    ensures |events| <= 3 && Legal(d, events) && Exec(d, events).destroyed
  {
    if d.tx.metaOut || d.tx.dataOut.Some? {
      var n := Step(d, OutFailedEvent);
      StepKeeps(d, OutFailedEvent);
      FailedThen(d, OutFailedEvent);
      var later := ReceiverEnds(n);
      ThenExec(d, OutFailedEvent, later);
      events := [OutFailedEvent] + later;
    } else {
      events := ReceiverEnds(d);
    }
  }

  lemma ReceiverEnds(d: Device) returns (events: seq<Event>)
    requires Inv(d) && d.deleted && !d.destroyed && !d.tx.metaOut && d.tx.dataOut == None
    ensures |events| <= 2 && Legal(d, events) && Exec(d, events).destroyed
  {
    if d.rx.phase.Stopped? {
      Destroyed(d);
      events := [DestroyEvent] + [];
    } else {
      var n := Step(d, InFailedEvent);
      FailedThen(d, InFailedEvent);
      Destroyed(n);
      ThenExec(d, InFailedEvent, [DestroyEvent] + []);
      events := [InFailedEvent] + ([DestroyEvent] + []);
    }
  }

  lemma Destroyed(d: Device)
    requires d.deleted && !d.destroyed && !d.tx.metaOut && d.tx.dataOut == None && d.rx.phase.Stopped?
    ensures Legal(d, [DestroyEvent] + []) && Exec(d, [DestroyEvent] + []).destroyed
  {
    ThenExec(d, DestroyEvent, []);
  }
}
