/**
 The transfers of a USB device connection: one chain sends a request at a time, another receives responses. `ok` says
 whether a transfer could be submitted; handlers run when a transfer that was submitted ends.
 */
module UsbMachine {
  import opened Common
  import opened LittleEndian

  const MAX_TRANSFER := 0x10000
  const META_CLIENT: u32 := 0xffff_ffff

  datatype Request = Request(client: u32, tag: u32, payload: seq<byte>)
  datatype Header = Header(client: u32, tag: u32, code: u32, payloadSize: nat, objectCount: nat)
  datatype Response = Response(client: u32, tag: u32, code: u32, payload: seq<byte>, ids: seq<u32>)

  /** What the data endpoint carried for a request, transfer by transfer. */
  datatype OutLog = OutLog(rq: Request, wire: seq<seq<byte>>)

  /** What arrived for a response header. */
  datatype InLog = InLog(header: Header, bytes: seq<byte>, ids: seq<u32>)

  datatype Piece = Piece(off: nat, len: nat)

  /** Which incoming transfer is submitted. */
  datatype InPhase = AwaitHeader | AwaitData(piece: Piece) | AwaitObjects | Stopped

  /** The chain that sends: header, then payload. `metaOut` and `dataOut` are the transfers submitted. */
  datatype Sender = Sender(busy: bool, transferringMeta: bool, transferringData: bool, metaOut: bool, dataOut: Option<Piece>,
                           request: Request, sent: seq<OutLog>)

  /** The chain that receives: header, payload, object ids. */
  datatype Receiver = Receiver(phase: InPhase, header: Header, payload: seq<byte>, ids: seq<u32>,
                               received: seq<InLog>, dispatched: seq<Response>, posted: seq<Response>)

  datatype Device = Device(tx: Sender, rx: Receiver, pending: seq<Request>, answered: set<u32>,
                           deleted: bool, destroyed: bool, errors: seq<Request>)

  /** A handler of the sending chain may give the device up. */
  datatype TxResult = TxResult(tx: Sender, kills: bool)

  /** A handler of the receiving chain may also dispatch a response; then `tag` is its tag. */
  datatype RxResult = RxResult(rx: Receiver, kills: bool, tag: Option<u32>)

  function Limit(n: nat): nat { if n > MAX_TRANSFER then MAX_TRANSFER else n }

  function Flat(pieces: seq<seq<byte>>): seq<byte> {
    if pieces == [] then [] else Flat(pieces[..|pieces| - 1]) + pieces[|pieces| - 1]
  }

  // ---------------------------------------------------------------- sending

  /** `SendRequest`, once the device is available. */
  function Send(tx: Sender, rq: Request, ok: bool): TxResult {
    TxResult(Sender(true, true, tx.transferringData, ok, tx.dataOut, rq, tx.sent + [OutLog(rq, [])]), !ok)
  }

  function Available(tx: Sender): Sender { tx.(busy := tx.busy && (tx.transferringMeta || tx.transferringData)) }

  function MetaOutDone(tx: Sender, ok: bool): TxResult {
    var n := |tx.request.payload|;
    if n > 0 then
      if ok then
        TxResult(Available(tx.(metaOut := false, transferringData := true, dataOut := Some(Piece(0, Limit(n))),
                               transferringMeta := false)), false)
      else TxResult(tx.(metaOut := false, transferringData := true), true)
    else TxResult(Available(tx.(metaOut := false, transferringMeta := false)), false)
  }

  function AddPiece(logs: seq<OutLog>, piece: seq<byte>): seq<OutLog> {
    if logs == [] then logs
    else
      var last := logs[|logs| - 1];
      logs[|logs| - 1 := OutLog(last.rq, last.wire + [piece])]
  }

  /** The submitted piece ends with `actual` bytes transferred. */
  function DataOutDone(tx: Sender, actual: nat, ok: bool): TxResult
    requires tx.dataOut.Some? && tx.dataOut.value.off + actual <= |tx.request.payload|
  {
    var p := tx.dataOut.value;
    var end := p.off + actual;
    var remaining := |tx.request.payload| - end;
    var sent := AddPiece(tx.sent, tx.request.payload[p.off..end]);
    if remaining > 0 then
      TxResult(tx.(dataOut := if ok then Some(Piece(end, Limit(remaining))) else None, sent := sent), !ok)
    else TxResult(Available(tx.(dataOut := None, sent := sent, transferringData := false)), false)
  }

  function OutFailed(tx: Sender): TxResult { TxResult(tx.(metaOut := false, dataOut := None), true) }

  // ---------------------------------------------------------------- receiving

  /** A vector resized: its old contents as far as they fit, then zeros. */
  function Resized<T>(s: seq<T>, n: nat, zero: T): (r: seq<T>)
    ensures |r| == n
  {
    if n <= |s| then s[..n] else s + seq(n - |s|, _ => zero)
  }

  function Submit(rx: Receiver, phase: InPhase, ok: bool): RxResult {
    RxResult(rx.(phase := if ok then phase else Stopped), !ok, None)
  }

  function ResponseOf(rx: Receiver): Response {
    Response(rx.header.client, rx.header.tag, rx.header.code, rx.payload, rx.ids)
  }

  /** Hands the response on, unless it is the identification, and asks for the next header. */
  function Dispatch(rx: Receiver, ok: bool): RxResult {
    var rs := ResponseOf(rx);
    var meta := rs.client == META_CLIENT;
    var rx1 := rx.(phase := if ok then AwaitHeader else Stopped, dispatched := rx.dispatched + [rs],
                   posted := if meta then rx.posted else rx.posted + [rs]);
    RxResult(rx1, !ok || (meta && rs.code != 0), Some(rs.tag))
  }

  function MetaInDone(rx: Receiver, h: Header, ok: bool): RxResult {
    var rx1 := rx.(header := h, payload := Resized(rx.payload, h.payloadSize, 0), ids := Resized(rx.ids, h.objectCount, 0),
                   received := rx.received + [InLog(h, [], [])]);
    if h.payloadSize > 0 then Submit(rx1, AwaitData(Piece(0, Limit(h.payloadSize))), ok)
    else if h.objectCount > 0 then Submit(rx1, AwaitObjects, ok)
    else Dispatch(rx1, ok)
  }

  function Patched(s: seq<byte>, off: nat, bytes: seq<byte>): (r: seq<byte>)
    requires off + |bytes| <= |s|
    ensures |r| == |s|
  {
    s[..off] + bytes + s[off + |bytes|..]
  }

  function AddReceived(logs: seq<InLog>, bytes: seq<byte>, ids: seq<u32>): seq<InLog> {
    if logs == [] then logs
    else
      var last := logs[|logs| - 1];
      logs[|logs| - 1 := InLog(last.header, last.bytes + bytes, last.ids + ids)]
  }

  /** The submitted piece ends with `bytes` received. */
  function DataInDone(rx: Receiver, bytes: seq<byte>, ok: bool): RxResult
    requires rx.phase.AwaitData? && rx.phase.piece.off + |bytes| <= |rx.payload| == rx.header.payloadSize
  {
    var end := rx.phase.piece.off + |bytes|;
    var remaining := rx.header.payloadSize - end;
    var rx1 := rx.(payload := Patched(rx.payload, rx.phase.piece.off, bytes), received := AddReceived(rx.received, bytes, []));
    if remaining > 0 then Submit(rx1, AwaitData(Piece(end, Limit(remaining))), ok)
    else if rx.header.objectCount > 0 then Submit(rx1, AwaitObjects, ok)
    else Dispatch(rx1, ok)
  }

  /** Object ids come in one transfer of the right size, or the device is given up. */
  function ObjectInDone(rx: Receiver, ids: seq<u32>, actual: nat, ok: bool): RxResult {
    if actual != 4 * rx.header.objectCount || |ids| != rx.header.objectCount then RxResult(rx.(phase := Stopped), true, None)
    else Dispatch(rx.(ids := ids, received := AddReceived(rx.received, [], ids)), ok)
  }

  // ---------------------------------------------------------------- the device

  function WithoutTag(rs: seq<Request>, tag: u32): seq<Request> {
    if rs == [] then [] else (if rs[0].tag == tag then [] else [rs[0]]) + WithoutTag(rs[1..], tag)
  }

  ghost predicate HasTag(rs: seq<Request>, tag: u32) { exists i :: 0 <= i < |rs| && rs[i].tag == tag }

  function NonMeta(rs: seq<Request>): seq<Request> {
    if rs == [] then [] else (if rs[0].client != META_CLIENT then [rs[0]] else []) + NonMeta(rs[1..])
  }

  function AfterTx(d: Device, r: TxResult): Device { d.(tx := r.tx, deleted := d.deleted || r.kills) }

  /** A dispatched response takes its request off the pending ones. */
  ghost function AfterRx(d: Device, r: RxResult): Device {
    var d1 := d.(rx := r.rx, deleted := d.deleted || r.kills);
    if r.tag.None? then d1
    else d1.(pending := WithoutTag(d.pending, r.tag.value),
             answered := if HasTag(d.pending, r.tag.value) then d.answered + {r.tag.value} else d.answered)
  }

  /** The destructor, when the last transfer has ended: what is still pending gets a transfer error. */
  function Destroy(d: Device): Device { d.(destroyed := true, errors := NonMeta(d.pending)) }

  datatype Event =
    | SendEvent(rq: Request, ok: bool)
    | MetaOutEvent(ok: bool)
    | DataOutEvent(actual: nat, ok: bool)
    | OutFailedEvent
    | MetaInEvent(h: Header, ok: bool)
    | MetaInTimeout(ok: bool)
    | DataInEvent(bytes: seq<byte>, ok: bool)
    | ObjectInEvent(ids: seq<u32>, actual: nat, ok: bool)
    | InFailedEvent
    | DestroyEvent

  ghost predicate NewTag(sent: seq<OutLog>, tag: u32) { forall k :: 0 <= k < |sent| ==> sent[k].rq.tag != tag }

  /** Handlers run for submitted transfers only; request tags are unique. */
  ghost predicate Enabled(d: Device, e: Event) {
    !d.destroyed &&
    match e
    case SendEvent(rq, _) => !d.tx.busy && !d.deleted && NewTag(d.tx.sent, rq.tag)
    case MetaOutEvent(_) => d.tx.metaOut
    case DataOutEvent(actual, _) => d.tx.dataOut.Some? && actual <= d.tx.dataOut.value.len
    case OutFailedEvent => d.tx.metaOut || d.tx.dataOut.Some?
    case MetaInEvent(_, _) => d.rx.phase.AwaitHeader?
    case MetaInTimeout(_) => d.rx.phase.AwaitHeader?
    case DataInEvent(bytes, _) => d.rx.phase.AwaitData? && |bytes| <= d.rx.phase.piece.len
    case ObjectInEvent(_, _, _) => d.rx.phase.AwaitObjects?
    case InFailedEvent => !d.rx.phase.Stopped?
    case DestroyEvent => d.deleted && !d.tx.metaOut && d.tx.dataOut.None? && d.rx.phase.Stopped?
  }

  /** A transfer never ends past its payload (`DataOutKeeps`, `DataInKeeps`). */
  ghost function Step(d: Device, e: Event): Device
    requires Enabled(d, e)
  {
    match e
    case SendEvent(rq, ok) => AfterTx(d, Send(d.tx, rq, ok)).(pending := d.pending + [rq])
    case MetaOutEvent(ok) => AfterTx(d, MetaOutDone(d.tx, ok))
    case DataOutEvent(actual, ok) =>
      if d.tx.dataOut.value.off + actual <= |d.tx.request.payload| then AfterTx(d, DataOutDone(d.tx, actual, ok)) else d
    case OutFailedEvent => AfterTx(d, OutFailed(d.tx))
    case MetaInEvent(h, ok) => AfterRx(d, MetaInDone(d.rx, h, ok))
    case MetaInTimeout(ok) => AfterRx(d, Submit(d.rx, AwaitHeader, ok))
    case DataInEvent(bytes, ok) =>
      if d.rx.phase.piece.off + |bytes| <= |d.rx.payload| == d.rx.header.payloadSize then AfterRx(d, DataInDone(d.rx, bytes, ok)) else d
    case ObjectInEvent(ids, actual, ok) => AfterRx(d, ObjectInDone(d.rx, ids, actual, ok))
    case InFailedEvent => AfterRx(d, RxResult(d.rx.(phase := Stopped), true, None))
    case DestroyEvent => Destroy(d)
  }

  // ---------------------------------------------------------------- the sender

  /** A log of pieces of limited size that spell a part of the payload from its start. */
  ghost predicate Partial(l: OutLog) {
    (forall i :: 0 <= i < |l.wire| ==> |l.wire[i]| <= MAX_TRANSFER) && Flat(l.wire) <= l.rq.payload
  }

  ghost predicate Whole(l: OutLog) { Partial(l) && Flat(l.wire) == l.rq.payload }

  ghost predicate Current(tx: Sender)  {
    tx.sent != [] && tx.sent[|tx.sent| - 1].rq == tx.request && Partial(tx.sent[|tx.sent| - 1])
  }

  ghost predicate WholeBefore(sent: seq<OutLog>, n: int) { forall k :: 0 <= k < n && k < |sent| ==> Whole(sent[k]) }

  /** All requests but the current one have been placed on the endpoint whole, the current one up to the piece submitted. */
  ghost predicate TxInv(tx: Sender, deleted: bool) {
    if !tx.busy then
      !tx.transferringMeta && !tx.transferringData && !tx.metaOut && tx.dataOut.None? && WholeBefore(tx.sent, |tx.sent|)
    else
      && Current(tx) && WholeBefore(tx.sent, |tx.sent| - 1) && (tx.transferringMeta || tx.transferringData)
      && (tx.metaOut ==> !tx.transferringData && tx.dataOut.None? && tx.sent[|tx.sent| - 1].wire == [])
      && (tx.dataOut.Some? ==> !tx.transferringMeta && !tx.metaOut && Submitted(tx, tx.dataOut.value))
      && (!tx.metaOut && tx.dataOut.None? ==> deleted)
  }

  /** The submitted piece starts where the bytes on the endpoint end. */
  ghost predicate Submitted(tx: Sender, p: Piece) {
    && p.off < |tx.request.payload| && p.len == Limit(|tx.request.payload| - p.off)
    && tx.sent != [] && Flat(tx.sent[|tx.sent| - 1].wire) == tx.request.payload[..p.off]
  }

  lemma SendKeeps(tx: Sender, rq: Request, ok: bool)
    requires TxInv(tx, false) && !tx.busy
    ensures TxInv(Send(tx, rq, ok).tx, Send(tx, rq, ok).kills)
  { }

  lemma MetaOutKeeps(tx: Sender, ok: bool, deleted: bool)
    requires TxInv(tx, deleted) && tx.metaOut
    ensures TxInv(MetaOutDone(tx, ok).tx, deleted || MetaOutDone(tx, ok).kills)
  {
    assert Flat([]) == tx.request.payload[..0];
  }

  /** Adding the next piece to the log. */
  lemma PieceAdded(l: OutLog, off: nat, end: nat)
    requires Partial(l) && off <= end <= |l.rq.payload| && end - off <= MAX_TRANSFER && Flat(l.wire) == l.rq.payload[..off]
    ensures var l1 := OutLog(l.rq, l.wire + [l.rq.payload[off..end]]); Partial(l1) && Flat(l1.wire) == l.rq.payload[..end]
  {
    var piece := l.rq.payload[off..end];
    assert (l.wire + [piece])[..|l.wire|] == l.wire;
    assert l.rq.payload[..off] + piece == l.rq.payload[..end];
  }

  lemma DataOutKeeps(tx: Sender, actual: nat, ok: bool, deleted: bool)
    requires TxInv(tx, deleted) && tx.busy && tx.dataOut.Some? && actual <= tx.dataOut.value.len
    ensures tx.dataOut.value.off + actual <= |tx.request.payload|
    ensures var r := DataOutDone(tx, actual, ok); TxInv(r.tx, deleted || r.kills)
  {
    var p := tx.dataOut.value;
    var last := tx.sent[|tx.sent| - 1];
    PieceAdded(last, p.off, p.off + actual);
    var r := DataOutDone(tx, actual, ok);
    assert WholeBefore(r.tx.sent, |r.tx.sent| - 1);
    if p.off + actual == |tx.request.payload| {
      assert tx.request.payload[..p.off + actual] == tx.request.payload;
      assert Whole(r.tx.sent[|r.tx.sent| - 1]);
    }
  }

  // ---------------------------------------------------------------- the receiver

  ghost predicate Answers(l: InLog, rs: Response) {
    && rs == Response(l.header.client, l.header.tag, l.header.code, l.bytes, l.ids)
    && |l.bytes| == l.header.payloadSize && |l.ids| == l.header.objectCount
  }

  /** Every header but a last one being served has led to one response with what arrived for it. */
  ghost predicate History(received: seq<InLog>, dispatched: seq<Response>) {
    && |dispatched| <= |received| <= |dispatched| + 1
    && forall k :: 0 <= k < |dispatched| ==> Answers(received[k], dispatched[k])
  }

  function Clients(rs: seq<Response>): seq<Response> {
    if rs == [] then []
    else Clients(rs[..|rs| - 1]) + (if rs[|rs| - 1].client != META_CLIENT then [rs[|rs| - 1]] else [])
  }

  /** A response is being received: the vectors have their final sizes. */
  ghost predicate Serving(rx: Receiver) {
    && |rx.received| == |rx.dispatched| + 1 && rx.received[|rx.dispatched|].header == rx.header
    && |rx.payload| == rx.header.payloadSize && |rx.ids| == rx.header.objectCount
    && rx.received[|rx.dispatched|].ids == []
  }

  ghost predicate RxInv(rx: Receiver, deleted: bool) {
    && History(rx.received, rx.dispatched) && rx.posted == Clients(rx.dispatched)
    && match rx.phase
       case AwaitHeader => |rx.received| == |rx.dispatched|
       case AwaitData(p) =>
         Serving(rx) && p.off < |rx.payload| && p.len == Limit(|rx.payload| - p.off) &&
         rx.received[|rx.dispatched|].bytes == rx.payload[..p.off]
       case AwaitObjects => Serving(rx) && rx.received[|rx.dispatched|].bytes == rx.payload
       case Stopped => deleted
  }

  lemma DispatchKeeps(rx: Receiver, ok: bool, deleted: bool)
    requires |rx.received| == |rx.dispatched| + 1 && History(rx.received, rx.dispatched) && rx.posted == Clients(rx.dispatched)
    requires Answers(rx.received[|rx.dispatched|], ResponseOf(rx))
    ensures RxInv(Dispatch(rx, ok).rx, deleted || Dispatch(rx, ok).kills)
  {
    assert (rx.dispatched + [ResponseOf(rx)])[..|rx.dispatched|] == rx.dispatched;
  }

  lemma MetaInKeeps(rx: Receiver, h: Header, ok: bool, deleted: bool)
    requires RxInv(rx, deleted) && rx.phase.AwaitHeader?
    ensures var r := MetaInDone(rx, h, ok); RxInv(r.rx, deleted || r.kills)
  {
    var rx1 := rx.(header := h, payload := Resized(rx.payload, h.payloadSize, 0), ids := Resized(rx.ids, h.objectCount, 0),
                   received := rx.received + [InLog(h, [], [])]);
    assert rx1.payload[..0] == [];
    if h.payloadSize == 0 && h.objectCount == 0 {
      assert rx1.payload == [] && rx1.ids == [];
      DispatchKeeps(rx1, ok, deleted);
    }
  }

  lemma HistoryLast(received: seq<InLog>, dispatched: seq<Response>, bytes: seq<byte>, ids: seq<u32>)
    requires History(received, dispatched) && |received| == |dispatched| + 1
    ensures var l := received[|dispatched|]; var later := AddReceived(received, bytes, ids);
            History(later, dispatched) && |later| == |received| &&
            later[|dispatched|] == InLog(l.header, l.bytes + bytes, l.ids + ids)
  { }

  lemma DataInKeeps(rx: Receiver, bytes: seq<byte>, ok: bool, deleted: bool)
    requires RxInv(rx, deleted) && rx.phase.AwaitData? && |bytes| <= rx.phase.piece.len
    ensures rx.phase.piece.off + |bytes| <= |rx.payload| == rx.header.payloadSize
    ensures var r := DataInDone(rx, bytes, ok); RxInv(r.rx, deleted || r.kills)
  {
    var off := rx.phase.piece.off;
    var end := off + |bytes|;
    HistoryLast(rx.received, rx.dispatched, bytes, []);
    var rx1 := rx.(payload := Patched(rx.payload, off, bytes), received := AddReceived(rx.received, bytes, []));
    assert rx1.payload[..end] == rx.payload[..off] + bytes;
    assert rx1.payload[..|rx1.payload|] == rx1.payload;
    if end == rx.header.payloadSize && rx.header.objectCount == 0 {
      assert rx.ids == [];
      DispatchKeeps(rx1, ok, deleted);
    }
  }

  lemma ObjectInKeeps(rx: Receiver, ids: seq<u32>, actual: nat, ok: bool, deleted: bool)
    requires RxInv(rx, deleted) && rx.phase.AwaitObjects?
    ensures var r := ObjectInDone(rx, ids, actual, ok); RxInv(r.rx, deleted || r.kills)
  {
    if actual == 4 * rx.header.objectCount && |ids| == rx.header.objectCount {
      HistoryLast(rx.received, rx.dispatched, [], ids);
      var rx1 := rx.(ids := ids, received := AddReceived(rx.received, [], ids));
      assert rx.payload + [] == rx.payload && [] + ids == ids;
      DispatchKeeps(rx1, ok, deleted);
    }
  }

  // ---------------------------------------------------------------- pending requests

  ghost predicate Distinct(rs: seq<Request>) { forall i, j :: 0 <= i < j < |rs| ==> rs[i].tag != rs[j].tag }

  ghost predicate IsSent(sent: seq<OutLog>, rq: Request) { exists k :: 0 <= k < |sent| && sent[k].rq == rq }

  ghost predicate Responded(rs: seq<Response>, tag: u32) { exists k :: 0 <= k < |rs| && rs[k].tag == tag }

  ghost predicate SentOnce(sent: seq<OutLog>) { forall i, j :: 0 <= i < j < |sent| ==> sent[i].rq.tag != sent[j].rq.tag }

  /** The pending requests are those sent and not answered, each once; only what was sent is answered, by a response. */
  ghost predicate PendingInv(sent: seq<OutLog>, dispatched: seq<Response>, pending: seq<Request>, answered: set<u32>) {
    && SentOnce(sent) && Distinct(pending)
    && (forall r :: r in pending <==> IsSent(sent, r) && r.tag !in answered)
    && (forall t :: t in answered ==> Responded(dispatched, t) && !NewTag(sent, t))
  }

  lemma {:induction false} WithoutTagKeeps(rs: seq<Request>, tag: u32)
    requires Distinct(rs)
    ensures Distinct(WithoutTag(rs, tag)) && forall r :: r in WithoutTag(rs, tag) <==> r in rs && r.tag != tag
  {
    if rs != [] {
      WithoutTagKeeps(rs[1..], tag);
      var v, w := WithoutTag(rs[1..], tag), WithoutTag(rs, tag);
      assert rs == [rs[0]] + rs[1..];
      if rs[0].tag == tag {
        assert w == v;
      } else {
        assert w == [rs[0]] + v;
        forall j | 1 <= j < |w| ensures w[0].tag != w[j].tag {
          assert w[j] in v && w[j] in rs[1..];
        }
      }
    }
  }

  lemma SendKeepsPending(sent: seq<OutLog>, dispatched: seq<Response>, pending: seq<Request>, answered: set<u32>, rq: Request)
    requires PendingInv(sent, dispatched, pending, answered) && NewTag(sent, rq.tag)
    ensures PendingInv(sent + [OutLog(rq, [])], dispatched, pending + [rq], answered)
  {
    var sent', pending' := sent + [OutLog(rq, [])], pending + [rq];
    forall r ensures r in pending' <==> IsSent(sent', r) && r.tag !in answered {
      assert sent'[|sent|].rq == rq;
      if IsSent(sent, r) {
        var k :| 0 <= k < |sent| && sent[k].rq == r;
        assert sent'[k].rq == r;
      }
    }
    forall i, j | 0 <= i < j < |pending'| ensures pending'[i].tag != pending'[j].tag {
      assert pending'[i] in pending && IsSent(sent, pending'[i]);
    }
    forall t | t in answered ensures !NewTag(sent', t) {
      var k :| 0 <= k < |sent| && sent[k].rq.tag == t;
      assert sent'[k].rq.tag == t;
    }
  }

  lemma DispatchKeepsPending(sent: seq<OutLog>, dispatched: seq<Response>, pending: seq<Request>, answered: set<u32>, rs: Response)
    requires PendingInv(sent, dispatched, pending, answered)
    ensures PendingInv(sent, dispatched + [rs], WithoutTag(pending, rs.tag),
                       if HasTag(pending, rs.tag) then answered + {rs.tag} else answered)
  {
    WithoutTagKeeps(pending, rs.tag);
    var dispatched' := dispatched + [rs];
    var answered' := if HasTag(pending, rs.tag) then answered + {rs.tag} else answered;
    assert dispatched'[|dispatched|].tag == rs.tag;
    forall t | t in answered' ensures Responded(dispatched', t) && !NewTag(sent, t) {
      if t in answered {
        var k :| 0 <= k < |dispatched| && dispatched[k].tag == t;
        assert dispatched'[k].tag == t;
      } else {
        var i :| 0 <= i < |pending| && pending[i].tag == t;
        assert pending[i] in pending && IsSent(sent, pending[i]);
      }
    }
    forall r | r in pending && r.tag == rs.tag ensures rs.tag in answered' {
    }
  }

  /** A piece on the endpoint does not change which requests were sent. */
  lemma PiecesKeepPending(sent: seq<OutLog>, piece: seq<byte>, dispatched: seq<Response>, pending: seq<Request>, answered: set<u32>)
    requires PendingInv(sent, dispatched, pending, answered)
    ensures PendingInv(AddPiece(sent, piece), dispatched, pending, answered)
  {
    var sent' := AddPiece(sent, piece);
    assert forall k :: 0 <= k < |sent| ==> sent'[k].rq == sent[k].rq;
    forall r ensures IsSent(sent', r) <==> IsSent(sent, r) {
      if IsSent(sent, r) {
        var k :| 0 <= k < |sent| && sent[k].rq == r;
        assert sent'[k].rq == r;
      }
    }
    forall t | t in answered ensures !NewTag(sent', t) {
      var k :| 0 <= k < |sent| && sent[k].rq.tag == t;
      assert sent'[k].rq.tag == t;
    }
  }

  // ---------------------------------------------------------------- runs

  ghost predicate Inv(d: Device) {
    && TxInv(d.tx, d.deleted) && RxInv(d.rx, d.deleted)
    && PendingInv(d.tx.sent, d.rx.dispatched, d.pending, d.answered)
    && (d.destroyed ==> d.errors == NonMeta(d.pending))
  }

  /** A receiving handler dispatches a response with the tag it reports, or none. */
  ghost predicate Reports(rx: Receiver, r: RxResult) {
    if r.tag.None? then r.rx.dispatched == rx.dispatched
    else |r.rx.dispatched| == |rx.dispatched| + 1 && r.rx.dispatched[..|rx.dispatched|] == rx.dispatched &&
         r.rx.dispatched[|rx.dispatched|].tag == r.tag.value
  }

  lemma RxKeepsPending(d: Device, r: RxResult)
    requires Inv(d) && Reports(d.rx, r) && RxInv(r.rx, d.deleted || r.kills) && !d.destroyed
    ensures Inv(AfterRx(d, r))
  {
    if r.tag.Some? {
      var rs := r.rx.dispatched[|d.rx.dispatched|];
      assert r.rx.dispatched == d.rx.dispatched + [rs];
      DispatchKeepsPending(d.tx.sent, d.rx.dispatched, d.pending, d.answered, rs);
    }
    TxStaysDeleted(d.tx, d.deleted, r.kills);
  }

  lemma TxStaysDeleted(tx: Sender, deleted: bool, kills: bool)
    requires TxInv(tx, deleted)
    ensures TxInv(tx, deleted || kills)
  { }

  lemma SendStepKeeps(d: Device, rq: Request, ok: bool)
    requires Inv(d) && Enabled(d, SendEvent(rq, ok))
    ensures Inv(AfterTx(d, Send(d.tx, rq, ok)).(pending := d.pending + [rq]))
  {
    SendKeeps(d.tx, rq, ok);
    SendKeepsPending(d.tx.sent, d.rx.dispatched, d.pending, d.answered, rq);
    RxStaysDeleted(d.rx, d.deleted, !ok);
  }

  lemma RxStaysDeleted(rx: Receiver, deleted: bool, kills: bool)
    requires RxInv(rx, deleted)
    ensures RxInv(rx, deleted || kills)
  { }

  /** Nothing but the log and the flags of the sender changes when a piece ends. */
  lemma DataOutSent(tx: Sender, actual: nat, ok: bool) returns (piece: seq<byte>)
    requires tx.dataOut.Some? && tx.dataOut.value.off + actual <= |tx.request.payload|
    ensures DataOutDone(tx, actual, ok).tx.sent == AddPiece(tx.sent, piece)
  {
    var p := tx.dataOut.value;
    piece := tx.request.payload[p.off..p.off + actual];
  }

  lemma PieceStepKeeps(d: Device, r: TxResult, piece: seq<byte>)
    requires Inv(d) && TxInv(r.tx, d.deleted || r.kills) && r.tx.sent == AddPiece(d.tx.sent, piece) && !d.destroyed
    ensures Inv(AfterTx(d, r))
  {
    PiecesKeepPending(d.tx.sent, piece, d.rx.dispatched, d.pending, d.answered);
    RxStaysDeleted(d.rx, d.deleted, r.kills);
  }

  lemma DataOutStepKeeps(d: Device, actual: nat, ok: bool)
    requires Inv(d) && !d.destroyed && d.tx.dataOut.Some? && actual <= d.tx.dataOut.value.len
    ensures d.tx.dataOut.value.off + actual <= |d.tx.request.payload| && Inv(AfterTx(d, DataOutDone(d.tx, actual, ok)))
  {
    DataOutKeeps(d.tx, actual, ok, d.deleted);
    var piece := DataOutSent(d.tx, actual, ok);
    PieceStepKeeps(d, DataOutDone(d.tx, actual, ok), piece);
  }

  lemma TxStepKeeps(d: Device, r: TxResult)
    requires Inv(d) && TxInv(r.tx, d.deleted || r.kills) && r.tx.sent == d.tx.sent && !d.destroyed
    ensures Inv(AfterTx(d, r))
  {
    RxStaysDeleted(d.rx, d.deleted, r.kills);
  }

  lemma MetaInStepKeeps(d: Device, h: Header, ok: bool)
    requires Inv(d) && Enabled(d, MetaInEvent(h, ok))
    ensures Inv(AfterRx(d, MetaInDone(d.rx, h, ok)))
  {
    MetaInKeeps(d.rx, h, ok, d.deleted);
    RxKeepsPending(d, MetaInDone(d.rx, h, ok));
  }

  lemma DataInStepKeeps(d: Device, bytes: seq<byte>, ok: bool)
    requires Inv(d) && Enabled(d, DataInEvent(bytes, ok))
    ensures d.rx.phase.piece.off + |bytes| <= |d.rx.payload| == d.rx.header.payloadSize
    ensures Inv(AfterRx(d, DataInDone(d.rx, bytes, ok)))
  {
    DataInKeeps(d.rx, bytes, ok, d.deleted);
    RxKeepsPending(d, DataInDone(d.rx, bytes, ok));
  }

  lemma ObjectInStepKeeps(d: Device, ids: seq<u32>, actual: nat, ok: bool)
    requires Inv(d) && Enabled(d, ObjectInEvent(ids, actual, ok))
    ensures Inv(AfterRx(d, ObjectInDone(d.rx, ids, actual, ok)))
  {
    ObjectInKeeps(d.rx, ids, actual, ok, d.deleted);
    RxKeepsPending(d, ObjectInDone(d.rx, ids, actual, ok));
  }

  /** Every handler keeps the invariants of both chains and of the pending requests. */
  lemma StepKeeps(d: Device, e: Event)
    requires Inv(d) && Enabled(d, e)
    ensures Inv(Step(d, e))
  {
    match e {
      case SendEvent(rq, ok) => SendStepKeeps(d, rq, ok);
      case MetaOutEvent(ok) =>
        MetaOutKeeps(d.tx, ok, d.deleted);
        TxStepKeeps(d, MetaOutDone(d.tx, ok));
      case DataOutEvent(actual, ok) => DataOutStepKeeps(d, actual, ok);
      case OutFailedEvent => TxStepKeeps(d, OutFailed(d.tx));
      case MetaInTimeout(ok) => RxKeepsPending(d, Submit(d.rx, AwaitHeader, ok));
      case InFailedEvent => RxKeepsPending(d, RxResult(d.rx.(phase := Stopped), true, None));
      case DestroyEvent =>
      case MetaInEvent(h, ok) => MetaInStepKeeps(d, h, ok);
      case DataInEvent(bytes, ok) => DataInStepKeeps(d, bytes, ok);
      case ObjectInEvent(ids, actual, ok) => ObjectInStepKeeps(d, ids, actual, ok);
    }
  }

  ghost predicate Legal(d: Device, events: seq<Event>)
    decreases events
  {
    events == [] || (Enabled(d, events[0]) && Legal(Step(d, events[0]), events[1..]))
  }

  ghost function Exec(d: Device, events: seq<Event>): Device
    requires Legal(d, events)
    decreases events
  {
    if events == [] then d else Exec(Step(d, events[0]), events[1..])
  }

  /** The header transfer is submitted and nothing else has happened. */
  function Begun(): Device {
    Device(Sender(false, false, false, false, None, Request(META_CLIENT, META_CLIENT, []), []),
           Receiver(AwaitHeader, Header(0, 0, 0, 0, 0), [], [], [], [], []), [], {}, false, false, [])
  }

  lemma {:induction false} RunKeeps(d: Device, events: seq<Event>)
    requires Inv(d) && Legal(d, events)
    ensures Inv(Exec(d, events))
    decreases events
  {
    if events != [] {
      StepKeeps(d, events[0]);
      RunKeeps(Step(d, events[0]), events[1..]);
    }
  }

  /**
   However transfers are cut: each request but the current one is on the endpoint whole, in pieces of limited size, and
   the current one up to some point; while the device is available all of them are.
   */
  lemma RequestsGoOutWhole(events: seq<Event>, k: nat)
    requires Legal(Begun(), events) && k < |Exec(Begun(), events).tx.sent|
    ensures var tx := Exec(Begun(), events).tx;
            Partial(tx.sent[k]) && (k < |tx.sent| - 1 || !tx.busy ==> Whole(tx.sent[k]))
  {
    RunKeeps(Begun(), events);
  }

  /**
   Each header leads to one response with exactly the payload and object ids that arrived for it, before the next header
   is asked for; the responses of clients are posted, in order.
   */
  lemma ResponsesAreWhatArrived(events: seq<Event>)
    requires Legal(Begun(), events)
    ensures var rx := Exec(Begun(), events).rx;
            History(rx.received, rx.dispatched) && rx.posted == Clients(rx.dispatched) &&
            (rx.phase.AwaitHeader? ==> |rx.received| == |rx.dispatched|)
  {
    RunKeeps(Begun(), events);
  }

  lemma {:induction false} NonMetaExactly(rs: seq<Request>)
    requires Distinct(rs)
    ensures Distinct(NonMeta(rs)) && forall r :: r in NonMeta(rs) <==> r in rs && r.client != META_CLIENT
  {
    if rs != [] {
      NonMetaExactly(rs[1..]);
      var v, w := NonMeta(rs[1..]), NonMeta(rs);
      assert rs == [rs[0]] + rs[1..];
      if rs[0].client == META_CLIENT {
        assert w == v;
      } else {
        assert w == [rs[0]] + v;
        forall j | 1 <= j < |w| ensures w[0].tag != w[j].tag {
          assert w[j] in v && w[j] in rs[1..];
        }
      }
    }
  }

  /** When the device is gone, every request of a client was answered by the device or gets one transfer error, not both. */
  lemma AnsweredOrFailed(events: seq<Event>, rq: Request)
    requires Legal(Begun(), events) && Exec(Begun(), events).destroyed
    requires IsSent(Exec(Begun(), events).tx.sent, rq) && rq.client != META_CLIENT
    ensures var d := Exec(Begun(), events);
            (rq in d.errors <==> rq.tag !in d.answered) && Distinct(d.errors) &&
            (rq.tag in d.answered ==> Responded(d.rx.dispatched, rq.tag))
  {
    RunKeeps(Begun(), events);
    NonMetaExactly(Exec(Begun(), events).pending);
  }
}
