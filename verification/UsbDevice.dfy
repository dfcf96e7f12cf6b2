/** The completion handlers of a USB device, on its fields, proved to do what `UsbMachine` says. */
module UsbDevices {
  import opened Common
  import opened LittleEndian
  import opened UsbMachine

  class UsbDevice {
    var busy: bool
    var transferringMeta: bool
    var transferringData: bool
    var requestOut: Request
    /** The transfers that are submitted: header out, data out, and the incoming one. */
    var metaOut: bool
    var dataOut: Option<Piece>
    var phase: InPhase
    var headerIn: Header
    var payloadIn: seq<byte>
    var idsIn: seq<u32>
    var pendingRequests: seq<Request>
    var deletionFlag: bool
    // What went over the bus and to the daemon.
    var sent: seq<OutLog>
    var received: seq<InLog>
    var dispatched: seq<Response>
    var posted: seq<Response>

    ghost function Tx(): Sender
      reads this
    {
      Sender(busy, transferringMeta, transferringData, metaOut, dataOut, requestOut, sent)
    }

    ghost function Rx(): Receiver
      reads this
    {
      Receiver(phase, headerIn, payloadIn, idsIn, received, dispatched, posted)
    }

    constructor ()
      ensures Tx() == Begun().tx && Rx() == Begun().rx && pendingRequests == [] && !deletionFlag
    {
      busy, transferringMeta, transferringData := false, false, false;
      requestOut, metaOut, dataOut := Request(META_CLIENT, META_CLIENT, []), false, None;
      phase, headerIn, payloadIn, idsIn := AwaitHeader, Header(0, 0, 0, 0, 0), [], [];
      pendingRequests, deletionFlag := [], false;
      sent, received, dispatched, posted := [], [], [], [];
    }

    method SendRequest(rq: Request, ok: bool)
      requires !busy && !deletionFlag
      modifies this
      ensures Tx() == Send(old(Tx()), rq, ok).tx && deletionFlag == Send(old(Tx()), rq, ok).kills
      ensures pendingRequests == old(pendingRequests) + [rq] && Rx() == old(Rx())
    {
      busy := true;
      requestOut := rq;
      pendingRequests := pendingRequests + [rq];
      sent := sent + [OutLog(rq, [])];
      transferringMeta := true;
      metaOut := ok;
      if !ok {
        deletionFlag := true;
      }
    }

    method MetaOutTransferCompleted(ok: bool)
      requires metaOut
      modifies this
      ensures Tx() == MetaOutDone(old(Tx()), ok).tx
      ensures deletionFlag == (old(deletionFlag) || MetaOutDone(old(Tx()), ok).kills)
      ensures pendingRequests == old(pendingRequests) && Rx() == old(Rx())
    {
      metaOut := false;
      if |requestOut.payload| > 0 {
        transferringData := true;
        if !ok {
          deletionFlag := true;
          return;
        }
        dataOut := Some(Piece(0, Limit(|requestOut.payload|)));
      }
      transferringMeta := false;
      if !transferringMeta && !transferringData {
        busy := false;
      }
    }

    method DataOutTransferCompleted(actual: nat, ok: bool)
      requires dataOut.Some? && dataOut.value.off + actual <= |requestOut.payload|
      modifies this
      ensures Tx() == DataOutDone(old(Tx()), actual, ok).tx
      ensures deletionFlag == (old(deletionFlag) || DataOutDone(old(Tx()), actual, ok).kills)
      ensures pendingRequests == old(pendingRequests) && Rx() == old(Rx())
    {
      var begin := dataOut.value.off;
      var read := begin + actual;
      var remaining := |requestOut.payload| - read;
      sent := AddPiece(sent, requestOut.payload[begin..read]);
      dataOut := None;
      if remaining > 0 {
        if !ok {
          deletionFlag := true;
          return;
        }
        dataOut := Some(Piece(read, Limit(remaining)));
      } else {
        transferringData := false;
        if !transferringMeta && !transferringData {
          busy := false;
        }
      }
    }

    ghost predicate FollowsRx(pending: seq<Request>, deleted: bool, r: RxResult)
      reads this
    {
      && Rx() == r.rx && deletionFlag == (deleted || r.kills)
      && pendingRequests == if r.tag.Some? then WithoutTag(pending, r.tag.value) else pending
    }

    method SubmitIn(next: InPhase, ok: bool)
      modifies this`phase, this`deletionFlag
      ensures phase == (if ok then next else Stopped) && deletionFlag == (old(deletionFlag) || !ok)
    {
      phase := if ok then next else Stopped;
      if !ok {
        deletionFlag := true;
      }
    }

    /** Removes every pending request with the tag. */
    method RemovePending(tag: u32)
      modifies this`pendingRequests
      ensures pendingRequests == WithoutTag(old(pendingRequests), tag)
    {
      var kept := [];
      var i := 0;
      assert pendingRequests[0..] == pendingRequests;
      while i < |pendingRequests|
        invariant 0 <= i <= |pendingRequests| && pendingRequests == old(pendingRequests)
        invariant kept + WithoutTag(pendingRequests[i..], tag) == WithoutTag(pendingRequests, tag)
      {
        assert pendingRequests[i..][1..] == pendingRequests[i + 1..];
        if pendingRequests[i].tag != tag {
          kept := kept + [pendingRequests[i]];
        }
        i := i + 1;
      }
      assert kept + [] == kept;
      pendingRequests := kept;
    }

    method DispatchResponse(ok: bool)
      modifies this
      ensures FollowsRx(old(pendingRequests), old(deletionFlag), Dispatch(old(Rx()), ok)) && Tx() == old(Tx())
    {
      var rs := Response(headerIn.client, headerIn.tag, headerIn.code, payloadIn, idsIn);
      RemovePending(rs.tag);
      dispatched := dispatched + [rs];
      if rs.client == META_CLIENT {
        if rs.code != 0 {
          deletionFlag := true;
        }
      } else {
        posted := posted + [rs];
      }
      SubmitIn(AwaitHeader, ok);
    }

    method MetaInTransferCompleted(h: Header, ok: bool)
      modifies this
      ensures FollowsRx(old(pendingRequests), old(deletionFlag), MetaInDone(old(Rx()), h, ok)) && Tx() == old(Tx())
    {
      headerIn := h;
      payloadIn := Resized(payloadIn, h.payloadSize, 0);
      idsIn := Resized(idsIn, h.objectCount, 0);
      received := received + [InLog(h, [], [])];
      if h.payloadSize > 0 {
        SubmitIn(AwaitData(Piece(0, Limit(h.payloadSize))), ok);
      } else if h.objectCount > 0 {
        SubmitIn(AwaitObjects, ok);
      } else {
        DispatchResponse(ok);
      }
    }

    method DataInTransferCompleted(bytes: seq<byte>, ok: bool)
      requires phase.AwaitData? && phase.piece.off + |bytes| <= |payloadIn| == headerIn.payloadSize
      modifies this
      ensures FollowsRx(old(pendingRequests), old(deletionFlag), DataInDone(old(Rx()), bytes, ok)) && Tx() == old(Tx())
    {
      var begin := phase.piece.off;
      var read := begin + |bytes|;
      var remaining := headerIn.payloadSize - read;
      payloadIn := Patched(payloadIn, begin, bytes);
      received := AddReceived(received, bytes, []);
      if remaining > 0 {
        SubmitIn(AwaitData(Piece(read, Limit(remaining))), ok);
      } else if headerIn.objectCount > 0 {
        SubmitIn(AwaitObjects, ok);
      } else {
        DispatchResponse(ok);
      }
    }

    method ObjectInTransferCompleted(ids: seq<u32>, actual: nat, ok: bool)
      modifies this
      ensures FollowsRx(old(pendingRequests), old(deletionFlag), ObjectInDone(old(Rx()), ids, actual, ok))
      ensures Tx() == old(Tx())
    {
      if actual != 4 * headerIn.objectCount || |ids| != headerIn.objectCount {
        phase, deletionFlag := Stopped, true;
        return;
      }
      idsIn := ids;
      received := AddReceived(received, [], ids);
      DispatchResponse(ok);
    }

    /** The transfer errors the destructor posts. */
    method Errors() returns (errors: seq<Request>)
      ensures errors == NonMeta(pendingRequests)
    {
      errors := [];
      var i := 0;
      assert pendingRequests[0..] == pendingRequests;
      while i < |pendingRequests|
        invariant 0 <= i <= |pendingRequests|
        invariant errors + NonMeta(pendingRequests[i..]) == NonMeta(pendingRequests)
      {
        assert pendingRequests[i..][1..] == pendingRequests[i + 1..];
        if pendingRequests[i].client != META_CLIENT {
          errors := errors + [pendingRequests[i]];
        }
        i := i + 1;
      }
      assert errors + [] == errors;
    }
  }
}
