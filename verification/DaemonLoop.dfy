/** The daemon's methods, proved to do what `Daemons` says. */
module DaemonLoop {
  import opened Common
  import opened Totals
  import opened Daemons

  function QueueCount(queue: seq<Item>, o: nat): nat {
    if queue == [] then 0
    else (if queue[0].Resp? then Count(queue[0].rs.objects, o) else 0) + QueueCount(queue[1..], o)
  }

  function OwnedCount(clients: seq<Client>, o: nat): nat {
    if clients == [] then 0 else Count(clients[0].owned, o) + OwnedCount(clients[1..], o)
  }

  lemma {:induction false} QueueCountIsTotal(queue: seq<Item>, o: nat)
    ensures QueueCount(queue, o) == Total(queue, InResponse(o))
  {
    if queue != [] { QueueCountIsTotal(queue[1..], o); }
  }

  lemma {:induction false} OwnedCountIsTotal(clients: seq<Client>, o: nat)
    ensures OwnedCount(clients, o) == Total(clients, InOwned(o))
  {
    if clients != [] { OwnedCountIsTotal(clients[1..], o); }
  }

  class Daemon {
    var queue: seq<Item>
    var clients: seq<Client>
    var present: bool
    var sent: seq<Request>
    var dropped: seq<Request>
    var delivered: seq<Delivery>
    var promises: map<nat, nat>
    var resolved: seq<nat>
    var next: nat
    /** The random tags of the local client. */
    const rng: nat -> nat

    ghost function Abs(): State
      reads this
    {
      State(queue, clients, present, sent, dropped, delivered, promises, resolved, next)
    }

    constructor (localId: nat, rng: nat -> nat)
      ensures Abs() == Start(localId).s && this.rng == rng
    {
      this.rng := rng;
      queue, clients, present := [], [Client(localId, [], true, true, false, false)], false;
      sent, dropped, delivered := [], [], [];
      promises, resolved, next := map[], [], 0;
    }

    method PostRequest(rq: Request)
      modifies this`queue
      ensures Abs() == Post(old(Abs()), Req(rq))
    {
      queue := queue + [Req(rq)];
    }

    method PostResponse(rs: Response)
      modifies this`queue
      ensures Abs() == Post(old(Abs()), Resp(rs))
    {
      queue := queue + [Resp(rs)];
    }

    method LocalSendRequest(target: nat, close: bool)
      modifies this`queue, this`promises, this`next
      ensures Abs() == SendLocal(old(Abs()), target, close, rng)
    {
      var tag := rng(next);
      promises := promises[tag := next];
      next := next + 1;
      PostRequest(Request(LOCAL, DEVICE, target, close, false, tag));
    }

    method LocalPostResponse(rs: Response)
      modifies this`promises, this`resolved
      ensures Abs() == ResolveLocal(old(Abs()), rs)
    {
      if rs.tag !in promises { return; }
      var promise := promises[rs.tag];
      promises := promises - {rs.tag};
      resolved := resolved + [promise];
    }

    /** References to these objects go away; the last one to an object runs its destructor. */
    method ReleaseObjects(objects: seq<nat>)
      modifies this`queue, this`promises, this`next
      ensures Abs() == Release(old(Abs()), objects, rng)
    {
      var i := 0;
      assert objects[0..] == objects;
      while i < |objects|
        invariant 0 <= i <= |objects|
        invariant Release(Abs(), objects[i..], rng) == Release(old(Abs()), objects, rng)
      {
        assert objects[i..][1..] == objects[i + 1..];
        QueueCountIsTotal(queue, objects[i]);
        OwnedCountIsTotal(clients, objects[i]);
        if QueueCount(queue, objects[i]) + OwnedCount(clients, objects[i]) == 0 {
          LocalSendRequest(objects[i], true);
        }
        i := i + 1;
      }
    }

    /** Erases every object with this id from what the client owns. */
    method DisownObject(client: nat, target: nat)
      requires client < |clients|
      modifies this`clients
      ensures clients == old(clients)[client := old(clients)[client].(owned := Without(old(clients)[client].owned, target))]
    {
      var owned := clients[client].owned;
      ghost var all := owned;
      var i := 0;
      assert owned[..0] + Without(owned[0..], target) == Without(all, target) by { assert owned[0..] == owned; }
      while i < |owned|
        invariant 0 <= i <= |owned| && clients == old(clients)
        invariant owned[..i] + Without(owned[i..], target) == Without(all, target)
        decreases |owned| - i
      {
        Erases(owned, i, target);
        if owned[i] == target {
          owned := owned[..i] + owned[i + 1..];
        } else {
          i := i + 1;
        }
      }
      assert owned[..i] == owned && owned[..i] + [] == owned;
      clients := clients[client := clients[client].(owned := owned)];
    }

    /** The first listed client with this id, unless it expired or is being deleted. */
    method FindClient(id: nat) returns (r: Option<nat>)
      ensures r == GetClient(clients, id)
    {
      var i := 0;
      assert clients[0..] == clients;
      while i < |clients|
        invariant 0 <= i <= |clients|
        invariant GetClient(clients, id) == Shift(GetClient(clients[i..], id), i)
      {
        assert clients[i..][1..] == clients[i + 1..];
        if clients[i].listed && clients[i].id == id {
          return if clients[i].gone || clients[i].deleted then None else Some(i);
        }
        i := i + 1;
      }
      return None;
    }

    /** The daemon's own object answers the commands it knows, other commands and objects are errors. */
    method HandleMeta(rq: Request)
      requires rq.client < |clients|
      modifies this`queue
      ensures Abs() == Post(old(Abs()), Answer(old(Abs()), rq, MetaOk(rq)))
    {
      var ok := false;
      if rq.target == 0 {
        if !rq.close {
          ok := rq.known;
        }
      }
      PostResponse(Response(clients[rq.client].id, ok, rq.tag, []));
    }

    method HandleRequest(rq: Request)
      requires rq.client < |clients|
      modifies this
      ensures Abs() == DispatchRequest(old(Abs()), rq)
    {
      if rq.device == META {
        HandleMeta(rq);
        return;
      }
      if rq.device != DEVICE || !present {
        dropped := dropped + [rq];
        PostResponse(Response(clients[rq.client].id, false, rq.tag, []));
        return;
      }
      if rq.close {
        DisownObject(rq.client, rq.target);
      }
      sent := sent + [rq];
    }

    method HandleResponse(rs: Response)
      modifies this
      ensures Abs() == DispatchResponse(old(Abs()), rs, rng)
    {
      var r := FindClient(rs.client);
      if r.None? {
        ReleaseObjects(rs.objects);
        return;
      }
      var c := clients[r.value];
      clients := clients[r.value := c.(owned := c.owned + rs.objects)];
      delivered := delivered + [Delivery(r.value, c.id, rs)];
      if r.value == LOCAL {
        LocalPostResponse(rs);
      }
    }

    method Process()
      requires queue != [] && (queue[0].Req? ==> queue[0].rq.client < |clients|)
      modifies this
      ensures Abs() == Daemons.Process(old(Abs()), rng)
    {
      var item := queue[0];
      queue := queue[1..];
      match item {
        case Awaken =>
        case Req(rq) => HandleRequest(rq);
        case Resp(rs) => HandleResponse(rs);
      }
    }

    method DestroyClient(c: nat)
      requires c < |clients|
      modifies this
      ensures Abs() == Destroy(old(Abs()), c, rng)
    {
      var was := clients[c];
      clients := clients[c := was.(owned := [], gone := true)];
      ReleaseObjects(was.owned);
    }

    /** A device appears: its objects are reset by closing object 0. */
    method AddDevice()
      modifies this
      ensures Abs() == SendLocal(old(Abs()).(present := true), 0, true, rng)
    {
      present := true;
      LocalSendRequest(0, true);
    }
  }

  function Shift(r: Option<nat>, i: nat): Option<nat> { if r.None? then None else Some(r.value + i) }

  lemma Erases(owned: seq<nat>, i: nat, target: nat)
    requires i < |owned|
    ensures var rest := owned[..i] + Without(owned[i..], target);
            if owned[i] == target then
              var erased := owned[..i] + owned[i + 1..]; erased[..i] + Without(erased[i..], target) == rest
            else owned[..i + 1] + Without(owned[i + 1..], target) == rest
  {
    assert owned[i..][1..] == owned[i + 1..];
    if owned[i] == target {
      var erased := owned[..i] + owned[i + 1..];
      assert erased[..i] == owned[..i] && erased[i..] == owned[i + 1..];
      assert [] + Without(owned[i + 1..], target) == Without(owned[i + 1..], target);
    } else {
      assert owned[..i + 1] == owned[..i] + [owned[i]];
    }
  }
}
