/**
 The daemon's dispatch of requests and responses, and who holds the remote objects that responses carry, for one device.
 Remote objects are named by their ids; a client is named by its place in `clients`, the local client being the first.
 */
module Daemons {
  import opened Common
  import opened Totals

  const META := 0
  const DEVICE := 1
  const LOCAL := 0

  /** A request to close its object, or any other; `known` tells one the daemon's own object understands. */
  datatype Request = Request(client: nat, device: nat, target: nat, close: bool, known: bool, tag: nat)

  /** `client` is a client id, `objects` the remote objects that came with the response. */
  datatype Response = Response(client: nat, ok: bool, tag: nat, objects: seq<nat>)

  datatype Item = Awaken | Req(rq: Request) | Resp(rs: Response)

  /** `listed`: in the daemon's map; `kept`: its frontend has it; `gone`: destroyed. */
  datatype Client = Client(id: nat, owned: seq<nat>, listed: bool, kept: bool, deleted: bool, gone: bool)

  datatype Delivery = Delivery(client: nat, id: nat, rs: Response)

  /** `dropped` are requests the daemon answered itself because there was no device; promises are numbered. */
  datatype State = State(queue: seq<Item>, clients: seq<Client>, present: bool,
                         sent: seq<Request>, dropped: seq<Request>, delivered: seq<Delivery>,
                         promises: map<nat, nat>, resolved: seq<nat>, next: nat)

  // ---------------------------------------------------------------- what the daemon does

  function Post(s: State, item: Item): State { s.(queue := s.queue + [item]) }

  /** `LocalClient::SendRequest`: a promise under a random tag, and the request in the local client's name. */
  function SendLocal(s: State, target: nat, close: bool, rng: nat -> nat): State {
    var tag := rng(s.next);
    Post(s.(promises := s.promises[tag := s.next], next := s.next + 1), Req(Request(LOCAL, DEVICE, target, close, false, tag)))
  }

  /** `LocalClient::PostResponse`: resolves the promise of the tag, if there is one. */
  function ResolveLocal(s: State, rs: Response): State {
    if rs.tag in s.promises then s.(resolved := s.resolved + [s.promises[rs.tag]], promises := s.promises - {rs.tag}) else s
  }

  function Count(ids: seq<nat>, o: nat): nat {
    if ids == [] then 0 else (if ids[0] == o then 1 else 0) + Count(ids[1..], o)
  }

  function InResponse(o: nat): Item -> int { (it: Item) => if it.Resp? then Count(it.rs.objects, o) else 0 }

  function InOwned(o: nat): Client -> int { (c: Client) => Count(c.owned, o) }

  /** How many holders keep the object alive. */
  ghost function Holders(s: State, o: nat): int { Total(s.queue, InResponse(o)) + Total(s.clients, InOwned(o)) }

  /** The destructor of each of these that has no other holder sends a close request through the local client. */
  ghost function Release(s: State, objects: seq<nat>, rng: nat -> nat): State
    decreases objects
  {
    if objects == [] then s
    else Release(if Holders(s, objects[0]) == 0 then SendLocal(s, objects[0], true, rng) else s, objects[1..], rng)
  }

  function Without(ids: seq<nat>, o: nat): seq<nat> {
    if ids == [] then [] else (if ids[0] == o then [] else [ids[0]]) + Without(ids[1..], o)
  }

  /** A close request disowns the object; its holder is marked so that it sends no close request of its own. */
  function Disown(s: State, rq: Request): State
    requires rq.client < |s.clients|
  {
    var c := s.clients[rq.client];
    if rq.close then s.(clients := s.clients[rq.client := c.(owned := Without(c.owned, rq.target))]) else s
  }

  function Answer(s: State, rq: Request, ok: bool): Item
    requires rq.client < |s.clients|
  {
    Resp(Response(s.clients[rq.client].id, ok, rq.tag, []))
  }

  /** The daemon's own object is number 0 and is never closed. */
  predicate MetaOk(rq: Request) { rq.target == 0 && !rq.close && rq.known }

  function DispatchRequest(s: State, rq: Request): State
    requires rq.client < |s.clients|
  {
    if rq.device == META then Post(s, Answer(s, rq, MetaOk(rq)))
    else if rq.device != DEVICE || !s.present then Post(s.(dropped := s.dropped + [rq]), Answer(s, rq, false))
    else
      var s1 := Disown(s, rq);
      s1.(sent := s1.sent + [rq])
  }

  /** The listed client with this id, unless it is destroyed or marked for deletion. */
  function GetClient(clients: seq<Client>, id: nat): (r: Option<nat>)
    ensures r.Some? ==> r.value < |clients| && clients[r.value].id == id && clients[r.value].listed
    ensures r.Some? ==> !clients[r.value].deleted && !clients[r.value].gone
  {
    if clients == [] then None
    else if clients[0].listed && clients[0].id == id then if clients[0].gone || clients[0].deleted then None else Some(0)
    else
      var r := GetClient(clients[1..], id);
      if r.None? then None else Some(r.value + 1)
  }

  /** Client `i` takes the response and the objects that came with it. */
  function Deliver(s: State, rs: Response, i: nat): State
    requires i < |s.clients|
  {
    var c := s.clients[i];
    s.(clients := s.clients[i := c.(owned := c.owned + rs.objects)], delivered := s.delivered + [Delivery(i, c.id, rs)])
  }

  ghost function DispatchResponse(s: State, rs: Response, rng: nat -> nat): State {
    var r := GetClient(s.clients, rs.client);
    if r.None? then Release(s, rs.objects, rng)
    else if r.value == LOCAL then ResolveLocal(Deliver(s, rs, r.value), rs)
    else Deliver(s, rs, r.value)
  }

  /** `Process`: takes one item off the queue. A queued request always names a client (`Sound`). */
  ghost function Process(s: State, rng: nat -> nat): State
    requires s.queue != []
  {
    var s1 := s.(queue := s.queue[1..]);
    match s.queue[0]
    case Awaken => s1
    case Req(rq) => if rq.client < |s1.clients| then DispatchRequest(s1, rq) else s1
    case Resp(rs) => DispatchResponse(s1, rs, rng)
  }

  /** The last reference to a client goes away, and with it the objects it owns. */
  ghost function Destroy(s: State, c: nat, rng: nat -> nat): State
    requires c < |s.clients|
  {
    var was := s.clients[c];
    Release(s.(clients := s.clients[c := was.(owned := [], gone := true)]), was.owned, rng)
  }

  // ---------------------------------------------------------------- runs

  datatype Event =
    | AddClient(id: nat)
    | ClientPosts(rq: Request)
    | DevicePosts(rs: Response)
    | Wake
    | ProcessOne
    | MarkDeleted(c: nat)
    | RemoveClient(c: nat)
    | DropClient(c: nat)
    | DestroyClient(c: nat)
    | AddDevice
    | RemoveDevice

  /** A run: the objects responses have carried, and those a client has asked to close. */
  datatype Run = Run(s: State, carried: set<nat>, asked: set<nat>)

  ghost predicate HoldsClient(item: Item, c: nat) { item.Req? && item.rq.client == c }

  /**
   Clients close objects they own, once each. A response brings objects no response brought before. A client is
   destroyed when its frontend dropped it and no queued request is left of it.
   */
  ghost predicate Enabled(r: Run, e: Event) {
    match e
    case AddClient(id) => forall i :: 0 <= i < |r.s.clients| && r.s.clients[i].listed ==> r.s.clients[i].id != id
    case ClientPosts(rq) =>
      && 0 < rq.client < |r.s.clients| && r.s.clients[rq.client].kept && !r.s.clients[rq.client].gone
      && (rq.close && rq.target != 0 ==>
            rq.device == DEVICE && rq.target !in r.asked && Count(r.s.clients[rq.client].owned, rq.target) > 0)
    case DevicePosts(rs) =>
      && (forall o :: o in rs.objects ==> o != 0 && o !in r.carried)
      && (forall i, j :: 0 <= i < j < |rs.objects| ==> rs.objects[i] != rs.objects[j])
    case ProcessOne => r.s.queue != []
    case MarkDeleted(c) => 0 < c < |r.s.clients|
    case RemoveClient(c) => 0 < c < |r.s.clients|
    case DropClient(c) => 0 < c < |r.s.clients|
    case DestroyClient(c) =>
      && 0 < c < |r.s.clients| && !r.s.clients[c].kept && !r.s.clients[c].gone
      && forall i :: 0 <= i < |r.s.queue| ==> !HoldsClient(r.s.queue[i], c)
    case _ => true
  }

  function SetClient(s: State, i: nat, c: Client): State
    requires i < |s.clients|
  {
    s.(clients := s.clients[i := c])
  }

  ghost function Step(r: Run, e: Event, rng: nat -> nat): Run
    requires Enabled(r, e)
  {
    var s := r.s;
    match e
    case AddClient(id) => r.(s := s.(clients := s.clients + [Client(id, [], true, true, false, false)]))
    case ClientPosts(rq) =>
      Run(Post(s, Req(rq)), r.carried, if rq.close then r.asked + {rq.target} else r.asked)
    case DevicePosts(rs) => r.(s := Post(s, Resp(rs)), carried := r.carried + (set o | o in rs.objects))
    case Wake => r.(s := Post(s, Awaken))
    case ProcessOne => r.(s := Process(s, rng))
    case MarkDeleted(c) => r.(s := SetClient(s, c, s.clients[c].(deleted := true)))
    case RemoveClient(c) => r.(s := SetClient(s, c, s.clients[c].(listed := false)))
    case DropClient(c) => r.(s := SetClient(s, c, s.clients[c].(kept := false)))
    case DestroyClient(c) => r.(s := Destroy(s, c, rng))
    case AddDevice => r.(s := SendLocal(s.(present := true), 0, true, rng))
    case RemoveDevice => r.(s := s.(present := false))
  }

  ghost predicate QueueOk(s: State) {
    forall i :: 0 <= i < |s.queue| && s.queue[i].Req? ==> s.queue[i].rq.client < |s.clients|
  }

  // ---------------------------------------------------------------- accounts of one object

  function B(b: bool): int { if b then 1 else 0 }

  predicate Closes(rq: Request, o: nat) { rq.close && rq.target == o }

  /** A close request queued by the local client, that is, by a destructor. */
  function LocalClose(o: nat): Item -> int { (it: Item) => B(it.Req? && it.rq.client == LOCAL && Closes(it.rq, o)) }

  /** A close request queued by any other client. */
  function ClientClose(o: nat): Item -> int { (it: Item) => B(it.Req? && it.rq.client != LOCAL && Closes(it.rq, o)) }

  function Closed(o: nat): Request -> int { (rq: Request) => B(Closes(rq, o)) }

  function LostClose(o: nat): Request -> int { (rq: Request) => B(rq.client == LOCAL && Closes(rq, o)) }

  /** Every carried object has one holder, or one close request of a destructor, or one close request sent to the device. */
  ghost predicate Accounted(r: Run, o: nat) {
    Holders(r.s, o) + Total(r.s.queue, LocalClose(o)) + Total(r.s.sent, Closed(o)) + Total(r.s.dropped, LostClose(o))
    == B(o in r.carried)
  }

  /** A client that asked to close the object still owns it. */
  ghost predicate AskersOwn(s: State, o: nat) {
    forall i :: 0 <= i < |s.queue| ==> AskerOwns(s, s.queue[i], o)
  }

  ghost predicate AskerOwns(s: State, item: Item, o: nat) {
    item.Req? ==>
      && item.rq.client < |s.clients|
      && (item.rq.client != LOCAL && Closes(item.rq, o) ==>
            item.rq.device == DEVICE && Count(s.clients[item.rq.client].owned, o) > 0)
  }

  ghost predicate Inv(r: Run, o: nat) {
    && |r.s.clients| > 0 && AskersOwn(r.s, o)
    && Accounted(r, o)
    && Total(r.s.queue, ClientClose(o)) <= B(o in r.asked)
  }

  lemma CountsNonNegative(s: State, o: nat)
    ensures Total(s.queue, InResponse(o)) >= 0 && Total(s.clients, InOwned(o)) >= 0
    ensures Total(s.queue, LocalClose(o)) >= 0 && Total(s.queue, ClientClose(o)) >= 0
    ensures Total(s.sent, Closed(o)) >= 0 && Total(s.dropped, LostClose(o)) >= 0
  {
    TotalNonNegative(s.queue, InResponse(o));
    TotalNonNegative(s.clients, InOwned(o));
    TotalNonNegative(s.queue, LocalClose(o));
    TotalNonNegative(s.queue, ClientClose(o));
    TotalNonNegative(s.sent, Closed(o));
    TotalNonNegative(s.dropped, LostClose(o));
  }

  lemma PostTotals(queue: seq<Item>, item: Item, o: nat)
    ensures Total(queue + [item], InResponse(o)) == Total(queue, InResponse(o)) + InResponse(o)(item)
    ensures Total(queue + [item], LocalClose(o)) == Total(queue, LocalClose(o)) + LocalClose(o)(item)
    ensures Total(queue + [item], ClientClose(o)) == Total(queue, ClientClose(o)) + ClientClose(o)(item)
  {
    TotalAppend(queue, item, InResponse(o));
    TotalAppend(queue, item, LocalClose(o));
    TotalAppend(queue, item, ClientClose(o));
  }

  lemma PostKeepsAskers(s: State, item: Item, o: nat)
    requires AskersOwn(s, o) && AskerOwns(s, item, o)
    ensures AskersOwn(Post(s, item), o)
  { }

  /** A change that leaves the queue and only adds to what clients own. */
  lemma ClientsKeepAskers(s: State, t: State, o: nat)
    requires AskersOwn(s, o) && t.queue == s.queue && |t.clients| >= |s.clients|
    requires forall i :: 0 <= i < |s.clients| ==> Count(t.clients[i].owned, o) >= Count(s.clients[i].owned, o)
    ensures AskersOwn(t, o)
  { }

  /** Destructors add only close requests of the local client, one for each object without a holder. */
  lemma {:induction false} ReleaseAccounts(s: State, objects: seq<nat>, rng: nat -> nat, o: nat)
    requires |s.clients| > 0 && AskersOwn(s, o) && Count(objects, o) <= 1
    ensures var t := Release(s, objects, rng);
            t.clients == s.clients && t.sent == s.sent && t.dropped == s.dropped && t.delivered == s.delivered &&
            t.present == s.present && t.resolved == s.resolved
    ensures AskersOwn(Release(s, objects, rng), o)
    ensures Holders(Release(s, objects, rng), o) == Holders(s, o)
    ensures Total(Release(s, objects, rng).queue, ClientClose(o)) == Total(s.queue, ClientClose(o))
    ensures Total(Release(s, objects, rng).queue, LocalClose(o)) ==
            Total(s.queue, LocalClose(o)) + B(Count(objects, o) == 1 && Holders(s, o) == 0)
    decreases objects
  {
    if objects != [] {
      if Holders(s, objects[0]) == 0 {
        var s1 := SendLocal(s, objects[0], true, rng);
        var item := s1.queue[|s.queue|];
        PostTotals(s.queue, item, o);
        PostKeepsAskers(s.(promises := s1.promises, next := s1.next), item, o);
        ReleaseAccounts(s1, objects[1..], rng, o);
      } else {
        ReleaseAccounts(s, objects[1..], rng, o);
      }
    }
  }

  lemma {:induction false} CountConcat(a: seq<nat>, b: seq<nat>, o: nat)
    ensures Count(a + b, o) == Count(a, o) + Count(b, o)
  {
    if a == [] {
      assert a + b == b;
    } else {
      assert (a + b)[1..] == a[1..] + b;
      CountConcat(a[1..], b, o);
    }
  }

  lemma {:induction false} CountWithout(ids: seq<nat>, x: nat, o: nat)
    ensures Count(Without(ids, x), o) == if x == o then 0 else Count(ids, o)
  {
    if ids != [] {
      CountWithout(ids[1..], x, o);
      if ids[0] == x {
        assert Without(ids, x) == Without(ids[1..], x);
      } else {
        assert Without(ids, x)[1..] == Without(ids[1..], x);
      }
    }
  }

  // ---------------------------------------------------------------- every event keeps the accounts

  lemma PostKeeps(r: Run, item: Item, carried: set<nat>, asked: set<nat>, o: nat)
    requires Inv(r, o) && AskerOwns(r.s, item, o)
    requires InResponse(o)(item) + LocalClose(o)(item) == B(o in carried) - B(o in r.carried)
    requires ClientClose(o)(item) <= B(o in asked) - B(o in r.asked)
    ensures Inv(Run(Post(r.s, item), carried, asked), o)
  {
    PostTotals(r.s.queue, item, o);
    PostKeepsAskers(r.s, item, o);
  }

  lemma {:induction false} CountDistinct(ids: seq<nat>, o: nat)
    requires forall i, j :: 0 <= i < j < |ids| ==> ids[i] != ids[j]
    ensures Count(ids, o) == if o in ids then 1 else 0
  {
    if ids != [] {
      CountDistinct(ids[1..], o);
      assert ids == [ids[0]] + ids[1..];
    }
  }

  lemma SetClientKeeps(r: Run, i: nat, c: Client, o: nat)
    requires Inv(r, o) && i < |r.s.clients| && c.owned == r.s.clients[i].owned
    ensures Inv(r.(s := SetClient(r.s, i, c)), o)
  {
    TotalUpdate(r.s.clients, i, c, InOwned(o));
    ClientsKeepAskers(r.s, SetClient(r.s, i, c), o);
  }

  lemma AddClientKeeps(r: Run, c: Client, o: nat)
    requires Inv(r, o) && c.owned == []
    ensures Inv(r.(s := r.s.(clients := r.s.clients + [c])), o)
  {
    TotalAppend(r.s.clients, c, InOwned(o));
    ClientsKeepAskers(r.s, r.s.(clients := r.s.clients + [c]), o);
  }

  lemma SendLocalKeeps(r: Run, present: bool, rng: nat -> nat, o: nat)
    requires Inv(r, o) && o != 0
    ensures Inv(r.(s := SendLocal(r.s.(present := present), 0, true, rng)), o)
  {
    var t := SendLocal(r.s.(present := present), 0, true, rng);
    PostTotals(r.s.queue, t.queue[|r.s.queue|], o);
    var before := t.(queue := r.s.queue);
    ClientsKeepAskers(r.s, before, o);
    PostKeepsAskers(before, t.queue[|r.s.queue|], o);
  }

  lemma DestroyKeeps(r: Run, c: nat, rng: nat -> nat, o: nat)
    requires Inv(r, o) && Enabled(r, DestroyClient(c))
    ensures Inv(r.(s := Destroy(r.s, c, rng)), o)
  {
    var was := r.s.clients[c];
    var empty := was.(owned := [], gone := true);
    var t := r.s.(clients := r.s.clients[c := empty]);
    TotalUpdate(r.s.clients, c, empty, InOwned(o));
    forall i | 0 <= i < |t.queue| ensures AskerOwns(t, t.queue[i], o) {
      assert AskerOwns(r.s, r.s.queue[i], o) && !HoldsClient(r.s.queue[i], c);
    }
    CountsNonNegative(r.s, o);
    CountsNonNegative(t, o);
    ReleaseAccounts(t, was.owned, rng, o);
  }

  /** The queue without its first item. */
  lemma PopAccounts(s: State, o: nat)
    requires s.queue != [] && AskersOwn(s, o)
    ensures var t := s.(queue := s.queue[1..]); AskersOwn(t, o) && AskerOwns(t, s.queue[0], o)
  { }

  /** A run whose first item has been taken off the queue: the accounts lack what the item contributed. */
  ghost predicate Taken(r: Run, item: Item, o: nat) {
    && |r.s.clients| > 0 && AskersOwn(r.s, o) && AskerOwns(r.s, item, o)
    && Holders(r.s, o) + Total(r.s.queue, LocalClose(o)) + Total(r.s.sent, Closed(o)) + Total(r.s.dropped, LostClose(o)) +
       InResponse(o)(item) + LocalClose(o)(item) == B(o in r.carried)
    && Total(r.s.queue, ClientClose(o)) + ClientClose(o)(item) <= B(o in r.asked)
  }

  lemma TakeItem(r: Run, o: nat)
    requires Inv(r, o) && r.s.queue != []
    ensures Taken(r.(s := r.s.(queue := r.s.queue[1..])), r.s.queue[0], o)
  {
    PopAccounts(r.s, o);
  }

  lemma AnswerKeeps(r: Run, rq: Request, ok: bool, dropped: seq<Request>, o: nat)
    requires Taken(r, Req(rq), o) && rq.client < |r.s.clients|
    requires Total(dropped, LostClose(o)) == Total(r.s.dropped, LostClose(o)) + LocalClose(o)(Req(rq))
    ensures Inv(r.(s := Post(r.s.(dropped := dropped), Answer(r.s, rq, ok))), o)
  {
    var item := Answer(r.s, rq, ok);
    var t := r.s.(dropped := dropped);
    PostTotals(t.queue, item, o);
    ClientsKeepAskers(r.s, t, o);
    PostKeepsAskers(t, item, o);
  }

  lemma RequestKeeps(r: Run, rq: Request, o: nat)
    requires Taken(r, Req(rq), o) && rq.client < |r.s.clients| && (rq.client == LOCAL ==> rq.device == DEVICE)
    ensures Inv(r.(s := DispatchRequest(r.s, rq)), o)
  {
    TotalAppend(r.s.dropped, rq, LostClose(o));
    if rq.device == META {
      AnswerKeeps(r, rq, MetaOk(rq), r.s.dropped, o);
    } else if rq.device != DEVICE || !r.s.present {
      AnswerKeeps(r, rq, false, r.s.dropped + [rq], o);
    } else {
      ForwardKeeps(r, rq, o);
    }
  }

  lemma ForwardKeeps(r: Run, rq: Request, o: nat)
    requires Taken(r, Req(rq), o) && rq.client < |r.s.clients|
    ensures var s1 := Disown(r.s, rq); Inv(r.(s := s1.(sent := s1.sent + [rq])), o)
  {
    var s1 := Disown(r.s, rq);
    var t := s1.(sent := s1.sent + [rq]);
    var c := r.s.clients[rq.client];
    CountsNonNegative(r.s, o);
    TotalAppend(r.s.sent, rq, Closed(o));
    if rq.close {
      CountWithout(c.owned, rq.target, o);
      TotalUpdate(r.s.clients, rq.client, c.(owned := Without(c.owned, rq.target)), InOwned(o));
      OwnerHolds(r.s, rq.client, o);
      if rq.target == o {
        NoAskers(r, rq, o);
      }
    }
    ForwardAskers(r.s, t, rq, o);
  }

  lemma OwnerHolds(s: State, c: nat, o: nat)
    requires c < |s.clients|
    ensures Count(s.clients[c].owned, o) <= Total(s.clients, InOwned(o))
  {
    TotalAtLeastTerm(s.clients, InOwned(o), c);
  }

  /** While this close request is dispatched, no other client close request for the object is queued. */
  lemma NoAskers(r: Run, rq: Request, o: nat)
    requires Taken(r, Req(rq), o) && Closes(rq, o)
    ensures rq.client != LOCAL ==> Total(r.s.queue, ClientClose(o)) == 0
    ensures rq.client == LOCAL ==> Holders(r.s, o) == 0
  {
    CountsNonNegative(r.s, o);
  }

  lemma ForwardAskers(s: State, t: State, rq: Request, o: nat)
    requires AskersOwn(s, o) && rq.client < |s.clients|
    requires t.queue == s.queue && t.clients == Disown(s, rq).clients
    requires Closes(rq, o) && rq.client != LOCAL ==> Total(s.queue, ClientClose(o)) == 0
    ensures AskersOwn(t, o)
  {
    if rq.close { CountWithout(s.clients[rq.client].owned, rq.target, o); }
    forall i | 0 <= i < |t.queue| ensures AskerOwns(t, t.queue[i], o) {
      assert AskerOwns(s, s.queue[i], o);
      TotalAtLeastTerm(s.queue, ClientClose(o), i);
    }
  }

  lemma ResponseKeeps(r: Run, rs: Response, rng: nat -> nat, o: nat)
    requires Taken(r, Resp(rs), o)
    ensures Inv(r.(s := DispatchResponse(r.s, rs, rng)), o)
  {
    CountsNonNegative(r.s, o);
    var g := GetClient(r.s.clients, rs.client);
    if g.None? {
      ReleaseAccounts(r.s, rs.objects, rng, o);
    } else {
      DeliveryKeeps(r, rs, g.value, o);
      if g.value == LOCAL { ResolveKeeps(r.(s := Deliver(r.s, rs, g.value)), rs, o); }
    }
  }

  /** The objects of a response pass to the client that gets it. */
  lemma DeliveryKeeps(r: Run, rs: Response, i: nat, o: nat)
    requires Taken(r, Resp(rs), o) && i < |r.s.clients|
    ensures Inv(r.(s := Deliver(r.s, rs, i)), o)
  {
    var c := r.s.clients[i];
    CountConcat(c.owned, rs.objects, o);
    TotalUpdate(r.s.clients, i, c.(owned := c.owned + rs.objects), InOwned(o));
    ClientsKeepAskers(r.s, Deliver(r.s, rs, i), o);
  }

  lemma ResolveKeeps(r: Run, rs: Response, o: nat)
    requires Inv(r, o)
    ensures Inv(r.(s := ResolveLocal(r.s, rs)), o)
  {
    ClientsKeepAskers(r.s, ResolveLocal(r.s, rs), o);
  }

  /** The local client only ever sends requests to the device. */
  ghost predicate LocalToDevice(s: State) {
    forall i :: 0 <= i < |s.queue| && s.queue[i].Req? && s.queue[i].rq.client == LOCAL ==> s.queue[i].rq.device == DEVICE
  }

  /** Whatever happens next, the accounts of an object hold again. */
  lemma StepKeeps(r: Run, e: Event, rng: nat -> nat, o: nat)
    requires Inv(r, o) && QueueOk(r.s) && LocalToDevice(r.s) && Enabled(r, e) && o != 0
    ensures Inv(Step(r, e, rng), o)
  {
    match e {
      case AddClient(id) => AddClientKeeps(r, Client(id, [], true, true, false, false), o);
      case ClientPosts(rq) =>
        PostKeeps(r, Req(rq), r.carried, if rq.close then r.asked + {rq.target} else r.asked, o);
      case DevicePosts(rs) =>
        CountDistinct(rs.objects, o);
        PostKeeps(r, Resp(rs), r.carried + (set x | x in rs.objects), r.asked, o);
      case Wake => PostKeeps(r, Awaken, r.carried, r.asked, o);
      case ProcessOne => ProcessKeeps(r, rng, o);
      case MarkDeleted(c) => SetClientKeeps(r, c, r.s.clients[c].(deleted := true), o);
      case RemoveClient(c) => SetClientKeeps(r, c, r.s.clients[c].(listed := false), o);
      case DropClient(c) => SetClientKeeps(r, c, r.s.clients[c].(kept := false), o);
      case DestroyClient(c) => DestroyKeeps(r, c, rng, o);
      case AddDevice => SendLocalKeeps(r, true, rng, o);
      case RemoveDevice => ClientsKeepAskers(r.s, r.s.(present := false), o);
    }
  }

  lemma ProcessKeeps(r: Run, rng: nat -> nat, o: nat)
    requires Inv(r, o) && r.s.queue != [] && QueueOk(r.s) && LocalToDevice(r.s)
    ensures Inv(r.(s := Process(r.s, rng)), o)
  {
    TakeItem(r, o);
    var taken := r.(s := r.s.(queue := r.s.queue[1..]));
    match r.s.queue[0] {
      case Awaken =>
      case Req(rq) => RequestKeeps(taken, rq, o);
      case Resp(rs) => ResponseKeeps(taken, rs, rng, o);
    }
  }

  // ---------------------------------------------------------------- queue, promises and deliveries

  /** Queued requests come from known clients, the local client's all for the device; promises and deliveries are in order. */
  ghost predicate Sound(s: State) {
    && |s.clients| > 0 && QueueOk(s) && LocalToDevice(s) && PromisesOk(s) && DeliveriesOk(s)
  }

  /** A promise waits under one tag or is resolved, once. */
  ghost predicate PromisesOk(s: State) {
    && (forall t :: t in s.promises ==> s.promises[t] < s.next && s.promises[t] !in s.resolved)
    && (forall t, u :: t in s.promises && u in s.promises && s.promises[t] == s.promises[u] ==> t == u)
    && (forall p :: p in s.resolved ==> p < s.next)
    && (forall i, j :: 0 <= i < j < |s.resolved| ==> s.resolved[i] != s.resolved[j])
  }

  ghost predicate DeliveriesOk(s: State) {
    forall k :: 0 <= k < |s.delivered| ==> s.delivered[k].id == s.delivered[k].rs.client
  }

  lemma PostSound(s: State, item: Item)
    requires Sound(s) && (item.Req? ==> item.rq.client < |s.clients| && (item.rq.client == LOCAL ==> item.rq.device == DEVICE))
    ensures Sound(Post(s, item))
  {
  }

  lemma SendLocalSound(s: State, target: nat, close: bool, rng: nat -> nat)
    requires Sound(s)
    ensures Sound(SendLocal(s, target, close, rng)) && SendLocal(s, target, close, rng).clients == s.clients
  {
    var s1 := s.(promises := s.promises[rng(s.next) := s.next], next := s.next + 1);
    assert PromisesOk(s1);
    PostSound(s1, Req(Request(LOCAL, DEVICE, target, close, false, rng(s.next))));
  }

  lemma {:induction false} ReleaseSound(s: State, objects: seq<nat>, rng: nat -> nat)
    requires Sound(s)
    ensures Sound(Release(s, objects, rng))
    decreases objects
  {
    if objects != [] {
      SendLocalSound(s, objects[0], true, rng);
      ReleaseSound(if Holders(s, objects[0]) == 0 then SendLocal(s, objects[0], true, rng) else s, objects[1..], rng);
    }
  }

  lemma ResolveSound(s: State, rs: Response)
    requires Sound(s)
    ensures Sound(ResolveLocal(s, rs))
  {
    if rs.tag in s.promises {
      var p := s.promises[rs.tag];
      var resolved := s.resolved + [p];
      forall i, j | 0 <= i < j < |resolved| ensures resolved[i] != resolved[j] {
        if j == |s.resolved| { assert resolved[i] in s.resolved; }
      }
    }
  }

  lemma ResponseSound(s: State, rs: Response, rng: nat -> nat)
    requires Sound(s)
    ensures Sound(DispatchResponse(s, rs, rng))
  {
    var g := GetClient(s.clients, rs.client);
    if g.None? {
      ReleaseSound(s, rs.objects, rng);
    } else {
      assert Sound(Deliver(s, rs, g.value));
      ResolveSound(Deliver(s, rs, g.value), rs);
    }
  }

  lemma RequestSound(s: State, rq: Request)
    requires Sound(s) && rq.client < |s.clients|
    ensures Sound(DispatchRequest(s, rq))
  {
    PostSound(s, Answer(s, rq, MetaOk(rq)));
    PostSound(s.(dropped := s.dropped + [rq]), Answer(s, rq, false));
  }

  lemma ProcessSound(s: State, rng: nat -> nat)
    requires Sound(s) && s.queue != []
    ensures Sound(Process(s, rng))
  {
    var s1 := s.(queue := s.queue[1..]);
    assert Sound(s1);
    match s.queue[0] {
      case Awaken =>
      case Req(rq) => RequestSound(s1, rq);
      case Resp(rs) => ResponseSound(s1, rs, rng);
    }
  }

  lemma StepSound(r: Run, e: Event, rng: nat -> nat)
    requires Sound(r.s) && Enabled(r, e)
    ensures Sound(Step(r, e, rng).s)
  {
    match e {
      case ProcessOne => ProcessSound(r.s, rng);
      case DestroyClient(c) =>
        var was := r.s.clients[c];
        ReleaseSound(r.s.(clients := r.s.clients[c := was.(owned := [], gone := true)]), was.owned, rng);
      case AddDevice => SendLocalSound(r.s.(present := true), 0, true, rng);
      case _ =>
    }
  }

  // ---------------------------------------------------------------- runs

  ghost predicate Legal(r: Run, events: seq<Event>, rng: nat -> nat)
    decreases events
  {
    events == [] ||
    (Enabled(r, events[0]) && Legal(Step(r, events[0], rng), events[1..], rng))
  }

  ghost function Exec(r: Run, events: seq<Event>, rng: nat -> nat): Run
    requires Legal(r, events, rng)
    decreases events
  {
    if events == [] then r else Exec(Step(r, events[0], rng), events[1..], rng)
  }

  /** The daemon with its local client, no device and an empty queue. */
  function Start(localId: nat): Run {
    Run(State([], [Client(localId, [], true, true, false, false)], false, [], [], [], map[], [], 0), {}, {})
  }

  lemma {:induction false} RunKeeps(r: Run, events: seq<Event>, rng: nat -> nat, o: nat)
    requires Sound(r.s) && Inv(r, o) && o != 0 && Legal(r, events, rng)
    ensures Sound(Exec(r, events, rng).s) && Inv(Exec(r, events, rng), o)
    decreases events
  {
    if events != [] {
      StepSound(r, events[0], rng);
      StepKeeps(r, events[0], rng, o);
      RunKeeps(Step(r, events[0], rng), events[1..], rng, o);
    }
  }

  /**
   In every run, a remote object that a response carried has exactly one of: a holder, a queued close request of a
   destructor, or a close request that was sent (or, with the device gone, answered by the daemon). So at most one close
   request for it reaches the device, whether from a client or from a destructor, and until then it is held.
   */
  lemma ClosedAtMostOnce(localId: nat, events: seq<Event>, rng: nat -> nat, o: nat)
    requires Legal(Start(localId), events, rng) && o != 0
    ensures var r := Exec(Start(localId), events, rng);
            Total(r.s.sent, Closed(o)) <= 1 && Accounted(r, o) &&
            (o in r.carried && Total(r.s.sent, Closed(o)) == 0 && Total(r.s.dropped, LostClose(o)) == 0 ==>
               Holders(r.s, o) == 1 || Total(r.s.queue, LocalClose(o)) == 1)
  {
    StartInv(localId, o);
    RunKeeps(Start(localId), events, rng, o);
    CountsNonNegative(Exec(Start(localId), events, rng).s, o);
  }

  lemma StartInv(localId: nat, o: nat)
    ensures Sound(Start(localId).s) && Inv(Start(localId), o)
  {
    var s := Start(localId).s;
    TotalAllZero(s.clients, InOwned(o));
  }

  /** In every run, responses reach only the client they name, and a promise is resolved at most once. */
  lemma DeliveredAsNamed(localId: nat, events: seq<Event>, rng: nat -> nat)
    requires Legal(Start(localId), events, rng)
    ensures var s := Exec(Start(localId), events, rng).s; DeliveriesOk(s) && PromisesOk(s)
  {
    StartInv(localId, 1);
    RunKeeps(Start(localId), events, rng, 1);
  }

  // ---------------------------------------------------------------- client ids

  /** No two clients in the daemon's map have the same id. */
  ghost predicate ListedApart(clients: seq<Client>) {
    forall i, j :: 0 <= i < j < |clients| && clients[i].listed && clients[j].listed ==> clients[i].id != clients[j].id
  }

  /** Clients keep their ids, and one taken off the map does not come back. */
  ghost predicate Later(before: seq<Client>, after: seq<Client>) {
    |before| <= |after| &&
    forall i :: 0 <= i < |before| ==> after[i].id == before[i].id && (after[i].listed ==> before[i].listed)
  }

  lemma {:induction false} ReleaseClients(s: State, objects: seq<nat>, rng: nat -> nat)
    ensures Release(s, objects, rng).clients == s.clients
    decreases objects
  {
    if objects != [] {
      ReleaseClients(if Holders(s, objects[0]) == 0 then SendLocal(s, objects[0], true, rng) else s, objects[1..], rng);
    }
  }

  lemma ProcessClients(s: State, rng: nat -> nat)
    requires s.queue != [] && ListedApart(s.clients)
    ensures ListedApart(Process(s, rng).clients) && Later(s.clients, Process(s, rng).clients)
  {
    if s.queue[0].Resp? { ReleaseClients(s.(queue := s.queue[1..]), s.queue[0].rs.objects, rng); }
  }

  lemma StepClients(r: Run, e: Event, rng: nat -> nat)
    requires Enabled(r, e) && ListedApart(r.s.clients)
    ensures ListedApart(Step(r, e, rng).s.clients) && Later(r.s.clients, Step(r, e, rng).s.clients)
  {
    match e {
      case ProcessOne => ProcessClients(r.s, rng);
      case DestroyClient(c) =>
        var was := r.s.clients[c];
        ReleaseClients(r.s.(clients := r.s.clients[c := was.(owned := [], gone := true)]), was.owned, rng);
      case _ =>
    }
  }

  lemma {:induction false} RunClients(r: Run, events: seq<Event>, rng: nat -> nat)
    requires ListedApart(r.s.clients) && Legal(r, events, rng)
    ensures ListedApart(Exec(r, events, rng).s.clients) && Later(r.s.clients, Exec(r, events, rng).s.clients)
    decreases events
  {
    if events != [] {
      StepClients(r, events[0], rng);
      RunClients(Step(r, events[0], rng), events[1..], rng);
    }
  }

  lemma {:induction false} GetClientExactly(clients: seq<Client>, i: nat)
    requires ListedApart(clients) && i < |clients| && clients[i].listed
    ensures GetClient(clients, clients[i].id) == if clients[i].gone || clients[i].deleted then None else Some(i)
  {
    if i > 0 {
      assert ListedApart(clients[1..]) by {
        forall a, b | 0 <= a < b < |clients| - 1 && clients[1..][a].listed && clients[1..][b].listed
          ensures clients[1..][a].id != clients[1..][b].id {
          assert clients[1..][a] == clients[a + 1] && clients[1..][b] == clients[b + 1];
        }
      }
      GetClientExactly(clients[1..], i - 1);
    }
  }

  /**
   A response that names the id of a client now in the map: whenever it is dispatched, it goes to that client exactly when
   the client is still in the map and neither destroyed nor marked for deletion; and it goes to another client only when the
   first has left the map and the other joined, with the same id, since.
   */
  lemma DeliveredUnlessReused(localId: nat, before: seq<Event>, after: seq<Event>, rng: nat -> nat, i: nat)
    requires Legal(Start(localId), before, rng) && Legal(Exec(Start(localId), before, rng), after, rng)
    requires var s := Exec(Start(localId), before, rng).s; i < |s.clients| && s.clients[i].listed
    ensures var s := Exec(Start(localId), before, rng).s;
            var t := Exec(Exec(Start(localId), before, rng), after, rng).s;
            var to := GetClient(t.clients, s.clients[i].id);
            && i < |t.clients|
            && (to == Some(i) <==> t.clients[i].listed && !t.clients[i].gone && !t.clients[i].deleted)
            && (to.Some? && to.value != i ==> !t.clients[i].listed && to.value >= |s.clients|)
  {
    var r := Exec(Start(localId), before, rng);
    RunClients(Start(localId), before, rng);
    RunClients(r, after, rng);
    var t := Exec(r, after, rng).s;
    if t.clients[i].listed { GetClientExactly(t.clients, i); }
  }

  lemma LegalFirst(r: Run, e: Event, events: seq<Event>, rng: nat -> nat)
    requires Enabled(r, e) && Legal(Step(r, e, rng), events, rng)
    ensures Legal(r, [e] + events, rng) && Exec(r, [e] + events, rng) == Exec(Step(r, e, rng), events, rng)
  {
    assert ([e] + events)[1..] == events;
  }

  /** A client leaves and its id is given to a new one: the response to the first, still in flight, reaches the second. */
  lemma ReusedIdReceives(localId: nat, id: nat, tag: nat, rng: nat -> nat) returns (events: seq<Event>)
    requires id != localId
    ensures events == [AddClient(id)] + ([DevicePosts(Response(id, true, tag, []))] +
                      ([RemoveClient(1)] + ([AddClient(id)] + ([ProcessOne] + []))))
    ensures Legal(Start(localId), events, rng)
    ensures Exec(Start(localId), events, rng).s.delivered == [Delivery(2, id, Response(id, true, tag, []))]
  {
    var rs := Response(id, true, tag, []);
    var r1 := Step(Start(localId), AddClient(id), rng);
    var r2 := Step(r1, DevicePosts(rs), rng);
    var r3 := Step(r2, RemoveClient(1), rng);
    var r4 := Step(r3, AddClient(id), rng);
    assert r4.s.queue == [Resp(rs)] && r4.s.delivered == [];
    var was, now := Client(id, [], false, true, false, false), Client(id, [], true, true, false, false);
    assert r4.s.clients == [Client(localId, [], true, true, false, false), was, now];
    LastFound(Client(localId, [], true, true, false, false), was, now);
    var r5 := Step(r4, ProcessOne, rng);
    LegalFirst(r4, ProcessOne, [], rng);
    LegalFirst(r3, AddClient(id), [ProcessOne] + [], rng);
    LegalFirst(r2, RemoveClient(1), [AddClient(id)] + ([ProcessOne] + []), rng);
    LegalFirst(r1, DevicePosts(rs), [RemoveClient(1)] + ([AddClient(id)] + ([ProcessOne] + [])), rng);
    events := [DevicePosts(rs)] + ([RemoveClient(1)] + ([AddClient(id)] + ([ProcessOne] + [])));
    LegalFirst(Start(localId), AddClient(id), events, rng);
    events := [AddClient(id)] + events;
  }

  lemma LastFound(local: Client, was: Client, now: Client)
    requires local.id != now.id && !was.listed && now.listed && !now.gone && !now.deleted
    ensures GetClient([local, was, now], now.id) == Some(2)
  {
    assert [local, was, now][1..] == [was, now] && [was, now][1..] == [now];
    assert GetClient([now], now.id) == Some(0) && GetClient([was, now], now.id) == Some(1);
  }

  // ---------------------------------------------------------------- several devices

  /** An owned object, with the device it lives on. */
  datatype Owned = Owned(device: nat, id: nat)

  /** As written: a close request disowns whatever has its object id. */
  function WithoutId(owned: seq<Owned>, id: nat): seq<Owned> {
    if owned == [] then [] else (if owned[0].id == id then [] else [owned[0]]) + WithoutId(owned[1..], id)
  }

  /** What is meant: it disowns the object that is closed. */
  function WithoutObject(owned: seq<Owned>, o: Owned): seq<Owned> {
    if owned == [] then [] else (if owned[0] == o then [] else [owned[0]]) + WithoutObject(owned[1..], o)
  }

  predicate OnOneDevice(owned: seq<Owned>, o: Owned) {
    forall p :: p in owned && p.id == o.id ==> p.device == o.device
  }

  lemma OnOneDeviceFirst(owned: seq<Owned>, o: Owned)
    requires owned != []
    ensures OnOneDevice(owned, o) <==> (owned[0].id == o.id ==> owned[0] == o) && OnOneDevice(owned[1..], o)
  {
    assert forall p :: p in owned <==> p == owned[0] || p in owned[1..];
    if OnOneDevice(owned, o) { assert owned[0] in owned; }
  }

  /** The two agree exactly when the client owns no object with the same id on another device. */
  lemma {:induction false} DisownsExactly(owned: seq<Owned>, o: Owned)
    ensures |WithoutId(owned, o.id)| <= |WithoutObject(owned, o)|
    ensures WithoutId(owned, o.id) == WithoutObject(owned, o) <==> OnOneDevice(owned, o)
  {
    if owned != [] {
      DisownsExactly(owned[1..], o);
      OnOneDeviceFirst(owned, o);
      var a, b := WithoutId(owned[1..], o.id), WithoutObject(owned[1..], o);
      if owned[0].id != o.id {
        assert ([owned[0]] + a)[1..] == a && ([owned[0]] + b)[1..] == b;
      } else if owned[0] == o {
        assert [] + a == a && [] + b == b;
      } else {
        assert |WithoutObject(owned, o)| == 1 + |b| && |WithoutId(owned, o.id)| == |a|;
      }
    }
  }
}
