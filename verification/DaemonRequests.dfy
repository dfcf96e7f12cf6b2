/**
 Requests and responses through the daemon: every request posted is forwarded or answered once, in the order it was posted, and
 every response for the daemon itself resolves the promise of its tag.
 */
module DaemonRequests {
  import opened Common
  import opened Daemons

  /** What becomes of a request that is dispatched. */
  datatype Fate = Forwarded | Answered(ok: bool)

  /** A request that was dispatched, with the id of its client at that time. */
  datatype Dispatched = Dispatched(rq: Request, id: nat, fate: Fate)

  /**
   A request for the daemon's own object, device 0, is answered: well exactly when it names object 0, is a command that object
   understands and no close request. A request for the device is forwarded exactly when the device is there, and otherwise
   answered with an error.
   */
  function FateOf(rq: Request, present: bool): Fate {
    if rq.device == 0 then Answered(rq.target == 0 && rq.known && !rq.close)
    else if rq.device == DEVICE && present then Forwarded
    else Answered(false)
  }

  function Requests(items: seq<Item>): seq<Request> {
    if items == [] then [] else Requests(items[..|items| - 1]) + (if items[|items| - 1].Req? then [items[|items| - 1].rq] else [])
  }

  function Responses(items: seq<Item>): seq<Response> {
    if items == [] then [] else Responses(items[..|items| - 1]) + (if items[|items| - 1].Resp? then [items[|items| - 1].rs] else [])
  }

  function Names(ds: seq<Dispatched>): seq<Request> { seq(|ds|, i requires 0 <= i < |ds| => ds[i].rq) }

  /** The requests among them that were forwarded, in order. */
  function ForwardedOf(ds: seq<Dispatched>): seq<Request> {
    if ds == [] then []
    else ForwardedOf(ds[..|ds| - 1]) + if ds[|ds| - 1].fate.Forwarded? then [ds[|ds| - 1].rq] else []
  }

  /** The answers to those that were not. */
  function AnswersTo(ds: seq<Dispatched>): seq<Response> {
    if ds == [] then []
    else
      var d := ds[|ds| - 1];
      AnswersTo(ds[..|ds| - 1]) + if d.fate.Answered? then [Response(d.id, d.fate.ok, d.rq.tag, [])] else []
  }

  // ---------------------------------------------------------------- one request

  /** The item at the head of the queue, if the next event dispatches a request. */
  ghost predicate Dispatches(r: Run, e: Event) {
    e.ProcessOne? && r.s.queue != [] && r.s.queue[0].Req? && r.s.queue[0].rq.client < |r.s.clients|
  }

  /** The queue without the item the event takes off. */
  function Rest(r: Run, e: Event): seq<Item> { if e.ProcessOne? && r.s.queue != [] then r.s.queue[1..] else r.s.queue }

  /**
   Dispatching a request hands it on to the device unchanged, or queues one answer with its tag for its client, as its fate
   says, and never both.
   */
  lemma RequestDispatched(s: State, rng: nat -> nat)
    requires s.queue != [] && s.queue[0].Req? && s.queue[0].rq.client < |s.clients|
    ensures var rq := s.queue[0].rq; var n := Daemons.Process(s, rng); var fate := FateOf(rq, s.present);
            && (fate.Forwarded? ==> n.sent == s.sent + [rq] && n.queue == s.queue[1..])
            && (fate.Answered? ==> n.sent == s.sent)
            && (fate.Answered? ==> n.queue == s.queue[1..] + [Resp(Response(s.clients[rq.client].id, fate.ok, rq.tag, []))])
    ensures Daemons.Process(s, rng).delivered == s.delivered
    ensures Daemons.Process(s, rng).promises == s.promises && Daemons.Process(s, rng).resolved == s.resolved
  { }

  // ---------------------------------------------------------------- queues

  lemma {:induction false} RequestsConcat(a: seq<Item>, b: seq<Item>)
    ensures Requests(a + b) == Requests(a) + Requests(b)
  {
    if b == [] {
      assert a + b == a;
    } else {
      assert (a + b)[..|a + b| - 1] == a + b[..|b| - 1];
      RequestsConcat(a, b[..|b| - 1]);
    }
  }

  lemma RequestsFirst(items: seq<Item>)
    requires items != []
    ensures Requests(items) == (if items[0].Req? then [items[0].rq] else []) + Requests(items[1..])
  {
    assert items == [items[0]] + items[1..];
    RequestsConcat([items[0]], items[1..]);
    SingleItem(items[0]);
  }

  lemma {:induction false} ReleaseQueues(s: State, objects: seq<nat>, rng: nat -> nat)
    ensures s.queue <= Release(s, objects, rng).queue && Release(s, objects, rng).sent == s.sent
    decreases objects
  {
    if objects != [] {
      ReleaseQueues(if Holders(s, objects[0]) == 0 then SendLocal(s, objects[0], true, rng) else s, objects[1..], rng);
    }
  }

  lemma SingleItem(item: Item)
    ensures Requests([item]) == if item.Req? then [item.rq] else []
    ensures Responses([item]) == if item.Resp? then [item.rs] else []
  {
    assert [item][..0] == [];
  }

  /** An event puts items at the end of the queue, and sends nothing unless it dispatches a request. */
  lemma StepQueues(r: Run, e: Event, rng: nat -> nat)
    requires Enabled(r, e) && QueueOk(r.s)
    ensures var n := Step(r, e, rng).s; Rest(r, e) <= n.queue && (!Dispatches(r, e) ==> n.sent == r.s.sent)
  {
    match e {
      case ProcessOne =>
        if r.s.queue[0].Resp? { ReleaseQueues(r.s.(queue := r.s.queue[1..]), r.s.queue[0].rs.objects, rng); }
      case DestroyClient(c) =>
        var was := r.s.clients[c];
        ReleaseQueues(r.s.(clients := r.s.clients[c := was.(owned := [], gone := true)]), was.owned, rng);
      case _ =>
    }
  }

  // ---------------------------------------------------------------- runs

  /** What an event puts in the queue. */
  ghost function Posted(r: Run, e: Event, rng: nat -> nat): seq<Item>
    requires Enabled(r, e) && QueueOk(r.s)
  {
    StepQueues(r, e, rng);
    Step(r, e, rng).s.queue[|Rest(r, e)|..]
  }

  /** The requests dispatched in a run, and the items posted, by events and by the dispatching itself. */
  datatype Account = Account(dispatched: seq<Dispatched>, posted: seq<Item>, answers: seq<Response>)

  ghost function Add(a: Account, r: Run, e: Event, rng: nat -> nat): Account
    requires Enabled(r, e) && QueueOk(r.s)
  {
    var added := Posted(r, e, rng);
    if Dispatches(r, e) then
      var rq := r.s.queue[0].rq;
      Account(a.dispatched + [Dispatched(rq, r.s.clients[rq.client].id, FateOf(rq, r.s.present))], a.posted + added,
              a.answers + Responses(added))
    else a.(posted := a.posted + added)
  }

  ghost function Accounts(a: Account, r: Run, events: seq<Event>, rng: nat -> nat): Account
    requires Legal(r, events, rng) && Sound(r.s)
    decreases events
  {
    if events == [] then a
    else
      StepSound(r, events[0], rng);
      Accounts(Add(a, r, events[0], rng), Step(r, events[0], rng), events[1..], rng)
  }

  ghost predicate Balanced(a: Account, s: State) {
    && Requests(a.posted) == Names(a.dispatched) + Requests(s.queue)
    && s.sent == ForwardedOf(a.dispatched)
    && a.answers == AnswersTo(a.dispatched)
  }

  /** Requests move through the queue in order, whoever takes them off. */
  lemma PostedBalances(posted: seq<Item>, names: seq<Request>, queue: seq<Item>, rest: seq<Item>, taken: seq<Request>, added: seq<Item>)
    requires Requests(posted) == names + Requests(queue) && Requests(queue) == taken + Requests(rest)
    ensures Requests(posted + added) == (names + taken) + Requests(rest + added)
  {
    RequestsConcat(rest, added);
    RequestsConcat(posted, added);
    Regroup(names, taken, Requests(rest), Requests(added));
  }

  lemma Regroup(a: seq<Request>, b: seq<Request>, c: seq<Request>, d: seq<Request>)
    ensures (a + (b + c)) + d == (a + b) + (c + d)
  { }

  lemma AddBalances(a: Account, r: Run, e: Event, rng: nat -> nat)
    requires Enabled(r, e) && QueueOk(r.s) && Balanced(a, r.s)
    ensures Balanced(Add(a, r, e, rng), Step(r, e, rng).s)
  {
    StepQueues(r, e, rng);
    var added := Posted(r, e, rng);
    assert Step(r, e, rng).s.queue == Rest(r, e) + added;
    if e.ProcessOne? { RequestsFirst(r.s.queue); }
    if Dispatches(r, e) {
      DispatchBalances(a, r, rng);
    } else {
      PostedBalances(a.posted, Names(a.dispatched), r.s.queue, Rest(r, e), [], added);
      assert Names(a.dispatched) + [] == Names(a.dispatched);
    }
  }

  lemma DispatchedLast(ds: seq<Dispatched>, d: Dispatched)
    ensures Names(ds + [d]) == Names(ds) + [d.rq]
    ensures ForwardedOf(ds + [d]) == ForwardedOf(ds) + if d.fate.Forwarded? then [d.rq] else []
    ensures AnswersTo(ds + [d]) == AnswersTo(ds) + if d.fate.Answered? then [Response(d.id, d.fate.ok, d.rq.tag, [])] else []
  {
    assert (ds + [d])[..|ds|] == ds;
  }

  lemma DispatchBalances(a: Account, r: Run, rng: nat -> nat)
    requires Enabled(r, ProcessOne) && QueueOk(r.s) && Balanced(a, r.s) && Dispatches(r, ProcessOne)
    ensures Balanced(Add(a, r, ProcessOne, rng), Step(r, ProcessOne, rng).s)
  {
    var rq := r.s.queue[0].rq;
    var id := r.s.clients[rq.client].id;
    var added := DispatchPosts(r, rng);
    RequestsFirst(r.s.queue);
    DispatchedLast(a.dispatched, Dispatched(rq, id, FateOf(rq, r.s.present)));
    PostedBalances(a.posted, Names(a.dispatched), r.s.queue, r.s.queue[1..], [rq], added);
  }

  lemma DispatchPosts(r: Run, rng: nat -> nat) returns (added: seq<Item>)
    requires Enabled(r, ProcessOne) && QueueOk(r.s) && Dispatches(r, ProcessOne)
    ensures added == Posted(r, ProcessOne, rng) && Step(r, ProcessOne, rng).s.queue == r.s.queue[1..] + added
    ensures var rq := r.s.queue[0].rq; var fate := FateOf(rq, r.s.present);
            && Step(r, ProcessOne, rng).s.sent == r.s.sent + (if fate.Forwarded? then [rq] else [])
            && Responses(added) == if fate.Answered? then [Response(r.s.clients[rq.client].id, fate.ok, rq.tag, [])] else []
  {
    var rq := r.s.queue[0].rq;
    var fate := FateOf(rq, r.s.present);
    RequestDispatched(r.s, rng);
    added := if fate.Forwarded? then [] else [Resp(Response(r.s.clients[rq.client].id, fate.ok, rq.tag, []))];
    if fate.Answered? { SingleItem(added[0]); }
    assert Step(r, ProcessOne, rng).s.queue == r.s.queue[1..] + added;
    assert (r.s.queue[1..] + added)[|r.s.queue[1..]|..] == added;
  }

  lemma {:induction false} RunBalances(a: Account, r: Run, events: seq<Event>, rng: nat -> nat)
    requires Legal(r, events, rng) && Sound(r.s) && Balanced(a, r.s)
    ensures Balanced(Accounts(a, r, events, rng), Exec(r, events, rng).s)
    decreases events
  {
    if events != [] {
      StepSound(r, events[0], rng);
      AddBalances(a, r, events[0], rng);
      RunBalances(Add(a, r, events[0], rng), Step(r, events[0], rng), events[1..], rng);
    }
  }

  /**
   In every run the requests posted are, in order, those dispatched and those still queued. The device got, in order and
   unchanged, exactly the dispatched requests that are for it and found it there; each other one was answered by the daemon
   once, with its tag and the id of its client, and the answers are in order too.
   */
  lemma RequestsAccounted(localId: nat, events: seq<Event>, rng: nat -> nat)
    requires Legal(Start(localId), events, rng)
    ensures Sound(Start(localId).s)
    ensures var a := Accounts(Account([], [], []), Start(localId), events, rng); var s := Exec(Start(localId), events, rng).s;
            && Requests(a.posted) == Names(a.dispatched) + Requests(s.queue)
            && s.sent == ForwardedOf(a.dispatched)
            && a.answers == AnswersTo(a.dispatched)
  {
    StartInv(localId, 1);
    RunBalances(Account([], [], []), Start(localId), events, rng);
  }

  /** What each event posts: a client its request, the device its response, a new device a close request for object 0. */
  lemma PostedExactly(r: Run, e: Event, rng: nat -> nat)
    requires Enabled(r, e) && QueueOk(r.s)
    ensures e.ClientPosts? ==> Posted(r, e, rng) == [Req(e.rq)]
    ensures e.DevicePosts? ==> Posted(r, e, rng) == [Resp(e.rs)]
    ensures e == Wake ==> Posted(r, e, rng) == [Awaken]
    ensures e == AddDevice ==> Posted(r, e, rng) == [Req(Request(LOCAL, DEVICE, 0, true, false, rng(r.s.next)))]
    ensures e.AddClient? || e.MarkDeleted? || e.RemoveClient? || e.DropClient? || e == RemoveDevice ==> Posted(r, e, rng) == []
    ensures Dispatches(r, e) && FateOf(r.s.queue[0].rq, r.s.present).Forwarded? ==> Posted(r, e, rng) == []
  { }

  // ---------------------------------------------------------------- responses and promises

  /**
   A response is delivered to the client that `GetClient` finds for its id, with its objects, and to nobody if there is none;
   one for the daemon itself resolves the promise of its tag, if one is waiting.
   */
  lemma ResponseDispatched(s: State, rng: nat -> nat)
    requires s.queue != [] && s.queue[0].Resp?
    ensures var rs := s.queue[0].rs; var n := Daemons.Process(s, rng); var to := GetClient(s.clients, rs.client);
            && (to.None? ==> n.delivered == s.delivered && n.clients == s.clients && n.resolved == s.resolved)
            && (to.Some? ==> n.delivered == s.delivered + [Delivery(to.value, rs.client, rs)] && n.queue == s.queue[1..])
            && (to.Some? ==> |n.clients| == |s.clients| && n.clients[to.value].owned == s.clients[to.value].owned + rs.objects)
            && (to == Some(LOCAL) && rs.tag in s.promises ==>
                  n.resolved == s.resolved + [s.promises[rs.tag]] && n.promises == s.promises - {rs.tag})
            && (to.Some? && (to != Some(LOCAL) || rs.tag !in s.promises) ==> n.resolved == s.resolved && n.promises == s.promises)
  {
    var rs := s.queue[0].rs;
    ReleaseClients(s.(queue := s.queue[1..]), rs.objects, rng);
    ReleaseDelivers(s.(queue := s.queue[1..]), rs.objects, rng);
  }

  lemma {:induction false} ReleaseDelivers(s: State, objects: seq<nat>, rng: nat -> nat)
    ensures Release(s, objects, rng).delivered == s.delivered && Release(s, objects, rng).resolved == s.resolved
    ensures s.next <= Release(s, objects, rng).next
    decreases objects
  {
    if objects != [] {
      ReleaseDelivers(if Holders(s, objects[0]) == 0 then SendLocal(s, objects[0], true, rng) else s, objects[1..], rng);
    }
  }

  /** Each promise made so far waits under its tag, or was resolved by a response with its tag that reached the daemon itself. */
  ghost predicate Promised(s: State, rng: nat -> nat) {
    && (forall p :: 0 <= p < s.next ==> Waiting(s, rng, p) || p in s.resolved)
    && (forall p :: p in s.resolved ==> ResolvedBy(s, rng(p)))
    && (forall t :: t in s.promises ==> s.promises[t] < s.next && rng(s.promises[t]) == t)
  }

  ghost predicate Waiting(s: State, rng: nat -> nat, p: nat) { rng(p) in s.promises && s.promises[rng(p)] == p }

  ghost predicate ResolvedBy(s: State, tag: nat) {
    exists k :: 0 <= k < |s.delivered| && s.delivered[k].client == LOCAL && s.delivered[k].rs.tag == tag
  }

  /** The random tags differ. */
  ghost predicate TagsDiffer(rng: nat -> nat) { forall p: nat, q: nat :: rng(p) == rng(q) ==> p == q }

  lemma SendPromises(s: State, target: nat, close: bool, rng: nat -> nat)
    requires Promised(s, rng) && TagsDiffer(rng)
    ensures Promised(SendLocal(s, target, close, rng), rng)
  {
    var n := SendLocal(s, target, close, rng);
    forall p | 0 <= p < n.next ensures Waiting(n, rng, p) || p in n.resolved {
      if p < s.next { assert Waiting(s, rng, p) || p in s.resolved; }
    }
  }

  lemma {:induction false} ReleasePromises(s: State, objects: seq<nat>, rng: nat -> nat)
    requires Promised(s, rng) && TagsDiffer(rng)
    ensures Promised(Release(s, objects, rng), rng)
    decreases objects
  {
    if objects != [] {
      if Holders(s, objects[0]) == 0 { SendPromises(s, objects[0], true, rng); }
      ReleasePromises(if Holders(s, objects[0]) == 0 then SendLocal(s, objects[0], true, rng) else s, objects[1..], rng);
    }
  }

  lemma DeliverPromises(s: State, rs: Response, i: nat, rng: nat -> nat)
    requires Promised(s, rng) && i < |s.clients|
    ensures Promised(Deliver(s, rs, i), rng)
  {
    var n := Deliver(s, rs, i);
    forall tag | ResolvedBy(s, tag) ensures ResolvedBy(n, tag) {
      var k :| 0 <= k < |s.delivered| && s.delivered[k].client == LOCAL && s.delivered[k].rs.tag == tag;
      assert n.delivered[k] == s.delivered[k];
    }
    forall p | 0 <= p < n.next ensures Waiting(n, rng, p) || p in n.resolved {
      assert Waiting(s, rng, p) || p in s.resolved;
    }
  }

  lemma ResolvePromises(s: State, rs: Response, rng: nat -> nat)
    requires Promised(s, rng) && ResolvedBy(s, rs.tag)
    ensures Promised(ResolveLocal(s, rs), rng)
  {
    var n := ResolveLocal(s, rs);
    forall p | 0 <= p < n.next ensures Waiting(n, rng, p) || p in n.resolved {
      assert Waiting(s, rng, p) || p in s.resolved;
    }
    forall p | p in n.resolved ensures ResolvedBy(n, rng(p)) { assert p in s.resolved ==> ResolvedBy(s, rng(p)); }
  }

  lemma ResponsePromises(s: State, rs: Response, rng: nat -> nat)
    requires Promised(s, rng) && TagsDiffer(rng)
    ensures Promised(DispatchResponse(s, rs, rng), rng)
  {
    var to := GetClient(s.clients, rs.client);
    if to.None? {
      ReleasePromises(s, rs.objects, rng);
    } else {
      DeliverPromises(s, rs, to.value, rng);
      if to.value == LOCAL {
        var d := Deliver(s, rs, LOCAL);
        assert d.delivered[|s.delivered|].client == LOCAL;
        ResolvePromises(d, rs, rng);
      }
    }
  }

  lemma SamePromises(s: State, n: State, rng: nat -> nat)
    requires Promised(s, rng)
    requires n.promises == s.promises && n.resolved == s.resolved && n.next == s.next && n.delivered == s.delivered
    ensures Promised(n, rng)
  {
    forall p | 0 <= p < n.next ensures Waiting(n, rng, p) || p in n.resolved {
      assert Waiting(s, rng, p) || p in s.resolved;
    }
    forall p | p in n.resolved ensures ResolvedBy(n, rng(p)) { assert ResolvedBy(s, rng(p)); }
  }

  lemma StepPromises(r: Run, e: Event, rng: nat -> nat)
    requires Enabled(r, e) && Promised(r.s, rng) && TagsDiffer(rng)
    ensures Promised(Step(r, e, rng).s, rng)
  {
    match e {
      case ProcessOne =>
        var s1 := r.s.(queue := r.s.queue[1..]);
        SamePromises(r.s, s1, rng);
        match r.s.queue[0] {
          case Resp(rs) => ResponsePromises(s1, rs, rng);
          case _ => SamePromises(r.s, Step(r, e, rng).s, rng);
        }
      case DestroyClient(c) =>
        var was := r.s.clients[c];
        var s1 := r.s.(clients := r.s.clients[c := was.(owned := [], gone := true)]);
        SamePromises(r.s, s1, rng);
        ReleasePromises(s1, was.owned, rng);
      case AddDevice =>
        SamePromises(r.s, r.s.(present := true), rng);
        SendPromises(r.s.(present := true), 0, true, rng);
      case _ => SamePromises(r.s, Step(r, e, rng).s, rng);
    }
  }

  lemma {:induction false} RunPromises(r: Run, events: seq<Event>, rng: nat -> nat)
    requires Legal(r, events, rng) && Promised(r.s, rng) && TagsDiffer(rng)
    ensures Promised(Exec(r, events, rng).s, rng)
    decreases events
  {
    if events != [] {
      StepPromises(r, events[0], rng);
      RunPromises(Step(r, events[0], rng), events[1..], rng);
    }
  }

  /**
   If the random tags differ, then in every run each promise the daemon made waits under its tag, or a response with its tag
   reached the daemon and resolved it.
   */
  lemma PromisesKept(localId: nat, events: seq<Event>, rng: nat -> nat)
    requires Legal(Start(localId), events, rng) && TagsDiffer(rng)
    ensures Promised(Exec(Start(localId), events, rng).s, rng)
  {
    RunPromises(Start(localId), events, rng);
  }

  /** Two requests of the daemon with the same random tag: the first promise is lost. */
  lemma SameTagLoses(s: State, target: nat, close: bool, rng: nat -> nat, p: nat)
    requires Promised(s, rng) && p < s.next && p !in s.resolved && rng(p) == rng(s.next)
    ensures var n := SendLocal(s, target, close, rng); p !in n.resolved && n.promises[rng(p)] != p
  { }

  // ---------------------------------------------------------------- clients that come and go

  /** What becomes of clients and the device: each event does what it says, to the one it names. */
  lemma ClientsSeen(r: Run, e: Event, rng: nat -> nat)
    requires Enabled(r, e)
    ensures var c := Step(r, e, rng).s.clients;
            && (e.AddClient? ==> c == r.s.clients + [Client(e.id, [], true, true, false, false)])
            && (e.MarkDeleted? ==> c == r.s.clients[e.c := r.s.clients[e.c].(deleted := true)])
            && (e.RemoveClient? ==> c == r.s.clients[e.c := r.s.clients[e.c].(listed := false)])
            && (e.DropClient? ==> c == r.s.clients[e.c := r.s.clients[e.c].(kept := false)])
            && (e.DestroyClient? ==> c == r.s.clients[e.c := r.s.clients[e.c].(owned := [], gone := true)])
    ensures Step(r, e, rng).s.present == (e == AddDevice || (r.s.present && e != RemoveDevice))
  {
    match e {
      case DestroyClient(c) =>
        var was := r.s.clients[c];
        var s1 := r.s.(clients := r.s.clients[c := was.(owned := [], gone := true)]);
        ReleaseClients(s1, was.owned, rng);
        ReleasePresence(s1, was.owned, rng);
      case ProcessOne =>
        if r.s.queue[0].Resp? { ReleasePresence(r.s.(queue := r.s.queue[1..]), r.s.queue[0].rs.objects, rng); }
      case _ =>
    }
  }

  lemma {:induction false} ReleasePresence(s: State, objects: seq<nat>, rng: nat -> nat)
    ensures Release(s, objects, rng).present == s.present
    decreases objects
  {
    if objects != [] {
      ReleasePresence(if Holders(s, objects[0]) == 0 then SendLocal(s, objects[0], true, rng) else s, objects[1..], rng);
    }
  }

  /** No more is delivered to client `c` than was before. */
  ghost predicate NothingMore(s: State, n: State, c: nat) {
    s.delivered <= n.delivered && forall k :: |s.delivered| <= k < |n.delivered| ==> n.delivered[k].client != c
  }

  lemma StepDelivers(r: Run, e: Event, rng: nat -> nat, c: nat)
    requires Enabled(r, e) && c < |r.s.clients| && (!r.s.clients[c].listed || r.s.clients[c].deleted || r.s.clients[c].gone)
    ensures var n := Step(r, e, rng).s;
            && NothingMore(r.s, n, c) && c < |n.clients| && (!n.clients[c].listed || n.clients[c].deleted || n.clients[c].gone)
  {
    ClientsSeen(r, e, rng);
    match e {
      case ProcessOne =>
        if r.s.queue[0].Resp? {
          ReleaseDelivers(r.s.(queue := r.s.queue[1..]), r.s.queue[0].rs.objects, rng);
          ReleaseClients(r.s.(queue := r.s.queue[1..]), r.s.queue[0].rs.objects, rng);
        }
      case DestroyClient(d) =>
        var was := r.s.clients[d];
        ReleaseDelivers(r.s.(clients := r.s.clients[d := was.(owned := [], gone := true)]), was.owned, rng);
      case _ =>
    }
  }

  /** A client that was removed, marked for deletion or destroyed gets no response any more. */
  lemma {:induction false} RemovedGetsNothing(r: Run, events: seq<Event>, rng: nat -> nat, c: nat)
    requires Legal(r, events, rng) && c < |r.s.clients| && (!r.s.clients[c].listed || r.s.clients[c].deleted || r.s.clients[c].gone)
    ensures NothingMore(r.s, Exec(r, events, rng).s, c)
    decreases events
  {
    if events != [] {
      StepDelivers(r, events[0], rng, c);
      RemovedGetsNothing(Step(r, events[0], rng), events[1..], rng, c);
    }
  }
}
