/**
 What one call on the dispatch queue does when no other thread moves: a post publishes one job and its token, and the
 dispatching thread takes a token and returns a job.
 */
module DispatchCalls {
  import opened Common
  import opened Totals
  import opened Circular
  import opened Dispatch
  import DequeueCounters

  // ---- posting ----

  /** Steps of posting thread `t` and of nobody else, with memory and without spurious failures. */
  ghost predicate Posts(states: seq<State>, t: nat) {
    |states| > 0 && forall k :: 0 <= k < |states| - 1 ==> PostNext(states[k], states[k + 1], t)
  }

  ghost predicate PostNext(s: State, n: State, t: nat) { t < |s.producers| && n == PostStep(s, t, true) }

  function Left(p: Posting): nat {
    match p
    case PListLoad => 6
    case PLink(_) => 5
    case PSwap(_) => 4
    case PCheckRoom => 3
    case PPublish => 2
    case PSignal => 1
    case PIdle => 0
  }

  /** Nothing changes but thread `t`'s own record, the list and the tokens. */
  ghost predicate OthersKeep(s: State, n: State, t: nat) {
    && t < |s.producers| == |n.producers| && n.consumer == s.consumer && n.dispatched == s.dispatched
    && (forall u :: 0 <= u < |s.producers| && u != t ==> n.producers[u] == s.producers[u])
    && n.producers[t].head == s.producers[t].head && n.producers[t].over == s.producers[t].over && n.producers[t].count == s.producers[t].count
    && (s.producers[t].listed ==> n.producers[t].listed)
    && (if s.producers[t].listed then n.order == s.order else n.order == s.order || n.order == s.order + [t])
  }

  /** A block's worth of room is left before head and tail are half the range apart, if a block is to be started. */
  predicate HasRoom(p: Producer) { p.tail % BLOCK_SIZE != 0 || p.tail + BLOCK_SIZE - p.head < HALF }

  /** The post that began in state `s` is under way. */
  ghost predicate Posting(s: State, m: State, t: nat) {
    && OthersKeep(s, m, t) && m.tokens == s.tokens
    && var p := m.producers[t];
    && !p.pc.PIdle? && (p.pc.PPublish? || p.pc.PSignal? ==> HasRoom(s.producers[t]))
    && p.tail == s.producers[t].tail + (if p.pc.PSignal? then 1 else 0)
    && (p.pc.PLink? || p.pc.PSwap? ==> m.listTail == p.pc.prev)
  }

  /** The post is over: its job is published and its token given, unless there was no room. */
  ghost predicate Posted(s: State, n: State, t: nat) {
    && OthersKeep(s, n, t) && n.producers[t].pc == PIdle && n.producers[t].listed
    && var posted := if HasRoom(s.producers[t]) then 1 else 0;
    && n.producers[t].tail == s.producers[t].tail + posted && n.tokens == s.tokens + posted
  }

  lemma RoomIsRoom(p: Producer)
    requires 0 <= p.head <= p.tail && p.tail - p.head < HALF
    ensures DequeueCounters.HasRoom(p.head, p.tail) <==> p.tail + BLOCK_SIZE - p.head < HALF
  {
    WordSub(p.head, p.tail + BLOCK_SIZE);
  }

  lemma PostGoesOn(s: State, m: State, t: nat)
    requires Posting(s, m, t) && t < |m.producers| && RecordOk(m, t)
    ensures var n := PostStep(m, t, true);
            && |n.producers| == |s.producers| && Left(n.producers[t].pc) < Left(m.producers[t].pc)
            && if n.producers[t].pc == PIdle then Posted(s, n, t) else Posting(s, n, t)
  {
    RoomIsRoom(m.producers[t]);
    PostChanges(m, t);
  }

  lemma PostChanges(m: State, t: nat)
    requires t < |m.producers|
    ensures var n := PostStep(m, t, true); var p := m.producers[t]; var q := n.producers[t];
            && n == m.(producers := m.producers[t := q], listTail := n.listTail, order := n.order, tokens := n.tokens)
            && q.head == p.head && q.over == p.over && q.count == p.count
            && (n.order == m.order || (n.order == m.order + [t] && p.pc.PSwap? && q.listed && n.listTail == Some(t)))
            && (p.pc.PSwap? || n.listTail == m.listTail)
  { }

  lemma {:induction false} PostFinishes(s: State, m: State, t: nat) returns (states: seq<State>)
    requires Inv(m) && Posting(s, m, t)
    ensures Posts(states, t) && states[0] == m && Posted(s, states[|states| - 1], t) && Inv(states[|states| - 1])
    decreases Left(m.producers[t].pc)
  {
    assert ProducerOk(m, t);
    PostPreserves(m, t, true);
    PostGoesOn(s, m, t);
    var n := PostStep(m, t, true);
    if n.producers[t].pc == PIdle {
      states := [m, n];
    } else {
      var later := PostFinishes(s, n, t);
      states := [m] + later;
      FirstPost(m, later, t);
    }
  }

  lemma FirstPost(m: State, later: seq<State>, t: nat)
    requires Posts(later, t) && PostNext(m, later[0], t)
    ensures Posts([m] + later, t)
  {
    var states := [m] + later;
    forall k | 0 <= k < |states| - 1 ensures PostNext(states[k], states[k + 1], t) {
      if k > 0 { assert PostNext(later[k - 1], later[k], t); }
    }
  }

  /**
   A post that no other thread disturbs publishes one job and gives one token for it, unless starting a block would bring head
   and tail half the range apart.
   */
  lemma UndisturbedPost(s: State, t: nat) returns (states: seq<State>)
    requires Inv(s) && t < |s.producers| && s.producers[t].pc == PIdle
    ensures Posts(states, t) && |states| > 1 && states[0] == s && Posted(s, states[|states| - 1], t)
  {
    assert ProducerOk(s, t);
    PostPreserves(s, t, true);
    var later := PostFinishes(s, PostStep(s, t, true), t);
    FirstPost(s, later, t);
    states := [s] + later;
  }

  // ---- dispatching ----

  /** Steps of the dispatching thread and of nobody else. */
  ghost predicate Dispatches(states: seq<State>) {
    |states| > 0 && forall k :: 0 <= k < |states| - 1 ==> DispatchNext(states[k], states[k + 1])
  }

  ghost predicate DispatchNext(s: State, n: State) { ConsumerReady(s) && n == DispatchStep(s) }

  function Rest(c: Consumer, listed: nat): int {
    match c
    case CLoadList => 2 * listed + 10
    case CScanTail(_, _, _, _, pos) => 2 * pos + 10
    case CScanHead(_, _, _, _, pos, _) => 2 * pos + 9
    case CTail(_) => 7
    case COver(_, _) => 6
    case CCount(_, _, _) => 5
    case CReserve(_, _) => 4
    case CTailAgain(_, _, _) => 3
    case CClaim(_) => 2
    case _ => 0
  }

  /** One job is taken from producer `p`. */
  ghost predicate TakenFrom(s: State, n: State, p: nat) {
    && p < |s.producers| == |n.producers| && s.producers[p].head < s.producers[p].tail
    && n.producers[p].head == s.producers[p].head + 1 && n.producers[p].tail == s.producers[p].tail
    && forall u :: 0 <= u < |s.producers| && u != p ==> n.producers[u] == s.producers[u]
  }

  /** How many jobs wait with a producer. */
  ghost function Size(s: State, p: nat): int { if p < |s.producers| then s.producers[p].tail - s.producers[p].head else 0 }

  /** How many producers have jobs, of those listed at place `from` or later. */
  ghost function WithJobs(s: State, from: int): nat
    requires 0 <= from <= |s.order|
    decreases |s.order| - from
  {
    if from == |s.order| then 0 else WithJobs(s, from + 1) + if Size(s, s.order[from]) > 0 then 1 else 0
  }

  /** None of the producers listed at place `from` or later has more jobs than `size`. */
  ghost predicate AtMost(s: State, from: int, size: int) {
    forall j :: from <= j < |s.order| && 0 <= j ==> Size(s, s.order[j]) <= size
  }

  /**
   The producer to dispatch from: going back from the one listed last, it has the most jobs of the first three that have any,
   or of all if there are fewer.
   */
  ghost predicate Chosen(s: State, p: nat) {
    exists from :: 0 <= from <= |s.order| && AtMost(s, from, Size(s, p)) && (from == 0 || WithJobs(s, from) == 3)
  }

  /** What the scan knows of the producers it has passed, those after place `pos`. */
  ghost predicate Passed(s: State, n: nat, best: nat, size: int, pos: int) {
    && -1 <= pos < |s.order| && n == WithJobs(s, pos + 1) && n <= 3 && AtMost(s, pos + 1, size)
    && size >= 0 && (n > 0 ==> size == Size(s, best)) && (n == 0 ==> size == 0)
  }

  ghost predicate Scanned(s: State, c: Consumer) {
    match c
    case CLoadList => true
    case CScanTail(_, n, best, size, pos) => Passed(s, n, best, size, pos)
    case CScanHead(at, n, best, size, pos, tail) =>
      pos >= 0 && Passed(s, n, best, size, pos) && n < 3 && at == s.order[pos] && at < |s.producers| && tail == s.producers[at].tail
    case CTail(p) => Chosen(s, p)
    case COver(p, _) => Chosen(s, p)
    case CCount(p, _, _) => Chosen(s, p)
    case CReserve(p, _) => Chosen(s, p)
    case CTailAgain(p, _, _) => Chosen(s, p)
    case CClaim(p) => Chosen(s, p)
    case _ => false
  }

  lemma ScansOn(s: State, m: State)
    requires m == s.(consumer := m.consumer, tokens := m.tokens) && ListOk(s) && Scanning(m.consumer) && Scanned(s, m.consumer)
    requires ConsumerReady(m) && ConsumerOk(m) && forall t :: 0 <= t < |s.producers| ==> RecordOk(s, t)
    ensures DispatchStep(m).consumer.Abort? || Scanned(s, DispatchStep(m).consumer)
  {
    match m.consumer {
      case CLoadList =>
      case CScanTail(c, n, best, size, pos) => if n >= 3 || c.None? { ScanEnds(s, n, best, size, pos); }
      case CScanHead(at, n, best, size, pos, tail) =>
        assert RecordOk(s, at);
        HeadScans(s, m, at, n, best, size, pos, tail);
    }
  }

  lemma HeadScans(s: State, m: State, at: nat, n: nat, best: nat, size: int, pos: int, tail: int)
    requires m.producers == s.producers && m.consumer == CScanHead(at, n, best, size, pos, tail) && Scanned(s, m.consumer)
    requires s.producers[at].head <= tail < s.producers[at].head + HALF
    ensures Scanned(s, DispatchStep(m).consumer)
  {
    ScanScores(m);
    LooksAt(s, at, n, best, size, pos);
  }

  /** One more producer is taken into account. */
  lemma LooksAt(s: State, at: nat, n: nat, best: nat, size: int, pos: int)
    requires 0 <= pos && Passed(s, n, best, size, pos) && n < 3 && at == s.order[pos] && at < |s.producers|
    ensures Size(s, at) <= 0 && s.producers[at].head <= s.producers[at].tail ==> Passed(s, n, best, size, pos - 1)
    ensures 0 < Size(s, at) <= size ==> Passed(s, n + 1, best, size, pos - 1)
    ensures Size(s, at) > 0 && Size(s, at) > size ==> Passed(s, n + 1, at, Size(s, at), pos - 1)
  {
    assert WithJobs(s, pos) == WithJobs(s, pos + 1) + if Size(s, at) > 0 then 1 else 0;
  }

  lemma ScanEnds(s: State, n: nat, best: nat, size: int, pos: int)
    requires Passed(s, n, best, size, pos) && (n == 3 || pos == -1) && n > 0
    ensures Chosen(s, best)
  {
    var from := pos + 1;
    assert AtMost(s, from, Size(s, best)) && (from == 0 || WithJobs(s, from) == 3);
  }

  /** The call that took its token in state `s` is under way. */
  ghost predicate Dispatching(s: State, m: State) {
    && !m.consumer.CIdle? && m.tokens == s.tokens - 1 && m.dispatched == s.dispatched && m.order == s.order
    && Scanned(s, m.consumer) && (Scanning(m.consumer) ==> m == s.(consumer := m.consumer, tokens := m.tokens))
    && |m.producers| == |s.producers|
    && (forall u :: 0 <= u < |s.producers| ==> Ticket(m.consumer) == Some(u) || m.producers[u] == s.producers[u])
    && (forall u :: 0 <= u < |s.producers| ==>
          m.producers[u].head == s.producers[u].head && m.producers[u].tail == s.producers[u].tail)
  }

  ghost predicate Dispatched(s: State, n: State) {
    && n.consumer == CIdle && n.tokens == s.tokens - 1 && n.dispatched == s.dispatched + 1
    && exists p :: 0 <= p < |s.producers| && TakenFrom(s, n, p) && Chosen(s, p)
  }

  lemma InvKept(m: State)
    requires Inv(m)
    ensures ConsumerReady(m) && Inv(DispatchStep(m))
  {
    if m.consumer.CIdle? || m.consumer.CLoadList? || m.consumer.CScanTail? || m.consumer.CScanHead? {
      ScanPreserves(m);
    } else {
      TakePreserves(m);
    }
  }

  predicate Scanning(c: Consumer) { c.CLoadList? || c.CScanTail? || c.CScanHead? }

  lemma ScanGoesOn(s: State, m: State)
    requires Dispatching(s, m) && Scanning(m.consumer) && ConsumerReady(m) && ConsumerOk(m) && ConsumerOk(DispatchStep(m))
    requires ListOk(s) && forall t :: 0 <= t < |s.producers| ==> RecordOk(s, t)
    ensures Dispatching(s, DispatchStep(m))
    ensures 0 <= Rest(DispatchStep(m).consumer, |s.order|) < Rest(m.consumer, |s.order|)
  {
    assert DispatchStep(m) == m.(consumer := DispatchStep(m).consumer);
    ScansOn(s, m);
  }

  lemma TakeGoesOn(s: State, m: State)
    requires Dispatching(s, m) && Inv(m) && !Scanning(m.consumer) && !m.consumer.CClaim?
    ensures ConsumerReady(m) && Dispatching(s, DispatchStep(m))
    ensures 0 <= Rest(DispatchStep(m).consumer, |s.order|) < Rest(m.consumer, |s.order|)
  {
    var p := m.consumer.p;
    assert ProducerOk(m, p);
    TakeStep(m, p);
    TakeMoves(m);
  }

  lemma TakeMoves(m: State)
    requires ConsumerReady(m) && ConsumerOk(m) && ConsumerOk(DispatchStep(m))
    requires !m.consumer.CIdle? && !Scanning(m.consumer) && !m.consumer.CClaim?
    ensures var c := m.consumer; var d := DispatchStep(m).consumer;
            && (c.CTail? ==> d.COver?) && (c.COver? ==> d.CCount?) && (c.CCount? ==> d.CReserve?) && (c.CReserve? ==> d.CTailAgain?)
            && (c.CTailAgain? ==> d.CClaim?) && (d.CTailAgain? || d.CClaim? ==> d.p == c.p)
            && (!c.CReserve? ==> DispatchStep(m).producers == m.producers)
            && (!d.CIdle? ==> d.p == c.p) && DispatchStep(m).dispatched == m.dispatched && DispatchStep(m).order == m.order && DispatchStep(m).tokens == m.tokens
  { }

  lemma RecordsKept(s: State, m: State)
    requires Inv(m) && m == s.(consumer := m.consumer, tokens := m.tokens)
    ensures ListOk(s) && forall t :: 0 <= t < |s.producers| ==> RecordOk(s, t)
  {
    forall t | 0 <= t < |s.producers| ensures RecordOk(s, t) { assert ProducerOk(m, t); }
  }

  lemma DispatchGoesOn(s: State, m: State)
    requires Dispatching(s, m) && Inv(m) && !m.consumer.CClaim?
    ensures ConsumerReady(m) && Dispatching(s, DispatchStep(m)) && Inv(DispatchStep(m))
    ensures 0 <= Rest(DispatchStep(m).consumer, |s.order|) < Rest(m.consumer, |s.order|)
  {
    InvKept(m);
    if Scanning(m.consumer) { RecordsKept(s, m); ScanGoesOn(s, m); } else { TakeGoesOn(s, m); }
  }

  lemma DispatchEnds(s: State, m: State)
    requires Dispatching(s, m) && Inv(m) && m.consumer.CClaim?
    ensures ConsumerReady(m) && Dispatched(s, DispatchStep(m)) && Inv(DispatchStep(m))
  {
    InvKept(m);
    EndsWith(s, m, m.consumer.p);
  }

  lemma EndsWith(s: State, m: State, p: nat)
    requires Dispatching(s, m) && m.consumer == CClaim(p) && ConsumerReady(m) && NonEmpty(m, p) && ProducerOk(m, p)
    ensures Dispatched(s, DispatchStep(m))
  {
    assert TakenFrom(s, DispatchStep(m), p) && Chosen(s, p);
  }

  lemma {:induction false} DispatchFinishes(s: State, m: State) returns (states: seq<State>)
    requires Dispatching(s, m) && Inv(m)
    ensures Dispatches(states) && states[0] == m && Dispatched(s, states[|states| - 1]) && Inv(states[|states| - 1])
    decreases Rest(m.consumer, |s.order|)
  {
    if m.consumer.CClaim? {
      DispatchEnds(s, m);
      states := [m, DispatchStep(m)];
    } else {
      DispatchGoesOn(s, m);
      var later := DispatchFinishes(s, DispatchStep(m));
      states := [m] + later;
      FirstDispatch(m, later);
    }
  }

  lemma FirstDispatch(m: State, later: seq<State>)
    requires Dispatches(later) && DispatchNext(m, later[0])
    ensures Dispatches([m] + later)
  {
    var states := [m] + later;
    forall k | 0 <= k < |states| - 1 ensures DispatchNext(states[k], states[k + 1]) {
      if k > 0 { assert DispatchNext(later[k - 1], later[k]); }
    }
  }

  /**
   With a token there, `wait_dequeue` that no other thread disturbs returns one job, from the producer that has most of the
   first three that have any.
   */
  lemma UndisturbedDispatch(s: State) returns (states: seq<State>)
    requires Inv(s) && s.consumer == CIdle && s.tokens > 0
    ensures Dispatches(states) && |states| > 1 && states[0] == s && Dispatched(s, states[|states| - 1])
  {
    InvKept(s);
    var later := DispatchFinishes(s, DispatchStep(s));
    FirstDispatch(s, later);
    states := [s] + later;
  }

  // ---- calls that were interrupted ----

  /** Steps a post may still need, wherever it was interrupted and whatever others have done since. */
  function PostLeft(s: State, p: Posting): nat {
    match p
    case PListLoad => 6
    case PLink(prev) => if s.listTail == prev then 5 else 7
    case PSwap(prev) => if s.listTail == prev then 4 else 6
    case PCheckRoom => 3
    case PPublish => 2
    case PSignal => 1
    case PIdle => 0
  }

  lemma PostShortens(s: State, t: nat)
    requires t < |s.producers| && s.producers[t].pc != PIdle
    ensures var n := PostStep(s, t, true);
            t < |n.producers| && PostLeft(n, n.producers[t].pc) < PostLeft(s, s.producers[t].pc)
  { }

  lemma {:induction false} PostEnds(s: State, t: nat) returns (states: seq<State>)
    requires Inv(s) && t < |s.producers|
    ensures Posts(states, t) && states[0] == s
    ensures var n := states[|states| - 1]; t < |n.producers| && n.producers[t].pc == PIdle
    decreases PostLeft(s, s.producers[t].pc)
  {
    if s.producers[t].pc == PIdle {
      states := [s];
    } else {
      PostShortens(s, t);
      PostPreserves(s, t, true);
      var later := PostEnds(PostStep(s, t, true), t);
      FirstPost(s, later, t);
      states := [s] + later;
    }
  }

  lemma DispatchShortens(m: State)
    requires !m.consumer.CIdle? && ConsumerReady(m) && ConsumerOk(m) && ConsumerOk(DispatchStep(m))
    ensures 0 <= Rest(DispatchStep(m).consumer, |m.order|) < Rest(m.consumer, |m.order|) && DispatchStep(m).order == m.order
  { }

  lemma {:induction false} DispatchEndsFrom(m: State) returns (states: seq<State>)
    requires Inv(m)
    ensures Dispatches(states) && states[0] == m && states[|states| - 1].consumer == CIdle
    decreases Rest(m.consumer, |m.order|)
  {
    if m.consumer == CIdle {
      states := [m];
    } else {
      InvKept(m);
      DispatchShortens(m);
      var later := DispatchEndsFrom(DispatchStep(m));
      FirstDispatch(m, later);
      states := [m] + later;
    }
  }

  /** In every reachable state, a thread in the middle of a post, or of `wait_dequeue` with its token, ends it if it runs alone. */
  lemma AloneEnds(s0: State, schedule: seq<Turn>, t: nat) returns (posts: seq<State>, dispatches: seq<State>)
    requires Init(s0) && t < |Exec(s0, schedule).producers|
    ensures Posts(posts, t) && posts[0] == Exec(s0, schedule)
    ensures t < |posts[|posts| - 1].producers| && posts[|posts| - 1].producers[t].pc == PIdle
    ensures Dispatches(dispatches) && dispatches[0] == Exec(s0, schedule) && dispatches[|dispatches| - 1].consumer == CIdle
  {
    InitEstablishes(s0);
    ExecPreserves(s0, schedule);
    posts := PostEnds(Exec(s0, schedule), t);
    dispatches := DispatchEndsFrom(Exec(s0, schedule));
  }
}
