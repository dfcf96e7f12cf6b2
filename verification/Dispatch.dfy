/**
 The dispatch queue of the daemon: any number of posting threads, one thread in `wait_dequeue`.

 Each posting thread has one producer record, listed when it first posts. The semaphore is the token
 count it has been shown to implement. `wait_dequeue` aborts the program if `try_dequeue` fails after a
 token was taken; the steps below lead to `Abort` or `Missed` exactly where that could happen.
 */
module Dispatch {
  import opened Common
  import opened Totals
  import opened Circular
  import DequeueCounters

  const BLOCK_SIZE := DequeueCounters.BLOCK_SIZE

  datatype Posting =
    | PIdle
    | PListLoad
    | PLink(prev: Option<nat>)
    | PSwap(prev: Option<nat>)
    | PCheckRoom
    | PPublish
    | PSignal

  /** A posting thread and its producer record. */
  datatype Producer = Producer(pc: Posting, listed: bool, next: Option<nat>, tail: int, head: int, count: int, over: int)

  datatype Consumer =
    | CIdle
    | CLoadList
    | CScanTail(cursor: Option<nat>, nonEmpty: nat, best: nat, bestSize: int, pos: int)
    | CScanHead(at: nat, nonEmpty: nat, best: nat, bestSize: int, pos: int, tail: int)
    | CTail(p: nat)
    | COver(p: nat, tail: int)
    | CCount(p: nat, tail: int, over: int)
    | CReserve(p: nat, over: int)
    | CTailAgain(p: nat, over: int, mine: int)
    | CClaim(p: nat)
    | Missed
    | Abort

  /**
   `order` is history: the producers in the order they were listed; `pos` is the scan's place in it.
   `dispatched` counts the jobs returned.
   */
  datatype State = State(listTail: Option<nat>, producers: seq<Producer>, tokens: int, consumer: Consumer, order: seq<nat>, dispatched: nat)

  // ---- the steps ----

  ghost function With(s: State, t: nat, p: Producer): State
    requires t < |s.producers|
  {
    s.(producers := s.producers[t := p])
  }

  /** Thread `t` posting a job; `lucky` decides weak compare-exchanges and allocation. */
  ghost function PostStep(s: State, t: nat, lucky: bool): State
    requires t < |s.producers|
  {
    var p := s.producers[t];
    match p.pc
    case PIdle => With(s, t, p.(pc := if p.listed then PCheckRoom else PListLoad))
    case PListLoad => With(s, t, p.(pc := PLink(s.listTail)))
    case PLink(prev) => With(s, t, p.(next := prev, pc := PSwap(prev)))
    case PSwap(prev) =>
      if s.listTail == prev && lucky then
        s.(producers := s.producers[t := p.(listed := true, pc := PCheckRoom)], listTail := Some(t), order := s.order + [t])
      else With(s, t, p.(pc := PLink(s.listTail)))
    case PCheckRoom =>
      if p.tail % BLOCK_SIZE == 0 && (!DequeueCounters.HasRoom(p.head, p.tail) || !lucky) then With(s, t, p.(pc := PIdle))
      else With(s, t, p.(pc := PPublish))
    case PPublish => With(s, t, p.(tail := p.tail + 1, pc := PSignal))
    case PSignal => s.(producers := s.producers[t := p.(pc := PIdle)], tokens := s.tokens + 1)
  }

  ghost predicate ConsumerReady(s: State) {
    match s.consumer
    case CScanTail(c, _, _, _, _) => c.Some? ==> c.value < |s.producers|
    case CScanHead(c, _, _, _, _, _) => c < |s.producers|
    case CTail(p) => p < |s.producers|
    case COver(p, _) => p < |s.producers|
    case CCount(p, _, _) => p < |s.producers|
    case CReserve(p, _) => p < |s.producers|
    case CTailAgain(p, _, _) => p < |s.producers|
    case CClaim(p) => p < |s.producers|
    case _ => true
  }

  /** `size_approx`, from a tail and a head loaded one after the other. */
  function SizeApprox(head: int, tail: int): int {
    if CircularLess(Word(head), Word(tail)) then Sub(Word(tail), Word(head)) else 0
  }

  /** The dispatching thread: `sema->wait()`, then the scored `try_dequeue`. */
  ghost function DispatchStep(s: State): State
    requires ConsumerReady(s)
  {
    match s.consumer
    case CIdle => if s.tokens > 0 then s.(tokens := s.tokens - 1, consumer := CLoadList) else s
    case CLoadList => s.(consumer := CScanTail(s.listTail, 0, 0, 0, |s.order| - 1))
    case CScanTail(c, n, best, size, pos) =>
      if n < 3 && c.Some? then s.(consumer := CScanHead(c.value, n, best, size, pos, s.producers[c.value].tail))
      else s.(consumer := if n > 0 then CTail(best) else Abort)
    case CScanHead(c, n, best, size, pos, tail) =>
      var p := s.producers[c];
      var found := SizeApprox(p.head, tail);
      s.(consumer :=
        if found > 0 then
          if found > size then CScanTail(p.next, n + 1, c, found, pos - 1) else CScanTail(p.next, n + 1, best, size, pos - 1)
        else CScanTail(p.next, n, best, size, pos - 1))
    case CTail(p) => s.(consumer := COver(p, s.producers[p].tail))
    case COver(p, tail) => s.(consumer := CCount(p, tail, s.producers[p].over))
    case CCount(p, tail, over) =>
      s.(consumer := if CircularLess(Word(s.producers[p].count - over), Word(tail)) then CReserve(p, over) else Missed)
    case CReserve(p, over) =>
      var r := s.producers[p];
      s.(producers := s.producers[p := r.(count := r.count + 1)], consumer := CTailAgain(p, over, r.count))
    case CTailAgain(p, over, mine) =>
      var r := s.producers[p];
      if CircularLess(Word(mine - over), Word(r.tail)) then s.(consumer := CClaim(p))
      else s.(producers := s.producers[p := r.(over := r.over + 1)], consumer := Missed)
    case CClaim(p) =>
      var r := s.producers[p];
      s.(producers := s.producers[p := r.(head := r.head + 1)], consumer := CIdle, dispatched := s.dispatched + 1)
    case Missed => s
    case Abort => s
  }

  // ---- the invariant ----

  ghost function Backlog(): Producer -> int { (p: Producer) => p.tail - p.head }

  /** Jobs published so far, and jobs whose place was passed by the head. */
  ghost function Published(): Producer -> int { (p: Producer) => p.tail }

  ghost function Passed(): Producer -> int { (p: Producer) => p.head }

  ghost function Unsignalled(): Producer -> int { (p: Producer) => if p.pc.PSignal? then 1 else 0 }

  ghost predicate NonEmpty(s: State, p: nat) {
    p < |s.producers| && s.producers[p].head < s.producers[p].tail
  }

  /** The producer the dispatching thread has a ticket of, not yet redeemed. */
  ghost function Ticket(c: Consumer): Option<nat> {
    match c
    case CTailAgain(p, _, _) => Some(p)
    case CClaim(p) => Some(p)
    case _ => None
  }

  /** What the list and the scan rely on. */
  ghost predicate RecordOk(s: State, t: nat)
    requires t < |s.producers|
  {
    var p := s.producers[t];
    && 0 <= p.head <= p.tail && p.tail - p.head < HALF
    && (!p.listed ==> p.tail == 0)
    && (p.listed <==> t in s.order)
    && (p.pc.PCheckRoom? || p.pc.PPublish? || p.pc.PSignal? ==> p.listed)
    && (p.pc.PListLoad? || p.pc.PLink? || p.pc.PSwap? ==> !p.listed)
    && (p.pc.PSwap? ==> p.next == p.pc.prev)
  }

  ghost predicate ProducerOk(s: State, t: nat)
    requires t < |s.producers|
  {
    var p := s.producers[t];
    && RecordOk(s, t)
    && p.over >= 0
    && p.count - p.over == p.head + (if Ticket(s.consumer) == Some(t) then 1 else 0)
    && DequeueCounters.Roomy(p.tail, p.head, p.pc.PPublish?)
  }

  /** The list from `producerListTail` is `order` backwards. */
  ghost predicate ListOk(s: State) {
    && s.listTail == (if s.order == [] then None else Some(s.order[|s.order| - 1]))
    && (forall i :: 0 <= i < |s.order| ==> s.order[i] < |s.producers|)
    && (forall i :: 0 <= i < |s.order| ==> s.producers[s.order[i]].next == Before(s.order, i))
  }

  ghost function Before(order: seq<nat>, i: nat): Option<nat>
    requires i < |order|
  {
    if i == 0 then None else Some(order[i - 1])
  }

  /** Some listed producer at or before place `i` of the listing order has an element. */
  ghost predicate AheadOfUs(s: State, i: int) {
    exists j :: 0 <= j <= i && j < |s.order| && NonEmpty(s, s.order[j])
  }

  ghost predicate ConsumerOk(s: State) {
    match s.consumer
    case CIdle => true
    case CLoadList => true
    case CScanTail(c, n, best, size, pos) =>
      && -1 <= pos < |s.order|
      && c == (if pos < 0 then None else Some(s.order[pos]))
      && (n == 0 ==> size == 0 && AheadOfUs(s, pos)) && (n > 0 ==> NonEmpty(s, best))
    case CScanHead(c, n, best, size, pos, tail) =>
      && 0 <= pos < |s.order| && s.order[pos] == c
      && c < |s.producers| && s.producers[c].head <= tail <= s.producers[c].tail
      && (n == 0 && s.producers[c].head >= tail ==> AheadOfUs(s, pos - 1))
      && (n == 0 ==> size == 0) && (n > 0 ==> NonEmpty(s, best))
    case CTail(p) => NonEmpty(s, p)
    case COver(p, tail) => NonEmpty(s, p) && s.producers[p].head < tail <= s.producers[p].tail
    case CCount(p, tail, over) =>
      NonEmpty(s, p) && s.producers[p].head < tail <= s.producers[p].tail && over == s.producers[p].over
    case CReserve(p, over) => NonEmpty(s, p) && over == s.producers[p].over
    case CTailAgain(p, over, mine) => NonEmpty(s, p) && over == s.producers[p].over && mine - over == s.producers[p].head
    case CClaim(p) => NonEmpty(s, p)
    case Missed => false
    case Abort => false
  }

  ghost function Owed(c: Consumer): int {
    if c.CIdle? then 0 else 1
  }

  /** Every job that waits has a token, a signal to come or the dequeue under way; every job passed was returned. */
  ghost predicate SumsOk(s: State) {
    && Total(s.producers, Backlog()) == s.tokens + Total(s.producers, Unsignalled()) + Owed(s.consumer)
    && Total(s.producers, Passed()) == s.dispatched
  }

  ghost predicate Inv(s: State) {
    && s.tokens >= 0
    && SumsOk(s)
    && ListOk(s)
    && (forall t :: 0 <= t < |s.producers| ==> ProducerOk(s, t))
    && ConsumerOk(s)
  }

  ghost predicate Init(s: State) {
    && s.listTail == None && s.tokens == 0 && s.consumer == CIdle && s.order == [] && s.dispatched == 0
    && (forall t :: 0 <= t < |s.producers| ==> s.producers[t] == Producer(PIdle, false, None, 0, 0, 0, 0))
  }

  lemma InitEstablishes(s: State)
    requires Init(s)
    ensures Inv(s)
  {
    TotalAllZero(s.producers, Backlog());
    TotalAllZero(s.producers, Unsignalled());
    TotalAllZero(s.producers, Passed());
  }

  lemma {:induction false} SomeBacklog(ps: seq<Producer>)
    requires Total(ps, Backlog()) >= 1
    ensures exists t :: 0 <= t < |ps| && ps[t].head < ps[t].tail
  {
    if ps != [] && ps[0].head >= ps[0].tail {
      SomeBacklog(ps[1..]);
      var t :| 0 <= t < |ps[1..]| && ps[1..][t].head < ps[1..][t].tail;
      assert ps[t + 1].head < ps[t + 1].tail;
    } else if ps != [] {
      assert ps[0].head < ps[0].tail;
    }
  }

  /** A token in hand means some listed producer has an element. */
  lemma TokenMeansElement(s: State)
    requires Inv(s) && !s.consumer.CIdle?
    ensures exists i :: 0 <= i < |s.order| && NonEmpty(s, s.order[i])
  {
    TotalNonNegative(s.producers, Unsignalled());
    SomeBacklog(s.producers);
    var t :| 0 <= t < |s.producers| && s.producers[t].head < s.producers[t].tail;
    assert ProducerOk(s, t);
    var i :| 0 <= i < |s.order| && s.order[i] == t;
    assert NonEmpty(s, s.order[i]);
  }

  // ---- preservation ----

  /** What a step of a posting thread does to the counts. */
  lemma PostCounts(s: State, t: nat, lucky: bool)
    requires t < |s.producers|
    ensures |PostStep(s, t, lucky).producers| == |s.producers|
    ensures var s' := PostStep(s, t, lucky); var p := s.producers[t]; var p' := s'.producers[t];
      && s'.consumer == s.consumer && s'.dispatched == s.dispatched && s'.tokens >= s.tokens
      && s'.producers == s.producers[t := p'] && p'.head == p.head
      && p'.tail - p.tail == s'.tokens - s.tokens + Unsignalled()(p') - Unsignalled()(p)
  { }

  lemma PostKeepsSums(s: State, t: nat, lucky: bool)
    requires t < |s.producers| && s.tokens >= 0 && SumsOk(s)
    ensures var s' := PostStep(s, t, lucky); s'.tokens >= 0 && |s'.producers| == |s.producers| && SumsOk(s')
  {
    PostCounts(s, t, lucky);
    SumsUpdate(s, PostStep(s, t, lucky), t);
  }

  /** One producer and the counts move together. */
  lemma SumsUpdate(s: State, s': State, t: nat)
    requires SumsOk(s) && t < |s.producers| == |s'.producers| && s'.producers == s.producers[t := s'.producers[t]]
    requires var p := s.producers[t]; var p' := s'.producers[t];
      && p'.head - p.head == s'.dispatched - s.dispatched
      && p'.tail - p.tail == s'.tokens - s.tokens + Unsignalled()(p') - Unsignalled()(p) + Owed(s'.consumer) - Owed(s.consumer)
                             + s'.dispatched - s.dispatched
    ensures SumsOk(s')
  {
    TotalUpdate(s.producers, t, s'.producers[t], Backlog());
    TotalUpdate(s.producers, t, s'.producers[t], Unsignalled());
    TotalUpdate(s.producers, t, s'.producers[t], Passed());
  }

  lemma RoomForBlock(p: Producer, lucky: bool)
    requires 0 <= p.head <= p.tail && DequeueCounters.Roomy(p.tail, p.head, false)
    requires !(p.tail % BLOCK_SIZE == 0 && (!DequeueCounters.HasRoom(p.head, p.tail) || !lucky))
    ensures DequeueCounters.Roomy(p.tail, p.head, true)
  {
    WordSub(p.head, p.tail + BLOCK_SIZE);
  }

  lemma PostKeepsProducer(s: State, t: nat, lucky: bool, u: nat)
    requires ListOk(s) && t < |s.producers| && u < |s.producers| && ProducerOk(s, t) && ProducerOk(s, u)
    ensures u < |PostStep(s, t, lucky).producers| && ProducerOk(PostStep(s, t, lucky), u)
  {
    var p := s.producers[t];
    if u == t && p.pc.PCheckRoom? && PostStep(s, t, lucky).producers[t].pc.PPublish? { RoomForBlock(p, lucky); }
    assert u == t || PostStep(s, t, lucky).producers[u] == s.producers[u];
  }

  lemma ListUpdate(s: State, t: nat, p: Producer)
    requires ListOk(s) && t < |s.producers| && (p.next == s.producers[t].next || t !in s.order)
    ensures ListOk(With(s, t, p))
  {
    var s' := With(s, t, p);
    forall i | 0 <= i < |s.order| ensures s'.producers[s.order[i]].next == s.producers[s.order[i]].next {
      if s.order[i] == t { assert s.order[i] in s.order; }
    }
  }

  lemma ListAppend(s: State, s': State, t: nat)
    requires ListOk(s) && t < |s.producers| && s.producers[t].next == s.listTail
    requires s'.order == s.order + [t] && s'.listTail == Some(t) && s'.producers == s.producers
    ensures ListOk(s')
  {
    forall i | 0 <= i < |s'.order| ensures s'.order[i] < |s'.producers| && s'.producers[s'.order[i]].next == Before(s'.order, i) {
      if i < |s.order| { assert s'.order[i] == s.order[i]; }
    }
  }

  /** What a step of a posting thread can change. */
  lemma PostShape(s: State, t: nat, lucky: bool)
    requires t < |s.producers| && RecordOk(s, t)
    ensures |PostStep(s, t, lucky).producers| == |s.producers|
    ensures var s' := PostStep(s, t, lucky); var p := s.producers[t]; var p' := s'.producers[t];
      && s'.producers == s.producers[t := p'] && s'.consumer == s.consumer
      && p'.head == p.head && p'.tail >= p.tail && p'.over == p.over
      && (p'.next == p.next || t !in s.order)
      && ((s'.order == s.order && s'.listTail == s.listTail)
          || (s'.order == s.order + [t] && s'.listTail == Some(t) && p'.next == s.listTail))
  {
  }

  lemma PostKeepsList(s: State, t: nat, lucky: bool)
    requires ListOk(s) && t < |s.producers| && RecordOk(s, t)
    ensures ListOk(PostStep(s, t, lucky))
  {
    PostShape(s, t, lucky);
    ListKept(s, PostStep(s, t, lucky), t);
  }

  lemma ListKept(s: State, s': State, t: nat)
    requires ListOk(s) && t < |s.producers| == |s'.producers|
    requires s'.producers == s.producers[t := s'.producers[t]] && (s'.producers[t].next == s.producers[t].next || t !in s.order)
    requires (s'.order == s.order && s'.listTail == s.listTail)
      || (s'.order == s.order + [t] && s'.listTail == Some(t) && s'.producers[t].next == s.listTail)
    ensures ListOk(s')
  {
    ListUpdate(s, t, s'.producers[t]);
    if s'.order != s.order {
      ListAppend(With(s, t, s'.producers[t]), s', t);
    }
  }

  /** A posting thread only adds elements and list entries, so nothing the scan relies on goes away. */
  lemma PostKeepsConsumer(s: State, t: nat, lucky: bool)
    requires t < |s.producers| && RecordOk(s, t) && ConsumerOk(s)
    ensures ConsumerOk(PostStep(s, t, lucky))
  {
    PostShape(s, t, lucky);
    ConsumerKept(s, PostStep(s, t, lucky), t);
  }

  lemma ConsumerKept(s: State, s': State, t: nat)
    requires ConsumerOk(s) && t < |s.producers| == |s'.producers| && s'.consumer == s.consumer && s.order <= s'.order
    requires s'.producers == s.producers[t := s'.producers[t]]
    requires s'.producers[t].head == s.producers[t].head && s'.producers[t].tail >= s.producers[t].tail
    requires s'.producers[t].over == s.producers[t].over
    ensures ConsumerOk(s')
  {
    forall p | NonEmpty(s, p) ensures NonEmpty(s', p) {}
    forall i | AheadOfUs(s, i) ensures AheadOfUs(s', i) { AheadStays(s, s', i); }
  }

  lemma AheadStays(s: State, s': State, i: int)
    requires AheadOfUs(s, i) && s.order <= s'.order
    requires forall p :: NonEmpty(s, p) ==> NonEmpty(s', p)
    ensures AheadOfUs(s', i)
  {
    var j :| 0 <= j <= i && j < |s.order| && NonEmpty(s, s.order[j]);
    assert NonEmpty(s', s'.order[j]);
  }

  lemma PostPreserves(s: State, t: nat, lucky: bool)
    requires Inv(s) && t < |s.producers|
    ensures Inv(PostStep(s, t, lucky))
  {
    assert ProducerOk(s, t);
    PostKeepsSums(s, t, lucky);
    PostKeepsList(s, t, lucky);
    PostKeepsConsumer(s, t, lucky);
    var s' := PostStep(s, t, lucky);
    forall u: nat | u < |s'.producers| ensures ProducerOk(s', u) {
      PostKeepsProducer(s, t, lucky, u);
    }
  }

  lemma SizeApproxExact(head: int, tail: int)
    requires head <= tail && tail - head < HALF
    ensures SizeApprox(head, tail) == tail - head
  {
    CircularIsOrder(head, tail);
    WordSub(tail, head);
  }

  /** Steps of the scan change only the dispatching thread. */
  lemma ScanFrame(s: State, s': State)
    requires Inv(s) && s' == s.(tokens := s'.tokens, consumer := s'.consumer)
    requires Ticket(s.consumer) == None && Ticket(s'.consumer) == None
    requires s'.tokens >= 0 && s'.tokens + Owed(s'.consumer) == s.tokens + Owed(s.consumer)
    requires ConsumerOk(s')
    ensures Inv(s')
  {
    forall t | 0 <= t < |s'.producers| ensures ProducerOk(s', t) { assert ProducerOk(s, t); }
  }

  lemma ScanBegins(s: State)
    requires Inv(s) && s.consumer.CLoadList?
    ensures ConsumerOk(DispatchStep(s))
  {
    TokenMeansElement(s);
    var i :| 0 <= i < |s.order| && NonEmpty(s, s.order[i]);
    var s' := DispatchStep(s);
    assert NonEmpty(s', s'.order[i]);
  }

  lemma ScanReadsTail(s: State, s': State)
    requires ConsumerOk(s) && s.consumer.CScanTail? && s.consumer.cursor.Some? && s.consumer.cursor.value < |s.producers|
    requires RecordOk(s, s.consumer.cursor.value)
    requires var c := s.consumer;
      s' == s.(consumer := CScanHead(c.cursor.value, c.nonEmpty, c.best, c.bestSize, c.pos, s.producers[c.cursor.value].tail))
    ensures ConsumerOk(s')
  {
    var pos := s.consumer.pos;
    if s.consumer.nonEmpty == 0 {
      var j :| 0 <= j <= pos && j < |s.order| && NonEmpty(s, s.order[j]);
      assert NonEmpty(s', s'.order[j]);
    }
  }

  /** What the scan makes of the backlog it computed. */
  lemma ScanScores(s: State)
    requires s.consumer.CScanHead? && s.consumer.at < |s.producers|
    requires s.producers[s.consumer.at].head <= s.consumer.tail < s.producers[s.consumer.at].head + HALF
    ensures var c := s.consumer; var p := s.producers[c.at]; var found := c.tail - p.head;
      DispatchStep(s) == s.(consumer :=
        if found <= 0 then CScanTail(p.next, c.nonEmpty, c.best, c.bestSize, c.pos - 1)
        else if found > c.bestSize then CScanTail(p.next, c.nonEmpty + 1, c.at, found, c.pos - 1)
        else CScanTail(p.next, c.nonEmpty + 1, c.best, c.bestSize, c.pos - 1))
  {
    SizeApproxExact(s.producers[s.consumer.at].head, s.consumer.tail);
  }

  lemma ScanReadsHead(s: State, s': State)
    requires ListOk(s) && ConsumerOk(s) && s.consumer.CScanHead? && s.consumer.at < |s.producers|
    requires var c := s.consumer; var p := s.producers[c.at]; var found := c.tail - p.head;
      s' == s.(consumer :=
        if found <= 0 then CScanTail(p.next, c.nonEmpty, c.best, c.bestSize, c.pos - 1)
        else if found > c.bestSize then CScanTail(p.next, c.nonEmpty + 1, c.at, found, c.pos - 1)
        else CScanTail(p.next, c.nonEmpty + 1, c.best, c.bestSize, c.pos - 1))
    ensures ConsumerOk(s')
  {
    ScanMovesOn(s, s', s'.consumer.nonEmpty, s'.consumer.best, s'.consumer.bestSize);
  }

  /** The scan goes one place back in the listing order, with the producer it just looked at taken into account. */
  lemma ScanMovesOn(s: State, s': State, n: nat, best: nat, size: int)
    requires ListOk(s) && ConsumerOk(s) && s.consumer.CScanHead?
    requires s' == s.(consumer := CScanTail(s.producers[s.consumer.at].next, n, best, size, s.consumer.pos - 1))
    requires n > 0 ==> NonEmpty(s, best)
    requires n == 0 ==> size == 0 && AheadOfUs(s, s.consumer.pos - 1)
    ensures ConsumerOk(s')
  {
    if n == 0 { AheadStays(s, s', s.consumer.pos - 1); }
  }

  lemma ScanPreserves(s: State)
    requires Inv(s) && (s.consumer.CIdle? || s.consumer.CLoadList? || s.consumer.CScanTail? || s.consumer.CScanHead?)
    ensures ConsumerReady(s) && Inv(DispatchStep(s))
  {
    match s.consumer {
      case CIdle =>
      case CLoadList => ScanBegins(s);
      case CScanTail(_, _, _, _, pos) =>
        if pos >= 0 {
          assert ProducerOk(s, s.order[pos]);
          if s.consumer.nonEmpty < 3 { ScanReadsTail(s, DispatchStep(s)); }
        }
      case CScanHead(c, _, _, _, _, _) =>
        assert ProducerOk(s, c);
        ScanScores(s);
        ScanReadsHead(s, DispatchStep(s));
    }
    ScanFrame(s, DispatchStep(s));
  }

  /** With one dequeuing thread the best-scored producer's comparisons succeed. */
  lemma TakeStep(s: State, p: nat)
    requires ConsumerOk(s) && p < |s.producers| && ProducerOk(s, p)
    requires s.consumer.CTail? || s.consumer.COver? || s.consumer.CCount? || s.consumer.CReserve? || s.consumer.CTailAgain? || s.consumer.CClaim?
    requires s.consumer.p == p
    ensures var s' := DispatchStep(s);
      && ConsumerOk(s') && |s'.producers| == |s.producers| && ProducerOk(s', p)
      && s'.producers == s.producers[p := s'.producers[p]]
      && s' == s.(producers := s'.producers, consumer := s'.consumer, dispatched := s'.dispatched)
      && s'.producers[p] == s.producers[p].(count := s'.producers[p].count, head := s'.producers[p].head)
      && s'.producers[p].head - s.producers[p].head == Owed(s.consumer) - Owed(s'.consumer) == s'.dispatched - s.dispatched
      && (forall t :: 0 <= t < |s.producers| && t != p ==> Ticket(s.consumer) != Some(t) && Ticket(s'.consumer) != Some(t))
  {
    var r := s.producers[p];
    CircularIsOrder(r.head, r.tail);
    if s.consumer.CCount? { CircularIsOrder(r.head, s.consumer.tail); }
  }

  lemma TakePreserves(s: State)
    requires Inv(s) && !(s.consumer.CIdle? || s.consumer.CLoadList? || s.consumer.CScanTail? || s.consumer.CScanHead?)
    ensures ConsumerReady(s) && Inv(DispatchStep(s))
  {
    var p := s.consumer.p;
    assert ProducerOk(s, p);
    TakeStep(s, p);
    TakeFrame(s, DispatchStep(s), p);
  }

  lemma TakeFrame(s: State, s': State, p: nat)
    requires Inv(s) && p < |s.producers| && |s'.producers| == |s.producers|
    requires s'.producers == s.producers[p := s'.producers[p]]
    requires s' == s.(producers := s'.producers, consumer := s'.consumer, dispatched := s'.dispatched)
    requires s'.producers[p] == s.producers[p].(count := s'.producers[p].count, head := s'.producers[p].head)
    requires s'.producers[p].head - s.producers[p].head == Owed(s.consumer) - Owed(s'.consumer) == s'.dispatched - s.dispatched
    requires forall t :: 0 <= t < |s.producers| && t != p ==> Ticket(s.consumer) != Some(t) && Ticket(s'.consumer) != Some(t)
    requires ConsumerOk(s') && ProducerOk(s', p)
    ensures Inv(s')
  {
    SumsUpdate(s, s', p);
    forall t | 0 <= t < |s'.producers| ensures ProducerOk(s', t) { assert ProducerOk(s, t); }
  }

  datatype Turn = Post(thread: nat, lucky: bool) | Dispatch

  ghost function Move(s: State, turn: Turn): State {
    match turn
    case Post(t, lucky) => if t < |s.producers| then PostStep(s, t, lucky) else s
    case Dispatch => if ConsumerReady(s) then DispatchStep(s) else s
  }

  ghost function Exec(s: State, schedule: seq<Turn>): State
    decreases schedule
  {
    if schedule == [] then s else Exec(Move(s, schedule[0]), schedule[1..])
  }

  lemma {:induction false} ExecPreserves(s: State, schedule: seq<Turn>)
    requires Inv(s)
    ensures Inv(Exec(s, schedule))
    decreases schedule
  {
    if schedule != [] {
      match schedule[0] {
        case Post(t, lucky) => if t < |s.producers| { PostPreserves(s, t, lucky); }
        case Dispatch =>
          if s.consumer.CIdle? || s.consumer.CLoadList? || s.consumer.CScanTail? || s.consumer.CScanHead? {
            ScanPreserves(s);
          } else {
            TakePreserves(s);
          }
      }
      ExecPreserves(Move(s, schedule[0]), schedule[1..]);
    }
  }

  lemma {:induction false} PublishedSplits(ps: seq<Producer>)
    ensures Total(ps, Published()) == Total(ps, Passed()) + Total(ps, Backlog())
  {
    if ps != [] { PublishedSplits(ps[1..]); }
  }

  /**
   With any number of posting threads and the one dispatching thread, in no interleaving does
   `wait_dequeue` reach its abort, nor does the dequeue from the best-scored producer ever miss; and
   posted jobs are conserved: as many as were published were returned, or await their token, their signal
   or the dequeue under way; and the producers' heads count exactly the jobs that were returned.
   */
  lemma AbortUnreachable(s0: State, schedule: seq<Turn>)
    requires Init(s0)
    ensures var s := Exec(s0, schedule);
      && s.consumer != Abort && s.consumer != Missed
      && Total(s.producers, Published()) == s.dispatched + s.tokens + Total(s.producers, Unsignalled()) + Owed(s.consumer)
      && Total(s.producers, Passed()) == s.dispatched
  {
    InitEstablishes(s0);
    ExecPreserves(s0, schedule);
    PublishedSplits(Exec(s0, schedule).producers);
  }
}
