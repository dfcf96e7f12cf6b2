/**
 The optimistic dequeue counters of one producer, as an interleaving of atomic steps.

 One thread enqueues; any number of threads dequeue one element or several. A consumer reserves
 tickets by adding to `dequeueOptimisticCount`, and decides how many of them win by comparing with
 the tail and with a value of `dequeueOvercommit` that may be arbitrarily stale.
 */
module DequeueCounters {
  import opened Circular
  import opened Totals

  const BLOCK_SIZE := 32

  /** What a reserved ticket came to. */
  datatype Verdict = Pending | Won | Lost

  datatype Pc =
    | Idle
    | ReadTail(want: nat, bulk: bool)
    | ReadOver(want: nat, bulk: bool, tail: int)
    | ReadCount(want: nat, bulk: bool, tail: int, over: int)
    | Reserve(k: nat, bulk: bool, over: int)
    | ReadTailAgain(k: nat, bulk: bool, over: int, mine: int)
    | GiveBack(back: nat, claim: nat)
    | Claim(count: nat)

  datatype Producer =
    | ProducerIdle
    | CheckRoom(v: int)
    | Construct(v: int)
    | Publish

  /** A block of consecutive indices a consumer took from the head. */
  datatype Claimed = Claimed(first: int, count: nat)

  /**
   The four shared counters, unbounded; the words in memory are `Word` of them. `items` are the
   constructed elements. `verdicts` and `claims` record the history.
   */
  datatype State = State(
    tail: int, head: int, count: int, over: int,
    items: seq<int>, producer: Producer,
    verdicts: seq<Verdict>, claims: seq<Claimed>, pcs: seq<Pc>)

  datatype Call = Single | Bulk(max: nat)

  // ---- the steps ----

  /** The check of `enqueue` before it starts a new block. */
  predicate HasRoom(head: int, tail: int) {
    CircularLess(Word(head), Word(tail + BLOCK_SIZE))
  }

  function Min(a: int, b: int): int { if a < b then a else b }

  /** The next step of the enqueueing thread; `v` is the element it enqueues when idle. */
  ghost function ProducerStep(s: State, v: int): State {
    match s.producer
    case ProducerIdle =>
      s.(producer := if s.tail % BLOCK_SIZE == 0 then CheckRoom(v) else Construct(v))
    case CheckRoom(e) =>
      if HasRoom(s.head, s.tail) then s.(producer := Construct(e))
      else s.(producer := ProducerIdle)
    case Construct(e) =>
      s.(items := s.items + [e], producer := Publish)
    case Publish =>
      s.(tail := s.tail + 1, producer := ProducerIdle)
  }

  /** Of `k` tickets from `mine` on, the number that win against `tail` and the remembered overcommit. */
  function Winners(k: nat, bulk: bool, over: int, mine: int, tail: int): (a: nat) {
    if bulk then
      var actual := Sub(Word(tail), Word(mine - over));
      if CircularLess(0, actual) then Min(k, actual) else 0
    else
      if CircularLess(Word(mine - over), Word(tail)) then k else 0
  }

  function Decide(vs: seq<Verdict>, m: int, k: nat, a: nat): seq<Verdict>
    requires 0 <= m && m + k <= |vs| && a <= k
  {
    vs[..m] + seq(a, i => Won) + seq(k - a, i => Lost) + vs[m + k..]
  }

  /** The next atomic step of consumer `t`. */
  ghost function ConsumerStep(s: State, t: nat, call: Call): State
    requires t < |s.pcs|
    requires s.pcs[t].ReadTailAgain? ==> 0 <= s.pcs[t].mine && s.pcs[t].mine + s.pcs[t].k <= |s.verdicts|
    requires s.pcs[t].ReadTailAgain? && !s.pcs[t].bulk ==> s.pcs[t].k == 1
  {
    match s.pcs[t]
    case Idle =>
      s.(pcs := s.pcs[t := if call.Single? then ReadTail(1, false) else ReadTail(call.max, true)])
    case ReadTail(want, bulk) =>
      s.(pcs := s.pcs[t := ReadOver(want, bulk, s.tail)])
    case ReadOver(want, bulk, tail) =>
      s.(pcs := s.pcs[t := ReadCount(want, bulk, tail, s.over)])
    case ReadCount(want, bulk, tail, over) =>
      if bulk then
        var desired := Sub(Word(tail), Word(s.count - over));
        if CircularLess(0, desired) then s.(pcs := s.pcs[t := Reserve(Min(desired, want), bulk, over)])
        else s.(pcs := s.pcs[t := Idle])
      else
        if CircularLess(Word(s.count - over), Word(tail)) then s.(pcs := s.pcs[t := Reserve(1, bulk, over)])
        else s.(pcs := s.pcs[t := Idle])
    case Reserve(k, bulk, over) =>
      s.(count := s.count + k, verdicts := s.verdicts + seq(k, i => Pending),
         pcs := s.pcs[t := ReadTailAgain(k, bulk, over, s.count)])
    case ReadTailAgain(k, bulk, over, mine) =>
      var a := Winners(k, bulk, over, mine, s.tail);
      s.(verdicts := Decide(s.verdicts, mine, k, a),
         pcs := s.pcs[t := if a < k then GiveBack(k - a, a) else Claim(a)])
    case GiveBack(back, claim) =>
      s.(over := s.over + back, pcs := s.pcs[t := if claim > 0 then Claim(claim) else Idle])
    case Claim(n) =>
      s.(head := s.head + n, claims := s.claims + [Claimed(s.head, n)], pcs := s.pcs[t := Idle])
  }

  // ---- counting verdicts over prefixes ----

  ghost function LostIn(vs: seq<Verdict>, n: nat): (r: nat)
    requires n <= |vs|
    ensures r <= n
  {
    if n == 0 then 0 else LostIn(vs, n - 1) + if vs[n - 1] == Lost then 1 else 0
  }

  ghost function WonIn(vs: seq<Verdict>, n: nat): (r: nat)
    requires n <= |vs|
    ensures r + LostIn(vs, n) <= n
  {
    if n == 0 then 0 else WonIn(vs, n - 1) + if vs[n - 1] == Won then 1 else 0
  }

  lemma {:induction false} PrefixCounts(vs: seq<Verdict>, vs': seq<Verdict>, n: nat)
    requires n <= |vs| && n <= |vs'|
    requires forall i :: 0 <= i < n ==> vs'[i] == vs[i]
    ensures LostIn(vs', n) == LostIn(vs, n) && WonIn(vs', n) == WonIn(vs, n)
  {
    if n > 0 { PrefixCounts(vs, vs', n - 1); }
  }

  lemma {:induction false} LostMonotone(vs: seq<Verdict>, m: nat, n: nat)
    requires m <= n <= |vs|
    ensures LostIn(vs, m) <= LostIn(vs, n)
  {
    if m < n { LostMonotone(vs, m, n - 1); }
  }

  lemma {:induction false} PendingCounts(vs: seq<Verdict>, m: nat, n: nat)
    requires m <= n <= |vs|
    requires forall i :: m <= i < n ==> vs[i] == Pending
    ensures LostIn(vs, n) == LostIn(vs, m) && WonIn(vs, n) == WonIn(vs, m)
  {
    if m < n { PendingCounts(vs, m, n - 1); }
  }

  /** Deciding tickets adds exactly the winners and the losers to the counts, prefix by prefix. */
  lemma {:induction false} DecideCounts(vs: seq<Verdict>, m: nat, k: nat, a: nat, n: nat)
    requires m + k <= |vs| && a <= k && n <= |vs|
    requires forall i :: m <= i < m + k ==> vs[i] == Pending
    ensures |Decide(vs, m, k, a)| == |vs|
    ensures LostIn(Decide(vs, m, k, a), n) >= LostIn(vs, n)
    ensures n <= m ==> LostIn(Decide(vs, m, k, a), n) == LostIn(vs, n)
    ensures n >= m + k ==> LostIn(Decide(vs, m, k, a), n) == LostIn(vs, n) + k - a
    ensures m + a <= n < m + k ==> LostIn(Decide(vs, m, k, a), n) == LostIn(vs, n) + n - m - a
    ensures m <= n < m + a ==> LostIn(Decide(vs, m, k, a), n) == LostIn(vs, n)
    ensures n <= m ==> WonIn(Decide(vs, m, k, a), n) == WonIn(vs, n)
    ensures n >= m + a ==> WonIn(Decide(vs, m, k, a), n) == WonIn(vs, n) + a
    ensures m <= n < m + a ==> WonIn(Decide(vs, m, k, a), n) == WonIn(vs, n) + n - m
  {
    if n > 0 { DecideCounts(vs, m, k, a, n - 1); }
  }

  /** If every winning ticket has at most `tail` tickets not lost up to it, at most `tail` tickets win. */
  lemma {:induction false} WinnersWithinTail(vs: seq<Verdict>, n: nat, tail: int)
    requires n <= |vs| && tail >= 0
    requires forall j :: 0 <= j < |vs| && vs[j] == Won ==> j + 1 - LostIn(vs, j + 1) <= tail
    ensures WonIn(vs, n) <= tail
  {
    if n > 0 && vs[n - 1] != Won { WinnersWithinTail(vs, n - 1, tail); }
  }

  // ---- the invariant ----

  ghost function Backs(): Pc -> int { (p: Pc) => if p.GiveBack? then p.back else 0 }

  ghost function Claiming(): Pc -> int { (p: Pc) => if p.GiveBack? then p.claim else if p.Claim? then p.count else 0 }

  ghost function Undecided(): Pc -> int { (p: Pc) => if p.ReadTailAgain? then p.k else 0 }

  /** The claims are consecutive runs of indices, from 0 up to `head`. */
  ghost predicate Consecutive(claims: seq<Claimed>, head: int) {
    && (claims == [] ==> head == 0)
    && (claims != [] ==> claims[0].first == 0 && head == claims[|claims| - 1].first + claims[|claims| - 1].count)
    && (forall i :: 0 < i < |claims| ==> claims[i].first == claims[i - 1].first + claims[i - 1].count)
  }

  /**
   Enough room is kept that head and tail never drift half the range apart: `past` says the enqueuer is
   past its check for room in a new block.
   */
  predicate Roomy(tail: int, head: int, past: bool) {
    && tail - head < HALF
    && (tail % BLOCK_SIZE != 0 || past ==> (tail / BLOCK_SIZE + 1) * BLOCK_SIZE - head < HALF)
  }

  ghost predicate RoomKept(s: State) {
    && Roomy(s.tail, s.head, s.producer.Construct? || s.producer.Publish?)
    && (s.producer.CheckRoom? ==> s.tail % BLOCK_SIZE == 0)
  }

  ghost predicate TicketsIn(p: Pc, vs: seq<Verdict>) {
    p.ReadTailAgain? ==>
      && 0 <= p.mine && p.mine + p.k <= |vs|
      && (!p.bulk ==> p.k == 1)
  }

  ghost predicate ThreadOk(s: State, p: Pc) {
    && ((p.ReadCount? || p.Reserve?) ==> 0 <= p.over <= s.over)
    && (p.ReadOver? && !p.bulk ==> p.want == 1) && (p.ReadTail? && !p.bulk ==> p.want == 1)
    && (p.Reserve? && !p.bulk ==> p.k == 1)
    && TicketsIn(p, s.verdicts)
    && (p.ReadTailAgain? ==>
         && (forall i :: p.mine <= i < p.mine + p.k ==> s.verdicts[i] == Pending)
         && 0 <= p.over <= LostIn(s.verdicts, p.mine))
  }

  /** Two undecided consumers hold different tickets. */
  ghost predicate TicketsApart(p: Pc, q: Pc) {
    p.ReadTailAgain? && q.ReadTailAgain? ==> p.mine + p.k <= q.mine || q.mine + q.k <= p.mine
  }

  ghost predicate WinnersCovered(vs: seq<Verdict>, tail: int) {
    forall j :: 0 <= j < |vs| && vs[j] == Won ==> j + 1 - LostIn(vs, j + 1) <= tail
  }

  ghost predicate Inv(s: State) {
    && s.tail >= 0 && s.head >= 0 && s.over >= 0
    && |s.verdicts| == s.count
    && |s.items| == s.tail + (if s.producer.Publish? then 1 else 0)
    && s.over + Total(s.pcs, Backs()) == LostIn(s.verdicts, |s.verdicts|)
    && s.head + Total(s.pcs, Claiming()) == WonIn(s.verdicts, |s.verdicts|)
    && s.count == LostIn(s.verdicts, |s.verdicts|) + WonIn(s.verdicts, |s.verdicts|) + Total(s.pcs, Undecided())
    && WinnersCovered(s.verdicts, s.tail)
    && Consecutive(s.claims, s.head)
    && RoomKept(s)
    && (forall t :: 0 <= t < |s.pcs| ==> ThreadOk(s, s.pcs[t]))
    && (forall t, u :: 0 <= t < u < |s.pcs| ==> TicketsApart(s.pcs[t], s.pcs[u]))
  }

  ghost predicate Init(s: State) {
    && s.tail == s.head == s.count == s.over == 0
    && s.items == [] && s.producer == ProducerIdle && s.verdicts == [] && s.claims == []
    && (forall t :: 0 <= t < |s.pcs| ==> s.pcs[t] == Idle)
  }

  lemma InitEstablishes(s: State)
    requires Init(s)
    ensures Inv(s)
  {
    TotalAllZero(s.pcs, Backs());
    TotalAllZero(s.pcs, Claiming());
    TotalAllZero(s.pcs, Undecided());
  }

  /** headIndex never exceeds tailIndex, counting the heads already won but not yet advanced. */
  lemma HeadWithinTail(s: State)
    requires Inv(s)
    ensures s.head + Total(s.pcs, Claiming()) <= s.tail
    ensures 0 <= Total(s.pcs, Claiming()) && 0 <= Total(s.pcs, Backs())
    ensures forall t :: 0 <= t < |s.pcs| ==> Claiming()(s.pcs[t]) <= Total(s.pcs, Claiming())
  {
    WinnersWithinTail(s.verdicts, |s.verdicts|, s.tail);
    TotalNonNegative(s.pcs, Backs());
    TotalNonNegative(s.pcs, Claiming());
    forall t | 0 <= t < |s.pcs| ensures Claiming()(s.pcs[t]) <= Total(s.pcs, Claiming()) {
      TotalAtLeastTerm(s.pcs, Claiming(), t);
    }
  }

  lemma ProducerKeepsRoom(s: State, v: int)
    requires RoomKept(s) && 0 <= s.head <= s.tail
    ensures RoomKept(ProducerStep(s, v))
  {
    if s.producer.CheckRoom? {
      WordSub(s.head, s.tail + BLOCK_SIZE);
    }
  }

  lemma ProducerPreserves(s: State, v: int)
    requires Inv(s)
    ensures Inv(ProducerStep(s, v))
  {
    HeadWithinTail(s);
    ProducerKeepsRoom(s, v);
    var s' := ProducerStep(s, v);
    assert s'.pcs == s.pcs && s'.verdicts == s.verdicts;
    forall t | 0 <= t < |s'.pcs| ensures ThreadOk(s', s'.pcs[t]) {
      assert ThreadOk(s, s.pcs[t]);
    }
  }

  /** The words the consumer compares tell it how many of its tickets are covered by the tail. */
  lemma WinnersExact(k: nat, bulk: bool, over: int, mine: int, tail: int)
    requires Near(mine - over, tail) && (!bulk ==> k == 1)
    ensures Winners(k, bulk, over, mine, tail) ==
      if tail - (mine - over) <= 0 then 0 else Min(k, tail - (mine - over))
  {
    WordSub(tail, mine - over);
    CircularIsOrder(mine - over, tail);
  }

  /** The comparison of a consumer is not delayed by half the range of the counters. */
  ghost predicate Timely(s: State, t: nat) {
    t < |s.pcs| && s.pcs[t].ReadTailAgain? ==> Near(s.pcs[t].mine - s.pcs[t].over, s.tail)
  }

  /** Undecided tickets stay where they are when more are reserved behind them. */
  lemma ReserveKeepsThreads(s: State, s': State, t: nat)
    requires Inv(s) && t < |s.pcs| && s.pcs[t].Reserve? && ThreadOk(s, s.pcs[t])
    requires s'.verdicts == s.verdicts + seq(s.pcs[t].k, i => Pending) && s'.over == s.over
    requires s'.pcs == s.pcs[t := ReadTailAgain(s.pcs[t].k, s.pcs[t].bulk, s.pcs[t].over, s.count)]
    requires forall n :: 0 <= n <= |s.verdicts| ==> LostIn(s'.verdicts, n) == LostIn(s.verdicts, n)
    ensures forall u :: 0 <= u < |s'.pcs| ==> ThreadOk(s', s'.pcs[u])
    ensures forall u, v :: 0 <= u < v < |s'.pcs| ==> TicketsApart(s'.pcs[u], s'.pcs[v])
  {
    forall u | 0 <= u < |s'.pcs| ensures ThreadOk(s', s'.pcs[u]) {
      assert ThreadOk(s, s.pcs[u]);
      if u == t { TotalNonNegative(s.pcs, Backs()); }
    }
    forall u, v | 0 <= u < v < |s'.pcs| ensures TicketsApart(s'.pcs[u], s'.pcs[v]) {
      assert ThreadOk(s, s.pcs[u]) && ThreadOk(s, s.pcs[v]);
      assert TicketsApart(s.pcs[u], s.pcs[v]);
    }
  }

  lemma ReservePreserves(s: State, t: nat, call: Call)
    requires Inv(s) && t < |s.pcs| && s.pcs[t].Reserve? && ThreadOk(s, s.pcs[t])
    ensures Inv(ConsumerStep(s, t, call))
  {
    var s' := ConsumerStep(s, t, call);
    forall n: nat | n <= |s.verdicts| ensures LostIn(s'.verdicts, n) == LostIn(s.verdicts, n) && WonIn(s'.verdicts, n) == WonIn(s.verdicts, n) {
      PrefixCounts(s.verdicts, s'.verdicts, n);
    }
    PendingCounts(s'.verdicts, |s.verdicts|, |s'.verdicts|);
    TotalUpdate(s.pcs, t, s'.pcs[t], Backs());
    TotalUpdate(s.pcs, t, s'.pcs[t], Claiming());
    TotalUpdate(s.pcs, t, s'.pcs[t], Undecided());
    ReserveKeepsThreads(s, s', t);
  }

  /** Deciding keeps every winner covered, although the overcommit it used may be stale. */
  lemma DecisionCovered(vs: seq<Verdict>, m: nat, k: nat, over: int, tail: int, a: nat)
    requires m + k <= |vs| && a <= k
    requires forall i :: m <= i < m + k ==> vs[i] == Pending
    requires 0 <= over <= LostIn(vs, m)
    requires a == if tail - (m - over) <= 0 then 0 else Min(k, tail - (m - over))
    requires WinnersCovered(vs, tail)
    ensures WinnersCovered(Decide(vs, m, k, a), tail)
  {
    var vs' := Decide(vs, m, k, a);
    forall j | 0 <= j < |vs'| && vs'[j] == Won ensures j + 1 - LostIn(vs', j + 1) <= tail {
      if m <= j < m + a {
        DecideCounts(vs, m, k, a, m);
        LostMonotone(vs', m, j + 1);
      } else {
        DecideCounts(vs, m, k, a, j + 1);
      }
    }
  }

  /** The tickets of another undecided consumer stay pending, and no fewer are lost before them. */
  lemma DecideKeepsOther(s: State, s': State, p: Pc, q: Pc, a: nat)
    requires p.ReadTailAgain? && TicketsIn(p, s.verdicts) && a <= p.k
    requires forall i :: p.mine <= i < p.mine + p.k ==> s.verdicts[i] == Pending
    requires s'.verdicts == Decide(s.verdicts, p.mine, p.k, a) && s'.over == s.over
    requires ThreadOk(s, q) && TicketsApart(q, p)
    ensures ThreadOk(s', q)
  {
    if q.ReadTailAgain? {
      DecideCounts(s.verdicts, p.mine, p.k, a, q.mine);
    }
  }

  lemma DecideKeepsThreads(s: State, s': State, t: nat, a: nat)
    requires Inv(s) && t < |s.pcs| && s.pcs[t].ReadTailAgain?
    requires TicketsIn(s.pcs[t], s.verdicts) && a <= s.pcs[t].k
    requires s'.verdicts == Decide(s.verdicts, s.pcs[t].mine, s.pcs[t].k, a) && s'.over == s.over
    requires |s'.pcs| == |s.pcs| && s'.pcs == s.pcs[t := s'.pcs[t]] && (s'.pcs[t].GiveBack? || s'.pcs[t].Claim?)
    ensures forall u :: 0 <= u < |s'.pcs| ==> ThreadOk(s', s'.pcs[u])
  {
    var p := s.pcs[t];
    assert ThreadOk(s, p);
    forall u | 0 <= u < |s'.pcs| ensures ThreadOk(s', s'.pcs[u]) {
      if u < t {
        assert ThreadOk(s, s.pcs[u]) && TicketsApart(s.pcs[u], p);
        DecideKeepsOther(s, s', p, s.pcs[u], a);
      } else if u > t {
        assert ThreadOk(s, s.pcs[u]) && TicketsApart(p, s.pcs[u]);
        DecideKeepsOther(s, s', p, s.pcs[u], a);
      }
    }
  }

  lemma DecidedState(s: State, t: nat, s': State, a: nat)
    requires Inv(s) && t < |s.pcs| && s.pcs[t].ReadTailAgain? && ThreadOk(s, s.pcs[t])
    requires a <= s.pcs[t].k && WinnersCovered(s'.verdicts, s.tail)
    requires s' == s.(verdicts := Decide(s.verdicts, s.pcs[t].mine, s.pcs[t].k, a),
                      pcs := s.pcs[t := if a < s.pcs[t].k then GiveBack(s.pcs[t].k - a, a) else Claim(a)])
    ensures Inv(s')
  {
    DecideCounts(s.verdicts, s.pcs[t].mine, s.pcs[t].k, a, |s.verdicts|);
    TotalUpdate(s.pcs, t, s'.pcs[t], Backs());
    TotalUpdate(s.pcs, t, s'.pcs[t], Claiming());
    TotalUpdate(s.pcs, t, s'.pcs[t], Undecided());
    DecideKeepsThreads(s, s', t, a);
    forall u, v | 0 <= u < v < |s'.pcs| ensures TicketsApart(s'.pcs[u], s'.pcs[v]) {
      assert TicketsApart(s.pcs[u], s.pcs[v]);
    }
  }

  lemma DecidePreserves(s: State, t: nat, call: Call)
    requires Inv(s) && t < |s.pcs| && s.pcs[t].ReadTailAgain? && Timely(s, t)
    requires ThreadOk(s, s.pcs[t])
    ensures Inv(ConsumerStep(s, t, call))
  {
    var p := s.pcs[t];
    var a := Winners(p.k, p.bulk, p.over, p.mine, s.tail);
    WinnersExact(p.k, p.bulk, p.over, p.mine, s.tail);
    DecisionCovered(s.verdicts, p.mine, p.k, p.over, s.tail, a);
    DecidedState(s, t, ConsumerStep(s, t, call), a);
  }

  lemma ReadingPreserves(s: State, t: nat, call: Call)
    requires Inv(s) && t < |s.pcs|
    requires s.pcs[t].Idle? || s.pcs[t].ReadTail? || s.pcs[t].ReadOver? || s.pcs[t].ReadCount?
    ensures Inv(ConsumerStep(s, t, call))
  {
    var s' := ConsumerStep(s, t, call);
    assert ThreadOk(s, s.pcs[t]);
    TotalUpdate(s.pcs, t, s'.pcs[t], Backs());
    TotalUpdate(s.pcs, t, s'.pcs[t], Claiming());
    TotalUpdate(s.pcs, t, s'.pcs[t], Undecided());
    assert s' == s.(pcs := s'.pcs);
    OthersUnmoved(s, s', t);
  }

  lemma SettlingPreserves(s: State, t: nat, call: Call)
    requires Inv(s) && t < |s.pcs|
    requires s.pcs[t].GiveBack? || s.pcs[t].Claim?
    ensures Inv(ConsumerStep(s, t, call))
  {
    var s' := ConsumerStep(s, t, call);
    HeadWithinTail(s);
    TotalUpdate(s.pcs, t, s'.pcs[t], Backs());
    TotalUpdate(s.pcs, t, s'.pcs[t], Claiming());
    TotalUpdate(s.pcs, t, s'.pcs[t], Undecided());
    OthersUnmoved(s, s', t);
  }

  /** Threads other than `t` keep what holds of them when no verdict changes and overcommit only grows. */
  lemma OthersUnmoved(s: State, s': State, t: nat)
    requires Inv(s) && t < |s.pcs| == |s'.pcs| && s'.pcs == s.pcs[t := s'.pcs[t]]
    requires s'.verdicts == s.verdicts && s'.over >= s.over
    requires ThreadOk(s', s'.pcs[t]) && !s'.pcs[t].ReadTailAgain?
    ensures forall u :: 0 <= u < |s'.pcs| ==> ThreadOk(s', s'.pcs[u])
    ensures forall u, v :: 0 <= u < v < |s'.pcs| ==> TicketsApart(s'.pcs[u], s'.pcs[v])
  {
    forall u | 0 <= u < |s'.pcs| ensures ThreadOk(s', s'.pcs[u]) {
      assert ThreadOk(s, s.pcs[u]);
    }
    forall u, v | 0 <= u < v < |s'.pcs| ensures TicketsApart(s'.pcs[u], s'.pcs[v]) {
      assert TicketsApart(s.pcs[u], s.pcs[v]);
    }
  }

  /** Every step of every consumer keeps the invariant. */
  lemma ConsumerPreserves(s: State, t: nat, call: Call)
    requires Inv(s) && t < |s.pcs| && Timely(s, t)
    requires ThreadOk(s, s.pcs[t])
    ensures Inv(ConsumerStep(s, t, call))
  {
    if s.pcs[t].Reserve? {
      ReservePreserves(s, t, call);
    } else if s.pcs[t].ReadTailAgain? {
      DecidePreserves(s, t, call);
    } else if s.pcs[t].GiveBack? || s.pcs[t].Claim? {
      SettlingPreserves(s, t, call);
    } else {
      ReadingPreserves(s, t, call);
    }
  }

  // ---- whole runs ----

  datatype Turn = Produce(v: int) | Consume(thread: nat, call: Call)

  /** A thread whose state the step function is defined on. */
  ghost predicate Ready(s: State, t: nat) {
    && t < |s.pcs|
    && TicketsIn(s.pcs[t], s.verdicts)
  }

  ghost function Move(s: State, turn: Turn): State {
    match turn
    case Produce(v) => ProducerStep(s, v)
    case Consume(t, call) => if Ready(s, t) then ConsumerStep(s, t, call) else s
  }

  ghost function Exec(s: State, schedule: seq<Turn>): State
    decreases schedule
  {
    if schedule == [] then s else Exec(Move(s, schedule[0]), schedule[1..])
  }

  /** No consumer's comparison is delayed by half the range of the counters. */
  ghost predicate TimelyRun(s: State, schedule: seq<Turn>)
    decreases schedule
  {
    schedule == [] ||
    ((schedule[0].Consume? ==> Timely(s, schedule[0].thread)) && TimelyRun(Move(s, schedule[0]), schedule[1..]))
  }

  lemma {:induction false} ExecPreserves(s: State, schedule: seq<Turn>)
    requires Inv(s) && TimelyRun(s, schedule)
    ensures Inv(Exec(s, schedule))
    decreases schedule
  {
    if schedule != [] {
      match schedule[0] {
        case Produce(v) => ProducerPreserves(s, v);
        case Consume(t, call) =>
          if t < |s.pcs| {
            assert ThreadOk(s, s.pcs[t]);
            ConsumerPreserves(s, t, call);
          }
      }
      ExecPreserves(Move(s, schedule[0]), schedule[1..]);
    }
  }

  /** The elements taken by the claims, one claim after the other. */
  ghost function Taken(claims: seq<Claimed>, items: seq<int>): seq<int>
    requires forall i :: 0 <= i < |claims| ==> 0 <= claims[i].first && claims[i].first + claims[i].count <= |items|
  {
    if claims == [] then []
    else
      var c := claims[|claims| - 1];
      Taken(claims[..|claims| - 1], items) + items[c.first..c.first + c.count]
  }

  lemma {:induction false} ClaimsOrdered(claims: seq<Claimed>, head: int, i: nat, j: nat)
    requires Consecutive(claims, head) && i < j < |claims|
    ensures claims[i].first + claims[i].count <= claims[j].first
    ensures 0 <= claims[i].first && claims[j].first + claims[j].count <= head
    decreases |claims|
  {
    var before := claims[..|claims| - 1];
    var last := claims[|claims| - 1];
    assert last.first == claims[|claims| - 2].first + claims[|claims| - 2].count;
    if j < |claims| - 1 {
      ClaimsOrdered(before, last.first, i, j);
    } else if i < j - 1 {
      ClaimsOrdered(before, last.first, i, j - 1);
    } else if i > 0 {
      ClaimsOrdered(before, last.first, 0, i);
    }
  }

  lemma ClaimBounds(claims: seq<Claimed>, head: int, i: nat)
    requires Consecutive(claims, head) && i < |claims|
    ensures 0 <= claims[i].first && claims[i].first + claims[i].count <= head
  {
    if i > 0 { ClaimsOrdered(claims, head, 0, i); }
    if i + 1 < |claims| { ClaimsOrdered(claims, head, i, |claims| - 1); }
  }

  lemma {:induction false} TakenIsPrefix(claims: seq<Claimed>, head: int, items: seq<int>)
    requires Consecutive(claims, head) && 0 <= head <= |items|
    requires forall i :: 0 <= i < |claims| ==> 0 <= claims[i].first && claims[i].first + claims[i].count <= |items|
    ensures Taken(claims, items) == items[..head]
  {
    if claims != [] {
      var before := claims[..|claims| - 1];
      var last := claims[|claims| - 1];
      assert |claims| > 1 ==> last.first == claims[|claims| - 2].first + claims[|claims| - 2].count;
      TakenIsPrefix(before, last.first, items);
    }
  }

  /**
   In every timely interleaving of one enqueuer and any number of consumers, single and bulk: the head
   never passes the tail, winning consumers hold disjoint runs of published indices, and what they took,
   in the order they took it, is exactly the first `head` elements enqueued.
   */
  lemma ConsumersShareTheQueue(s0: State, schedule: seq<Turn>)
    requires Init(s0) && TimelyRun(s0, schedule)
    ensures var s := Exec(s0, schedule);
      && 0 <= s.head <= s.tail <= |s.items|
      && s.tail - s.head < HALF
      && (forall i :: 0 <= i < |s.claims| ==> 0 <= s.claims[i].first && s.claims[i].first + s.claims[i].count <= s.tail)
      && (forall i, j :: 0 <= i < j < |s.claims| ==> s.claims[i].first + s.claims[i].count <= s.claims[j].first)
      && Taken(s.claims, s.items) == s.items[..s.head]
  {
    InitEstablishes(s0);
    ExecPreserves(s0, schedule);
    var s := Exec(s0, schedule);
    HeadWithinTail(s);
    forall i | 0 <= i < |s.claims| ensures 0 <= s.claims[i].first && s.claims[i].first + s.claims[i].count <= s.tail {
      ClaimBounds(s.claims, s.head, i);
    }
    forall i, j | 0 <= i < j < |s.claims| ensures s.claims[i].first + s.claims[i].count <= s.claims[j].first {
      ClaimsOrdered(s.claims, s.head, i, j);
    }
    TakenIsPrefix(s.claims, s.head, s.items);
  }

  /**
   When no consumer is in the middle of a call, the two optimistic counters differ by exactly the head:
   every ticket that lost has been given back, so a later consumer sees the queue as non-empty exactly
   when it is.
   */
  lemma QuiescentCountersExact(s0: State, schedule: seq<Turn>)
    requires Init(s0) && TimelyRun(s0, schedule)
    requires forall t :: 0 <= t < |Exec(s0, schedule).pcs| ==> Exec(s0, schedule).pcs[t] == Idle
    ensures var s := Exec(s0, schedule);
      && s.count - s.over == s.head
      && (CircularLess(Word(s.count - s.over), Word(s.tail)) <==> s.head < s.tail)
  {
    InitEstablishes(s0);
    ExecPreserves(s0, schedule);
    var s := Exec(s0, schedule);
    HeadWithinTail(s);
    TotalAllZero(s.pcs, Backs());
    TotalAllZero(s.pcs, Claiming());
    TotalAllZero(s.pcs, Undecided());
    CircularIsOrder(s.head, s.tail);
  }
}
