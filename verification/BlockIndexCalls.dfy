/**
 What one call on the block index does when no other thread moves, and which blocks are in it between calls: an enqueue
 extends the queue, starting a block when it has to, and the consumer that empties a block takes it out.
 */
module BlockIndexCalls {
  import opened Common
  import opened BlockIndex

  // ---- blocks in the index ----

  ghost predicate Clearing(s: State, b: int) { exists t :: 0 <= t < |s.pcs| && s.pcs[t].Clear? && s.pcs[t].b == b }

  /** A block that is still in the index although it is empty is about to be taken out. */
  ghost predicate EmptyIsCleared(s: State) {
    forall b :: b in s.live && AllDone(s.done, b) ==> Clearing(s, b)
  }

  lemma ProducerClears(s: State, ok: bool, junk: int -> Option<int>)
    requires Inv(s) && EmptyIsCleared(s)
    ensures EmptyIsCleared(ProducerStep(s, ok, junk))
  {
    var s' := ProducerStep(s, ok, junk);
    forall b | b in s'.live && AllDone(s'.done, b) ensures Clearing(s', b) {
      if b !in s.live { StartedNotDone(s, b); }
      assert Clearing(s, b);
    }
  }

  /** The block being started has no element yet. */
  lemma StartedNotDone(s: State, b: int)
    requires Inv(s) && s.producer.PValue? && b == Current(s).num
    ensures !AllDone(s.done, b)
  {
    assert b * BLOCK_SIZE == s.tailIndex && s.tailIndex !in s.done;
  }

  lemma OtherClears(s: State, s': State, t: nat, b: int)
    requires t < |s.pcs| == |s'.pcs| && (forall u :: 0 <= u < |s.pcs| && u != t ==> s'.pcs[u] == s.pcs[u])
    requires Clearing(s, b) && !(s.pcs[t].Clear? && s.pcs[t].b == b)
    ensures Clearing(s', b)
  {
    var u :| 0 <= u < |s.pcs| && s.pcs[u].Clear? && s.pcs[u].b == b;
    assert s'.pcs[u].Clear?;
  }

  lemma ConsumerClears(s: State, t: nat, i: int)
    requires Inv(s) && EmptyIsCleared(s) && t < |s.pcs| && ConsumerReady(s, t)
    ensures EmptyIsCleared(ConsumerStep(s, t, i))
  {
    var s' := ConsumerStep(s, t, i);
    var p := s.pcs[t];
    assert ThreadOk(s, p);
    forall b | b in s'.live && AllDone(s'.done, b) ensures Clearing(s', b) {
      if p.SetEmpty? && !AllDone(s.done, b) {
        LastEmpties(s, t, b);
        assert s'.pcs[t].Clear? && s'.pcs[t].b == b;
      } else {
        OtherClears(s, s', t, b);
      }
    }
  }

  lemma LastEmpties(s: State, t: nat, b: int)
    requires Inv(s) && t < |s.pcs| && s.pcs[t].SetEmpty? && ThreadOk(s, s.pcs[t])
    requires b in s.live && !AllDone(s.done, b) && AllDone(s.done + {s.pcs[t].i}, b)
    ensures b == s.pcs[t].block && b in s.counters && s.counters[b] == BLOCK_SIZE - 1
  {
    var p := s.pcs[t];
    BusyBlockIsLive(s, p);
    SetEmptyCount(s, p);
    var j :| b * BLOCK_SIZE <= j < b * BLOCK_SIZE + BLOCK_SIZE && j !in s.done;
    assert j == p.i;
  }

  lemma {:induction false} RunClears(s: State, schedule: seq<Turn>)
    requires Inv(s) && EmptyIsCleared(s)
    ensures EmptyIsCleared(Exec(s, schedule))
    decreases schedule
  {
    if schedule != [] {
      match schedule[0] {
        case Produce(ok, junk) =>
          ProducerClears(s, ok, junk);
          ProducerPreserves(s, ok, junk);
        case Consume(t, i) =>
          if t < |s.pcs| {
            ConsumerPreserves(s, t, i);
            ConsumerClears(s, t, i);
          }
      }
      RunClears(Move(s, schedule[0]), schedule[1..]);
    }
  }

  /**
   In every reachable state in which no thread is in the middle of a call, the blocks in the index are exactly those with
   an element that is not done.
   */
  lemma LiveExactly(s0: State, schedule: seq<Turn>, b: int)
    requires Init(s0)
    requires var s := Exec(s0, schedule); s.producer == PIdle && forall t :: 0 <= t < |s.pcs| ==> s.pcs[t] == Idle
    ensures var s := Exec(s0, schedule);
            b in s.live <==> 0 <= b && b * BLOCK_SIZE < s.tailIndex && !AllDone(s.done, b)
  {
    InitEstablishes(s0);
    ExecPreserves(s0, schedule);
    RunClears(s0, schedule);
    LiveNow(Exec(s0, schedule), b);
  }

  lemma LiveNow(s: State, b: int)
    requires Inv(s) && EmptyIsCleared(s) && s.producer == PIdle && forall t :: 0 <= t < |s.pcs| ==> s.pcs[t] == Idle
    ensures b in s.live <==> 0 <= b && b * BLOCK_SIZE < s.tailIndex && !AllDone(s.done, b)
  {
    if b in s.live {
      assert LiveOk(s, b) && !Clearing(s, b);
    }
    if 0 <= b && b * BLOCK_SIZE < s.tailIndex {
      forall j | b * BLOCK_SIZE <= j < b * BLOCK_SIZE + BLOCK_SIZE && j !in s.done ensures b in s.live {
        assert j / BLOCK_SIZE == b;
      }
    }
  }

  // ---- enqueueing ----

  /** Steps of the enqueueing thread and of nobody else; `ok` tells whether its allocations succeed. */
  ghost predicate Enqueues(states: seq<State>, ok: bool, junk: int -> Option<int>) {
    |states| > 0 && forall k :: 0 <= k < |states| - 1 ==> Next(states[k], states[k + 1], ok, junk)
  }

  ghost predicate Next(s: State, n: State, ok: bool, junk: int -> Option<int>) { ProducerReady(s) && n == ProducerStep(s, ok, junk) }

  /** How far the enqueue still has to go. */
  function Left(p: Producer): nat {
    match p
    case PFind => 9
    case PGrow => 8
    case PKey(_) => 7
    case PTail(_) => 6
    case PBlock(_) => 5
    case PRewind(_) => 4
    case PNull(_) => 3
    case PValue(_) => 2
    case PConstruct => 1
    case PIdle => 0
  }

  /** The call that began in state `s` is under way. */
  ghost predicate Going(s: State, m: State, ok: bool)
    requires s.generations != [] && m.generations != []
  {
    && m.tailIndex == s.tailIndex && m.taken == s.taken && m.done == s.done && m.pcs == s.pcs
    && (m.producer.PFind? || m.producer.PGrow? ==> Current(m).exp == Current(s).exp)
    && (if m.producer.PConstruct? then m.live == Grown(s) && (ok || s.tailIndex % BLOCK_SIZE != 0)
        else m.live == s.live && s.tailIndex % BLOCK_SIZE == 0)
    && !m.producer.PIdle? && (m.producer.PRewind? || m.producer.PNull? ==> !ok) && (m.producer.PValue? ==> ok)
  }

  /** The blocks in the index after an element was added. */
  ghost function Grown(s: State): set<int> {
    if s.tailIndex % BLOCK_SIZE == 0 then s.live + {s.tailIndex / BLOCK_SIZE} else s.live
  }

  /** The call is over: with memory, or in the middle of a block, the element is in; otherwise nothing has happened. */
  ghost predicate Enqueued(s: State, n: State, ok: bool) {
    && n.producer == PIdle && n.taken == s.taken && n.done == s.done && n.pcs == s.pcs
    && (if ok || s.tailIndex % BLOCK_SIZE != 0 then n.tailIndex == s.tailIndex + 1 && n.live == Grown(s)
        else n.tailIndex == s.tailIndex && n.live == s.live)
  }

  lemma GoesOn(s: State, m: State, ok: bool, junk: int -> Option<int>)
    requires s.generations != [] && Current(s).exp < MAX_EXPONENT && ProducerReady(m) && ProducerOk(m) && Going(s, m, ok)
    ensures var n := ProducerStep(m, ok, junk);
            && n.generations != [] && Left(n.producer) < Left(m.producer)
            && if n.producer.PIdle? then Enqueued(s, n, ok) else Going(s, n, ok)
  { }

  lemma {:induction false} Finishes(s: State, m: State, ok: bool, junk: int -> Option<int>) returns (states: seq<State>)
    requires s.generations != [] && Current(s).exp < MAX_EXPONENT && Inv(m) && Going(s, m, ok)
    ensures Enqueues(states, ok, junk) && states[0] == m && Enqueued(s, states[|states| - 1], ok) && Inv(states[|states| - 1])
    decreases Left(m.producer)
  {
    ProducerPreserves(m, ok, junk);
    GoesOn(s, m, ok, junk);
    var n := ProducerStep(m, ok, junk);
    if n.producer.PIdle? {
      states := [m, n];
    } else {
      var later := Finishes(s, n, ok, junk);
      states := [m] + later;
      FirstStep(m, later, ok, junk);
    }
  }

  lemma FirstStep(m: State, later: seq<State>, ok: bool, junk: int -> Option<int>)
    requires Enqueues(later, ok, junk) && Next(m, later[0], ok, junk)
    ensures Enqueues([m] + later, ok, junk)
  {
    var states := [m] + later;
    forall k | 0 <= k < |states| - 1 ensures Next(states[k], states[k + 1], ok, junk) {
      if k > 0 { assert Next(later[k - 1], later[k], ok, junk); }
    }
  }

  lemma Starts(s: State, ok: bool, junk: int -> Option<int>)
    requires Inv(s) && s.producer == PIdle
    ensures Inv(ProducerStep(s, ok, junk)) && Going(s, ProducerStep(s, ok, junk), ok)
  {
    ProducerPreserves(s, ok, junk);
  }

  /**
   An enqueue that no other thread disturbs adds its element: in the middle of a block always, and otherwise if there is
   memory for a block and for a larger index; the new block is then in the index. Without memory it changes nothing that a
   consumer can see.
   */
  lemma UndisturbedEnqueue(s: State, ok: bool, junk: int -> Option<int>) returns (states: seq<State>)
    requires Inv(s) && s.producer == PIdle && Current(s).exp < MAX_EXPONENT
    ensures Enqueues(states, ok, junk) && |states| > 1 && states[0] == s && Enqueued(s, states[|states| - 1], ok)
  {
    var m := ProducerStep(s, ok, junk);
    Starts(s, ok, junk);
    var later := Finishes(s, m, ok, junk);
    FirstStep(s, later, ok, junk);
    states := [s] + later;
  }

  // ---- dequeueing ----

  /** Steps of consumer `t` with element `i`, and of nobody else. */
  ghost predicate Dequeues(states: seq<State>, t: nat, i: int) {
    |states| > 0 && forall k :: 0 <= k < |states| - 1 ==> Goes(states[k], states[k + 1], t, i)
  }

  ghost predicate Goes(s: State, n: State, t: nat, i: int) { ConsumerReady(s, t) && n == ConsumerStep(s, t, i) }

  function StepsLeft(p: Pc): nat {
    match p
    case LoadHeader(_) => 7
    case LoadTail(_, _) => 6
    case LoadKey(_, _, _, _) => 5
    case Locate(_, _, _, _, _) => 4
    case Use(_, _) => 3
    case SetEmpty(_, _, _) => 2
    case Clear(_, _) => 1
    case Idle => 0
  }

  /** The consumer that took element `i` in state `s` is on its way. */
  ghost predicate OnTheWay(s: State, m: State, t: nat, i: int) {
    && Inv(m) && t < |m.pcs| == |s.pcs| && m.pcs == s.pcs[t := m.pcs[t]] && m.tailIndex == s.tailIndex && m.producer == s.producer
    && m.taken == s.taken + {i} && m.live == s.live
    && (if m.pcs[t].Clear? then m.done == s.done + {i} && m.pcs[t].b == i / BLOCK_SIZE && AllDone(m.done, i / BLOCK_SIZE)
        else m.done == s.done && Held(m.pcs[t]) == Some(i))
  }

  /** The element is done, and if it was the last of its block, the block is out of the index. */
  ghost predicate Dequeued(s: State, n: State, t: nat, i: int) {
    && Inv(n) && n.pcs == s.pcs && n.tailIndex == s.tailIndex && n.producer == s.producer
    && n.taken == s.taken + {i} && n.done == s.done + {i}
    && n.live == if AllDone(n.done, i / BLOCK_SIZE) then s.live - {i / BLOCK_SIZE} else s.live
  }

  lemma Advances(s: State, m: State, t: nat, i: int)
    requires t < |s.pcs| && s.pcs[t] == Idle && OnTheWay(s, m, t, i)
    ensures ConsumerReady(m, t)
    ensures var n := ConsumerStep(m, t, i);
            && |n.pcs| == |s.pcs| && StepsLeft(n.pcs[t]) < StepsLeft(m.pcs[t])
            && if n.pcs[t] == Idle then Dequeued(s, n, t, i) else OnTheWay(s, n, t, i)
  {
    assert ThreadOk(m, m.pcs[t]);
    ConsumerPreserves(m, t, i);
    if m.pcs[t].SetEmpty? {
      BusyBlockIsLive(m, m.pcs[t]);
      SetEmptyCount(m, m.pcs[t]);
    }
    var p := ConsumerStep(m, t, i).pcs[t];
    assert s.pcs[t := m.pcs[t]][t := p] == s.pcs[t := p];
    assert s.pcs[t := Idle] == s.pcs;
  }

  lemma {:induction false} Arrives(s: State, m: State, t: nat, i: int) returns (states: seq<State>)
    requires t < |s.pcs| && s.pcs[t] == Idle && OnTheWay(s, m, t, i)
    ensures Dequeues(states, t, i) && states[0] == m && Dequeued(s, states[|states| - 1], t, i)
    decreases StepsLeft(m.pcs[t])
  {
    Advances(s, m, t, i);
    var n := ConsumerStep(m, t, i);
    if n.pcs[t] == Idle {
      states := [m, n];
    } else {
      var later := Arrives(s, n, t, i);
      states := [m] + later;
      FirstGoes(m, later, t, i);
    }
  }

  lemma FirstGoes(m: State, later: seq<State>, t: nat, i: int)
    requires Dequeues(later, t, i) && Goes(m, later[0], t, i)
    ensures Dequeues([m] + later, t, i)
  {
    var states := [m] + later;
    forall k | 0 <= k < |states| - 1 ensures Goes(states[k], states[k + 1], t, i) {
      if k > 0 { assert Goes(later[k - 1], later[k], t, i); }
    }
  }

  /**
   A dequeue that no other thread disturbs finds the block of its element, marks the element as done, and takes the block out
   of the index if it was the last one.
   */
  lemma UndisturbedDequeue(s: State, t: nat, i: int) returns (states: seq<State>)
    requires Inv(s) && t < |s.pcs| && s.pcs[t] == Idle && 0 <= i < s.tailIndex && i !in s.taken
    ensures Dequeues(states, t, i) && |states| > 1 && states[0] == s && Dequeued(s, states[|states| - 1], t, i)
  {
    ConsumerPreserves(s, t, i);
    var m := ConsumerStep(s, t, i);
    var later := Arrives(s, m, t, i);
    FirstGoes(s, later, t, i);
    states := [s] + later;
  }
}
