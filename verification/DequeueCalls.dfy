/**
 What one call on the dequeue counters returns when no other thread moves: an enqueue appends its element, a dequeue
 takes the elements at the head.
 */
module DequeueCalls {
  import opened Circular
  import opened Totals
  import opened DequeueCounters

  /** The state after `n` steps of consumer `t` and of nobody else. */
  ghost function Steps(s: State, t: nat, call: Call, n: nat): State {
    if n == 0 then s else Move(Steps(s, t, call, n - 1), Consume(t, call))
  }

  /** The call ends with step `n`: the thread is idle again, for the first time. */
  ghost predicate Returns(s: State, t: nat, call: Call, n: nat) {
    && t < |s.pcs| && n > 0 && t < |Steps(s, t, call, n).pcs| && Steps(s, t, call, n).pcs[t] == Idle
    && forall k :: 0 < k < n ==> t < |Steps(s, t, call, k).pcs| && Steps(s, t, call, k).pcs[t] != Idle
  }

  /** No consumer is in the middle of a call. */
  ghost predicate Quiet(s: State) {
    && |s.verdicts| == s.count && s.count - s.over == s.head && 0 <= s.head <= s.tail < s.head + HALF
    && forall u :: 0 <= u < |s.pcs| ==> s.pcs[u] == Idle
  }

  /** How many elements a call asks for. */
  function Wanted(call: Call): nat { if call.Single? then 1 else call.max }

  lemma QuietBetweenCalls(s0: State, schedule: seq<Turn>)
    requires Init(s0) && TimelyRun(s0, schedule)
    requires forall t :: 0 <= t < |Exec(s0, schedule).pcs| ==> Exec(s0, schedule).pcs[t] == Idle
    ensures Quiet(Exec(s0, schedule))
  {
    QuiescentCountersExact(s0, schedule);
    ConsumersShareTheQueue(s0, schedule);
    InitEstablishes(s0);
    ExecPreserves(s0, schedule);
  }

  /** The reads of a call see the counters as they are. */
  lemma CallReads(s: State, t: nat, call: Call)
    requires Quiet(s) && t < |s.pcs|
    ensures var n := Wanted(call); var bulk := call.Bulk?;
      && Steps(s, t, call, 1) == s.(pcs := s.pcs[t := ReadTail(n, bulk)])
      && Steps(s, t, call, 2) == s.(pcs := s.pcs[t := ReadOver(n, bulk, s.tail)])
      && Steps(s, t, call, 3) == s.(pcs := s.pcs[t := ReadCount(n, bulk, s.tail, s.over)])
  {
    assert Steps(s, t, call, 0) == s;
  }

  /** An empty queue is seen as empty and a call that wants elements of another one reserves as many as there are for it. */
  lemma CallDecides(s: State, t: nat, call: Call)
    requires Quiet(s) && t < |s.pcs|
    ensures Steps(s, t, call, 4) ==
      if s.head < s.tail then s.(pcs := s.pcs[t := Reserve(Min(s.tail - s.head, Wanted(call)), call.Bulk?, s.over)]) else s
  {
    CallReads(s, t, call);
    CircularIsOrder(s.head, s.tail);
    WordSub(s.tail, s.head);
    CircularIsOrder(0, s.tail - s.head);
    assert s.pcs[t := Idle] == s.pcs;
  }

  lemma CallTakes(s: State, t: nat, call: Call)
    requires Quiet(s) && t < |s.pcs| && s.head < s.tail
    ensures var k := Min(s.tail - s.head, Wanted(call));
      && (forall i :: 4 <= i < 7 ==> |Steps(s, t, call, i).pcs| == |s.pcs| && Steps(s, t, call, i).pcs[t] != Idle)
      && Steps(s, t, call, 7) == s.(count := s.count + k, verdicts := Steps(s, t, call, 7).verdicts, head := s.head + k,
                                    claims := s.claims + [Claimed(s.head, k)])
      && |Steps(s, t, call, 7).verdicts| == s.count + k
  {
    CallDecides(s, t, call);
    var k := Min(s.tail - s.head, Wanted(call));
    var s5 := Steps(s, t, call, 5);
    assert s5 == s.(count := s.count + k, verdicts := s5.verdicts, pcs := s.pcs[t := ReadTailAgain(k, call.Bulk?, s.over, s.count)]);
    WinnersExact(k, call.Bulk?, s.over, s.count, s.tail);
    var s6 := Steps(s, t, call, 6);
    assert s6.pcs == s.pcs[t := Claim(k)];
    assert s.pcs[t := Idle] == s.pcs;
  }

  /**
   A dequeue that no other thread disturbs, from any reachable state in which every consumer is idle, returns; it takes the
   elements at the head, as many as it wants and there are, in one claim, and none from an empty queue.
   */
  lemma UndisturbedDequeue(s0: State, schedule: seq<Turn>, t: nat, call: Call) returns (n: nat)
    requires Init(s0) && TimelyRun(s0, schedule) && t < |Exec(s0, schedule).pcs|
    requires forall u :: 0 <= u < |Exec(s0, schedule).pcs| ==> Exec(s0, schedule).pcs[u] == Idle
    ensures var s := Exec(s0, schedule); Returns(s, t, call, n)
    ensures var s := Exec(s0, schedule); var s' := Steps(s, t, call, n);
            var k := if call.Single? then Min(1, s.tail - s.head) else Min(call.max, s.tail - s.head);
      && s'.claims == (if s.head < s.tail then s.claims + [Claimed(s.head, k)] else s.claims)
      && s'.head == s.head + k && s'.tail == s.tail && s'.items == s.items && s'.pcs == s.pcs
      && s'.count - s'.over == s'.head
  {
    var s := Exec(s0, schedule);
    QuietBetweenCalls(s0, schedule);
    CallReads(s, t, call);
    CallDecides(s, t, call);
    n := 4;
    if s.head < s.tail {
      CallTakes(s, t, call);
      n := 7;
    }
  }

  // ---- enqueueing ----

  /** The state after `n` steps of the enqueueing thread and of nobody else. */
  ghost function EnqueueSteps(s: State, v: int, n: nat): State {
    if n == 0 then s else ProducerStep(EnqueueSteps(s, v, n - 1), v)
  }

  /**
   An enqueue that no other thread disturbs appends its element, unless it would start a new block that reaches half the
   range from the head: then it changes nothing.
   */
  lemma UndisturbedEnqueue(s: State, v: int) returns (n: nat)
    requires Inv(s) && s.producer == ProducerIdle
    ensures n > 0 && EnqueueSteps(s, v, n).producer == ProducerIdle
    ensures forall k :: 0 < k < n ==> EnqueueSteps(s, v, k).producer != ProducerIdle
    ensures EnqueueSteps(s, v, n) ==
      if s.tail % BLOCK_SIZE == 0 && s.tail + BLOCK_SIZE - s.head >= HALF then s
      else s.(tail := s.tail + 1, items := s.items + [v])
  {
    HeadWithinTail(s);
    WordSub(s.head, s.tail + BLOCK_SIZE);
    var s1 := EnqueueSteps(s, v, 1);
    assert EnqueueSteps(s, v, 0) == s;
    assert s1 == s.(producer := if s.tail % BLOCK_SIZE == 0 then CheckRoom(v) else Construct(v));
    var s2 := EnqueueSteps(s, v, 2);
    if s.tail % BLOCK_SIZE != 0 {
      n := 3;
      assert s2 == s.(items := s.items + [v], producer := Publish);
    } else if s.tail + BLOCK_SIZE - s.head >= HALF {
      n := 2;
    } else {
      n := 4;
      assert s2 == s.(producer := Construct(v));
      assert EnqueueSteps(s, v, 3) == s.(items := s.items + [v], producer := Publish);
    }
  }

  // ---- claims ----

  /** No call asks for no elements. */
  ghost predicate AsksForSome(schedule: seq<Turn>) {
    forall k :: 0 <= k < |schedule| && schedule[k].Consume? && schedule[k].call.Bulk? ==> schedule[k].call.max > 0
  }

  predicate Wanting(p: Pc) {
    match p
    case Idle => true
    case ReadTail(want, _) => want > 0
    case ReadOver(want, _, _) => want > 0
    case ReadCount(want, _, _, _) => want > 0
    case Reserve(k, _, _) => k > 0
    case ReadTailAgain(k, _, _, _) => k > 0
    case GiveBack(back, _) => back > 0
    case Claim(n) => n > 0
  }

  /** Every claim takes something, and consumers on their way want something. */
  ghost predicate SomeClaimed(s: State) {
    (forall t :: 0 <= t < |s.pcs| ==> Wanting(s.pcs[t])) && forall k :: 0 <= k < |s.claims| ==> s.claims[k].count > 0
  }

  lemma StepClaims(s: State, t: nat, call: Call)
    requires SomeClaimed(s) && Ready(s, t) && (call.Bulk? ==> call.max > 0)
    ensures SomeClaimed(ConsumerStep(s, t, call))
  { }

  /** In every run in which no call asks for no elements, a call that gets none makes no claim: every claim takes something. */
  lemma {:induction false} ClaimsTake(s: State, schedule: seq<Turn>)
    requires SomeClaimed(s) && AsksForSome(schedule)
    ensures SomeClaimed(Exec(s, schedule))
    decreases schedule
  {
    if schedule != [] {
      match schedule[0] {
        case Consume(t, call) => if Ready(s, t) { StepClaims(s, t, call); }
        case Produce(v) =>
      }
      assert forall k :: 0 <= k < |schedule[1..]| ==> schedule[1..][k] == schedule[k + 1];
      ClaimsTake(Move(s, schedule[0]), schedule[1..]);
    }
  }
}
