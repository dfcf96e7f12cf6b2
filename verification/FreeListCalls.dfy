/** What one call on the free list does when no other thread moves. */
module FreeListCalls {
  import opened Common
  import opened Totals
  import opened FreeList

  /** Steps of thread `t` and of nobody else, with what is seen of them from outside. */
  ghost predicate RunsAlone(states: seq<State>, events: seq<Event>, t: nat, call: Call) {
    |states| == |events| + 1 && forall k :: 0 <= k < |events| ==> Next(states[k], states[k + 1], events[k], t, call)
  }

  ghost predicate Next(s: State, n: State, e: Event, t: nat, call: Call) { Ready(s, t) && Step(s, t, call) == (n, e) }

  ghost function At(s: State, t: nat, p: Pc): State
    requires t < |s.pcs|
  {
    s.(pcs := s.pcs[t := p])
  }

  /** No call is under way. */
  ghost predicate Quiet(s: State, chain: seq<Node>) { Inv(s, chain) && forall t :: 0 <= t < |s.pcs| ==> s.pcs[t] == Idle }

  /** So it is in every reachable state in which all threads are idle. */
  lemma QuietBetweenCalls(s0: State, schedule: seq<Turn>) returns (chain: seq<Node>)
    requires Init(s0) && forall t :: 0 <= t < |Exec(s0, schedule).0.pcs| ==> Exec(s0, schedule).0.pcs[t] == Idle
    ensures Quiet(Exec(s0, schedule).0, chain)
  {
    InitEstablishes(s0);
    chain := ExecPreserves(s0, schedule, []);
  }

  lemma QuietWords(s: State, chain: seq<Node>, n: Node)
    requires Quiet(s, chain) && n < |s.refs|
    ensures n in s.held ==> n !in chain && s.refs[n] == 0
    ensures n in chain ==> s.refs[n] == 1
    ensures n in s.held || n in chain
  {
    TotalAllZero(s.pcs, PinWeight(n));
    assert NodeOk(s, chain, n);
  }

  /** `add` puts the block at the front of the list. */
  lemma UndisturbedAdd(s: State, chain: seq<Node>, t: nat, n: Node) returns (states: seq<State>, events: seq<Event>)
    requires Quiet(s, chain) && t < |s.pcs| && n in s.held && n < |s.refs|
    ensures RunsAlone(states, events, t, CallAdd(n)) && states[0] == s && events == [Added(n)] + [Silent, Silent, Silent, Silent, Silent]
    ensures var last := states[|states| - 1];
            && last == s.(held := s.held - {n}, refs := s.refs[n := 1], next := s.next[n := s.head], head := Some(n))
            && IsChain(last, [n] + chain)
  {
    var call := CallAdd(n);
    QuietWords(s, chain, n);
    var s1 := At(s.(held := s.held - {n}), t, AddFlag(n));
    var s2 := At(s1.(refs := s.refs[n := SHOULD_BE_ON_FREELIST]), t, LinkLoad(n, Return));
    var s3 := At(s2, t, LinkNext(n, s.head, Return));
    var s4 := At(s3.(next := s.next[n := s.head]), t, LinkRef(n, s.head, Return));
    var s5 := At(s4.(refs := s.refs[n := 1]), t, LinkSwap(n, s.head, Return));
    var s6 := At(s5.(head := Some(n)), t, Idle);
    assert s.pcs[t] == Idle && Next(s, s1, Added(n), t, call);
    assert Next(s1, s2, Silent, t, call);
    assert Next(s2, s3, Silent, t, call);
    assert Next(s3, s4, Silent, t, call);
    assert s4.refs[n := 1] == s.refs[n := 1] && Next(s4, s5, Silent, t, call);
    assert Next(s5, s6, Silent, t, call);
    assert s6.pcs == s.pcs;
    states, events := [s, s1, s2, s3, s4, s5, s6], [Added(n)] + [Silent, Silent, Silent, Silent, Silent];
    PushedChain(s, s6, chain, n);
  }

  lemma PushedChain(s: State, last: State, chain: seq<Node>, n: Node)
    requires |s.next| == |s.refs| == |last.refs| == |last.next| && IsChain(s, chain) && n < |s.refs| && n !in chain
    requires last.head == Some(n) && last.next == s.next[n := s.head]
    ensures IsChain(last, [n] + chain)
  {
    var c := [n] + chain;
    forall i | 0 <= i < |c| ensures last.next[c[i]] == After1(c, i) {
      if i > 0 { assert s.next[chain[i - 1]] == After1(chain, i - 1); }
    }
  }

  /** `try_get` hands out no block if the list is empty. */
  lemma UndisturbedGetNone(s: State, t: nat) returns (states: seq<State>, events: seq<Event>)
    requires Quiet(s, []) && t < |s.pcs|
    ensures RunsAlone(states, events, t, CallGet) && events == [Silent, Silent] && states[0] == s && states[2] == s
  {
    var s1 := At(s, t, GetLoad);
    assert s.pcs[t] == Idle && Next(s, s1, Silent, t, CallGet);
    assert Next(s1, s, Silent, t, CallGet) by { assert s1.pcs[t := Idle] == s.pcs; }
    states, events := [s, s1, s], [Silent, Silent];
  }

  /** `try_get` takes the block at the front of the list, if there is one. */
  lemma UndisturbedGet(s: State, chain: seq<Node>, t: nat) returns (states: seq<State>, events: seq<Event>)
    requires Quiet(s, chain) && t < |s.pcs| && chain != []
    ensures RunsAlone(states, events, t, CallGet) && states[0] == s
    ensures events == [Silent, Silent] + ([Silent, Silent, Silent, Silent, Silent] + [Given(chain[0])])
    ensures var n := chain[0];
            && states[|states| - 1] == s.(held := s.held + {n}, refs := s.refs[n := 0], head := After1(chain, 0))
            && IsChain(states[|states| - 1], chain[1..])
  {
    var s1 := At(s, t, GetLoad);
    assert s.pcs[t] == Idle && Next(s, s1, Silent, t, CallGet);
    var n, x := chain[0], After1(chain, 0);
    QuietWords(s, chain, n);
    assert s.next[n] == x && s.head == Some(n);
    var more := GetFound(s, t, n, x);
    GetStarts(s, t, n);
    states, events := [s, s1] + more, [Silent, Silent] + ([Silent, Silent, Silent, Silent, Silent] + [Given(n)]);
    GetJoins(s, s1, more, t, n);
    PoppedChain(s, Taken(s, n, x), chain);
  }

  lemma GetStarts(s: State, t: nat, n: Node)
    requires t < |s.pcs| && |s.next| == |s.refs| && s.pcs[t] == Idle && s.head == Some(n)
    ensures Next(At(s, t, GetLoad), At(s, t, GetRefs(n)), Silent, t, CallGet)
  {
    assert s.pcs[t := GetLoad][t := GetRefs(n)] == s.pcs[t := GetRefs(n)];
  }

  lemma GetJoins(s: State, s1: State, more: seq<State>, t: nat, n: Node)
    requires RunsAlone(more, [Silent, Silent, Silent, Silent, Silent] + [Given(n)], t, CallGet)
    requires Next(s, s1, Silent, t, CallGet) && Next(s1, more[0], Silent, t, CallGet)
    ensures RunsAlone([s, s1] + more, [Silent, Silent] + ([Silent, Silent, Silent, Silent, Silent] + [Given(n)]), t, CallGet)
  {
    var states, later := [s, s1] + more, [Silent, Silent, Silent, Silent, Silent] + [Given(n)];
    forall k | 0 <= k < |later| + 2 ensures Next(states[k], states[k + 1], ([Silent, Silent] + later)[k], t, CallGet) {
      if k >= 2 { assert Next(more[k - 2], more[k - 1], later[k - 2], t, CallGet); }
    }
  }

  /** The shared words while a block is taken: its count is raised, then the head moves on, then the block is handed out. */
  ghost function Pinned2(s: State, n: Node): State
    requires n < |s.refs|
  {
    s.(refs := s.refs[n := 2])
  }

  ghost function Taken(s: State, n: Node, x: Option<Node>): State
    requires n < |s.refs|
  {
    s.(held := s.held + {n}, refs := s.refs[n := 0], head := x)
  }

  lemma GetFound(s: State, t: nat, n: Node, x: Option<Node>) returns (states: seq<State>)
    requires t < |s.pcs| && s.pcs[t] == Idle && |s.next| == |s.refs| && n < |s.refs| && s.refs[n] == 1
    requires s.next[n] == x && s.head == Some(n) && NodeIn(x, |s.refs|)
    ensures RunsAlone(states, [Silent, Silent, Silent, Silent, Silent] + [Given(n)], t, CallGet)
    ensures states[0] == At(s, t, GetRefs(n)) && states[6] == Taken(s, n, x)
  {
    var a := Pinned2(s, n);
    var b := a.(head := x);
    states := [At(s, t, GetRefs(n)), At(s, t, GetPin(n, 1)), At(a, t, GetNext(n)), At(a, t, GetSwap(n, x)), At(b, t, GetCheck(n)),
               At(b, t, GetDrop(n)), Taken(s, n, x)];
    GetPins(s, t, n);
    GetSwaps(a, t, n, x);
    GetDrops(b, t, n);
    IdleAgain(s, t, n, x);
  }

  lemma IdleAgain(s: State, t: nat, n: Node, x: Option<Node>)
    requires t < |s.pcs| && s.pcs[t] == Idle && n < |s.refs|
    ensures var b := Pinned2(s, n).(head := x); At(b.(refs := b.refs[n := 0], held := b.held + {n}), t, Idle) == Taken(s, n, x)
  { }

  lemma GetPins(s: State, t: nat, n: Node)
    requires t < |s.pcs| && |s.next| == |s.refs| && n < |s.refs| && s.refs[n] == 1
    ensures Next(At(s, t, GetRefs(n)), At(s, t, GetPin(n, 1)), Silent, t, CallGet)
    ensures Next(At(s, t, GetPin(n, 1)), At(Pinned2(s, n), t, GetNext(n)), Silent, t, CallGet)
  {
    assert s.pcs[t := GetRefs(n)][t := GetPin(n, 1)] == s.pcs[t := GetPin(n, 1)];
    assert s.pcs[t := GetPin(n, 1)][t := GetNext(n)] == s.pcs[t := GetNext(n)];
  }

  lemma GetSwaps(s: State, t: nat, n: Node, x: Option<Node>)
    requires t < |s.pcs| && |s.next| == |s.refs| && n < |s.refs| && s.next[n] == x && s.head == Some(n) && NodeIn(x, |s.refs|)
    ensures Next(At(s, t, GetNext(n)), At(s, t, GetSwap(n, x)), Silent, t, CallGet)
    ensures Next(At(s, t, GetSwap(n, x)), At(s.(head := x), t, GetCheck(n)), Silent, t, CallGet)
  {
    assert s.pcs[t := GetNext(n)][t := GetSwap(n, x)] == s.pcs[t := GetSwap(n, x)];
    assert s.pcs[t := GetSwap(n, x)][t := GetCheck(n)] == s.pcs[t := GetCheck(n)];
  }

  lemma GetDrops(s: State, t: nat, n: Node)
    requires t < |s.pcs| && |s.next| == |s.refs| && n < |s.refs| && s.refs[n] == 2
    ensures Next(At(s, t, GetCheck(n)), At(s, t, GetDrop(n)), Silent, t, CallGet)
    ensures Next(At(s, t, GetDrop(n)), At(s.(refs := s.refs[n := 0], held := s.held + {n}), t, Idle), Given(n), t, CallGet)
  {
    assert s.pcs[t := GetCheck(n)][t := GetDrop(n)] == s.pcs[t := GetDrop(n)];
    assert s.pcs[t := GetDrop(n)][t := Idle] == s.pcs[t := Idle];
  }

  lemma PoppedChain(s: State, last: State, chain: seq<Node>)
    requires |s.next| == |s.refs| == |last.refs| && IsChain(s, chain) && chain != []
    requires last.head == After1(chain, 0) && last.next == s.next
    ensures IsChain(last, chain[1..])
  {
    forall i | 0 <= i < |chain| - 1 ensures last.next[chain[1..][i]] == After1(chain[1..], i) {
      assert s.next[chain[i + 1]] == After1(chain, i + 1);
    }
  }
}
