/**
 A call on the free list that is under way, wherever it was interrupted and whatever other threads have done since, ends if its
 thread then runs alone: none of the retries goes round in vain.
 */
module FreeListProgress {
  import opened Common
  import opened Totals
  import opened FreeList
  import opened FreeListCalls

  /** How far a `try_get` that looks at block `h` next has to go: less if it is on the chain, least if it is the head. */
  ghost function Look(s: State, chain: seq<Node>, h: Option<Node>): nat {
    if h == None then 0 else if h == s.head then 8 else if h.value in chain then 13 else 22
  }

  ghost function After13(s: State, chain: seq<Node>, a: After): nat {
    if a.Return? then 13 else Most(13, Look(s, chain, a.head))
  }

  function Most(a: nat, b: nat): nat { if a > b then a else b }

  /** Steps a thread may still need. */
  ghost function Left(s: State, chain: seq<Node>, p: Pc): nat {
    match p
    case Idle => 0
    case AddFlag(_) => 18
    case LinkLoad(_, a) => After13(s, chain, a) + 4
    case LinkNext(_, h, a) => After13(s, chain, a) + if h == s.head then 3 else 7
    case LinkRef(_, h, a) => After13(s, chain, a) + if h == s.head then 2 else 6
    case LinkSwap(_, h, a) => After13(s, chain, a) + if h == s.head then 1 else 5
    case LinkRetry(_, h, a) => After13(s, chain, a) + if h == s.head then 4 else 8
    case GetLoad => 9
    case GetRefs(n) => Look(s, chain, Some(n))
    case GetPin(n, r) =>
      if n >= |s.refs| || s.refs[n] != r then 10 else if s.head == Some(n) then 7 else if n in chain then 12 else 21
    case GetNext(n) => if s.head == Some(n) then 6 else if n in chain then 11 else 20
    case GetSwap(n, _) => if s.head == Some(n) then 5 else if n in chain then 10 else 19
    case GetCheck(_) => 4
    case GetDrop(_) => 3
    case GetUnpin(n, h) => if n in chain then Look(s, chain, h) + 1 else Most(13, Look(s, chain, h)) + 5
  }

  ghost predicate Known(s: State, p: Pc) { PcIn(p, |s.refs|) }

  predicate Linking(p: Pc) { p.AddFlag? || p.LinkLoad? || p.LinkNext? || p.LinkRef? || p.LinkSwap? || p.LinkRetry? }

  /** Linking a block ends with it at the head, or goes on with the head it found there. */
  lemma LinkGoesOn(s: State, chain: seq<Node>, t: nat, call: Call)
    requires Inv(s, chain) && t < |s.pcs| && Known(s, s.pcs[t]) && Linking(s.pcs[t])
    ensures Known(Step(s, t, call).0, Step(s, t, call).0.pcs[t])
    ensures var n := Step(s, t, call).0; Left(n, StepChain(s, t, chain), n.pcs[t]) < Left(s, chain, s.pcs[t])
  {
    if s.pcs[t].LinkSwap? { SwapGoesOn(s, chain, t, call); } else { UnlinkedGoesOn(s, chain, t, call); }
  }

  lemma UnlinkedGoesOn(s: State, chain: seq<Node>, t: nat, call: Call)
    requires t < |s.pcs| && |s.next| == |s.refs| && Known(s, s.pcs[t]) && NodeIn(s.head, |s.refs|)
    requires Linking(s.pcs[t]) && !s.pcs[t].LinkSwap?
    ensures Known(Step(s, t, call).0, Step(s, t, call).0.pcs[t])
    ensures var n := Step(s, t, call).0; Left(n, StepChain(s, t, chain), n.pcs[t]) < Left(s, chain, s.pcs[t])
  { }

  lemma SwapGoesOn(s: State, chain: seq<Node>, t: nat, call: Call)
    requires t < |s.pcs| && |s.next| == |s.refs| && Known(s, s.pcs[t]) && NodeIn(s.head, |s.refs|) && s.pcs[t].LinkSwap?
    requires s.head == if chain == [] then None else Some(chain[0])
    ensures Known(Step(s, t, call).0, Step(s, t, call).0.pcs[t])
    ensures var n := Step(s, t, call).0; Left(n, StepChain(s, t, chain), n.pcs[t]) < Left(s, chain, s.pcs[t])
  { }

  /** Looking at a block on the chain finds it referenced; the head is taken. */
  lemma GetGoesOn(s: State, chain: seq<Node>, t: nat, call: Call)
    requires Inv(s, chain) && t < |s.pcs| && Known(s, s.pcs[t])
    requires var p := s.pcs[t]; p.GetLoad? || p.GetRefs? || p.GetPin? || p.GetNext? || p.GetSwap? || p.GetCheck? || p.GetDrop?
    ensures Known(Step(s, t, call).0, Step(s, t, call).0.pcs[t])
    ensures var n := Step(s, t, call).0; Left(n, StepChain(s, t, chain), n.pcs[t]) < Left(s, chain, s.pcs[t])
  {
    if s.pcs[t].GetRefs? { ChainReferenced(s, chain, s.pcs[t].n); }
  }

  lemma ChainReferenced(s: State, chain: seq<Node>, n: Node)
    requires Inv(s, chain) && n < |s.refs|
    ensures n in chain ==> 1 <= s.refs[n] < SHOULD_BE_ON_FREELIST && RefCount(s.refs[n]) != 0
    ensures s.head == Some(n) ==> n in chain
  {
    assert NodeOk(s, chain, n);
    TotalBounds(s.pcs, PinWeight(n));
  }

  lemma UnpinGoesOn(s: State, chain: seq<Node>, t: nat, call: Call)
    requires Inv(s, chain) && t < |s.pcs| && Known(s, s.pcs[t]) && s.pcs[t].GetUnpin?
    ensures Known(Step(s, t, call).0, Step(s, t, call).0.pcs[t])
    ensures var n := Step(s, t, call).0; Left(n, StepChain(s, t, chain), n.pcs[t]) < Left(s, chain, s.pcs[t])
  {
    ChainReferenced(s, chain, s.pcs[t].n);
  }

  lemma GoesOn(s: State, chain: seq<Node>, t: nat, call: Call)
    requires Inv(s, chain) && t < |s.pcs| && s.pcs[t] != Idle
    ensures Ready(s, t)
    ensures var n := Step(s, t, call).0;
            && t < |n.pcs| && Inv(n, StepChain(s, t, chain)) && Left(n, StepChain(s, t, chain), n.pcs[t]) < Left(s, chain, s.pcs[t])
  {
    assert Known(s, s.pcs[t]);
    StepPreserves(s, t, call, chain);
    if Linking(s.pcs[t]) {
      LinkGoesOn(s, chain, t, call);
    } else if s.pcs[t].GetUnpin? {
      UnpinGoesOn(s, chain, t, call);
    } else {
      GetGoesOn(s, chain, t, call);
    }
  }

  lemma {:induction false} Ends(s: State, chain: seq<Node>, t: nat, call: Call) returns (states: seq<State>, events: seq<Event>)
    requires Inv(s, chain) && t < |s.pcs|
    ensures RunsAlone(states, events, t, call) && states[0] == s
    ensures t < |states[|states| - 1].pcs| && states[|states| - 1].pcs[t] == Idle
    decreases Left(s, chain, s.pcs[t])
  {
    if s.pcs[t] == Idle {
      states, events := [s], [];
    } else {
      GoesOn(s, chain, t, call);
      var next := Step(s, t, call);
      var later, rest := Ends(next.0, StepChain(s, t, chain), t, call);
      states, events := [s] + later, [next.1] + rest;
      FirstStep(s, next.1, later, rest, t, call);
    }
  }

  lemma FirstStep(s: State, e: Event, later: seq<State>, rest: seq<Event>, t: nat, call: Call)
    requires RunsAlone(later, rest, t, call) && Next(s, later[0], e, t, call)
    ensures RunsAlone([s] + later, [e] + rest, t, call)
  {
    var states, events := [s] + later, [e] + rest;
    forall k | 0 <= k < |events| ensures Next(states[k], states[k + 1], events[k], t, call) {
      if k > 0 { assert Next(later[k - 1], later[k], rest[k - 1], t, call); }
    }
  }

  /** In every reachable state, a thread in the middle of a call that runs alone from there ends its call. */
  lemma AloneEnds(s0: State, schedule: seq<Turn>, t: nat, call: Call) returns (states: seq<State>, events: seq<Event>)
    requires Init(s0) && t < |Exec(s0, schedule).0.pcs|
    ensures RunsAlone(states, events, t, call) && states[0] == Exec(s0, schedule).0
    ensures t < |states[|states| - 1].pcs| && states[|states| - 1].pcs[t] == Idle
  {
    InitEstablishes(s0);
    var chain := ExecPreserves(s0, schedule, []);
    states, events := Ends(Exec(s0, schedule).0, chain, t, call);
  }
}
