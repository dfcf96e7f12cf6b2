/**
 The reference-counted free list of blocks, as an interleaving of atomic steps.

 Every load, store, fetch_add, fetch_sub and compare-exchange of `add`, `try_get` and
 `add_knowing_refcount_is_zero` is one step of one thread; any number of threads interleave.
 */
module FreeList {
  import opened Common
  import opened Totals

  type Node = nat

  const SHOULD_BE_ON_FREELIST := 0x8000_0000
  const REFS_MASK := 0x7FFF_FFFF
  const WORD := 0x1_0000_0000

  /** 32-bit fetch_add: the sum modulo the word size. */
  function WrapAdd(w: int, d: int): int {
    if w + d >= WORD then w + d - WORD else if w + d < 0 then w + d + WORD else w + d
  }

  lemma WrapAddIsWord(w: int, d: int)
    requires 0 <= w < WORD && -WORD <= d < WORD
    ensures WrapAdd(w, d) == (w + d) % WORD
  { }

  /** `refs & REFS_MASK`. */
  function RefCount(w: int): int {
    if w >= SHOULD_BE_ON_FREELIST then w - SHOULD_BE_ON_FREELIST else w
  }

  /** Where `add_knowing_refcount_is_zero` returns to: out of `add`, or back into the `try_get` loop. */
  datatype After = Return | Resume(head: Option<Node>)

  /** The atomic access a thread performs next, with its local variables. */
  datatype Pc =
    | Idle
    | AddFlag(n: Node)
    | LinkLoad(n: Node, after: After)
    | LinkNext(n: Node, head: Option<Node>, after: After)
    | LinkRef(n: Node, head: Option<Node>, after: After)
    | LinkSwap(n: Node, head: Option<Node>, after: After)
    | LinkRetry(n: Node, head: Option<Node>, after: After)
    | GetLoad
    | GetRefs(n: Node)
    | GetPin(n: Node, refs: int)
    | GetNext(n: Node)
    | GetSwap(n: Node, next: Option<Node>)
    | GetCheck(n: Node)
    | GetDrop(n: Node)
    | GetUnpin(n: Node, head: Option<Node>)

  /** `held` are the blocks in the hands of callers: not yet added, or returned by `try_get`. */
  datatype State = State(head: Option<Node>, refs: seq<int>, next: seq<Option<Node>>, held: set<Node>, pcs: seq<Pc>)

  /** What an idle thread calls next. */
  datatype Call = CallAdd(n: Node) | CallGet

  /** The externally visible part of a step. */
  datatype Event = Silent | Added(n: Node) | Given(n: Node)

  ghost predicate NodeIn(o: Option<Node>, size: nat) {
    o.Some? ==> o.value < size
  }

  ghost predicate AfterIn(a: After, size: nat) {
    a.Resume? ==> NodeIn(a.head, size)
  }

  ghost predicate PcIn(p: Pc, size: nat) {
    match p
    case Idle => true
    case GetLoad => true
    case AddFlag(n) => n < size
    case LinkLoad(n, a) => n < size && AfterIn(a, size)
    case LinkNext(n, h, a) => n < size && NodeIn(h, size) && AfterIn(a, size)
    case LinkRef(n, h, a) => n < size && NodeIn(h, size) && AfterIn(a, size)
    case LinkSwap(n, h, a) => n < size && NodeIn(h, size) && AfterIn(a, size)
    case LinkRetry(n, h, a) => n < size && NodeIn(h, size) && AfterIn(a, size)
    case GetRefs(n) => n < size
    case GetPin(n, _) => n < size
    case GetNext(n) => n < size
    case GetSwap(n, x) => n < size && NodeIn(x, size)
    case GetCheck(n) => n < size
    case GetDrop(n) => n < size
    case GetUnpin(n, h) => n < size && NodeIn(h, size)
  }

  /** Every node mentioned exists; the reference count has room for every thread. */
  ghost predicate Wf(s: State) {
    && |s.next| == |s.refs|
    && NodeIn(s.head, |s.refs|)
    && (forall n :: 0 <= n < |s.next| ==> NodeIn(s.next[n], |s.refs|))
    && (forall t :: 0 <= t < |s.pcs| ==> PcIn(s.pcs[t], |s.refs|))
    && |s.pcs| + 2 < REFS_MASK
  }

  /** What a step of thread `t` looks at exists. */
  ghost predicate Ready(s: State, t: nat) {
    t < |s.pcs| && |s.next| == |s.refs| && PcIn(s.pcs[t], |s.refs|)
  }

  function Loop(head: Option<Node>): Pc {
    if head.None? then Idle else GetRefs(head.value)
  }

  function Continue(a: After): Pc {
    match a
    case Return => Idle
    case Resume(h) => Loop(h)
  }

  /** One atomic step of thread `t`; `call` is only looked at when the thread is idle. */
  ghost function Step(s: State, t: nat, call: Call): (r: (State, Event))
    requires Ready(s, t)
  {
    match s.pcs[t]
    case Idle =>
      if call.CallGet? then (s.(pcs := s.pcs[t := GetLoad]), Silent)
      else if call.n in s.held && call.n < |s.refs| then
        (s.(held := s.held - {call.n}, pcs := s.pcs[t := AddFlag(call.n)]), Added(call.n))
      else (s, Silent)
    case AddFlag(n) =>
      var old' := s.refs[n];
      var s1 := s.(refs := s.refs[n := WrapAdd(old', SHOULD_BE_ON_FREELIST)]);
      (s1.(pcs := s.pcs[t := if old' == 0 then LinkLoad(n, Return) else Idle]), Silent)
    case LinkLoad(n, a) =>
      (s.(pcs := s.pcs[t := LinkNext(n, s.head, a)]), Silent)
    case LinkNext(n, h, a) =>
      (s.(next := s.next[n := h], pcs := s.pcs[t := LinkRef(n, h, a)]), Silent)
    case LinkRef(n, h, a) =>
      (s.(refs := s.refs[n := 1], pcs := s.pcs[t := LinkSwap(n, h, a)]), Silent)
    case LinkSwap(n, h, a) =>
      if s.head == h then (s.(head := Some(n), pcs := s.pcs[t := Continue(a)]), Silent)
      else (s.(pcs := s.pcs[t := LinkRetry(n, s.head, a)]), Silent)
    case LinkRetry(n, h, a) =>
      var old' := s.refs[n];
      var s1 := s.(refs := s.refs[n := WrapAdd(old', SHOULD_BE_ON_FREELIST - 1)]);
      (s1.(pcs := s.pcs[t := if old' == 1 then LinkNext(n, h, a) else Continue(a)]), Silent)
    case GetLoad =>
      (s.(pcs := s.pcs[t := Loop(s.head)]), Silent)
    case GetRefs(n) =>
      var r := s.refs[n];
      (s.(pcs := s.pcs[t := if RefCount(r) == 0 then GetLoad else GetPin(n, r)]), Silent)
    case GetPin(n, r) =>
      if s.refs[n] == r then (s.(refs := s.refs[n := WrapAdd(r, 1)], pcs := s.pcs[t := GetNext(n)]), Silent)
      else (s.(pcs := s.pcs[t := GetLoad]), Silent)
    case GetNext(n) =>
      (s.(pcs := s.pcs[t := GetSwap(n, s.next[n])]), Silent)
    case GetSwap(n, x) =>
      if s.head == Some(n) then (s.(head := x, pcs := s.pcs[t := GetCheck(n)]), Silent)
      else (s.(pcs := s.pcs[t := GetUnpin(n, s.head)]), Silent)
    case GetCheck(n) =>
      (s.(pcs := s.pcs[t := GetDrop(n)]), Silent)
    case GetDrop(n) =>
      var s1 := s.(refs := s.refs[n := WrapAdd(s.refs[n], -2)]);
      (s1.(held := s.held + {n}, pcs := s.pcs[t := Idle]), Given(n))
    case GetUnpin(n, h) =>
      var old' := s.refs[n];
      var s1 := s.(refs := s.refs[n := WrapAdd(old', -1)]);
      (s1.(pcs := s.pcs[t := if old' == SHOULD_BE_ON_FREELIST + 1 then LinkLoad(n, Resume(h)) else Loop(h)]), Silent)
  }

  // ---- the invariant ----

  /** The block a thread alone disposes of, if any. */
  ghost function Exclusive(p: Pc): Option<Node> {
    match p
    case AddFlag(n) => Some(n)
    case LinkLoad(n, _) => Some(n)
    case LinkNext(n, _, _) => Some(n)
    case LinkRef(n, _, _) => Some(n)
    case LinkSwap(n, _, _) => Some(n)
    case LinkRetry(n, _, _) => Some(n)
    case GetCheck(n) => Some(n)
    case GetDrop(n) => Some(n)
    case _ => None
  }

  /** The block a thread holds a counted reference on, if any. */
  ghost function Pinned(p: Pc): Option<Node> {
    match p
    case GetNext(n) => Some(n)
    case GetSwap(n, _) => Some(n)
    case GetCheck(n) => Some(n)
    case GetDrop(n) => Some(n)
    case GetUnpin(n, _) => Some(n)
    case _ => None
  }

  ghost function PinBit(p: Pc, n: Node): int {
    if Pinned(p) == Some(n) then 1 else 0
  }

  ghost function PinWeight(n: Node): Pc -> int {
    (p: Pc) => PinBit(p, n)
  }

  ghost function Pins(s: State, n: Node): int {
    Total(s.pcs, PinWeight(n))
  }

  ghost function After1(chain: seq<Node>, i: nat): Option<Node> {
    if i + 1 < |chain| then Some(chain[i + 1]) else None
  }

  /** `chain` is what following `freeListNext` from `freeListHead` visits: finite and without repetition. */
  ghost predicate IsChain(s: State, chain: seq<Node>)
    requires |s.next| == |s.refs|
  {
    && (forall i :: 0 <= i < |chain| ==> chain[i] < |s.refs|)
    && (forall i, j :: 0 <= i < j < |chain| ==> chain[i] != chain[j])
    && s.head == (if chain == [] then None else Some(chain[0]))
    && (forall i :: 0 <= i < |chain| ==> s.next[chain[i]] == After1(chain, i))
  }

  ghost predicate ReAdding(p: Pc) {
    p.LinkLoad? || p.LinkNext? || p.LinkRef?
  }

  /** The reference word of a block that thread state `p` alone disposes of. */
  ghost predicate ExclusiveWord(p: Pc, refs: int, pins: int) {
    if p.AddFlag? then refs == pins
    else if ReAdding(p) then refs == SHOULD_BE_ON_FREELIST && pins == 0
    else refs == 1 + pins
  }

  ghost predicate SomeoneDisposes(s: State, n: Node) {
    exists t :: 0 <= t < |s.pcs| && Exclusive(s.pcs[t]) == Some(n)
  }

  /** Where a block is decides its reference word; the four places exclude one another. */
  ghost predicate NodeOk(s: State, chain: seq<Node>, n: Node)
    requires n < |s.refs|
  {
    && (n in s.held ==> n !in chain && !SomeoneDisposes(s, n) && s.refs[n] == Pins(s, n))
    && (n in chain ==> !SomeoneDisposes(s, n) && s.refs[n] == 1 + Pins(s, n))
    && (n !in s.held && n !in chain && !SomeoneDisposes(s, n) ==>
         s.refs[n] == SHOULD_BE_ON_FREELIST + Pins(s, n) && Pins(s, n) >= 1)
  }

  ghost predicate ThreadOk(s: State, t: nat)
    requires Ready(s, t)
  {
    && (s.pcs[t].GetSwap? ==> s.next[s.pcs[t].n] == s.pcs[t].next)
    && (s.pcs[t].LinkRef? || s.pcs[t].LinkSwap? ==> s.next[s.pcs[t].n] == s.pcs[t].head)
    && (s.pcs[t].GetPin? ==> RefCount(s.pcs[t].refs) != 0)
    && (Exclusive(s.pcs[t]).Some? ==>
         ExclusiveWord(s.pcs[t], s.refs[Exclusive(s.pcs[t]).value], Pins(s, Exclusive(s.pcs[t]).value)))
  }

  ghost predicate Alone(s: State) {
    forall t, u :: 0 <= t < u < |s.pcs| && Exclusive(s.pcs[t]).Some? ==> Exclusive(s.pcs[t]) != Exclusive(s.pcs[u])
  }

  ghost predicate Inv(s: State, chain: seq<Node>) {
    && Wf(s)
    && IsChain(s, chain)
    && Alone(s)
    && (forall n :: 0 <= n < |s.refs| ==> NodeOk(s, chain, n))
    && (forall t :: 0 <= t < |s.pcs| ==> ThreadOk(s, t))
  }

  /** All blocks with their callers, list empty, threads idle. */
  ghost predicate Init(s: State) {
    && Wf(s)
    && s.head == None
    && (forall n :: 0 <= n < |s.refs| ==> s.refs[n] == 0 && n in s.held)
    && (forall t :: 0 <= t < |s.pcs| ==> s.pcs[t] == Idle)
  }

  lemma InitEstablishes(s: State)
    requires Init(s)
    ensures Inv(s, [])
  {
    forall n: Node | n < |s.refs| ensures NodeOk(s, [], n) {
      TotalAllZero(s.pcs, PinWeight(n));
    }
  }

  /** How the chain changes in a step: only a successful compare-exchange on the head changes it. */
  ghost function StepChain(s: State, t: nat, chain: seq<Node>): seq<Node>
    requires t < |s.pcs|
  {
    if s.pcs[t].LinkSwap? && s.head == s.pcs[t].head then [s.pcs[t].n] + chain
    else if s.pcs[t].GetSwap? && s.head == Some(s.pcs[t].n) && chain != [] then chain[1..]
    else chain
  }

  lemma PinsStep(s: State, t: nat, p: Pc, n: Node)
    requires t < |s.pcs|
    ensures Total(s.pcs[t := p], PinWeight(n)) == Pins(s, n) - PinBit(s.pcs[t], n) + PinBit(p, n)
    ensures 0 <= Pins(s, n) <= |s.pcs|
    ensures PinBit(s.pcs[t], n) <= Pins(s, n)
    ensures 0 <= Total(s.pcs[t := p], PinWeight(n)) <= |s.pcs|
  {
    TotalUpdate(s.pcs, t, p, PinWeight(n));
    TotalBounds(s.pcs, PinWeight(n));
    TotalBounds(s.pcs[t := p], PinWeight(n));
  }

  lemma DisposesStep(s: State, s': State, t: nat, n: Node)
    requires t < |s.pcs| == |s'.pcs| && s'.pcs == s.pcs[t := s'.pcs[t]]
    ensures Exclusive(s'.pcs[t]) == Some(n) ==> SomeoneDisposes(s', n)
    ensures Exclusive(s'.pcs[t]) == Exclusive(s.pcs[t]) ==> SomeoneDisposes(s', n) == SomeoneDisposes(s, n)
    ensures Exclusive(s.pcs[t]) != Some(n) ==> (SomeoneDisposes(s', n) <==> SomeoneDisposes(s, n) || Exclusive(s'.pcs[t]) == Some(n))
    ensures Alone(s) && Exclusive(s.pcs[t]) == Some(n) && Exclusive(s'.pcs[t]) != Some(n) ==> !SomeoneDisposes(s', n)
  {
    if SomeoneDisposes(s, n) {
      var u :| 0 <= u < |s.pcs| && Exclusive(s.pcs[u]) == Some(n);
      assert u != t ==> s'.pcs[u] == s.pcs[u];
    }
    if SomeoneDisposes(s', n) {
      var u :| 0 <= u < |s'.pcs| && Exclusive(s'.pcs[u]) == Some(n);
      assert u != t ==> s'.pcs[u] == s.pcs[u];
    }
  }

  lemma StepKeepsWf(s: State, t: nat, call: Call)
    requires Wf(s) && t < |s.pcs|
    ensures Wf(Step(s, t, call).0)
  {
    var s' := Step(s, t, call).0;
    assert s'.pcs == s.pcs[t := s'.pcs[t]];
    assert PcIn(s'.pcs[t], |s.refs|);
  }

  lemma StepKeepsChain(s: State, t: nat, call: Call, chain: seq<Node>)
    requires Inv(s, chain) && t < |s.pcs|
    ensures Wf(Step(s, t, call).0)
    ensures IsChain(Step(s, t, call).0, StepChain(s, t, chain))
  {
    forall i | 0 <= i < |chain| ensures Exclusive(s.pcs[t]) != Some(chain[i]) {
      assert NodeOk(s, chain, chain[i]);
    }
    assert ThreadOk(s, t);
    StepKeepsWf(s, t, call);
    if s.pcs[t].GetSwap? && s.head == Some(s.pcs[t].n) {
      ChainPop(s, Step(s, t, call).0, chain);
    } else if s.pcs[t].LinkSwap? && s.head == s.pcs[t].head {
      ChainPush(s, Step(s, t, call).0, chain, s.pcs[t].n);
    } else {
      ChainFrame(s, Step(s, t, call).0, chain);
    }
  }

  lemma ChainFrame(s: State, s': State, chain: seq<Node>)
    requires |s.next| == |s.refs| == |s'.next| == |s'.refs| && IsChain(s, chain) && s'.head == s.head
    requires forall i :: 0 <= i < |chain| ==> s'.next[chain[i]] == s.next[chain[i]]
    ensures IsChain(s', chain)
  { }

  lemma ChainPop(s: State, s': State, chain: seq<Node>)
    requires |s.next| == |s.refs| && IsChain(s, chain) && chain != []
    requires s'.next == s.next && s'.refs == s.refs && s'.head == s.next[chain[0]]
    ensures IsChain(s', chain[1..])
  { }

  lemma ChainPush(s: State, s': State, chain: seq<Node>, n: Node)
    requires |s.next| == |s.refs| && IsChain(s, chain) && n !in chain && n < |s.refs|
    requires s'.next == s.next && s'.refs == s.refs && s'.head == Some(n) && s.next[n] == s.head
    ensures IsChain(s', [n] + chain)
  {
    var c := [n] + chain;
    forall i | 0 <= i < |c| ensures s'.next[c[i]] == After1(c, i) {
      if i > 0 { assert c[i] == chain[i - 1]; }
    }
  }

  /** The block a step of thread state `p` is about. */
  ghost function Subject(p: Pc, call: Call): Option<Node> {
    match p
    case Idle => if call.CallAdd? then Some(call.n) else None
    case GetLoad => None
    case _ => Some(p.n)
  }

  /** A step changes neither the place nor the word of a block it is not about. */
  lemma StepKeepsOthers(s: State, t: nat, call: Call, chain: seq<Node>, n: Node)
    requires Inv(s, chain) && t < |s.pcs| && n < |s.refs|
    requires Subject(s.pcs[t], call) != Some(n)
    ensures var s' := Step(s, t, call).0;
      && s'.refs[n] == s.refs[n] && Pins(s', n) == Pins(s, n)
      && (n in s'.held <==> n in s.held) && (n in StepChain(s, t, chain) <==> n in chain)
      && (SomeoneDisposes(s', n) <==> SomeoneDisposes(s, n))
  {
    var s' := Step(s, t, call).0;
    assert s'.pcs == s.pcs[t := s'.pcs[t]];
    assert Exclusive(s.pcs[t]) != Some(n) && Exclusive(s'.pcs[t]) != Some(n);
    PinsStep(s, t, s'.pcs[t], n);
    DisposesStep(s, s', t, n);
    if s.pcs[t].GetSwap? && s.head == Some(s.pcs[t].n) {
      assert n in chain <==> n == chain[0] || n in chain[1..];
    }
  }

  lemma StepKeepsNode(s: State, t: nat, call: Call, chain: seq<Node>, n: Node)
    requires Inv(s, chain) && t < |s.pcs| && n < |s.refs|
    ensures Wf(Step(s, t, call).0)
    ensures NodeOk(Step(s, t, call).0, StepChain(s, t, chain), n)
  {
    StepKeepsChain(s, t, call, chain);
    assert NodeOk(s, chain, n) && ThreadOk(s, t);
    if Subject(s.pcs[t], call) != Some(n) {
      StepKeepsOthers(s, t, call, chain, n);
    } else {
      if Exclusive(s.pcs[t]).Some? {
        StepKeepsSubjectOwned(s, t, call, chain, n);
      } else {
        StepKeepsSubjectShared(s, t, call, chain, n);
      }
    }
  }

  lemma StepKeepsSubjectOwned(s: State, t: nat, call: Call, chain: seq<Node>, n: Node)
    requires Ready(s, t) && IsChain(s, chain) && Alone(s) && n < |s.refs| && |s.pcs| + 2 < REFS_MASK
    requires Subject(s.pcs[t], call) == Some(n) && Exclusive(s.pcs[t]).Some?
    requires NodeOk(s, chain, n) && ThreadOk(s, t)
    ensures NodeOk(Step(s, t, call).0, StepChain(s, t, chain), n)
  {
    var s' := Step(s, t, call).0;
    assert s'.pcs == s.pcs[t := s'.pcs[t]];
    PinsStep(s, t, s'.pcs[t], n);
    DisposesStep(s, s', t, n);
    assert SomeoneDisposes(s, n);
  }

  lemma StepKeepsSubjectShared(s: State, t: nat, call: Call, chain: seq<Node>, n: Node)
    requires Ready(s, t) && IsChain(s, chain) && Alone(s) && n < |s.refs| && |s.pcs| + 2 < REFS_MASK
    requires Subject(s.pcs[t], call) == Some(n) && !Exclusive(s.pcs[t]).Some?
    requires NodeOk(s, chain, n) && ThreadOk(s, t)
    ensures NodeOk(Step(s, t, call).0, StepChain(s, t, chain), n)
  {
    if s.pcs[t].GetSwap? {
      SwapKeepsSubject(s, t, call, chain, n);
    } else if s.pcs[t].GetUnpin? {
      UnpinKeepsSubject(s, t, call, chain, n);
    } else {
      var s' := Step(s, t, call).0;
      assert s'.pcs == s.pcs[t := s'.pcs[t]];
      PinsStep(s, t, s'.pcs[t], n);
      DisposesStep(s, s', t, n);
    }
  }

  lemma SwapKeepsSubject(s: State, t: nat, call: Call, chain: seq<Node>, n: Node)
    requires Ready(s, t) && IsChain(s, chain) && Alone(s) && n < |s.refs| && |s.pcs| + 2 < REFS_MASK
    requires Subject(s.pcs[t], call) == Some(n) && s.pcs[t].GetSwap?
    requires NodeOk(s, chain, n) && ThreadOk(s, t)
    ensures NodeOk(Step(s, t, call).0, StepChain(s, t, chain), n)
  {
    var s' := Step(s, t, call).0;
    assert s'.pcs == s.pcs[t := s'.pcs[t]];
    PinsStep(s, t, s'.pcs[t], n);
    DisposesStep(s, s', t, n);
    if s.head == Some(n) {
      assert chain[0] == n && n !in chain[1..];
    }
  }

  lemma UnpinKeepsSubject(s: State, t: nat, call: Call, chain: seq<Node>, n: Node)
    requires Ready(s, t) && IsChain(s, chain) && Alone(s) && n < |s.refs| && |s.pcs| + 2 < REFS_MASK
    requires Subject(s.pcs[t], call) == Some(n) && s.pcs[t].GetUnpin?
    requires NodeOk(s, chain, n) && ThreadOk(s, t)
    ensures NodeOk(Step(s, t, call).0, StepChain(s, t, chain), n)
  {
    var s' := Step(s, t, call).0;
    assert s'.pcs == s.pcs[t := s'.pcs[t]];
    PinsStep(s, t, s'.pcs[t], n);
    DisposesStep(s, s', t, n);
  }

  /** A step takes sole disposal of a block only where no other thread has it. */
  lemma StepKeepsAlone(s: State, t: nat, call: Call, chain: seq<Node>)
    requires Inv(s, chain) && t < |s.pcs|
    ensures Alone(Step(s, t, call).0)
  {
    var s' := Step(s, t, call).0;
    assert s'.pcs == s.pcs[t := s'.pcs[t]];
    var taken := Exclusive(s'.pcs[t]);
    if taken.Some? && taken != Exclusive(s.pcs[t]) {
      TakenWasFree(s, t, call, chain, taken.value);
      forall u | 0 <= u < |s.pcs| ensures Exclusive(s.pcs[u]) != taken {}
    }
  }

  lemma DisposerWord(s: State, chain: seq<Node>, n: Node)
    requires Inv(s, chain) && n < |s.refs| && SomeoneDisposes(s, n)
    ensures s.refs[n] == Pins(s, n) || s.refs[n] == 1 + Pins(s, n) || (s.refs[n] == SHOULD_BE_ON_FREELIST && Pins(s, n) == 0)
  {
    var u :| 0 <= u < |s.pcs| && Exclusive(s.pcs[u]) == Some(n);
    assert ThreadOk(s, u);
  }

  lemma TakenWasFree(s: State, t: nat, call: Call, chain: seq<Node>, n: Node)
    requires Inv(s, chain) && t < |s.pcs|
    requires Exclusive(Step(s, t, call).0.pcs[t]) == Some(n) != Exclusive(s.pcs[t])
    ensures !SomeoneDisposes(s, n)
  {
    assert NodeOk(s, chain, n) && ThreadOk(s, t);
    TotalBounds(s.pcs, PinWeight(n));
    if SomeoneDisposes(s, n) { DisposerWord(s, chain, n); }
  }

  lemma StepKeepsThread(s: State, t: nat, call: Call, chain: seq<Node>, u: nat)
    requires Inv(s, chain) && t < |s.pcs| && u < |s.pcs|
    ensures Wf(Step(s, t, call).0) && ThreadOk(Step(s, t, call).0, u)
  {
    StepKeepsChain(s, t, call, chain);
    if u == t {
      StepKeepsOwnThread(s, t, call, chain);
    } else {
      StepKeepsOtherThread(s, t, call, chain, u);
    }
  }

  lemma StepKeepsOwnThread(s: State, t: nat, call: Call, chain: seq<Node>)
    requires Inv(s, chain) && t < |s.pcs| && Wf(Step(s, t, call).0)
    ensures ThreadOk(Step(s, t, call).0, t)
  {
    assert ThreadOk(s, t);
    OwnReads(s, t, call);
    var e := Exclusive(Step(s, t, call).0.pcs[t]);
    if e.Some? {
      assert NodeOk(s, chain, e.value);
      if e != Exclusive(s.pcs[t]) { TakenWasFree(s, t, call, chain, e.value); }
      OwnWord(s, t, call, chain, e.value);
    }
  }

  /** What the thread itself has just read or written. */
  lemma OwnReads(s: State, t: nat, call: Call)
    requires Wf(s) && Ready(s, t) && ThreadOk(s, t) && Ready(Step(s, t, call).0, t)
    ensures var s' := Step(s, t, call).0; var p := s'.pcs[t];
      && (p.GetSwap? ==> s'.next[p.n] == p.next)
      && (p.LinkRef? || p.LinkSwap? ==> s'.next[p.n] == p.head)
      && (p.GetPin? ==> RefCount(p.refs) != 0)
  { }

  lemma OwnWord(s: State, t: nat, call: Call, chain: seq<Node>, n: Node)
    requires Ready(s, t) && IsChain(s, chain) && n < |s.refs| && |s.pcs| + 2 < REFS_MASK
    requires NodeOk(s, chain, n) && ThreadOk(s, t)
    requires Exclusive(Step(s, t, call).0.pcs[t]) == Some(n)
    requires Exclusive(s.pcs[t]) == Some(n) || !SomeoneDisposes(s, n)
    ensures var s' := Step(s, t, call).0; ExclusiveWord(s'.pcs[t], s'.refs[n], Pins(s', n))
  {
    var s' := Step(s, t, call).0;
    assert s'.pcs == s.pcs[t := s'.pcs[t]];
    PinsStep(s, t, s'.pcs[t], n);
  }

  lemma StepKeepsOtherThread(s: State, t: nat, call: Call, chain: seq<Node>, u: nat)
    requires Inv(s, chain) && t < |s.pcs| && u < |s.pcs| && u != t && Wf(Step(s, t, call).0)
    ensures ThreadOk(Step(s, t, call).0, u)
  {
    assert ThreadOk(s, t) && ThreadOk(s, u);
    PinnedCounts(s, u);
    var e := Exclusive(s.pcs[u]);
    if e.Some? {
      assert SomeoneDisposes(s, e.value);
      assert Exclusive(s.pcs[t]) != e;
      assert NodeOk(s, chain, e.value);
      OtherWord(s, t, call, chain, u, e.value);
    }
    if s.pcs[u].GetSwap? || s.pcs[u].LinkRef? || s.pcs[u].LinkSwap? {
      NextFrozen(s, t, call, u);
    }
  }

  lemma OtherWord(s: State, t: nat, call: Call, chain: seq<Node>, u: nat, n: Node)
    requires Ready(s, t) && Ready(s, u) && u != t && n < |s.refs| && |s.pcs| + 2 < REFS_MASK
    requires Exclusive(s.pcs[u]) == Some(n) != Exclusive(s.pcs[t]) && n !in s.held
    requires ThreadOk(s, t) && ThreadOk(s, u)
    ensures var s' := Step(s, t, call).0; ExclusiveWord(s'.pcs[u], s'.refs[n], Pins(s', n))
  {
    var s' := Step(s, t, call).0;
    RefsFollowPins(s, t, call, n);
    PinsStep(s, t, s'.pcs[t], n);
  }

  /** A step of a thread that does not dispose of a block moves its reference word only as it takes or drops a reference. */
  lemma RefsFollowPins(s: State, t: nat, call: Call, n: Node)
    requires Ready(s, t) && n < |s.refs| && Exclusive(s.pcs[t]) != Some(n) && n !in s.held && ThreadOk(s, t)
    ensures var s' := Step(s, t, call).0;
      && |s'.refs| == |s.refs| && s'.pcs == s.pcs[t := s'.pcs[t]]
      && (s.pcs[t].GetPin? && s.pcs[t].n == n && s.refs[n] == s.pcs[t].refs ==> s'.refs[n] == WrapAdd(s.refs[n], 1))
      && (s.pcs[t].GetUnpin? && s.pcs[t].n == n ==> s'.refs[n] == WrapAdd(s.refs[n], -1))
      && (PinBit(s'.pcs[t], n) == PinBit(s.pcs[t], n) ==> s'.refs[n] == s.refs[n])
      && (PinBit(s'.pcs[t], n) > PinBit(s.pcs[t], n) ==> s.pcs[t].GetPin? && s.pcs[t].n == n && s.refs[n] == s.pcs[t].refs)
      && (PinBit(s'.pcs[t], n) < PinBit(s.pcs[t], n) ==> s.pcs[t].GetUnpin? && s.pcs[t].n == n)
  { }

  /** The link of a pinned block, and of a block being added, is not rewritten by another thread. */
  lemma NextFrozen(s: State, t: nat, call: Call, u: nat)
    requires Ready(s, t) && Ready(s, u) && Alone(s) && u != t
    requires ThreadOk(s, t) && ThreadOk(s, u)
    requires s.pcs[u].GetSwap? || s.pcs[u].LinkRef? || s.pcs[u].LinkSwap?
    ensures Step(s, t, call).0.next[s.pcs[u].n] == s.next[s.pcs[u].n]
  {
    PinnedCounts(s, u);
  }

  /** A pinned block has a counted reference. */
  lemma PinnedCounts(s: State, u: nat)
    requires u < |s.pcs|
    ensures Pinned(s.pcs[u]).Some? ==> Pins(s, Pinned(s.pcs[u]).value) >= 1
  {
    if Pinned(s.pcs[u]).Some? {
      TotalBounds(s.pcs, PinWeight(Pinned(s.pcs[u]).value));
    }
  }

  /** Every step of every thread keeps the invariant. */
  lemma StepPreserves(s: State, t: nat, call: Call, chain: seq<Node>)
    requires Inv(s, chain) && t < |s.pcs|
    ensures Inv(Step(s, t, call).0, StepChain(s, t, chain))
  {
    StepKeepsChain(s, t, call, chain);
    StepKeepsAlone(s, t, call, chain);
    var s' := Step(s, t, call).0;
    forall n: Node | n < |s'.refs| ensures NodeOk(s', StepChain(s, t, chain), n) {
      StepKeepsNode(s, t, call, chain, n);
    }
    forall u: nat | u < |s'.pcs| ensures ThreadOk(s', u) {
      StepKeepsThread(s, t, call, chain, u);
    }
  }

  // ---- whole runs ----

  /** One scheduling decision: which thread moves, and what it calls if it is idle. */
  datatype Turn = Turn(thread: nat, call: Call)

  ghost function Move(s: State, turn: Turn): (State, Event) {
    if Ready(s, turn.thread) then Step(s, turn.thread, turn.call) else (s, Silent)
  }

  /** The state and the event log after a schedule. */
  ghost function Exec(s: State, schedule: seq<Turn>): (r: (State, seq<Event>))
    ensures |r.1| == |schedule|
    decreases schedule
  {
    if schedule == [] then (s, [])
    else
      var (s1, e) := Move(s, schedule[0]);
      var (s2, log) := Exec(s1, schedule[1..]);
      (s2, [e] + log)
  }

  lemma MovePreserves(s: State, turn: Turn, chain: seq<Node>) returns (chain': seq<Node>)
    requires Inv(s, chain)
    ensures Inv(Move(s, turn).0, chain')
  {
    if Ready(s, turn.thread) {
      StepPreserves(s, turn.thread, turn.call, chain);
      chain' := StepChain(s, turn.thread, chain);
    } else {
      chain' := chain;
    }
  }

  lemma {:induction false} ExecPreserves(s: State, schedule: seq<Turn>, chain: seq<Node>) returns (chain': seq<Node>)
    requires Inv(s, chain)
    ensures Inv(Exec(s, schedule).0, chain')
    decreases schedule
  {
    chain' := chain;
    if schedule != [] {
      var c1 := MovePreserves(s, schedule[0], chain);
      chain' := ExecPreserves(Move(s, schedule[0]).0, schedule[1..], c1);
    }
  }

  /**
   After any run the list from the head is a finite chain without repetition, and every block is in
   exactly one place: with a caller, on the chain, in the hands of exactly one thread, or flagged
   should-be-on-list with at least one live reference whose last holder will add it.
   */
  lemma EveryBlockHasOnePlace(s: State, schedule: seq<Turn>) returns (chain: seq<Node>)
    requires Init(s)
    ensures var s' := Exec(s, schedule).0;
      && |s'.next| == |s'.refs| && IsChain(s', chain)
      && (forall t, u :: 0 <= t < u < |s'.pcs| && Exclusive(s'.pcs[t]).Some? ==> Exclusive(s'.pcs[t]) != Exclusive(s'.pcs[u]))
      && (forall n :: 0 <= n < |s'.refs| ==>
           || (n in s'.held && n !in chain && !SomeoneDisposes(s', n))
           || (n !in s'.held && n in chain && !SomeoneDisposes(s', n))
           || (n !in s'.held && n !in chain && SomeoneDisposes(s', n))
           || (n !in s'.held && n !in chain && !SomeoneDisposes(s', n)
               && s'.refs[n] == SHOULD_BE_ON_FREELIST + Pins(s', n) && Pins(s', n) >= 1))
  {
    InitEstablishes(s);
    chain := ExecPreserves(s, schedule, []);
    var s' := Exec(s, schedule).0;
    forall n | 0 <= n < |s'.refs| ensures
      || (n in s'.held && n !in chain && !SomeoneDisposes(s', n))
      || (n !in s'.held && n in chain && !SomeoneDisposes(s', n))
      || (n !in s'.held && n !in chain && SomeoneDisposes(s', n))
      || (n !in s'.held && n !in chain && !SomeoneDisposes(s', n)
          && s'.refs[n] == SHOULD_BE_ON_FREELIST + Pins(s', n) && Pins(s', n) >= 1)
    {
      assert NodeOk(s', chain, n);
    }
  }

  /** When every thread has finished its call, no block is lost: each is with a caller or on the list. */
  lemma QuiescentListIsComplete(s: State, schedule: seq<Turn>) returns (chain: seq<Node>)
    requires Init(s)
    requires var s' := Exec(s, schedule).0; forall t :: 0 <= t < |s'.pcs| ==> s'.pcs[t] == Idle
    ensures var s' := Exec(s, schedule).0;
      && |s'.next| == |s'.refs| && IsChain(s', chain)
      && (forall n :: 0 <= n < |s'.refs| ==> (n in chain <==> n !in s'.held))
  {
    chain := EveryBlockHasOnePlace(s, schedule);
    var s' := Exec(s, schedule).0;
    forall n | 0 <= n < |s'.refs| ensures n in chain <==> n !in s'.held {
      TotalAllZero(s'.pcs, PinWeight(n));
    }
  }

  /** The assertion after a winning compare-exchange: the flag of the block just taken is clear. */
  lemma TakenBlockIsUnflagged(s: State, chain: seq<Node>, t: nat)
    requires Inv(s, chain) && t < |s.pcs| && s.pcs[t].GetCheck?
    ensures s.refs[s.pcs[t].n] < SHOULD_BE_ON_FREELIST
    ensures RefCount(s.refs[s.pcs[t].n]) >= 2
  {
    assert ThreadOk(s, t);
    TotalBounds(s.pcs, PinWeight(s.pcs[t].n));
  }

  lemma GivenWasNotHeld(s: State, chain: seq<Node>, turn: Turn, n: Node)
    requires Inv(s, chain) && Move(s, turn).1 == Given(n)
    ensures n !in s.held && n !in chain
  {
    var t := turn.thread;
    assert NodeOk(s, chain, n);
    assert Exclusive(s.pcs[t]) == Some(n);
  }

  lemma {:induction false} NoHandOutWhileHeld(s: State, chain: seq<Node>, schedule: seq<Turn>, n: Node, j: nat)
    requires Inv(s, chain) && n in s.held
    requires j < |schedule| && Exec(s, schedule).1[j] == Given(n)
    ensures exists k :: 0 <= k < j && Exec(s, schedule).1[k] == Added(n)
    decreases schedule
  {
    var s1 := Move(s, schedule[0]).0;
    var e := Move(s, schedule[0]).1;
    var log := Exec(s, schedule).1;
    if e == Given(n) { GivenWasNotHeld(s, chain, schedule[0], n); }
    assert log[0] == e;
    if e != Added(n) {
      assert n in s1.held;
      var c1 := MovePreserves(s, schedule[0], chain);
      assert log[j] == Exec(s1, schedule[1..]).1[j - 1];
      NoHandOutWhileHeld(s1, c1, schedule[1..], n, j - 1);
      var k :| 0 <= k < j - 1 && Exec(s1, schedule[1..]).1[k] == Added(n);
      assert log[k + 1] == Added(n);
    }
  }

  lemma {:induction false} NoDoubleHandOutFrom(s: State, chain: seq<Node>, schedule: seq<Turn>, n: Node, i: nat, j: nat)
    requires Inv(s, chain) && i < j < |schedule|
    requires Exec(s, schedule).1[i] == Given(n) && Exec(s, schedule).1[j] == Given(n)
    ensures exists k :: i < k < j && Exec(s, schedule).1[k] == Added(n)
    decreases schedule
  {
    var s1 := Move(s, schedule[0]).0;
    var log := Exec(s, schedule).1;
    var log1 := Exec(s1, schedule[1..]).1;
    var c1 := MovePreserves(s, schedule[0], chain);
    assert log[j] == log1[j - 1];
    if i == 0 {
      NoHandOutWhileHeld(s1, c1, schedule[1..], n, j - 1);
    } else {
      assert log[i] == log1[i - 1];
      NoDoubleHandOutFrom(s1, c1, schedule[1..], n, i - 1, j - 1);
    }
    var k :| i - 1 < k < j - 1 && log1[k] == Added(n);
    assert log[k + 1] == Added(n);
  }

  /** In every interleaving, between two hand-outs of the same block it was added back. */
  lemma {:induction false} NoDoubleHandOut(s: State, schedule: seq<Turn>, n: Node, i: nat, j: nat)
    requires Init(s) && i < j < |schedule|
    requires Exec(s, schedule).1[i] == Given(n) && Exec(s, schedule).1[j] == Given(n)
    ensures exists k :: i < k < j && Exec(s, schedule).1[k] == Added(n)
  {
    InitEstablishes(s);
    NoDoubleHandOutFrom(s, [], schedule, n, i, j);
  }
}
