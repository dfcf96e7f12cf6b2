/** What one call on the semaphore does when no other thread moves. */
module SemaphoreCalls {
  import opened Totals
  import opened Semaphore

  /** Steps of thread `t` and of nobody else, without spurious failures and timeouts. */
  ghost predicate Alone(states: seq<State>, t: nat, call: Call) {
    |states| > 0 && forall k :: 0 <= k < |states| - 1 ==> Next(states[k], states[k + 1], t, call)
  }

  ghost predicate Next(s: State, n: State, t: nat, call: Call) { t < |s.pcs| && n == Step(s, t, call, Normal) }

  /** The steps lead from one state to another. */
  ghost predicate Leads(states: seq<State>, t: nat, call: Call, s: State, n: State) {
    Alone(states, t, call) && states[0] == s && states[|states| - 1] == n
  }

  function Min(a: int, b: int): int { if a < b then a else b }

  /** The tokens a call that asks for `max` gets from the count. */
  function Available(count: int, max: nat): nat { if count > 0 then Min(count, max) else 0 }

  ghost function At(s: State, t: nat, p: Pc): State
    requires t < |s.pcs|
  {
    s.(pcs := s.pcs[t := p])
  }

  lemma Then(s: State, m: State, t: nat, call: Call, later: seq<State>, n: State) returns (states: seq<State>)
    requires Next(s, m, t, call) && Leads(later, t, call, m, n)
    ensures Leads(states, t, call, s, n) && |states| == |later| + 1
  {
    states := [s] + later;
    forall k | 0 <= k < |states| - 1 ensures Next(states[k], states[k + 1], t, call) {
      if k > 0 { assert Next(later[k - 1], later[k], t, call); }
    }
  }

  lemma Join(s: State, m: State, n: State, t: nat, call: Call, a: seq<State>, b: seq<State>) returns (states: seq<State>)
    requires Leads(a, t, call, s, m) && Leads(b, t, call, m, n)
    ensures Leads(states, t, call, s, n) && |states| == |a| + |b| - 1
  {
    states := a + b[1..];
    forall k | 0 <= k < |states| - 1 ensures Next(states[k], states[k + 1], t, call) {
      if k < |a| - 1 {
        assert Next(a[k], a[k + 1], t, call);
      } else {
        assert states[k] == b[k - |a| + 1] && states[k + 1] == b[k - |a| + 2];
        assert Next(b[k - |a| + 1], b[k - |a| + 2], t, call);
      }
    }
  }

  lemma AtTwice(s: State, t: nat, p: Pc, q: Pc)
    requires t < |s.pcs|
    ensures At(At(s, t, p), t, q) == At(s, t, q) && (s.pcs[t] == p ==> At(s, t, p) == s)
  { }

  /** What the loop that tries to take tokens from the count leaves. */
  ghost function Tried(s: State, t: nat, max: nat, after: AfterTry): State
    requires t < |s.pcs|
  {
    var k := Available(s.count, max);
    At(s, t, if k == 0 then GiveUp(max, after) else Idle).(count := s.count - k, acquired := s.acquired + k)
  }

  lemma TryLoop(s: State, t: nat, call: Call, max: nat, after: AfterTry) returns (states: seq<State>)
    requires t < |s.pcs| && s.pcs[t] == TryLoad(max, after)
    ensures Leads(states, t, call, s, Tried(s, t, max, after))
  {
    var n := Tried(s, t, max, after);
    if s.count > 0 {
      var m := At(s, t, TrySwap(max, s.count, after));
      AtTwice(s, t, TrySwap(max, s.count, after), n.pcs[t]);
      TrySwapped(m, t, call, max, after);
      states := [s, m, n];
    } else {
      states := [s, n];
    }
  }

  lemma TrySwapped(m: State, t: nat, call: Call, max: nat, after: AfterTry)
    requires t < |m.pcs| && m.pcs[t] == TrySwap(max, m.count, after) && m.count > 0
    ensures Next(m, Tried(m, t, max, after), t, call)
  { }

  /** `tryWait` takes as many tokens as it wants and the count has, at once. */
  lemma UndisturbedTryWait(s: State, t: nat, max: nat) returns (states: seq<State>)
    requires t < |s.pcs| && s.pcs[t] == Idle
    ensures var k := Available(s.count, max);
            Leads(states, t, TryWait(max), s, s.(count := s.count - k, acquired := s.acquired + k)) && |states| > 1
  {
    var m := At(s, t, TryLoad(max, Report));
    var later := TryLoop(m, t, TryWait(max), max, Report);
    AtTwice(s, t, TryLoad(max, Report), Idle);
    AtTwice(s, t, Idle, Idle);
    states := Then(s, m, t, TryWait(max), later, Tried(m, t, max, Report));
  }

  /** Spinning in vain ends on the kernel semaphore. */
  lemma {:induction false} Spins(s: State, t: nat, call: Call, max: int, timed: bool, left: nat) returns (states: seq<State>)
    requires t < |s.pcs| && s.pcs[t] == SpinLoad(max, timed, left) && s.count <= 0
    ensures Leads(states, t, call, s, At(s, t, Sleep(max, timed)).(count := s.count - 1))
    decreases left
  {
    if left == 0 {
      var m := At(s, t, Commit(max, timed));
      AtTwice(s, t, Commit(max, timed), Sleep(max, timed));
      states := [s, m, At(s, t, Sleep(max, timed)).(count := s.count - 1)];
    } else {
      var m := At(s, t, SpinLoad(max, timed, left - 1));
      var later := Spins(m, t, call, max, timed, left - 1);
      AtTwice(s, t, SpinLoad(max, timed, left - 1), Sleep(max, timed));
      states := Then(s, m, t, call, later, At(m, t, Sleep(max, timed)).(count := s.count - 1));
    }
  }

  /**
   `wait` takes as many tokens as it wants and the count has, if it has any; otherwise it goes to sleep on the kernel
   semaphore, with the count one lower.
   */
  lemma UndisturbedWait(s: State, t: nat, max: nat, timed: bool) returns (states: seq<State>)
    requires t < |s.pcs| && s.pcs[t] == Idle && max > 0
    ensures var k := Available(s.count, max);
            Leads(states, t, Wait(max, timed), s,
                  if k > 0 then s.(count := s.count - k, acquired := s.acquired + k)
                  else s.(count := s.count - 1, pcs := s.pcs[t := Sleep(max, timed)]))
    ensures |states| > 1
  {
    var call, after := Wait(max, timed), ElseWait(timed);
    var m := At(s, t, TryLoad(max, after));
    var later := TryLoop(m, t, call, max, after);
    states := Then(s, m, t, call, later, Tried(m, t, max, after));
    AtTwice(s, t, TryLoad(max, after), GiveUp(max, after));
    AtTwice(s, t, TryLoad(max, after), Idle);
    AtTwice(s, t, Idle, Idle);
    if s.count <= 0 {
      states := SpinsAfter(s, t, call, states, max, timed, SPINS);
    }
  }

  lemma SpinsAfter(s: State, t: nat, call: Call, before: seq<State>, max: nat, timed: bool, left: nat) returns (states: seq<State>)
    requires t < |s.pcs| && s.count <= 0 && Leads(before, t, call, s, At(s, t, SpinLoad(max, timed, left)))
    ensures Leads(states, t, call, s, At(s, t, Sleep(max, timed)).(count := s.count - 1)) && |states| > 1
  {
    var m := At(s, t, SpinLoad(max, timed, left));
    var later := Spins(m, t, call, max, timed, left);
    AtTwice(s, t, SpinLoad(max, timed, left), Sleep(max, timed));
    states := Join(s, m, At(s, t, Sleep(max, timed)).(count := s.count - 1), t, call, before, later);
    assert states[0].count != states[|states| - 1].count;
  }

  /** A sleeping waiter with a kernel token wakes with it, and takes what else it wants and the count has. */
  lemma UndisturbedWake(s: State, t: nat, call: Call, max: nat, timed: bool) returns (states: seq<State>)
    requires t < |s.pcs| && s.pcs[t] == Sleep(max, timed) && max > 0 && s.kernel > 0
    ensures var k := Available(s.count, max - 1);
            Leads(states, t, call, s,
                  s.(kernel := s.kernel - 1, count := s.count - k, acquired := s.acquired + 1 + k, pcs := s.pcs[t := Idle]))
  {
    var m := At(s, t, More(max)).(kernel := s.kernel - 1, acquired := s.acquired + 1);
    if max > 1 {
      var later := TryLoop(m, t, call, max - 1, AddToOne);
      AtTwice(s, t, More(max), Idle);
      states := Then(s, m, t, call, later, Tried(m, t, max - 1, AddToOne));
    } else {
      states := [s, m];
    }
  }

  lemma {:induction false} PostsAll(s: State, t: nat, call: Call, left: nat) returns (states: seq<State>)
    requires t < |s.pcs| && s.pcs[t] == Post(left) && left > 0
    ensures Leads(states, t, call, s, At(s, t, Idle).(kernel := s.kernel + left))
    decreases left
  {
    if left == 1 {
      states := [s, At(s, t, Idle).(kernel := s.kernel + 1)];
    } else {
      var m := At(s, t, Post(left - 1)).(kernel := s.kernel + 1);
      var later := PostsAll(m, t, call, left - 1);
      AtTwice(s, t, Post(left - 1), Idle);
      states := Then(s, m, t, call, later, At(m, t, Idle).(kernel := m.kernel + (left - 1)));
    }
  }

  /** `signal` adds its tokens to the count, and posts one to the kernel for each waiter it finds, as far as they go. */
  lemma UndisturbedSignal(s: State, t: nat, tokens: nat) returns (states: seq<State>)
    requires t < |s.pcs| && s.pcs[t] == Idle
    ensures var woken := if s.count < 0 then Min(-s.count, tokens) else 0;
            Leads(states, t, Signal(tokens), s,
                  s.(count := s.count + tokens, signalled := s.signalled + tokens, kernel := s.kernel + woken)) && |states| > 1
  {
    var call := Signal(tokens);
    var woken: nat := if s.count < 0 then Min(-s.count, tokens) else 0;
    var m := At(s, t, SignalAdd(tokens));
    var last := if woken > 0 then Post(woken) else Idle;
    var added := At(m, t, last).(count := s.count + tokens, signalled := s.signalled + tokens);
    SignalAdds(m, t, call, tokens);
    var later := [added];
    if woken > 0 {
      later := PostsAll(added, t, call, woken);
    }
    AtTwice(m, t, last, Idle);
    AtTwice(s, t, SignalAdd(tokens), Idle);
    AtTwice(s, t, Idle, Idle);
    var n := s.(count := s.count + tokens, signalled := s.signalled + tokens, kernel := s.kernel + woken);
    later := Then(m, added, t, call, later, n);
    states := Then(s, m, t, call, later, n);
  }

  lemma SignalAdds(m: State, t: nat, call: Call, tokens: nat)
    requires t < |m.pcs| && m.pcs[t] == SignalAdd(tokens)
    ensures var woken: nat := if m.count < 0 then Min(-m.count, tokens) else 0;
            Next(m, At(m, t, if woken > 0 then Post(woken) else Idle).(count := m.count + tokens, signalled := m.signalled + tokens), t, call)
  { }

  /** A sleeping waiter without a kernel token stays asleep, unless its wait is timed and the time is over: then it rechecks. */
  lemma SleepsOn(s: State, t: nat, call: Call, chance: Chance)
    requires t < |s.pcs| && s.pcs[t].Sleep? && s.kernel == 0
    ensures Step(s, t, call, chance) == if s.pcs[t].timed && chance == Unlucky then At(s, t, RecheckLoad(s.pcs[t].max)) else s
  { }
}
