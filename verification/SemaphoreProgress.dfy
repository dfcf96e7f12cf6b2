/**
 A call on the semaphore that is under way ends, or goes to sleep, if its thread then runs alone: none of the retries goes round
 in vain, once the releases of signallers have been posted.
 */
module SemaphoreProgress {
  import opened Totals
  import opened Semaphore
  import opened SemaphoreCalls

  /** Nothing left to do without a kernel token. */
  ghost predicate Rests(s: State, t: nat) { t < |s.pcs| && (s.pcs[t] == Idle || (s.pcs[t].Sleep? && s.kernel == 0)) }

  function AfterTries(after: AfterTry, spins: nat): nat { if after.ElseWait? then 2 * spins + 9 else 0 }

  /** Steps a thread may still need. */
  ghost function Left(s: State, p: Pc): nat {
    match p
    case Idle => 0
    case TryLoad(_, after) => AfterTries(after, SPINS) + 3
    case TrySwap(_, seen, after) => AfterTries(after, SPINS) + if s.count == seen then 1 else 2
    case SpinLoad(_, _, left) => 2 * left + 8
    case SpinSwap(_, _, left, seen) => 2 * left + 9
    case Commit(_, _) => 7
    case Sleep(_, _) => if s.kernel == 0 then 0 else 4
    case RecheckLoad(_) => 6
    case TryKernel(_) => if s.kernel > 0 then 4 else 7
    case Cancel(_, seen) => if s.count == seen then 1 else 7
    case SignalAdd(n) => n + 3
    case Post(left) => left + 1
  }

  lemma GoesOn(s: State, t: nat, call: Call)
    requires Inv(s) && t < |s.pcs| && !Rests(s, t) && (Total(s.pcs, Semaphore.Posts()) == 0 || s.pcs[t].Post? || s.pcs[t].SignalAdd?)
    ensures var n := Step(s, t, call, Normal); t < |n.pcs| && Left(n, n.pcs[t]) < Left(s, s.pcs[t])
  {
    var p := s.pcs[t];
    assert ThreadOk(p);
    if p.RecheckLoad? || p.TryKernel? {
      if s.count >= 0 { TimedOutWaiterIsServed(s, t); }
    }
  }

  lemma PostsStay(s: State, t: nat, call: Call)
    requires t < |s.pcs| && s.pcs[t] != Idle && !s.pcs[t].Post? && !s.pcs[t].SignalAdd? && Total(s.pcs, Semaphore.Posts()) == 0
    ensures Total(Step(s, t, call, Normal).pcs, Semaphore.Posts()) == 0
    ensures var p := Step(s, t, call, Normal).pcs[t]; !p.Post? && !p.SignalAdd?
  {
    var n := Step(s, t, call, Normal);
    TotalUpdate(s.pcs, t, n.pcs[t], Semaphore.Posts());
    assert n.pcs == s.pcs[t := n.pcs[t]];
  }

  /** A signaller posts all its releases whatever else is pending. */
  lemma SignalsOn(s: State, t: nat, call: Call)
    requires t < |s.pcs| && (s.pcs[t].Post? || s.pcs[t].SignalAdd?)
    ensures var n := Step(s, t, call, Normal); n.pcs[t].Post? || n.pcs[t] == Idle
  { }

  lemma {:induction false} Ends(s: State, t: nat, call: Call) returns (states: seq<State>)
    requires Inv(s) && t < |s.pcs| && (Total(s.pcs, Semaphore.Posts()) == 0 || s.pcs[t].Post? || s.pcs[t].SignalAdd? || s.pcs[t] == Idle)
    ensures Alone(states, t, call) && states[0] == s && Rests(states[|states| - 1], t)
    decreases Left(s, s.pcs[t])
  {
    if Rests(s, t) {
      states := [s];
    } else {
      GoesOn(s, t, call);
      StepPreserves(s, t, call, Normal);
      if s.pcs[t].Post? || s.pcs[t].SignalAdd? { SignalsOn(s, t, call); } else { PostsStay(s, t, call); }
      var n := Step(s, t, call, Normal);
      var later := Ends(n, t, call);
      states := Then(s, n, t, call, later, later[|later| - 1]);
    }
  }

  /**
   In every reachable state, a thread in the middle of a signal that runs alone from there ends it; and if no release is to be
   posted, so does a thread in the middle of a wait, or it goes to sleep on the kernel semaphore, which then has no token.
   */
  lemma AloneEnds(s0: State, schedule: seq<Turn>, t: nat, call: Call) returns (states: seq<State>)
    requires Init(s0) && t < |Exec(s0, schedule).pcs|
    requires var s := Exec(s0, schedule); Total(s.pcs, Semaphore.Posts()) == 0 || s.pcs[t].Post? || s.pcs[t].SignalAdd?
    ensures Alone(states, t, call) && states[0] == Exec(s0, schedule) && Rests(states[|states| - 1], t)
  {
    InitInv(s0);
    ExecPreserves(s0, schedule);
    states := Ends(Exec(s0, schedule), t, call);
  }

  lemma InitInv(s: State)
    requires Init(s)
    ensures Inv(s)
  {
    TotalAllZero(s.pcs, Committed());
    TotalAllZero(s.pcs, Semaphore.Posts());
  }
}
