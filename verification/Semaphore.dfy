/**
 The lightweight semaphore: a count that may go negative in front of a kernel semaphore, with
 timeouts, as an interleaving of atomic steps of any number of threads.

 `wait` is `waitMany` with a maximum of one, `tryWait` is `tryWaitMany` with a maximum of one.
 */
module Semaphore {
  import opened Totals

  const SPINS := 10000

  /** What the result of the try loop is used for. */
  datatype AfterTry = Report | ElseWait(timed: bool) | AddToOne

  datatype Pc =
    | Idle
    | TryLoad(max: int, after: AfterTry)
    | TrySwap(max: int, seen: int, after: AfterTry)
    | SpinLoad(max: int, timed: bool, left: nat)
    | SpinSwap(max: int, timed: bool, left: nat, seen: int)
    | Commit(max: int, timed: bool)
    | Sleep(max: int, timed: bool)
    | RecheckLoad(max: int)
    | TryKernel(max: int)
    | Cancel(max: int, seen: int)
    | SignalAdd(count: nat)
    | Post(left: nat)

  /** `initial`, `signalled` and `acquired` record the history; `kernel` is the kernel semaphore's count. */
  datatype State = State(count: int, kernel: nat, initial: nat, signalled: nat, acquired: int, pcs: seq<Pc>)

  datatype Call = TryWait(max: nat) | Wait(max: nat, timed: bool) | Signal(count: nat)

  /** What the scheduler decides: a weak compare-exchange failing for no reason, or a timeout expiring. */
  datatype Chance = Normal | Unlucky

  function Taken(seen: int, max: int): int {
    if seen > max then max else seen
  }

  /** After the first token of a blocking call: try for the rest. */
  function More(max: int): Pc {
    if max > 1 then TryLoad(max - 1, AddToOne) else Idle
  }

  /** The try loop found no token. */
  function GiveUp(max: int, after: AfterTry): Pc {
    if after.ElseWait? && max > 0 then SpinLoad(max, after.timed, SPINS) else Idle
  }

  function Release(seen: int, count: nat): int {
    if -seen < count then -seen else count
  }

  /** The next atomic step of thread `t`; a thread that cannot move stays as it is. */
  ghost function Step(s: State, t: nat, call: Call, chance: Chance): State
    requires t < |s.pcs|
  {
    match s.pcs[t]
    case Idle =>
      s.(pcs := s.pcs[t := match call
        case TryWait(max) => TryLoad(max, Report)
        case Wait(max, timed) => TryLoad(max, ElseWait(timed))
        case Signal(n) => SignalAdd(n)])
    case TryLoad(max, after) =>
      s.(pcs := s.pcs[t := if s.count > 0 then TrySwap(max, s.count, after) else GiveUp(max, after)])
    case TrySwap(max, seen, after) =>
      if s.count == seen && chance.Normal? then
        var n := Taken(seen, max);
        s.(count := seen - n, acquired := s.acquired + n,
           pcs := s.pcs[t := if n == 0 then GiveUp(max, after) else Idle])
      else s.(pcs := s.pcs[t := if s.count > 0 then TrySwap(max, s.count, after) else GiveUp(max, after)])
    case SpinLoad(max, timed, left) =>
      s.(pcs := s.pcs[t :=
        if left == 0 then Commit(max, timed)
        else if s.count > 0 then SpinSwap(max, timed, left - 1, s.count)
        else SpinLoad(max, timed, left - 1)])
    case SpinSwap(max, timed, left, seen) =>
      if s.count == seen then
        s.(count := seen - Taken(seen, max), acquired := s.acquired + Taken(seen, max), pcs := s.pcs[t := Idle])
      else s.(pcs := s.pcs[t := SpinLoad(max, timed, left)])
    case Commit(max, timed) =>
      var s1 := s.(count := s.count - 1);
      if s.count > 0 then s1.(acquired := s.acquired + 1, pcs := s.pcs[t := More(max)])
      else s1.(pcs := s.pcs[t := Sleep(max, timed)])
    case Sleep(max, timed) =>
      if s.kernel > 0 && chance.Normal? then
        s.(kernel := s.kernel - 1, acquired := s.acquired + 1, pcs := s.pcs[t := More(max)])
      else if timed && chance.Unlucky? then s.(pcs := s.pcs[t := RecheckLoad(max)])
      else s
    case RecheckLoad(max) =>
      s.(pcs := s.pcs[t := if s.count >= 0 then TryKernel(max) else Cancel(max, s.count)])
    case TryKernel(max) =>
      if s.kernel > 0 then
        s.(kernel := s.kernel - 1, acquired := s.acquired + 1, pcs := s.pcs[t := More(max)])
      else s.(pcs := s.pcs[t := RecheckLoad(max)])
    case Cancel(max, seen) =>
      if s.count == seen then s.(count := seen + 1, pcs := s.pcs[t := Idle])
      else s.(pcs := s.pcs[t := RecheckLoad(max)])
    case SignalAdd(n) =>
      var r := Release(s.count, n);
      s.(count := s.count + n, signalled := s.signalled + n, pcs := s.pcs[t := if r > 0 then Post(r) else Idle])
    case Post(left) =>
      if left == 0 then s.(pcs := s.pcs[t := Idle])
      else s.(kernel := s.kernel + 1, pcs := s.pcs[t := if left == 1 then Idle else Post(left - 1)])
  }

  // ---- the invariant ----

  /** A waiter that has decremented the count and neither got a token nor taken the decrement back. */
  ghost function Committed(): Pc -> int {
    (p: Pc) => if p.Sleep? || p.RecheckLoad? || p.TryKernel? || p.Cancel? then 1 else 0
  }

  /** Releases a signaller still has to post to the kernel. */
  ghost function Posts(): Pc -> int {
    (p: Pc) => if p.Post? then p.left else 0
  }

  ghost predicate ThreadOk(p: Pc) {
    && (p.TrySwap? ==> p.seen > 0 && p.max >= 0)
    && (p.TryLoad? ==> p.max >= 0)
    && (p.SpinSwap? ==> p.seen > 0 && p.max > 0)
    && (p.SpinLoad? ==> p.max > 0)
    && (p.Cancel? ==> p.seen < 0)
  }

  function Deficit(count: int): nat {
    if count < 0 then -count else 0
  }

  ghost predicate Inv(s: State) {
    && s.acquired + Total(s.pcs, Committed()) + s.count == s.initial + s.signalled
    && Total(s.pcs, Committed()) == s.kernel + Total(s.pcs, Posts()) + Deficit(s.count)
    && s.acquired >= 0
    && (forall t :: 0 <= t < |s.pcs| ==> ThreadOk(s.pcs[t]))
  }

  ghost predicate Init(s: State) {
    && s.count == s.initial && s.kernel == 0 && s.signalled == 0 && s.acquired == 0
    && (forall t :: 0 <= t < |s.pcs| ==> s.pcs[t] == Idle)
  }

  /** The change of a step balances, before the two sums over threads are taken. */
  lemma StepBalances(s: State, t: nat, call: Call, chance: Chance)
    requires t < |s.pcs| && ThreadOk(s.pcs[t]) && s.acquired >= 0
    ensures var s' := Step(s, t, call, chance);
      var dc := Committed()(s'.pcs[t]) - Committed()(s.pcs[t]);
      var dp := Posts()(s'.pcs[t]) - Posts()(s.pcs[t]);
      && s'.pcs == s.pcs[t := s'.pcs[t]] && ThreadOk(s'.pcs[t])
      && s'.initial == s.initial && s'.acquired >= 0
      && s'.acquired - s.acquired + dc + s'.count - s.count == s'.signalled - s.signalled
      && dc == s'.kernel - s.kernel + dp + Deficit(s'.count) - Deficit(s.count)
  {
  }

  /** Every step of every thread keeps both conservation laws. */
  lemma StepPreserves(s: State, t: nat, call: Call, chance: Chance)
    requires Inv(s) && t < |s.pcs|
    ensures Inv(Step(s, t, call, chance))
  {
    StepBalances(s, t, call, chance);
    var s' := Step(s, t, call, chance);
    TotalUpdate(s.pcs, t, s'.pcs[t], Committed());
    TotalUpdate(s.pcs, t, s'.pcs[t], Posts());
  }

  datatype Turn = Turn(thread: nat, call: Call, chance: Chance)

  ghost function Exec(s: State, schedule: seq<Turn>): State
    decreases schedule
  {
    if schedule == [] then s
    else
      var turn := schedule[0];
      Exec(if turn.thread < |s.pcs| then Step(s, turn.thread, turn.call, turn.chance) else s, schedule[1..])
  }

  lemma {:induction false} ExecPreserves(s: State, schedule: seq<Turn>)
    requires Inv(s)
    ensures Inv(Exec(s, schedule))
    decreases schedule
  {
    if schedule != [] {
      var turn := schedule[0];
      if turn.thread < |s.pcs| {
        StepPreserves(s, turn.thread, turn.call, turn.chance);
        ExecPreserves(Step(s, turn.thread, turn.call, turn.chance), schedule[1..]);
      } else {
        ExecPreserves(s, schedule[1..]);
      }
    }
  }

  /**
   In every run with timeouts: tokens granted, waiters committed and the count add up to the tokens put
   in; the committed waiters are exactly matched by kernel tokens, releases still to be posted and the
   negative part of the count; so grants never exceed the initial count plus the signals.
   */
  lemma SemaphoreConserves(s0: State, schedule: seq<Turn>)
    requires Init(s0)
    ensures var s := Exec(s0, schedule);
      && s.acquired + Total(s.pcs, Committed()) + s.count == s.initial + s.signalled
      && Total(s.pcs, Committed()) == s.kernel + Total(s.pcs, Posts()) + Deficit(s.count)
      && 0 <= s.acquired <= s.initial + s.signalled
  {
    TotalAllZero(s0.pcs, Committed());
    TotalAllZero(s0.pcs, Posts());
    ExecPreserves(s0, schedule);
    var s := Exec(s0, schedule);
    TotalNonNegative(s.pcs, Posts());
  }

  /** A committed waiter that finds the count non-negative has a kernel token present or about to be posted. */
  lemma TimedOutWaiterIsServed(s: State, t: nat)
    requires Inv(s) && t < |s.pcs| && Committed()(s.pcs[t]) == 1 && s.count >= 0
    ensures s.kernel + Total(s.pcs, Posts()) >= 1
  {
    TotalAtLeastTerm(s.pcs, Committed(), t);
  }

  /**
   Once every signaller has posted its releases, the retry of a timed-out waiter that is not disturbed ends: with a token
   when the count is not negative, and otherwise with its decrement taken back.
   */
  lemma TimedOutRetryEnds(s: State, t: nat, call: Call, chance: Chance)
    requires Inv(s) && t < |s.pcs| && s.pcs[t].RecheckLoad? && Total(s.pcs, Posts()) == 0
    ensures s.count >= 0 ==> s.kernel >= 1
    ensures var n := Step(Step(s, t, call, chance), t, call, chance);
            if s.count >= 0 then n == s.(kernel := s.kernel - 1, acquired := s.acquired + 1, pcs := s.pcs[t := More(s.pcs[t].max)])
            else n == s.(count := s.count + 1, pcs := s.pcs[t := Idle])
  {
    if s.count >= 0 { TimedOutWaiterIsServed(s, t); }
    var max := s.pcs[t].max;
    var next := if s.count >= 0 then TryKernel(max) else Cancel(max, s.count);
    assert Step(s, t, call, chance) == s.(pcs := s.pcs[t := next]);
    var last := if s.count >= 0 then More(max) else Idle;
    assert s.pcs[t := next][t := last] == s.pcs[t := last];
  }

  /** No waiter is left asleep: with no token in the kernel or on its way there, everything put in was granted. */
  lemma NobodySleepsOnTokens(s: State, t: nat)
    requires Inv(s) && t < |s.pcs| && s.pcs[t].Sleep?
    requires s.kernel == 0 && (forall u :: 0 <= u < |s.pcs| ==> !s.pcs[u].Post?)
    ensures s.acquired == s.initial + s.signalled
  {
    TotalAllZero(s.pcs, Posts());
    TotalAtLeastTerm(s.pcs, Committed(), t);
  }

  /** The tokens put in and not yet granted. */
  ghost function Tokens(s: State): int {
    s.initial + s.signalled - s.acquired
  }

  /**
   Seen from outside the semaphore is a counter: a step adds what a signal adds, or takes granted tokens
   that were there, or leaves the counter alone; it never goes below zero.
   */
  lemma ActsAsCounter(s: State, t: nat, call: Call, chance: Chance)
    requires Inv(s) && t < |s.pcs|
    ensures var s' := Step(s, t, call, chance);
      && Tokens(s') >= 0
      && (s.pcs[t].SignalAdd? ==> Tokens(s') == Tokens(s) + s.pcs[t].count)
      && (!s.pcs[t].SignalAdd? ==> Tokens(s') == Tokens(s) - (s'.acquired - s.acquired) && s'.acquired >= s.acquired)
  {
    assert ThreadOk(s.pcs[t]);
    StepPreserves(s, t, call, chance);
    TotalNonNegative(Step(s, t, call, chance).pcs, Posts());
    TotalNonNegative(Step(s, t, call, chance).pcs, Committed());
  }
}
