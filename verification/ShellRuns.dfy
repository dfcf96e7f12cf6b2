/**
 Whole runs of the shell tracker: which launch requests are answered, and which are dropped for good.
 */
module ShellRuns {
  import opened Common
  import opened Totals
  import opened ShellLaunch

  /** The first queued process that was not killed while it waited. */
  function NextUp(procs: seq<Proc>, queued: seq<nat>): Option<nat> {
    if queued == [] then None
    else if queued[0] < |procs| && procs[queued[0]].exitPending then NextUp(procs, queued[1..])
    else Some(queued[0])
  }

  /** A launch attempt whose next process does not have exactly one module, or is refused its content source. */
  predicate Drops(w: World, e: Event, i: nat) {
    && e.TryEvent? && w.tracker.created == [] && NextUp(w.procs, w.tracker.queued) == Some(i)
    && i < |w.procs| && (w.procs[i].files != 1 || !e.ok)
  }

  /** Launched and not attached, but neither queued nor in limbo. */
  predicate Lost(w: World, i: nat) {
    && i < |w.procs| && w.procs[i].status == Started && !w.procs[i].attached
    && i !in w.tracker.queued && i !in w.tracker.created
  }

  /** A process owes an answer while it is started, and a kernel process asked for it is in limbo until then. */
  ghost predicate OwingOk(w: World) { OwingAt(w.procs, w.tracker.tracking, w.tracker.created) }

  ghost predicate OwingAt(procs: seq<Proc>, tracking: map<nat, nat>, created: seq<nat>) {
    && (forall i :: 0 <= i < |procs| ==> ProcOwes(procs[i]))
    && (forall pid :: pid in tracking ==> tracking[pid] < |procs| && (procs[tracking[pid]].status == Started ==> tracking[pid] in created))
  }

  predicate ProcOwes(p: Proc) { (p.opener.Some? <==> p.status == Started) && (p.status == Started ==> !p.attached) }

  // ---------------------------------------------------------------- launch attempts

  lemma {:induction false} NextUpQueued(procs: seq<Proc>, queued: seq<nat>)
    ensures var n := NextUp(procs, queued); n.Some? ==> n.value in queued
  {
    if queued != [] { NextUpQueued(procs, queued[1..]); }
  }

  lemma {:induction false} NextUpSame(procs: seq<Proc>, queued: seq<nat>, i: nat, p: Proc)
    requires i < |procs| && p.exitPending == procs[i].exitPending
    ensures NextUp(procs[i := p], queued) == NextUp(procs, queued)
  {
    if queued != [] { NextUpSame(procs, queued[1..], i, p); }
  }

  /** What popping the queue does to process `j`. */
  ghost predicate Settled(w: World, ok: bool, n: World, j: nat)
    requires j < |w.procs|
  {
    && |n.procs| == |w.procs|
    && (j !in w.tracker.queued ==> n.procs[j] == w.procs[j] && j !in n.tracker.queued && j !in n.tracker.created)
    && (j in w.tracker.queued ==>
          (Lost(n, j) <==> NextUp(w.procs, w.tracker.queued) == Some(j) && (w.procs[j].files != 1 || !ok)))
    && (j in w.tracker.queued && n.procs[j].status != Exited ==>
          n.procs[j] == w.procs[j].(ecsPending := n.procs[j].ecsPending))
    && ProcOwes(n.procs[j])
  }

  lemma {:induction false} PopFate(w: World, ok: bool, j: nat)
    requires Ok(w) && w.tracker.created == [] && j < |w.procs| && ProcOwes(w.procs[j])
    ensures Settled(w, ok, PopQueued(w, ok).world, j)
    decreases |w.tracker.queued|
  {
    if w.tracker.queued != [] {
      var i := w.tracker.queued[0];
      PopHead(w.procs, w.tracker);
      SkipKeeps(w);
      var w1 := w.(tracker := w.tracker.(queued := w.tracker.queued[1..]));
      NextUpQueued(w.procs, w1.tracker.queued);
      if w.procs[i].exitPending {
        NextUpSame(w.procs, w1.tracker.queued, i, ChangedProc(w.procs[i], Exited));
        PopFate(Change(w1, i, Exited), ok, j);
      }
    }
  }

  /** A queued process is dropped by a launch attempt exactly when it is the next one and cannot be prepared. */
  lemma DropsExactly(w: World, ok: bool, launch: Option<nat>, j: nat)
    requires Ok(w) && OwingOk(w) && Enabled(w, TryEvent(ok, launch)) && j in w.tracker.queued
    ensures Lost(TryToLaunch(w, ok, launch), j) <==>
            w.tracker.created == [] && NextUp(w.procs, w.tracker.queued) == Some(j) && (w.procs[j].files != 1 || !ok)
  {
    TryFate(w, ok, launch, j);
  }

  /** What a launch attempt does to process `j`. */
  ghost predicate Tried(w: World, e: Event, n: World, j: nat)
    requires j < |w.procs|
  {
    && |n.procs| == |w.procs| && ProcOwes(n.procs[j])
    && (Lost(n, j) <==> Lost(w, j) || Drops(w, e, j))
    && (Lost(n, j) ==> n.procs[j].opener == w.procs[j].opener)
    && (j !in w.tracker.queued ==> n.procs[j] == w.procs[j])
  }

  lemma SettledTried(w: World, ok: bool, launch: Option<nat>, m: World, j: nat)
    requires j < |w.procs| && w.tracker.created == [] && Settled(w, ok, m, j)
    ensures Tried(w, TryEvent(ok, launch), m, j)
  {
    NextUpQueued(w.procs, w.tracker.queued);
  }

  /** The kernel refuses to launch the process put in limbo. */
  lemma RefusedTried(w: World, e: Event, m: World, i: nat, j: nat)
    requires j < |w.procs| && i < |m.procs| && m.tracker.created == [i] && Tried(w, e, m, j)
    requires j !in w.tracker.queued ==> j != i
    ensures var n := Change(m, i, Exited); Tried(w, e, n.(tracker := n.tracker.(created := [])), j)
  { }

  lemma TryFate(w: World, ok: bool, launch: Option<nat>, j: nat)
    requires Ok(w) && OwingOk(w) && Enabled(w, TryEvent(ok, launch)) && j < |w.procs|
    ensures Tried(w, TryEvent(ok, launch), TryToLaunch(w, ok, launch), j)
  {
    if w.tracker.created == [] {
      PopKeeps(w, ok);
      PopFate(w, ok, j);
      var popped := PopQueued(w, ok);
      SettledTried(w, ok, launch, popped.world, j);
      if popped.proc.Some? && launch.None? { RefusedTried(w, TryEvent(ok, launch), popped.world, popped.proc.value, j); }
    }
  }

  lemma {:induction false} PopCount(w: World, ok: bool)
    ensures |PopQueued(w, ok).world.procs| == |w.procs|
    decreases |w.tracker.queued|
  {
    if w.tracker.queued != [] {
      var i := w.tracker.queued[0];
      var w1 := w.(tracker := w.tracker.(queued := w.tracker.queued[1..]));
      if i < |w1.procs| && w1.procs[i].exitPending { PopCount(Change(w1, i, Exited), ok); }
    }
  }

  lemma TryOwing(w: World, ok: bool, launch: Option<nat>)
    requires Ok(w) && OwingOk(w) && Enabled(w, TryEvent(ok, launch))
    ensures OwingOk(TryToLaunch(w, ok, launch))
  {
    if w.tracker.created == [] {
      var n := TryToLaunch(w, ok, launch);
      PopKeeps(w, ok);
      PopCount(w, ok);
      forall i | 0 <= i < |n.procs| ensures ProcOwes(n.procs[i]) { TryFate(w, ok, launch, i); }
      forall pid | pid in w.tracker.tracking ensures n.procs[w.tracker.tracking[pid]].status != Started {
        TrackedTried(w, ok, launch, pid);
      }
      TryTracking(w, ok, launch);
    }
  }

  /** A process that is tracked while nothing is in limbo is not touched. */
  lemma TrackedTried(w: World, ok: bool, launch: Option<nat>, pid: nat)
    requires Ok(w) && OwingOk(w) && Enabled(w, TryEvent(ok, launch)) && w.tracker.created == [] && pid in w.tracker.tracking
    ensures var n := TryToLaunch(w, ok, launch); var i := w.tracker.tracking[pid];
            i < |n.procs| && n.procs[i].status != Started
  {
    assert IsTracked(w.tracker, w.tracker.tracking[pid]);
    TryFate(w, ok, launch, w.tracker.tracking[pid]);
  }

  /** The only process that becomes tracked is the one put in limbo. */
  lemma TryTracking(w: World, ok: bool, launch: Option<nat>)
    requires Ok(w) && Enabled(w, TryEvent(ok, launch)) && w.tracker.created == []
    ensures var n := TryToLaunch(w, ok, launch);
            forall pid :: pid in n.tracker.tracking ==>
              n.tracker.tracking[pid] < |n.procs| &&
              (n.tracker.tracking[pid] in n.tracker.created || (pid in w.tracker.tracking && w.tracker.tracking[pid] == n.tracker.tracking[pid]))
  {
    PopKeeps(w, ok);
    PopCount(w, ok);
  }

  // ---------------------------------------------------------------- all events

  /** A lost process stays lost and keeps its request; a process is lost only by a launch attempt that drops it. */
  ghost predicate Fate(w: World, e: Event, n: World, j: nat)
    requires j < |w.procs|
  {
    && |n.procs| >= |w.procs|
    && (Lost(n, j) <==> Lost(w, j) || Drops(w, e, j))
    && (Lost(n, j) ==> n.procs[j].opener == w.procs[j].opener)
  }

  lemma StepFate(w: World, e: Event, j: nat)
    requires Ok(w) && OwingOk(w) && Enabled(w, e) && j < |w.procs|
    ensures Fate(w, e, Step(w, e), j)
  {
    match e {
      case TryEvent(ok, launch) => TryFate(w, ok, launch, j);
      case LaunchEvent(i, suspended) => LaunchFate(w, i, suspended, j);
      case AttachEvent => AttachFate(w, j);
      case ExitedEvent(pid) => ExitedFate(w, pid, j);
      case KillEvent(i) => KillFate(w, i, j);
      case TerminateEvent(i) => KillFate(w, i, j);
      case ContinueEvent(i) => ContinueFate(w, i, j);
      case WaitEvent(i) => WaitFate(w, i, j);
      case CreateEvent(_) =>
    }
  }

  /** An event that is no launch attempt. */
  ghost predicate Unmoved(w: World, n: World, j: nat)
    requires j < |w.procs|
  {
    |n.procs| == |w.procs| && (Lost(n, j) <==> Lost(w, j)) && (Lost(n, j) ==> n.procs[j].opener == w.procs[j].opener)
  }

  lemma LaunchFate(w: World, i: nat, suspended: bool, j: nat)
    requires Ok(w) && i < |w.procs| && w.procs[i].status == Created && j < |w.procs|
    ensures Unmoved(w, Launch(w, i, suspended), j)
  { }

  lemma AttachFate(w: World, j: nat)
    requires Ok(w) && Enabled(w, AttachEvent) && j < |w.procs|
    ensures Unmoved(w, AttachHost(w), j)
  { }

  lemma ExitedFate(w: World, pid: nat, j: nat)
    requires Ok(w) && OwingOk(w) && j < |w.procs|
    ensures Unmoved(w, ExitEvent(w, pid), j)
  { }

  lemma KillFate(w: World, i: nat, j: nat)
    requires i < |w.procs| && j < |w.procs|
    ensures Unmoved(w, Kill(w, i), j) && Unmoved(w, Terminate(w, i), j)
  { }

  lemma ContinueFate(w: World, i: nat, j: nat)
    requires i < |w.procs| && j < |w.procs|
    ensures Unmoved(w, Continue(w, i), j)
  { }

  lemma WaitFate(w: World, i: nat, j: nat)
    requires i < |w.procs| && j < |w.procs| && w.procs[i].attached && ProcOwes(w.procs[i])
    ensures Unmoved(w, WaitToStart(w, i), j)
  { }

  lemma StepOwing(w: World, e: Event)
    requires Ok(w) && OwingOk(w) && Enabled(w, e)
    ensures OwingOk(Step(w, e))
  {
    match e {
      case TryEvent(ok, launch) => TryOwing(w, ok, launch);
      case LaunchEvent(i, suspended) => LaunchOwing(w, i, suspended);
      case AttachEvent => AttachOwing(w);
      case ExitedEvent(pid) => ExitedOwing(w, pid);
      case KillEvent(i) => KillOwing(w, i);
      case TerminateEvent(i) => KillOwing(w, i);
      case ContinueEvent(i) => ContinueOwing(w, i);
      case WaitEvent(i) => WaitOwing(w, i);
      case CreateEvent(_) =>
    }
  }

  lemma UpdateOwing(procs: seq<Proc>, tracking: map<nat, nat>, created: seq<nat>, i: nat, p: Proc)
    requires OwingAt(procs, tracking, created) && i < |procs| && ProcOwes(p)
    requires p.status == Started ==> procs[i].status == Started || forall pid :: pid in tracking ==> tracking[pid] != i
    ensures OwingAt(procs[i := p], tracking, created)
  { }

  lemma LaunchOwing(w: World, i: nat, suspended: bool)
    requires Ok(w) && OwingOk(w) && i < |w.procs| && w.procs[i].status == Created
    ensures OwingOk(Launch(w, i, suspended))
  {
    var n := Launch(w, i, suspended);
    forall pid | pid in w.tracker.tracking ensures w.tracker.tracking[pid] != i {
      assert IsTracked(w.tracker, w.tracker.tracking[pid]);
    }
    assert n.procs == w.procs[i := n.procs[i]];
    UpdateOwing(w.procs, w.tracker.tracking, w.tracker.created, i, n.procs[i]);
  }

  lemma AttachOwing(w: World)
    requires Ok(w) && OwingOk(w) && Enabled(w, AttachEvent)
    ensures OwingOk(AttachHost(w))
  {
    var n := AttachHost(w);
    var i := w.tracker.created[0];
    assert w.tracker.created == [i] && n.procs == w.procs[i := n.procs[i]];
    UpdateOwing(w.procs, w.tracker.tracking, w.tracker.created, i, n.procs[i]);
  }

  lemma ExitedOwing(w: World, pid: nat)
    requires OwingOk(w)
    ensures OwingOk(ExitEvent(w, pid))
  {
    if pid in w.tracker.tracking {
      var i := w.tracker.tracking[pid];
      UpdateOwing(w.procs, w.tracker.tracking, w.tracker.created, i, ChangedProc(w.procs[i], Exited));
    }
  }

  lemma KillOwing(w: World, i: nat)
    requires OwingOk(w) && i < |w.procs|
    ensures OwingOk(Kill(w, i)) && OwingOk(Terminate(w, i))
  {
    UpdateOwing(w.procs, w.tracker.tracking, w.tracker.created, i, Kill(w, i).procs[i]);
    UpdateOwing(w.procs, w.tracker.tracking, w.tracker.created, i, Terminate(w, i).procs[i]);
    assert Kill(w, i).procs == w.procs[i := Kill(w, i).procs[i]];
    assert Terminate(w, i).procs == w.procs[i := Terminate(w, i).procs[i]];
  }

  lemma ContinueOwing(w: World, i: nat)
    requires OwingOk(w) && i < |w.procs|
    ensures OwingOk(Continue(w, i))
  {
    UpdateOwing(w.procs, w.tracker.tracking, w.tracker.created, i, Continue(w, i).procs[i]);
    assert Continue(w, i).procs == w.procs[i := Continue(w, i).procs[i]];
  }

  lemma WaitOwing(w: World, i: nat)
    requires OwingOk(w) && i < |w.procs| && w.procs[i].attached
    ensures OwingOk(WaitToStart(w, i))
  {
    UpdateOwing(w.procs, w.tracker.tracking, w.tracker.created, i, WaitToStart(w, i).procs[i]);
    assert WaitToStart(w, i).procs == w.procs[i := WaitToStart(w, i).procs[i]];
  }

  // ---------------------------------------------------------------- runs

  lemma NextOwing(w: World, e: Event, n: World)
    requires Ok(w) && OwingOk(w) && IsStep(w, e, n)
    ensures Ok(n) && OwingOk(n)
  {
    StepKeeps(w, e);
    StepOwing(w, e);
  }

  lemma {:induction false} RunOwing(states: seq<World>, events: seq<Event>, k: nat)
    requires IsRun(states, events) && k < |states|
    ensures Ok(states[k]) && OwingOk(states[k])
    decreases k
  {
    if k == 0 {
      StartOk(states[0], 0);
    } else {
      RunOwing(states, events, k - 1);
      NextOwing(states[k - 1], events[k - 1], states[k]);
    }
  }

  /** Some launch attempt of the first `k` events dropped process `i`. */
  ghost predicate DroppedBefore(states: seq<World>, events: seq<Event>, k: nat, i: nat)
    requires k <= |events| && k < |states|
  {
    exists j :: 0 <= j < k && Drops(states[j], events[j], i)
  }

  lemma TryCount(w: World, ok: bool, launch: Option<nat>)
    ensures |TryToLaunch(w, ok, launch).procs| == |w.procs|
  {
    PopCount(w, ok);
    LaunchCount(PopQueued(w, ok), launch);
  }

  lemma LaunchCount(popped: Popped, launch: Option<nat>)
    ensures |LaunchPopped(popped, launch).procs| == |popped.world.procs|
  { }

  lemma WaitCount(w: World, i: nat)
    requires i < |w.procs|
    ensures |WaitToStart(w, i).procs| == |w.procs| == |Continue(w, i).procs|
  { }

  /** A process that was not there before is not lost. */
  lemma NewIsNotLost(w: World, e: Event, i: nat)
    requires Enabled(w, e) && i >= |w.procs|
    ensures !Lost(Step(w, e), i)
  {
    match e {
      case TryEvent(ok, launch) => TryCount(w, ok, launch);
      case WaitEvent(j) => WaitCount(w, j);
      case ContinueEvent(j) => WaitCount(w, j);
      case _ =>
    }
  }

  lemma NextLost(w: World, e: Event, n: World, i: nat)
    requires Ok(w) && OwingOk(w) && IsStep(w, e, n)
    ensures Lost(n, i) <==> Lost(w, i) || Drops(w, e, i)
    ensures Lost(n, i) ==> i < |w.procs| && n.procs[i].opener == w.procs[i].opener
  {
    if i < |w.procs| {
      StepFate(w, e, i);
    } else {
      NewIsNotLost(w, e, i);
    }
  }

  lemma LostNext(states: seq<World>, events: seq<Event>, k: nat, i: nat)
    requires IsRun(states, events) && 0 < k < |states|
    ensures Lost(states[k], i) <==> Lost(states[k - 1], i) || Drops(states[k - 1], events[k - 1], i)
    ensures Lost(states[k], i) ==> i < |states[k - 1].procs| && states[k].procs[i].opener == states[k - 1].procs[i].opener
  {
    RunOwing(states, events, k - 1);
    NextLost(states[k - 1], events[k - 1], states[k], i);
  }

  lemma DroppedNext(states: seq<World>, events: seq<Event>, k: nat, i: nat)
    requires 0 < k <= |events| && k < |states|
    ensures DroppedBefore(states, events, k, i) <==> DroppedBefore(states, events, k - 1, i) || Drops(states[k - 1], events[k - 1], i)
  {
    if DroppedBefore(states, events, k - 1, i) {
      var j :| 0 <= j < k - 1 && Drops(states[j], events[j], i);
      assert 0 <= j < k && Drops(states[j], events[j], i);
    }
  }

  lemma {:induction false} LostExactly(states: seq<World>, events: seq<Event>, k: nat, i: nat)
    requires IsRun(states, events) && k < |states|
    ensures Lost(states[k], i) <==> DroppedBefore(states, events, k, i)
    decreases k
  {
    if k > 0 {
      LostExactly(states, events, k - 1, i);
      LostNext(states, events, k, i);
      DroppedNext(states, events, k, i);
    }
  }

  /** Where a process that owes an answer is. */
  ghost predicate Owing(states: seq<World>, events: seq<Event>, k: nat, i: nat)
    requires k <= |events| && k < |states|
  {
    var w := states[k];
    && i < |w.procs|
    && (i in w.tracker.queued || (i in w.tracker.created && w.procs[i].status == Started) || DroppedBefore(states, events, k, i))
  }

  /**
   At every point of every run, a process owes an answer to its launch request exactly when it is queued, is in limbo and
   has not exited, or was dropped by a launch attempt.
   */
  lemma OwingExactly(states: seq<World>, events: seq<Event>, k: nat, i: nat)
    requires IsRun(states, events) && k < |states| && i < |states[k].procs|
    ensures states[k].procs[i].opener.Some? <==> Owing(states, events, k, i)
  {
    RunOwing(states, events, k);
    LostExactly(states, events, k, i);
    PlaceOf(states[k].procs, states[k].tracker, i);
  }

  /** A process that was dropped keeps its request for good. */
  lemma {:induction false} DroppedKeeps(states: seq<World>, events: seq<Event>, j: nat, k: nat, i: nat)
    requires IsRun(states, events) && j < k < |states| && Drops(states[j], events[j], i)
    ensures Lost(states[k], i) && states[k].procs[i].opener == states[j].procs[i].opener
    decreases k
  {
    LostNext(states, events, k, i);
    if k - 1 > j { DroppedKeeps(states, events, j, k - 1, i); }
  }

  /** The request of a process that was dropped is never answered. */
  lemma DroppedNeverAnswered(states: seq<World>, events: seq<Event>, j: nat, k: nat, i: nat)
    requires IsRun(states, events) && j < k < |states| && Drops(states[j], events[j], i)
    ensures i < |states[k].procs| && states[j].procs[i].opener.Some?
    ensures states[k].procs[i].opener == states[j].procs[i].opener
    ensures Count(states[k].ledger.answered, states[j].procs[i].opener.value) == 0
  {
    DroppedKeeps(states, events, j, k, i);
    RunOwing(states, events, k);
    var id := states[k].procs[i].opener.value;
    RunOk(states, events, k, id);
    CountNonNegative(states[k], id);
  }

  lemma CountNonNegative(w: World, id: nat)
    ensures Total(w.procs, ShellLaunch.Owes(id)) >= 0
    ensures forall i :: 0 <= i < |w.procs| && w.procs[i].opener == Some(id) ==> Total(w.procs, ShellLaunch.Owes(id)) >= 1
  {
    TotalNonNegative(w.procs, ShellLaunch.Owes(id));
    forall i | 0 <= i < |w.procs| && w.procs[i].opener == Some(id) ensures Total(w.procs, ShellLaunch.Owes(id)) >= 1 {
      TotalAtLeastTerm(w.procs, ShellLaunch.Owes(id), i);
    }
  }

  lemma {:induction false} SomeoneOwes(procs: seq<Proc>, id: nat) returns (i: nat)
    requires Total(procs, ShellLaunch.Owes(id)) >= 1
    ensures i < |procs| && procs[i].opener == Some(id)
  {
    if procs[0].opener == Some(id) {
      i := 0;
    } else {
      i := SomeoneOwes(procs[1..], id);
      i := i + 1;
    }
  }

  /**
   At every point of every run, a launch request has been answered once or one process owes the answer; it is unanswered
   exactly when that process is queued, is in limbo and has not exited, or was dropped by a launch attempt. Each callback was
   called at most once.
   */
  lemma AnsweredOnce(states: seq<World>, events: seq<Event>, k: nat, id: nat)
    requires IsRun(states, events) && k < |states|
    ensures var w := states[k];
            && Count(w.ledger.answered, id) + Total(w.procs, ShellLaunch.Owes(id)) == B(id < w.ledger.nextLaunch)
            && Count(w.ledger.answered, id) <= 1 && Count(w.ledger.called, id) <= 1
            && (id < w.ledger.nextLaunch && Count(w.ledger.answered, id) == 0 <==>
                  exists i :: 0 <= i < |w.procs| && w.procs[i].opener == Some(id) && Owing(states, events, k, i))
  {
    var w := states[k];
    RunOk(states, events, k, id);
    CountNonNegative(w, id);
    TotalNonNegative(w.procs, Waits(id));
    if id < w.ledger.nextLaunch && Count(w.ledger.answered, id) == 0 {
      var i := SomeoneOwes(w.procs, id);
      OwingExactly(states, events, k, i);
    }
  }

  // ---------------------------------------------------------------- two runs

  /**
   A process without code is launched with nothing in limbo: its request is dropped, so that in no continuation of this
   run is it answered (`DroppedNeverAnswered`).
   */
  lemma DroppedRequest(pid: nat) returns (states: seq<World>, events: seq<Event>)
    ensures events == [CreateEvent(0), LaunchEvent(0, false), TryEvent(true, Some(pid))]
    ensures IsRun(states, events) && Drops(states[2], events[2], 0)
    ensures var w := states[3];
            w.tracker.queued == [] && w.tracker.created == [] && w.ledger.answered == [] && w.ledger.nextLaunch == 1 &&
            |w.procs| == 1 && w.procs[0].opener == Some(0)
  {
    events := [CreateEvent(0), LaunchEvent(0, false), TryEvent(true, Some(pid))];
    var w0 := World([], Tracker([], [], map[], [], 0), None, Ledger([], [], 0, 0), false, false);
    var w1 := Step(w0, events[0]);
    assert w1.procs == [Proc(Created, None, false, false, false, None, false, 0, 0)];
    var w2 := Step(w1, events[1]);
    assert w2.tracker.queued == [0] && w2.procs == [Proc(Started, Some(0), false, false, false, None, false, 0, 0)];
    var w3 := Step(w2, events[2]);
    states := [w0, w1, w2, w3];
    assert IsStep(w0, events[0], w1) && IsStep(w1, events[1], w2) && IsStep(w2, events[2], w3);
  }

  /** One event after the other, from any state. */
  ghost predicate IsPath(states: seq<World>, events: seq<Event>) {
    |states| == |events| + 1 && forall k :: 0 <= k < |events| ==> IsStep(states[k], events[k], states[k + 1])
  }

  lemma PathJoins(a: seq<World>, before: seq<Event>, b: seq<World>, after: seq<Event>)
    requires IsPath(a, before) && IsPath(b, after) && a[|a| - 1] == b[0]
    ensures IsPath(a + b[1..], before + after)
  {
    var states, events := a + b[1..], before + after;
    forall k | 0 <= k < |events| ensures IsStep(states[k], events[k], states[k + 1]) {
      if k >= |before| {
        assert events[k] == after[k - |before|] && states[k] == b[k - |before|] && states[k + 1] == b[k - |before| + 1];
      }
    }
  }

  /** A process of one module, launched suspended, until it is in limbo. */
  lemma LaunchedSuspended(pid: nat) returns (states: seq<World>)
    ensures IsPath(states, [CreateEvent(1), LaunchEvent(0, true), TryEvent(true, Some(pid))]) && Initial(states[0])
    ensures states[3].procs == [Proc(Started, Some(0), false, true, true, None, false, 0, 1)]
    ensures states[3].tracker.created == [0] && states[3].tracker.tracking == map[pid := 0] && !states[3].crashed
  {
    var w0 := World([], Tracker([], [], map[], [], 0), None, Ledger([], [], 0, 0), false, false);
    var w1 := Step(w0, CreateEvent(1));
    assert w1.procs == [Proc(Created, None, false, false, false, None, false, 0, 1)];
    var w2 := Step(w1, LaunchEvent(0, true));
    assert w2.tracker.queued == [0] && w2.procs == [Proc(Started, Some(0), false, false, true, None, false, 0, 1)];
    var w3 := Step(w2, TryEvent(true, Some(pid)));
    states := [w0, w1, w2, w3];
  }

  /** Its shim waits to start. */
  lemma AttachedWaits(w: World, p: Proc) returns (states: seq<World>)
    requires w.procs == [p] && w.tracker.created == [0] && p.suspend && p.cb == None && !w.crashed
    ensures IsPath(states, [AttachEvent, WaitEvent(0)]) && states[0] == w
    ensures var n := states[2]; |n.procs| == 1 && n.procs[0].status == ShimSuspended && n.procs[0].cb.Some? && !n.crashed
  {
    var w1 := Step(w, AttachEvent);
    assert |w1.procs| == 1 && w1.procs[0].attached && w1.procs[0].status == Attached && w1.procs[0].suspend && !w1.crashed;
    states := [w, w1, Step(w1, WaitEvent(0))];
  }

  lemma DiesTwice(w: World) returns (states: seq<World>)
    requires |w.procs| == 1 && w.procs[0].status == ShimSuspended && w.procs[0].cb.Some? && !w.crashed
    ensures IsPath(states, [KillEvent(0), KillEvent(0)]) && states[0] == w && !states[1].crashed && states[2].crashed
  {
    CrashesExactly(w, 0);
    var w1 := Step(w, KillEvent(0));
    states := [w, w1, Step(w1, KillEvent(0))];
  }

  /** A process launched suspended, whose shim waits: the second kill calls a callback that is gone. */
  lemma KilledTwice(pid: nat) returns (states: seq<World>, events: seq<Event>)
    ensures events == [CreateEvent(1), LaunchEvent(0, true), TryEvent(true, Some(pid))] + [AttachEvent, WaitEvent(0)] +
                      [KillEvent(0), KillEvent(0)]
    ensures IsRun(states, events) && !states[6].crashed && states[7].crashed
  {
    var launch := [CreateEvent(1), LaunchEvent(0, true), TryEvent(true, Some(pid))];
    var first := LaunchedSuspended(pid);
    var next := AttachedWaits(first[3], first[3].procs[0]);
    PathJoins(first, launch, next, [AttachEvent, WaitEvent(0)]);
    var last := DiesTwice(next[2]);
    PathJoins(first + next[1..], launch + [AttachEvent, WaitEvent(0)], last, [KillEvent(0), KillEvent(0)]);
    states, events := first + next[1..] + last[1..], launch + [AttachEvent, WaitEvent(0)] + [KillEvent(0), KillEvent(0)];
  }
}
