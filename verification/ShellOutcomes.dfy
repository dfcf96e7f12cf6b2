/**
 What each event of the shell tracker does to the process it is about, and what that means for whole runs: which process is
 launched, attached, suspended, killed, and seen to exit.
 */
module ShellOutcomes {
  import opened Common
  import opened Totals
  import opened ShellLaunch
  import opened ShellRuns

  /** A request or callback, if there is one, as it is appended to what was answered or called. */
  function Ids(o: Option<nat>): seq<nat> { if o.Some? then [o.value] else [] }

  ghost predicate OthersKeep(w: World, n: World, i: nat) {
    |n.procs| == |w.procs| && forall j :: 0 <= j < |w.procs| && j != i ==> n.procs[j] == w.procs[j]
  }

  // ---------------------------------------------------------------- exits

  /**
   An exit event of a tracked process: it is exited, its launch request is answered, its suspended callback was called, no
   content source of its own is installed, its pid is forgotten, and nothing else changes.
   */
  lemma ExitSeen(w: World, pid: nat)
    requires Ok(w) && pid in w.tracker.tracking
    ensures var i := w.tracker.tracking[pid]; var n := ExitEvent(w, pid);
            && i < |w.procs| && OthersKeep(w, n, i)
            && n.procs[i].status == Exited && n.procs[i].opener == None && n.procs[i].cb == None
            && n.ledger.answered == w.ledger.answered + Ids(w.procs[i].opener)
            && n.ledger.called == w.ledger.called + Ids(w.procs[i].cb)
            && n.ecs != Some(i) && (w.ecs != Some(i) ==> n.ecs == w.ecs)
            && n.tracker == w.tracker.(tracking := w.tracker.tracking - {pid})
  {
    var i := w.tracker.tracking[pid];
    assert IsTracked(w.tracker, i);
  }

  /** The attach event of a process in limbo. */
  predicate Attaches(w: World, e: Event, i: nat) {
    e.AttachEvent? && w.tracker.created != [] && w.tracker.created[0] == i
  }

  lemma ExitedNext(w: World, e: Event, i: nat)
    requires Ok(w) && OwingOk(w) && Enabled(w, e) && i < |w.procs| && w.procs[i].status == Exited
    ensures i < |Step(w, e).procs| && Step(w, e).procs[i].status == if Attaches(w, e, i) then Attached else Exited
  {
    PlaceOf(w.procs, w.tracker, i);
    match e {
      case TryEvent(ok, launch) => TryFate(w, ok, launch, i);
      case ExitedEvent(pid) => if pid in w.tracker.tracking { ExitSeen(w, pid); }
      case AttachEvent => AttachSeen(w);
      case WaitEvent(j) => WaitSeen(w, j);
      case ContinueEvent(j) => ContinueSeen(w, j);
      case KillEvent(j) => KillSeen(w, j);
      case TerminateEvent(j) => KillSeen(w, j);
      case LaunchEvent(j, suspended) => LaunchSeen(w, j, suspended);
      case _ =>
    }
  }

  /** Attached, but no exit event will be taken for it any more. */
  ghost predicate Adrift(w: World, i: nat) {
    i < |w.procs| && w.procs[i].attached && w.procs[i].status != Exited && !IsTracked(w.tracker, i)
  }

  lemma AttachedUntracked(w: World, i: nat)
    requires Ok(w) && Enabled(w, AttachEvent) && w.tracker.created[0] == i && w.procs[i].status == Exited
    ensures Adrift(AttachHost(w), i)
  {
    PlaceOf(w.procs, w.tracker, i);
    SubTracked(AttachHost(w).tracker, w.tracker, i);
  }

  lemma AdriftTry(w: World, ok: bool, launch: Option<nat>, i: nat)
    requires Ok(w) && OwingOk(w) && Enabled(w, TryEvent(ok, launch)) && Adrift(w, i)
    ensures Adrift(TryToLaunch(w, ok, launch), i)
  {
    PlaceOf(w.procs, w.tracker, i);
    TryFate(w, ok, launch, i);
    TryKeeps(w, ok, launch);
    var n := TryToLaunch(w, ok, launch);
    PlaceOf(n.procs, n.tracker, i);
    if w.tracker.created == [] {
      TryTracking(w, ok, launch);
      forall pid | pid in n.tracker.tracking ensures n.tracker.tracking[pid] != i {
        if pid in w.tracker.tracking { assert IsTracked(w.tracker, w.tracker.tracking[pid]); }
      }
    }
  }

  lemma AdriftNext(w: World, e: Event, i: nat)
    requires Ok(w) && OwingOk(w) && Enabled(w, e) && Adrift(w, i)
    ensures Adrift(Step(w, e), i)
  {
    PlaceOf(w.procs, w.tracker, i);
    var n := Step(w, e);
    match e {
      case TryEvent(ok, launch) => AdriftTry(w, ok, launch, i);
      case ExitedEvent(pid) =>
        if pid in w.tracker.tracking {
          ExitSeen(w, pid);
          assert IsTracked(w.tracker, w.tracker.tracking[pid]);
        }
        SubTracked(n.tracker, w.tracker, i);
      case AttachEvent =>
        AttachSeen(w);
        SubTracked(n.tracker, w.tracker, i);
      case WaitEvent(j) => WaitSeen(w, j);
      case ContinueEvent(j) => ContinueSeen(w, j);
      case KillEvent(j) => KillSeen(w, j);
      case TerminateEvent(j) => KillSeen(w, j);
      case LaunchEvent(j, suspended) =>
        LaunchSeen(w, j, suspended);
        SubTracked(n.tracker, w.tracker, i);
      case _ => SubTracked(n.tracker, w.tracker, i);
    }
  }

  lemma SubTracked(t: Tracker, u: Tracker, i: nat)
    requires forall pid :: pid in t.tracking ==> pid in u.tracking && u.tracking[pid] == t.tracking[pid]
    ensures IsTracked(t, i) ==> IsTracked(u, i)
  {
    if IsTracked(t, i) {
      var pid :| pid in t.tracking && t.tracking[pid] == i;
      assert u.tracking[pid] == i;
    }
  }

  ghost predicate AttachedBetween(states: seq<World>, events: seq<Event>, j: nat, k: nat, i: nat)
    requires k <= |events| && k < |states|
  {
    exists m :: j < m < k && Attaches(states[m], events[m], i)
  }

  lemma AttachedNext(states: seq<World>, events: seq<Event>, j: nat, k: nat, i: nat)
    requires 0 < k <= |events| && k < |states| && j < k - 1
    ensures AttachedBetween(states, events, j, k, i) <==>
            AttachedBetween(states, events, j, k - 1, i) || Attaches(states[k - 1], events[k - 1], i)
  {
    if AttachedBetween(states, events, j, k - 1, i) {
      var m :| j < m < k - 1 && Attaches(states[m], events[m], i);
      assert j < m < k && Attaches(states[m], events[m], i);
    }
  }

  /** Exited for good, or attached since and adrift. */
  ghost predicate Ended(states: seq<World>, events: seq<Event>, j: nat, k: nat, i: nat)
    requires k <= |events| && k < |states|
  {
    if AttachedBetween(states, events, j, k, i) then Adrift(states[k], i)
    else i < |states[k].procs| && states[k].procs[i].status == Exited
  }

  lemma EndedNext(w: World, e: Event, n: World, i: nat)
    requires Ok(w) && OwingOk(w) && IsStep(w, e, n) && i < |w.procs| && (w.procs[i].status == Exited || Adrift(w, i))
    ensures w.procs[i].status == Exited && Attaches(w, e, i) ==> Adrift(n, i)
    ensures w.procs[i].status == Exited && !Attaches(w, e, i) ==> i < |n.procs| && n.procs[i].status == Exited
    ensures Adrift(w, i) ==> Adrift(n, i)
  {
    if w.procs[i].status == Exited {
      ExitedNext(w, e, i);
      if Attaches(w, e, i) { AttachedUntracked(w, i); }
    } else {
      AdriftNext(w, e, i);
    }
  }

  lemma FirstEnded(states: seq<World>, events: seq<Event>, j: nat, pid: nat)
    requires IsRun(states, events) && j + 1 < |states|
    requires events[j] == ExitedEvent(pid) && pid in states[j].tracker.tracking
    ensures Ended(states, events, j, j + 1, states[j].tracker.tracking[pid])
  {
    RunOwing(states, events, j);
    ExitSeen(states[j], pid);
    assert IsStep(states[j], events[j], states[j + 1]);
  }

  lemma LaterEnded(states: seq<World>, events: seq<Event>, j: nat, k: nat, i: nat)
    requires IsRun(states, events) && j < k && k + 1 < |states| && Ended(states, events, j, k, i)
    ensures Ended(states, events, j, k + 1, i)
  {
    RunOwing(states, events, k);
    AttachedNext(states, events, j, k + 1, i);
    EndedNext(states[k], events[k], states[k + 1], i);
  }

  lemma {:induction false} RunEnds(states: seq<World>, events: seq<Event>, j: nat, k: nat, pid: nat)
    requires IsRun(states, events) && j < k < |states|
    requires events[j] == ExitedEvent(pid) && pid in states[j].tracker.tracking
    ensures Ended(states, events, j, k, states[j].tracker.tracking[pid])
    decreases k
  {
    if k == j + 1 {
      FirstEnded(states, events, j, pid);
    } else {
      RunEnds(states, events, j, k - 1, pid);
      LaterEnded(states, events, j, k - 1, states[j].tracker.tracking[pid]);
    }
  }

  /**
   A process whose exit event came stays exited, at every later point of every run, exactly until a kernel process is
   attached to it, which can only happen if the exit came while it was in limbo; from then on it never exits again.
   */
  lemma ExitedExactly(states: seq<World>, events: seq<Event>, j: nat, k: nat, pid: nat)
    requires IsRun(states, events) && j < k < |states|
    requires events[j] == ExitedEvent(pid) && pid in states[j].tracker.tracking
    ensures var i := states[j].tracker.tracking[pid];
            && i < |states[k].procs|
            && (states[k].procs[i].status == Exited <==> !AttachedBetween(states, events, j, k, i))
  {
    RunEnds(states, events, j, k, pid);
  }

  /** A process that exits while it is in limbo is attached all the same, and is not exited afterwards. */
  lemma ExitsInLimbo(pid: nat) returns (states: seq<World>)
    ensures IsRun(states, [CreateEvent(1), LaunchEvent(0, true), TryEvent(true, Some(pid))] + [ExitedEvent(pid), AttachEvent])
    ensures |states[4].procs| == |states[5].procs| == 1
    ensures states[4].procs[0].status == Exited && states[5].procs[0].status == Attached && states[5].tracker.tracking == map[]
  {
    var first := LaunchedSuspended(pid);
    var last := ExitsAttaches(first[3], pid);
    PathJoins(first, [CreateEvent(1), LaunchEvent(0, true), TryEvent(true, Some(pid))], last, [ExitedEvent(pid), AttachEvent]);
    states := first + last[1..];
  }

  lemma ExitsAttaches(w: World, pid: nat) returns (states: seq<World>)
    requires w.tracker.created == [0] && w.tracker.tracking == map[pid := 0] && |w.procs| == 1
    ensures IsPath(states, [ExitedEvent(pid), AttachEvent]) && states[0] == w && |states[1].procs| == |states[2].procs| == 1
    ensures states[1].procs[0].status == Exited && states[2].procs[0].status == Attached && states[2].tracker.tracking == map[]
  {
    var w1 := Step(w, ExitedEvent(pid));
    assert w1.procs[0].status == Exited && w1.tracker.created == [0];
    states := [w, w1, Step(w1, AttachEvent)];
  }

  // ---------------------------------------------------------------- launches

  /** The queue after the first process that was not killed while it waited. */
  function AfterNext(procs: seq<Proc>, queued: seq<nat>): seq<nat> {
    if queued == [] then []
    else if queued[0] < |procs| && procs[queued[0]].exitPending then AfterNext(procs, queued[1..])
    else queued[1..]
  }

  predicate Prepares(w: World, ok: bool, i: nat) {
    NextUp(w.procs, w.tracker.queued) == Some(i) && i < |w.procs| && w.procs[i].files == 1 && ok
  }

  lemma {:induction false} AfterNextSame(procs: seq<Proc>, queued: seq<nat>, i: nat, p: Proc)
    requires i < |procs| && p.exitPending == procs[i].exitPending
    ensures AfterNext(procs[i := p], queued) == AfterNext(procs, queued)
  {
    if queued != [] { AfterNextSame(procs, queued[1..], i, p); }
  }

  /** What popping does to the tracker and the content source. */
  ghost predicate PopsTo(w: World, ok: bool, n: ShellLaunch.Popped) {
    && n.world.tracker.queued == AfterNext(w.procs, w.tracker.queued)
    && n.world.tracker.tracking == w.tracker.tracking && n.world.tracker.attachLog == w.tracker.attachLog
    && (n.proc.Some? ==> Prepares(w, ok, n.proc.value))
    && (forall i: nat :: Prepares(w, ok, i) ==> n.proc == Some(i))
    && n.world.tracker.created == Ids(n.proc)
    && n.world.ecs == (if n.proc.Some? then n.proc else w.ecs)
  }

  lemma {:induction false} PopOutcome(w: World, ok: bool)
    requires Ok(w) && w.tracker.created == []
    ensures PopsTo(w, ok, PopQueued(w, ok))
    decreases |w.tracker.queued|
  {
    if w.tracker.queued != [] {
      var i := w.tracker.queued[0];
      SkipKeeps(w);
      assert i in w.tracker.queued;
      if w.procs[i].exitPending {
        var w1 := Change(w.(tracker := w.tracker.(queued := w.tracker.queued[1..])), i, Exited);
        SkippedSame(w, w1, ok, i);
        PopOutcome(w1, ok);
      }
    }
  }

  lemma SkippedSame(w: World, w1: World, ok: bool, i: nat)
    requires Ok(w) && w.tracker.queued != [] && i == w.tracker.queued[0] < |w.procs| && w.procs[i].exitPending
    requires i !in w.tracker.queued[1..] && w.tracker.created == []
    requires w1 == Change(w.(tracker := w.tracker.(queued := w.tracker.queued[1..])), i, Exited)
    ensures AfterNext(w1.procs, w1.tracker.queued) == AfterNext(w.procs, w.tracker.queued)
    ensures forall j: nat :: Prepares(w1, ok, j) <==> Prepares(w, ok, j)
    ensures w1.ecs == w.ecs
  {
    var p := ChangedProc(w.procs[i], Exited);
    AfterNextSame(w.procs, w.tracker.queued[1..], i, p);
    NextUpSame(w.procs, w.tracker.queued[1..], i, p);
    NextUpQueued(w.procs, w.tracker.queued[1..]);
    assert i in w.tracker.queued;
  }

  /**
   A launch attempt puts a process in limbo exactly when nothing is in limbo and it is the first queued one that was not
   killed, has exactly one module and its content source, and the kernel launches it: its pid is then tracked and its content
   source installed. The processes before it leave the queue.
   */
  lemma LaunchesExactly(w: World, ok: bool, launch: Option<nat>, i: nat)
    requires Ok(w) && OwingOk(w) && Enabled(w, TryEvent(ok, launch)) && w.tracker.created == []
    ensures var n := TryToLaunch(w, ok, launch);
            && (n.tracker.created == [i] <==> Prepares(w, ok, i) && launch.Some?)
            && (n.tracker.created == [i] ==> n.tracker.tracking == w.tracker.tracking[launch.value := i] && n.ecs == Some(i))
            && (n.tracker.created == [] ==> n.tracker.tracking == w.tracker.tracking && n.ecs == None)
            && n.tracker.queued == AfterNext(w.procs, w.tracker.queued)
  {
    PopOutcome(w, ok);
    PopKeeps(w, ok);
    TryKeeps(w, ok, launch);
    var popped := PopQueued(w, ok);
    if popped.proc.Some? && launch.None? { LimboCleared(popped.world, popped.proc.value); }
  }

  lemma LimboCleared(w: World, i: nat)
    requires Ok(w) && w.tracker.created == [i] && i < |w.procs| && w.ecs == Some(i) && w.procs[i].status == Started
    ensures Change(w, i, Exited).ecs == None && Change(w, i, Exited).tracker == w.tracker
  { }

  /** A process the kernel refuses to launch, or that was killed while it waited, exits with its request answered. */
  lemma NotLaunched(w: World, ok: bool, launch: Option<nat>, i: nat)
    requires Ok(w) && OwingOk(w) && Enabled(w, TryEvent(ok, launch)) && w.tracker.created == [] && i in w.tracker.queued
    ensures var n := TryToLaunch(w, ok, launch);
            i < |n.procs| && i !in n.tracker.queued && i !in n.tracker.created && !Drops(w, TryEvent(ok, launch), i) ==>
              n.procs[i].status == Exited && n.procs[i].opener == None
  {
    TryFate(w, ok, launch, i);
    TryKeeps(w, ok, launch);
    StaysStarted(w, ok, launch, i);
  }

  /** A launch attempt leaves each queued process as it is, or exited. */
  lemma StaysStarted(w: World, ok: bool, launch: Option<nat>, i: nat)
    requires Ok(w) && OwingOk(w) && Enabled(w, TryEvent(ok, launch)) && w.tracker.created == [] && i in w.tracker.queued
    ensures var p := TryToLaunch(w, ok, launch).procs;
            i < |p| && (p[i].status == Exited || (p[i].status == Started && !p[i].attached))
  {
    PopFate(w, ok, i);
    PopKeeps(w, ok);
    LaunchLeaves(PopQueued(w, ok), launch, i);
  }

  lemma LaunchLeaves(popped: ShellLaunch.Popped, launch: Option<nat>, i: nat)
    requires i < |popped.world.procs|
    ensures var p := LaunchPopped(popped, launch).procs; i < |p| && (p[i].status == Exited || p[i] == popped.world.procs[i])
  { }

  // ---------------------------------------------------------------- attaching, waiting and dying

  /** The process in limbo is attached: its request is answered, and its content source is not installed any more. */
  lemma AttachSeen(w: World)
    requires Ok(w) && Enabled(w, AttachEvent)
    ensures var i := w.tracker.created[0]; var n := AttachHost(w);
            && OthersKeep(w, n, i) && n.procs[i].status == Attached && n.procs[i].attached && n.procs[i].opener == None
            && n.ledger.answered == w.ledger.answered + Ids(w.procs[i].opener) && n.ledger.called == w.ledger.called
            && n.ecs == None && n.tracker == w.tracker.(created := [], attachLog := w.tracker.attachLog + [i])
  { }

  /** A shim that waits is let go at once, unless its process is to be suspended: then its callback is kept. */
  lemma WaitSeen(w: World, i: nat)
    requires i < |w.procs|
    ensures var id := w.ledger.nextCb; var n := WaitToStart(w, i); var p := w.procs[i];
            && OthersKeep(w, n, i) && n.ledger.nextCb == id + 1
            && (p.suspend ==> n.procs[i] == p.(status := ShimSuspended, cb := Some(id)) && n.ledger.called == w.ledger.called)
            && (!p.suspend ==> n.procs[i] == p.(status := Running) && n.ledger.called == w.ledger.called + [id])
            && n.ledger.answered == w.ledger.answered && n.tracker == w.tracker && n.ecs == w.ecs
  { }

  /** Continuing lets a suspended shim go, or sees to it that the shim will not be suspended. */
  lemma ContinueSeen(w: World, i: nat)
    requires i < |w.procs|
    ensures var n := Continue(w, i); var p := w.procs[i];
            && OthersKeep(w, n, i) && n.tracker == w.tracker && n.ecs == w.ecs && n.ledger.answered == w.ledger.answered
            && (p.status == ShimSuspended ==> n.procs[i] == p.(status := Running, cb := None))
            && (p.status != ShimSuspended ==> n.procs[i] == p.(suspend := false))
            && n.ledger.called == w.ledger.called + (if p.status == ShimSuspended then Ids(p.cb) else [])
  { }

  /**
   Killing ends a process that was not launched, marks one that was, and lets a suspended shim go; terminating does the same,
   but marks nothing. Other processes have to die by themselves.
   */
  lemma KillSeen(w: World, i: nat)
    requires i < |w.procs|
    ensures var n := Kill(w, i); var m := Terminate(w, i); var p := w.procs[i];
            && OthersKeep(w, n, i) && OthersKeep(w, m, i) && n.tracker == w.tracker == m.tracker
            && (p.status == Created ==> n.procs[i].status == Exited && m.procs[i].status == Exited)
            && (p.status == Started ==> n == w.(procs := n.procs) && n.procs[i] == p.(exitPending := true) && m == w)
            && (p.status == ShimSuspended ==> n.procs[i] == p.(cb := None) == m.procs[i])
            && (p.status == ShimSuspended ==> n.ledger.called == w.ledger.called + Ids(p.cb) == m.ledger.called)
            && (p.status == Attached || p.status == Running || p.status == Exited ==> n == w == m)
  { }

  /** A launch keeps the request, and suspends the process only if it is asked to or was already to be suspended. */
  lemma LaunchSeen(w: World, i: nat, suspended: bool)
    requires i < |w.procs| && w.procs[i].status == Created
    ensures var n := Launch(w, i, suspended); var id := w.ledger.nextLaunch;
            && OthersKeep(w, n, i) && n.procs[i].status == Started && n.procs[i].opener == Some(id)
            && n.procs[i].suspend == (w.procs[i].suspend || suspended) && n.procs[i].exitPending == w.procs[i].exitPending
            && n.procs[i].files == w.procs[i].files
            && n.tracker.queued == w.tracker.queued + [i] && n.tracker.created == w.tracker.created && n.ecs == w.ecs
            && n.ledger == w.ledger.(nextLaunch := id + 1)
  { }

  // ---------------------------------------------------------------- suspended launches

  predicate Unsuspends(w: World, e: Event, i: nat) {
    e == ContinueEvent(i) && i < |w.procs| && w.procs[i].status != ShimSuspended
  }

  /** Whether a process is to be suspended when its shim waits. */
  predicate ToSuspend(w: World, i: nat) { i < |w.procs| && w.procs[i].suspend }

  lemma {:induction false} PopSuspends(w: World, ok: bool, i: nat)
    requires i < |w.procs|
    ensures ToSuspend(PopQueued(w, ok).world, i) <==> ToSuspend(w, i)
    decreases |w.tracker.queued|
  {
    if w.tracker.queued != [] {
      var j := w.tracker.queued[0];
      var w1 := w.(tracker := w.tracker.(queued := w.tracker.queued[1..]));
      if j < |w1.procs| && w1.procs[j].exitPending { PopSuspends(Change(w1, j, Exited), ok, i); }
    }
  }

  lemma LaunchedSuspends(popped: ShellLaunch.Popped, launch: Option<nat>, i: nat)
    ensures ToSuspend(LaunchPopped(popped, launch), i) <==> ToSuspend(popped.world, i)
  { }

  lemma SuspendNext(w: World, e: Event, i: nat)
    requires Enabled(w, e)
    ensures ToSuspend(Step(w, e), i) <==> e == LaunchEvent(i, true) || (ToSuspend(w, i) && !Unsuspends(w, e, i))
  {
    match e {
      case TryEvent(ok, launch) =>
        TryCount(w, ok, launch);
        if i < |w.procs| { PopSuspends(w, ok, i); }
        LaunchedSuspends(PopQueued(w, ok), launch, i);
      case WaitEvent(j) => WaitSeen(w, j);
      case ContinueEvent(j) => ContinueSeen(w, j);
      case KillEvent(j) => KillSeen(w, j);
      case TerminateEvent(j) => KillSeen(w, j);
      case _ =>
    }
  }

  lemma SuspendLater(w: World, e: Event, n: World, i: nat)
    requires IsStep(w, e, n)
    ensures ToSuspend(n, i) <==> e == LaunchEvent(i, true) || (ToSuspend(w, i) && !Unsuspends(w, e, i))
  {
    SuspendNext(w, e, i);
  }

  /** Launched suspended, and not continued since but for when it was suspended. */
  ghost predicate SuspendedSince(states: seq<World>, events: seq<Event>, a: nat, k: nat, i: nat)
    requires k <= |events| && k <= |states|
  {
    a < k && events[a] == LaunchEvent(i, true) && forall b :: a < b < k ==> !Unsuspends(states[b], events[b], i)
  }

  ghost predicate StillSuspended(states: seq<World>, events: seq<Event>, k: nat, i: nat)
    requires k <= |events| && k <= |states|
  {
    exists a: nat :: SuspendedSince(states, events, a, k, i)
  }

  lemma SinceNext(states: seq<World>, events: seq<Event>, k: nat, i: nat)
    requires k < |events| && k < |states|
    ensures StillSuspended(states, events, k + 1, i) <==>
            events[k] == LaunchEvent(i, true) || (StillSuspended(states, events, k, i) && !Unsuspends(states[k], events[k], i))
  {
    if events[k] == LaunchEvent(i, true) { assert SuspendedSince(states, events, k, k + 1, i); }
    if StillSuspended(states, events, k, i) && !Unsuspends(states[k], events[k], i) {
      var a: nat :| SuspendedSince(states, events, a, k, i);
      assert SuspendedSince(states, events, a, k + 1, i);
    }
    if StillSuspended(states, events, k + 1, i) {
      var a: nat :| SuspendedSince(states, events, a, k + 1, i);
      if a < k { assert SuspendedSince(states, events, a, k, i); }
    }
  }

  lemma SinceInRun(states: seq<World>, events: seq<Event>, k: nat, i: nat)
    requires IsRun(states, events) && k < |events| && (ToSuspend(states[k], i) <==> StillSuspended(states, events, k, i))
    ensures ToSuspend(states[k + 1], i) <==> StillSuspended(states, events, k + 1, i)
  {
    SuspendLater(states[k], events[k], states[k + 1], i);
    SinceNext(states, events, k, i);
  }

  /**
   At every point of every run, a process is to be suspended when its shim waits exactly when it was launched suspended and
   was not continued since, other than out of a suspension.
   */
  lemma {:induction false} SuspendExactly(states: seq<World>, events: seq<Event>, k: nat, i: nat)
    requires IsRun(states, events) && k < |states|
    ensures ToSuspend(states[k], i) <==> StillSuspended(states, events, k, i)
    decreases k
  {
    if k > 0 {
      SuspendExactly(states, events, k - 1, i);
      SinceInRun(states, events, k - 1, i);
    }
  }

  // ---------------------------------------------------------------- processes killed while they wait

  /** Killed while it was queued: it leaves the queue only to exit. */
  predicate Doomed(w: World, i: nat) {
    && i < |w.procs| && i !in w.tracker.created && !w.procs[i].attached
    && ((i in w.tracker.queued && w.procs[i].exitPending) || (i !in w.tracker.queued && w.procs[i].status == Exited))
  }

  lemma {:induction false} NextUpAlive(procs: seq<Proc>, queued: seq<nat>)
    ensures var n := NextUp(procs, queued); n.Some? ==> n.value >= |procs| || !procs[n.value].exitPending
  {
    if queued != [] { NextUpAlive(procs, queued[1..]); }
  }

  lemma DoomedTry(w: World, ok: bool, launch: Option<nat>, i: nat)
    requires Ok(w) && OwingOk(w) && Enabled(w, TryEvent(ok, launch)) && Doomed(w, i)
    ensures Doomed(TryToLaunch(w, ok, launch), i)
  {
    if w.tracker.created == [] {
      NotChosen(w, ok, launch, i);
      TryFate(w, ok, launch, i);
      if i in w.tracker.queued {
        NextUpAlive(w.procs, w.tracker.queued);
        NotLaunched(w, ok, launch, i);
        StaysDoomed(w, ok, launch, i);
      } else {
        LaunchesExactly(w, ok, launch, i);
        AfterNextQueued(w.procs, w.tracker.queued);
      }
    }
  }

  lemma NotChosen(w: World, ok: bool, launch: Option<nat>, i: nat)
    requires Ok(w) && OwingOk(w) && Enabled(w, TryEvent(ok, launch)) && w.tracker.created == [] && Doomed(w, i)
    ensures i !in TryToLaunch(w, ok, launch).tracker.created
  {
    TryKeeps(w, ok, launch);
    LaunchesExactly(w, ok, launch, i);
    NotNext(w, ok, i);
    OnlyOne(TryToLaunch(w, ok, launch), i);
  }

  lemma NotNext(w: World, ok: bool, i: nat)
    requires Doomed(w, i)
    ensures !Prepares(w, ok, i)
  {
    NextUpAlive(w.procs, w.tracker.queued);
    NextUpQueued(w.procs, w.tracker.queued);
  }

  lemma OnlyOne(w: World, i: nat)
    requires Ok(w)
    ensures i in w.tracker.created ==> w.tracker.created == [i]
  { }

  lemma {:induction false} AfterNextQueued(procs: seq<Proc>, queued: seq<nat>)
    ensures forall i :: i in AfterNext(procs, queued) ==> i in queued
  {
    if queued != [] { AfterNextQueued(procs, queued[1..]); }
  }

  lemma StaysDoomed(w: World, ok: bool, launch: Option<nat>, i: nat)
    requires Ok(w) && OwingOk(w) && Enabled(w, TryEvent(ok, launch)) && w.tracker.created == []
    requires i in w.tracker.queued && w.procs[i].exitPending
    ensures var n := TryToLaunch(w, ok, launch);
            i < |n.procs| && !n.procs[i].attached && (i in n.tracker.queued ==> n.procs[i].exitPending)
  {
    PopFate(w, ok, i);
    PopKeeps(w, ok);
    TryKeeps(w, ok, launch);
    StillUnattached(w, ok, i);
    LaunchKeepsAttached(PopQueued(w, ok), launch, i);
  }

  lemma LaunchKeepsAttached(popped: ShellLaunch.Popped, launch: Option<nat>, i: nat)
    requires i < |popped.world.procs|
    ensures var p := LaunchPopped(popped, launch).procs;
            i < |p| && p[i].attached == popped.world.procs[i].attached && p[i].exitPending == popped.world.procs[i].exitPending
  { }

  lemma {:induction false} StillUnattached(w: World, ok: bool, i: nat)
    requires i < |w.procs|
    ensures var n := PopQueued(w, ok).world;
            i < |n.procs| && n.procs[i].attached == w.procs[i].attached && n.procs[i].exitPending == w.procs[i].exitPending
    decreases |w.tracker.queued|
  {
    if w.tracker.queued != [] {
      var j := w.tracker.queued[0];
      var w1 := w.(tracker := w.tracker.(queued := w.tracker.queued[1..]));
      if j < |w1.procs| && w1.procs[j].exitPending { StillUnattached(Change(w1, j, Exited), ok, i); }
    }
  }

  lemma DoomedNext(w: World, e: Event, i: nat)
    requires Ok(w) && OwingOk(w) && Enabled(w, e) && Doomed(w, i)
    ensures Doomed(Step(w, e), i)
  {
    PlaceOf(w.procs, w.tracker, i);
    match e {
      case TryEvent(ok, launch) => DoomedTry(w, ok, launch, i);
      case AttachEvent => AttachSeen(w);
      case ExitedEvent(pid) => if pid in w.tracker.tracking { ExitSeen(w, pid); assert IsTracked(w.tracker, w.tracker.tracking[pid]); }
      case WaitEvent(j) => WaitSeen(w, j);
      case ContinueEvent(j) => ContinueSeen(w, j);
      case KillEvent(j) => KillSeen(w, j);
      case TerminateEvent(j) => KillSeen(w, j);
      case LaunchEvent(j, suspended) => LaunchSeen(w, j, suspended);
      case _ =>
    }
  }

  /** A process killed while it is queued is never launched or attached: it waits in the queue, or has exited. */
  lemma {:induction false} KilledNeverLaunched(states: seq<World>, events: seq<Event>, j: nat, k: nat, i: nat)
    requires IsRun(states, events) && j < k < |states| && events[j] == KillEvent(i) && i in states[j].tracker.queued
    ensures Doomed(states[k], i)
    decreases k
  {
    if k == j + 1 {
      FirstDoomed(states, events, j, i);
    } else {
      KilledNeverLaunched(states, events, j, k - 1, i);
      LaterDoomed(states, events, k - 1, i);
    }
  }

  lemma FirstDoomed(states: seq<World>, events: seq<Event>, j: nat, i: nat)
    requires IsRun(states, events) && j + 1 < |states| && events[j] == KillEvent(i) && i in states[j].tracker.queued
    ensures Doomed(states[j + 1], i)
  {
    RunOwing(states, events, j);
    KilledDoomed(states[j], events[j], states[j + 1], i);
  }

  lemma LaterDoomed(states: seq<World>, events: seq<Event>, k: nat, i: nat)
    requires IsRun(states, events) && k + 1 < |states| && Doomed(states[k], i)
    ensures Doomed(states[k + 1], i)
  {
    RunOwing(states, events, k);
    StillDoomed(states[k], events[k], states[k + 1], i);
  }

  lemma KilledDoomed(w: World, e: Event, n: World, i: nat)
    requires Ok(w) && IsStep(w, e, n) && e == KillEvent(i) && i in w.tracker.queued
    ensures Doomed(n, i)
  {
    KillSeen(w, i);
    QueuedNotLimbo(w, i);
  }

  lemma StillDoomed(w: World, e: Event, n: World, i: nat)
    requires Ok(w) && OwingOk(w) && IsStep(w, e, n) && Doomed(w, i)
    ensures Doomed(n, i)
  {
    DoomedNext(w, e, i);
  }

  lemma QueuedNotLimbo(w: World, i: nat)
    requires Ok(w) && i in w.tracker.queued
    ensures i !in w.tracker.created
  {
    if i in w.tracker.created {
      assert w.tracker.created == [i];
      NotBoth(w.procs, w.tracker, i);
    }
  }

  // ---------------------------------------------------------------- content sources

  /**
   A content source is only ever installed when there is none, for the process put in limbo, and only ever goes away when the
   process it was installed for is attached or exits.
   */
  lemma SourceMoves(w: World, e: Event, i: nat)
    requires Ok(w) && OwingOk(w) && Enabled(w, e)
    ensures var n := Step(w, e);
            n.ecs == Some(i) && w.ecs != Some(i) ==> w.ecs == None && e.TryEvent? && n.tracker.created == [i] && w.tracker.created == []
    ensures var n := Step(w, e);
            w.ecs == Some(i) && n.ecs != Some(i) ==>
              n.ecs == None && i < |n.procs| && (n.procs[i].status == Attached || n.procs[i].status == Exited)
  {
    match e {
      case TryEvent(ok, launch) =>
        if w.tracker.created == [] {
          LaunchesExactly(w, ok, launch, i);
          TryKeeps(w, ok, launch);
        }
      case AttachEvent => AttachSeen(w);
      case ExitedEvent(pid) => if pid in w.tracker.tracking { ExitSeen(w, pid); }
      case KillEvent(j) => KillSource(w, j);
      case TerminateEvent(j) => KillSource(w, j);
      case ContinueEvent(j) => ContinueSeen(w, j);
      case WaitEvent(j) => WaitSeen(w, j);
      case LaunchEvent(j, suspended) => LaunchSeen(w, j, suspended);
      case CreateEvent(_) =>
    }
  }

  lemma KillSource(w: World, j: nat)
    requires Ok(w) && j < |w.procs|
    ensures Kill(w, j).ecs == w.ecs && Terminate(w, j).ecs == w.ecs
  {
    PlaceOf(w.procs, w.tracker, j);
  }
}
