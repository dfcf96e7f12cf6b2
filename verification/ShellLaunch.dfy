/**
 Launching shell processes: the tracker's queue, the one process in limbo between launch and attach, the external content
 source that process holds, and the answers each process owes. Processes are named by their places in `procs`.
 */
module ShellLaunch {
  import opened Common
  import opened Totals

  datatype Status = Created | Started | Attached | ShimSuspended | Running | Exited

  /**
   `opener` is the launch request still to be answered, `cb` the shim's callback while it is suspended, `attached` tells
   whether a kernel process was attached, `ticket` is the place in the launch queue.
   */
  datatype Proc = Proc(status: Status, opener: Option<nat>, exitPending: bool, ecsPending: bool, suspend: bool, cb: Option<nat>,
                       attached: bool, ticket: nat, files: nat)

  datatype Tracker = Tracker(queued: seq<nat>, created: seq<nat>, tracking: map<nat, nat>, attachLog: seq<nat>, nextTicket: nat)

  /** Launch requests answered and callbacks called so far; requests and callbacks are numbered as they come. */
  datatype Ledger = Ledger(answered: seq<nat>, called: seq<nat>, nextLaunch: nat, nextCb: nat)

  /**
   `ecs` is the process whose content source is installed for the title; `fault` tells that one was installed over
   another, or cleared without being there; `crashed` that an empty callback was called.
   */
  datatype World = World(procs: seq<Proc>, tracker: Tracker, ecs: Option<nat>, ledger: Ledger, fault: bool, crashed: bool)

  // ---------------------------------------------------------------- one process

  /**
   A process changes its state: exiting lets go of its suspended shim and clears a content source still installed for it,
   attaching uses the content source up, and both answer the launch request.
   */
  function ChangedProc(p: Proc, s: Status): Proc {
    p.(status := s, cb := if s == Exited then None else p.cb, ecsPending := s != Attached && p.ecsPending,
       opener := if s == Attached || s == Exited then None else p.opener)
  }

  function ChangedLedger(l: Ledger, p: Proc, s: Status): Ledger {
    l.(called := if s == Exited && p.cb.Some? then l.called + [p.cb.value] else l.called,
       answered := if (s == Attached || s == Exited) && p.opener.Some? then l.answered + [p.opener.value] else l.answered)
  }

  function ChangedEcs(w: World, i: nat, s: Status): Option<nat>
    requires i < |w.procs|
  {
    if s == Attached then if w.ecs == Some(i) then None else w.ecs
    else if s == Exited && w.procs[i].ecsPending then None
    else w.ecs
  }

  /** An exit clears a content source that is not the process's own. */
  predicate ClearsWrongly(w: World, i: nat, s: Status)
    requires i < |w.procs|
  {
    s == Exited && w.procs[i].ecsPending && w.ecs != Some(i)
  }

  function Change(w: World, i: nat, s: Status): World
    requires i < |w.procs|
  {
    World(w.procs[i := ChangedProc(w.procs[i], s)], w.tracker, ChangedEcs(w, i, s), ChangedLedger(w.ledger, w.procs[i], s),
          w.fault || ClearsWrongly(w, i, s), w.crashed)
  }

  /** Calls the suspended shim's callback, if there is one. */
  function CallBack(w: World, i: nat): World
    requires i < |w.procs|
  {
    var p := w.procs[i];
    if p.cb.None? then w.(crashed := true)
    else w.(procs := w.procs[i := p.(cb := None)], ledger := w.ledger.(called := w.ledger.called + [p.cb.value]))
  }

  function Continue(w: World, i: nat): World
    requires i < |w.procs|
  {
    if w.procs[i].status == ShimSuspended then CallBack(Change(w, i, Running), i)
    else w.(procs := w.procs[i := w.procs[i].(suspend := false)])
  }

  /** The shim waits to start: at once, or when the process is continued or dies. */
  function WaitToStart(w: World, i: nat): World
    requires i < |w.procs|
  {
    var id := w.ledger.nextCb;
    var w1 := w.(ledger := w.ledger.(nextCb := id + 1));
    if w.procs[i].suspend then
      var w2 := Change(w1, i, ShimSuspended);
      w2.(procs := w2.procs[i := w2.procs[i].(cb := Some(id))])
    else
      var w2 := Change(w1, i, Running);
      w2.(ledger := w2.ledger.(called := w2.ledger.called + [id]))
  }

  /** Kernel termination shows up as an exit event later. */
  function Terminate(w: World, i: nat): World
    requires i < |w.procs|
  {
    if w.procs[i].status == Created then Change(w, i, Exited)
    else if w.procs[i].status == ShimSuspended then CallBack(w, i)
    else w
  }

  function Kill(w: World, i: nat): World
    requires i < |w.procs|
  {
    match w.procs[i].status
    case Created => Change(w, i, Exited)
    case Started => w.(procs := w.procs[i := w.procs[i].(exitPending := true)])
    case ShimSuspended => CallBack(w, i)
    case _ => w
  }

  // ---------------------------------------------------------------- the tracker

  function Launch(w: World, i: nat, suspended: bool): World
    requires i < |w.procs|
  {
    var p := w.procs[i].(opener := Some(w.ledger.nextLaunch), suspend := w.procs[i].suspend || suspended,
                         ticket := w.tracker.nextTicket);
    var w1 := w.(procs := w.procs[i := p], ledger := w.ledger.(nextLaunch := w.ledger.nextLaunch + 1));
    var w2 := Change(w1, i, Started);
    w2.(tracker := w2.tracker.(queued := w2.tracker.queued + [i], nextTicket := w2.tracker.nextTicket + 1))
  }

  /** The result of `PopQueuedProcess`: a process put in limbo, or none. */
  datatype Popped = Popped(world: World, proc: Option<nat>)

  /** Installs the content source of a process with exactly one module, if the services allow it. */
  function Install(w: World, i: nat, ok: bool): Popped
    requires i < |w.procs|
  {
    if w.procs[i].files != 1 || !ok then Popped(w, None)
    else
      var w1 := w.(procs := w.procs[i := w.procs[i].(ecsPending := true)], ecs := Some(i), fault := w.fault || w.ecs.Some?,
                   tracker := w.tracker.(created := w.tracker.created + [i]));
      Popped(w1, Some(i))
  }

  /** Skips the processes that were killed while they waited; a process that cannot be prepared is dropped. */
  function PopQueued(w: World, ok: bool): Popped
    decreases |w.tracker.queued|
  {
    if w.tracker.queued == [] then Popped(w, None)
    else
      var i := w.tracker.queued[0];
      var w1 := w.(tracker := w.tracker.(queued := w.tracker.queued[1..]));
      if i >= |w1.procs| then Popped(w1, None)
      else if w1.procs[i].exitPending then
        var w2 := Change(w1, i, Exited);
        PopQueued(w2, ok)
      else Install(w1, i, ok)
  }

  /** Launches the process put in limbo; `launch` is the pid of the launched program, or a failure. */
  function LaunchPopped(popped: Popped, launch: Option<nat>): World {
    if popped.proc.None? || popped.proc.value >= |popped.world.procs| then popped.world
    else
      var i := popped.proc.value;
      var w1 := popped.world;
      if launch.Some? then
        var tracking := w1.tracker.tracking;
        w1.(tracker := w1.tracker.(tracking := if launch.value in tracking then tracking else tracking[launch.value := i]))
      else
        var w2 := Change(w1, i, Exited);
        w2.(tracker := w2.tracker.(created := []))
  }

  function TryToLaunch(w: World, ok: bool, launch: Option<nat>): World {
    if w.tracker.created != [] then w else LaunchPopped(PopQueued(w, ok), launch)
  }

  function AttachHost(w: World): World
    requires w.tracker.created != [] && w.tracker.created[0] < |w.procs|
  {
    var i := w.tracker.created[0];
    var w1 := w.(procs := w.procs[i := w.procs[i].(attached := true)],
                 tracker := w.tracker.(created := w.tracker.created[1..], attachLog := w.tracker.attachLog + [i]));
    Change(w1, i, Attached)
  }

  function ExitEvent(w: World, pid: nat): World {
    if pid !in w.tracker.tracking || w.tracker.tracking[pid] >= |w.procs| then w
    else
      var i := w.tracker.tracking[pid];
      var w1 := Change(w, i, Exited);
      w1.(tracker := w1.tracker.(tracking := w1.tracker.tracking - {pid}))
  }

  // ---------------------------------------------------------------- runs

  datatype Event =
    | CreateEvent(files: nat)
    | LaunchEvent(i: nat, suspended: bool)
    | TryEvent(ok: bool, launch: Option<nat>)
    | AttachEvent
    | ExitedEvent(pid: nat)
    | KillEvent(i: nat)
    | TerminateEvent(i: nat)
    | ContinueEvent(i: nat)
    | WaitEvent(i: nat)

  /**
   Only a created process is launched, the kernel's pids are new, a kernel process attaches only if one was asked for,
   and only the shim of a live process waits.
   */
  ghost predicate Enabled(w: World, e: Event) {
    match e
    case CreateEvent(_) => true
    case LaunchEvent(i, _) => i < |w.procs| && w.procs[i].status == Created
    case TryEvent(_, launch) => launch.Some? ==> launch.value !in w.tracker.tracking
    case AttachEvent => w.tracker.created != [] && w.tracker.created[0] < |w.procs|
    case ExitedEvent(_) => true
    case WaitEvent(i) => i < |w.procs| && w.procs[i].attached && w.procs[i].status != Exited
    case KillEvent(i) => i < |w.procs|
    case TerminateEvent(i) => i < |w.procs|
    case ContinueEvent(i) => i < |w.procs|
  }

  ghost function Step(w: World, e: Event): World
    requires Enabled(w, e)
  {
    match e
    case CreateEvent(files) => w.(procs := w.procs + [Proc(Created, None, false, false, false, None, false, 0, files)])
    case LaunchEvent(i, suspended) => Launch(w, i, suspended)
    case TryEvent(ok, launch) => TryToLaunch(w, ok, launch)
    case AttachEvent => AttachHost(w)
    case ExitedEvent(pid) => ExitEvent(w, pid)
    case KillEvent(i) => Kill(w, i)
    case TerminateEvent(i) => Terminate(w, i)
    case ContinueEvent(i) => Continue(w, i)
    case WaitEvent(i) => WaitToStart(w, i)
  }

  // ---------------------------------------------------------------- answers and callbacks

  function Count(ids: seq<nat>, id: nat): nat {
    if ids == [] then 0 else Count(ids[..|ids| - 1], id) + (if ids[|ids| - 1] == id then 1 else 0)
  }

  function B(b: bool): int { if b then 1 else 0 }

  function Owes(id: nat): Proc -> int { (p: Proc) => B(p.opener == Some(id)) }

  function Waits(id: nat): Proc -> int { (p: Proc) => B(p.cb == Some(id)) }

  /** A launch request is owed by one process or answered, once; a callback is held by at most one process or was called. */
  ghost predicate Balanced(procs: seq<Proc>, l: Ledger, id: nat) {
    && Count(l.answered, id) + Total(procs, Owes(id)) == B(id < l.nextLaunch)
    && Count(l.called, id) + Total(procs, Waits(id)) <= B(id < l.nextCb)
  }

  ghost predicate Books(w: World, id: nat) { Balanced(w.procs, w.ledger, id) }

  lemma CountSnoc(ids: seq<nat>, x: nat, id: nat)
    ensures Count(ids + [x], id) == Count(ids, id) + (if x == id then 1 else 0)
  { }

  /** Replacing one process changes the books by what it owed and what it owes now. */
  lemma BooksUpdate(procs: seq<Proc>, i: nat, p: Proc, id: nat)
    requires i < |procs|
    ensures Total(procs[i := p], Owes(id)) == Total(procs, Owes(id)) - Owes(id)(procs[i]) + Owes(id)(p)
    ensures Total(procs[i := p], Waits(id)) == Total(procs, Waits(id)) - Waits(id)(procs[i]) + Waits(id)(p)
  {
    TotalUpdate(procs, i, p, Owes(id));
    TotalUpdate(procs, i, p, Waits(id));
  }

  lemma ChangedBalanced(procs: seq<Proc>, l: Ledger, i: nat, s: Status, id: nat)
    requires i < |procs| && Balanced(procs, l, id)
    ensures Balanced(procs[i := ChangedProc(procs[i], s)], ChangedLedger(l, procs[i], s), id)
  {
    var p := procs[i];
    BooksUpdate(procs, i, ChangedProc(p, s), id);
    ChangedCounts(l, p, s, id);
  }

  /** What a process no longer owes has been answered, and what it no longer holds was called. */
  lemma ChangedCounts(l: Ledger, p: Proc, s: Status, id: nat)
    ensures Count(ChangedLedger(l, p, s).answered, id) + Owes(id)(ChangedProc(p, s)) == Count(l.answered, id) + Owes(id)(p)
    ensures Count(ChangedLedger(l, p, s).called, id) + Waits(id)(ChangedProc(p, s)) == Count(l.called, id) + Waits(id)(p)
  {
    AddedCount(l.answered, if s == Attached || s == Exited then p.opener else None, id);
    AddedCount(l.called, if s == Exited then p.cb else None, id);
  }

  lemma AddedCount(ids: seq<nat>, x: Option<nat>, id: nat)
    ensures Count(if x.Some? then ids + [x.value] else ids, id) == Count(ids, id) + B(x == Some(id))
  {
    if x.Some? { CountSnoc(ids, x.value, id); }
  }

  lemma ChangeBooks(w: World, i: nat, s: Status, id: nat)
    requires i < |w.procs| && Books(w, id)
    ensures Books(Change(w, i, s), id)
  {
    ChangedBalanced(w.procs, w.ledger, i, s, id);
  }

  lemma CallBackBooks(w: World, i: nat, id: nat)
    requires i < |w.procs| && Books(w, id)
    ensures Books(CallBack(w, i), id)
  {
    var p := w.procs[i];
    if p.cb.Some? {
      BooksUpdate(w.procs, i, p.(cb := None), id);
      CountSnoc(w.ledger.called, p.cb.value, id);
    }
  }

  lemma SameBooks(w: World, i: nat, p: Proc, id: nat)
    requires i < |w.procs| && Books(w, id) && p.opener == w.procs[i].opener && p.cb == w.procs[i].cb
    ensures Books(w.(procs := w.procs[i := p]), id)
  {
    BooksUpdate(w.procs, i, p, id);
  }

  /** The process and the ledger when a launch request comes in, before the change of state. */
  lemma LaunchedBalanced(procs: seq<Proc>, l: Ledger, i: nat, p: Proc, id: nat)
    requires i < |procs| && Balanced(procs, l, id) && procs[i].opener == None
    requires p.opener == Some(l.nextLaunch) && p.cb == procs[i].cb
    ensures Balanced(procs[i := p], l.(nextLaunch := l.nextLaunch + 1), id)
  {
    BooksUpdate(procs, i, p, id);
  }

  lemma LaunchBooks(w: World, i: nat, suspended: bool, id: nat)
    requires i < |w.procs| && Books(w, id) && w.procs[i].opener == None
    ensures Books(Launch(w, i, suspended), id)
  {
    var p := w.procs[i].(opener := Some(w.ledger.nextLaunch), suspend := w.procs[i].suspend || suspended,
                         ticket := w.tracker.nextTicket);
    var l := w.ledger.(nextLaunch := w.ledger.nextLaunch + 1);
    LaunchedBalanced(w.procs, w.ledger, i, p, id);
    ChangedBalanced(w.procs[i := p], l, i, Started, id);
    var n := Launch(w, i, suspended);
    assert n.procs == w.procs[i := p][i := ChangedProc(p, Started)] && n.ledger == ChangedLedger(l, p, Started);
  }

  /** The shim's callback is kept, in place of any older one, or called. */
  lemma KeptBalanced(procs: seq<Proc>, l: Ledger, i: nat, p: Proc, id: nat)
    requires i < |procs| && Balanced(procs, l, id) && p.opener == procs[i].opener
    ensures p.cb == Some(l.nextCb) ==> Balanced(procs[i := p], l.(nextCb := l.nextCb + 1), id)
    ensures p.cb == procs[i].cb ==> Balanced(procs[i := p], l.(nextCb := l.nextCb + 1, called := l.called + [l.nextCb]), id)
  {
    TotalBounds(procs, Waits(id));
    TotalBounds(procs[i := p], Waits(id));
    BooksUpdate(procs, i, p, id);
    CountSnoc(l.called, l.nextCb, id);
  }

  lemma WaitBooks(w: World, i: nat, id: nat)
    requires i < |w.procs| && Books(w, id)
    ensures Books(WaitToStart(w, i), id)
  {
    var w1 := w.(ledger := w.ledger.(nextCb := w.ledger.nextCb + 1));
    var s := if w.procs[i].suspend then ShimSuspended else Running;
    var p := ChangedProc(w.procs[i], s);
    assert w.procs[i := p][i := p.(cb := Some(w.ledger.nextCb))] == w.procs[i := p.(cb := Some(w.ledger.nextCb))];
    if w.procs[i].suspend {
      KeptBalanced(w.procs, w.ledger, i, p.(cb := Some(w.ledger.nextCb)), id);
    } else {
      KeptBalanced(w.procs, w.ledger, i, p, id);
    }
  }

  lemma {:induction false} PopBooks(w: World, ok: bool, id: nat)
    requires Books(w, id)
    ensures Books(PopQueued(w, ok).world, id)
    decreases |w.tracker.queued|
  {
    if w.tracker.queued != [] {
      var i := w.tracker.queued[0];
      var w1 := w.(tracker := w.tracker.(queued := w.tracker.queued[1..]));
      if i < |w1.procs| {
        if w1.procs[i].exitPending {
          ChangeBooks(w1, i, Exited, id);
          PopBooks(Change(w1, i, Exited), ok, id);
        } else {
          SameBooks(w1, i, w1.procs[i].(ecsPending := true), id);
        }
      }
    }
  }

  // ---------------------------------------------------------------- queue, limbo and content source

  /** Every process that was launched and not dropped, in the order it attached, then the one in limbo, then the queue. */
  function Line(t: Tracker): seq<nat> { t.attachLog + t.created + t.queued }

  ghost predicate InOrder(procs: seq<Proc>, line: seq<nat>, nextTicket: nat) {
    && (forall k :: 0 <= k < |line| ==> line[k] < |procs| && procs[line[k]].ticket < nextTicket)
    && (forall a, b :: 0 <= a < b < |line| ==> procs[line[a]].ticket < procs[line[b]].ticket)
  }

  /** What a process is, by its place. */
  ghost predicate QueuedOk(p: Proc) { p.status == Started && !p.attached && !p.ecsPending }

  ghost predicate CreatedOk(p: Proc) { (p.status == Started || p.status == Exited) && !p.attached }

  ghost predicate ProcOk(p: Proc) {
    && (p.status == Created ==> !p.attached && !p.ecsPending && p.opener == None)
    && (p.attached ==> !p.ecsPending)
  }

  ghost predicate Alive(p: Proc) { p.status != Created && p.status != Exited }

  ghost predicate IsTracked(t: Tracker, i: nat) { exists pid :: pid in t.tracking && t.tracking[pid] == i }

  ghost predicate PlacesOk(procs: seq<Proc>, t: Tracker) {
    && (forall i :: i in t.queued ==> i < |procs| && QueuedOk(procs[i]) && !IsTracked(t, i))
    && (forall i :: i in t.created ==> i < |procs| && CreatedOk(procs[i]))
    && (forall i :: i in t.attachLog ==> i < |procs| && procs[i].attached)
    && (forall pid :: pid in t.tracking ==> t.tracking[pid] < |procs| && Alive(procs[t.tracking[pid]]))
    && (forall a, b :: a in t.tracking && b in t.tracking && t.tracking[a] == t.tracking[b] ==> a == b)
  }

  ghost predicate TrackerOk(procs: seq<Proc>, t: Tracker) {
    && |t.created| <= 1 && InOrder(procs, Line(t), t.nextTicket) && PlacesOk(procs, t)
    && forall i :: 0 <= i < |procs| ==> ProcOk(procs[i])
  }

  /** A content source is installed only for the process in limbo, and that process knows. */
  ghost predicate EcsOk(procs: seq<Proc>, created: seq<nat>, ecs: Option<nat>) {
    && (ecs.Some? ==> created == [ecs.value] && ecs.value < |procs| && procs[ecs.value].ecsPending)
    && (forall i :: 0 <= i < |procs| && procs[i].ecsPending && procs[i].status != Exited ==> ecs == Some(i))
  }

  ghost predicate Ok(w: World) {
    TrackerOk(w.procs, w.tracker) && EcsOk(w.procs, w.tracker.created, w.ecs) && !w.fault
  }

  lemma InLine(t: Tracker, i: nat)
    ensures i in Line(t) <==> i in t.attachLog || i in t.created || i in t.queued
  { }

  /** A process may change as its place allows, if it keeps its ticket and whether it is attached. */
  lemma UpdateKeeps(procs: seq<Proc>, t: Tracker, i: nat, p: Proc)
    requires TrackerOk(procs, t) && i < |procs| && ProcOk(p)
    requires p.ticket == procs[i].ticket && p.attached == procs[i].attached
    requires i in t.queued ==> p.status == Started && !p.ecsPending
    requires i in t.created ==> p.status == Started || p.status == Exited
    requires IsTracked(t, i) ==> Alive(p)
    ensures TrackerOk(procs[i := p], t)
  {
    forall pid | pid in t.tracking ensures t.tracking[pid] < |procs| && Alive(procs[i := p][t.tracking[pid]]) {
      if t.tracking[pid] == i { assert IsTracked(t, i); }
    }
  }

  lemma EcsUpdate(procs: seq<Proc>, created: seq<nat>, ecs: Option<nat>, i: nat, p: Proc)
    requires EcsOk(procs, created, ecs) && i < |procs| && p.ecsPending == procs[i].ecsPending
    requires procs[i].status == Exited ==> p.status == Exited || !p.ecsPending
    ensures EcsOk(procs[i := p], created, ecs)
  { }

  /** A live process exits: its content source, if it is still installed, is its own and is cleared. */
  lemma ExitKeeps(w: World, i: nat)
    requires EcsOk(w.procs, w.tracker.created, w.ecs) && i < |w.procs| && w.procs[i].status != Exited && !w.fault
    ensures !ClearsWrongly(w, i, Exited)
    ensures var n := Change(w, i, Exited); EcsOk(n.procs, w.tracker.created, n.ecs) && !n.fault
  {
  }

  /** Where a process of some status can be. */
  lemma PlaceOf(procs: seq<Proc>, t: Tracker, i: nat)
    requires TrackerOk(procs, t) && i < |procs|
    ensures procs[i].status == Created ==> i !in Line(t) && !IsTracked(t, i)
    ensures procs[i].attached ==> i !in t.queued && i !in t.created
    ensures procs[i].status == ShimSuspended ==> i !in t.queued && i !in t.created
    ensures procs[i].status == Exited ==> !IsTracked(t, i)
  { }

  lemma CallBackKeeps(w: World, i: nat)
    requires Ok(w) && i < |w.procs|
    ensures Ok(CallBack(w, i))
  {
    var p := w.procs[i];
    if p.cb.Some? { SameKeeps(w, i, p.(cb := None)); }
  }

  /** Changes to a process that the tracker does not look at. */
  lemma SameKeeps(w: World, i: nat, p: Proc)
    requires Ok(w) && i < |w.procs|
    requires p.status == w.procs[i].status && p.opener == w.procs[i].opener && p.ecsPending == w.procs[i].ecsPending
    requires p.attached == w.procs[i].attached && p.ticket == w.procs[i].ticket
    ensures TrackerOk(w.procs[i := p], w.tracker) && EcsOk(w.procs[i := p], w.tracker.created, w.ecs)
  {
    PlaceOf(w.procs, w.tracker, i);
    UpdateKeeps(w.procs, w.tracker, i, p);
    EcsUpdate(w.procs, w.tracker.created, w.ecs, i, p);
  }

  lemma KillKeeps(w: World, i: nat)
    requires Ok(w) && i < |w.procs|
    ensures Ok(Kill(w, i)) && Ok(Terminate(w, i))
  {
    PlaceOf(w.procs, w.tracker, i);
    InLine(w.tracker, i);
    match w.procs[i].status {
      case Created =>
        ExitKeeps(w, i);
        UpdateKeeps(w.procs, w.tracker, i, ChangedProc(w.procs[i], Exited));
      case Started => SameKeeps(w, i, w.procs[i].(exitPending := true));
      case ShimSuspended => CallBackKeeps(w, i);
      case _ =>
    }
  }

  /** A process that is neither queued nor in limbo moves between running states. */
  lemma RunKeeps(w: World, i: nat, s: Status)
    requires Ok(w) && i < |w.procs| && w.procs[i].status != Exited && w.procs[i].status != Created
    requires i !in w.tracker.queued && i !in w.tracker.created && (s == Running || s == ShimSuspended)
    ensures Ok(Change(w, i, s))
  {
    UpdateKeeps(w.procs, w.tracker, i, ChangedProc(w.procs[i], s));
    EcsUpdate(w.procs, w.tracker.created, w.ecs, i, ChangedProc(w.procs[i], s));
  }

  lemma ContinueKeeps(w: World, i: nat)
    requires Ok(w) && i < |w.procs|
    ensures Ok(Continue(w, i))
  {
    PlaceOf(w.procs, w.tracker, i);
    if w.procs[i].status == ShimSuspended {
      RunKeeps(w, i, Running);
      CallBackKeeps(Change(w, i, Running), i);
    } else {
      SameKeeps(w, i, w.procs[i].(suspend := false));
    }
  }

  lemma WaitKeeps(w: World, i: nat)
    requires Ok(w) && Enabled(w, WaitEvent(i))
    ensures Ok(WaitToStart(w, i))
  {
    PlaceOf(w.procs, w.tracker, i);
    var w1 := w.(ledger := w.ledger.(nextCb := w.ledger.nextCb + 1));
    if w.procs[i].suspend {
      RunKeeps(w1, i, ShimSuspended);
      var w2 := Change(w1, i, ShimSuspended);
      SameKeeps(w2, i, w2.procs[i].(cb := Some(w.ledger.nextCb)));
    } else {
      RunKeeps(w1, i, Running);
    }
  }

  lemma ExitedKeeps(w: World, pid: nat)
    requires Ok(w)
    ensures Ok(ExitEvent(w, pid))
  {
    if pid in w.tracker.tracking {
      var i := w.tracker.tracking[pid];
      var t := w.tracker.(tracking := w.tracker.tracking - {pid});
      assert IsTracked(w.tracker, i);
      forall j | IsTracked(t, j) ensures IsTracked(w.tracker, j) && j != i {
        var other :| other in t.tracking && t.tracking[other] == j;
        assert other in w.tracker.tracking && w.tracker.tracking[other] == j;
      }
      assert PlacesOk(w.procs, t);
      assert Line(t) == Line(w.tracker);
      ExitKeeps(w, i);
      UpdateKeeps(w.procs, t, i, ChangedProc(w.procs[i], Exited));
    }
  }

  lemma CreateKeeps(w: World, p: Proc)
    requires Ok(w) && p.status == Created && ProcOk(p)
    ensures Ok(w.(procs := w.procs + [p]))
  {
  }

  lemma LaunchKeeps(w: World, i: nat, suspended: bool)
    requires Ok(w) && i < |w.procs| && w.procs[i].status == Created
    ensures Ok(Launch(w, i, suspended))
  {
    PlaceOf(w.procs, w.tracker, i);
    InLine(w.tracker, i);
    var n := Launch(w, i, suspended);
    var p := n.procs[i];
    assert n.procs == w.procs[i := p] && p.ticket == w.tracker.nextTicket && QueuedOk(p);
    assert Line(n.tracker) == Line(w.tracker) + [i];
    forall k | 0 <= k < |Line(w.tracker)| ensures n.procs[Line(w.tracker)[k]] == w.procs[Line(w.tracker)[k]] {
      assert Line(w.tracker)[k] in Line(w.tracker);
    }
    LaunchedPlaces(w.procs, w.tracker, n.tracker, i, p);
  }

  lemma LaunchedPlaces(procs: seq<Proc>, t: Tracker, n: Tracker, i: nat, p: Proc)
    requires PlacesOk(procs, t) && i < |procs| && QueuedOk(p) && n == t.(queued := t.queued + [i], nextTicket := n.nextTicket)
    requires i !in Line(t) && !IsTracked(t, i)
    ensures PlacesOk(procs[i := p], n)
  {
    InLine(t, i);
    forall j | IsTracked(n, j) ensures IsTracked(t, j) {
      var pid :| pid in n.tracking && n.tracking[pid] == j;
      assert t.tracking[pid] == j;
    }
    forall pid | pid in n.tracking ensures n.tracking[pid] != i {
      assert IsTracked(t, t.tracking[pid]);
    }
  }

  // ---------------------------------------------------------------- launching and attaching

  /** Taking the head off the queue. */
  lemma PopHead(procs: seq<Proc>, t: Tracker)
    requires TrackerOk(procs, t) && t.queued != []
    ensures t.queued[0] < |procs| && QueuedOk(procs[t.queued[0]])
    ensures var n := t.(queued := t.queued[1..]);
            TrackerOk(procs, n) && t.queued[0] !in Line(n) && !IsTracked(n, t.queued[0])
  {
    var n := t.(queued := t.queued[1..]);
    var i := t.queued[0];
    var at := |t.attachLog + t.created|;
    assert Line(t)[at] == i;
    forall k | 0 <= k < |Line(n)| ensures Line(n)[k] == Line(t)[if k < at then k else k + 1] && Line(n)[k] != i {
      if k < at { assert Line(t)[k] == Line(n)[k]; } else { assert Line(t)[k + 1] == Line(n)[k]; }
    }
    assert i in t.queued;
    forall j | IsTracked(n, j) ensures IsTracked(t, j) {
      var pid :| pid in n.tracking && n.tracking[pid] == j;
      assert t.tracking[pid] == j;
    }
    assert forall j :: j in n.queued ==> j in t.queued;
  }

  lemma InstallKeeps(w: World, i: nat, ok: bool)
    requires Ok(w) && w.tracker.created == [] && w.tracker.attachLog + [i] + w.tracker.queued == Line(w.tracker.(created := [i]))
    requires i < |w.procs| && QueuedOk(w.procs[i]) && i !in Line(w.tracker) && !IsTracked(w.tracker, i)
    requires InOrder(w.procs, w.tracker.attachLog + [i] + w.tracker.queued, w.tracker.nextTicket)
    ensures var n := Install(w, i, ok); Ok(n.world) && n.world.tracker.tracking == w.tracker.tracking
    ensures var n := Install(w, i, ok);
            n.proc.Some? ==> n.proc.value == i < |n.world.procs| && n.world.tracker.created == [i] &&
                             n.world.procs[i].status == Started
  {
    InLine(w.tracker, i);
    var n := Install(w, i, ok);
    if n.proc.Some? {
      forall j | IsTracked(n.world.tracker, j) ensures IsTracked(w.tracker, j) {
        var pid :| pid in n.world.tracker.tracking && n.world.tracker.tracking[pid] == j;
        assert w.tracker.tracking[pid] == j;
      }
      assert n.world.tracker.created == [i];
      assert PlacesOk(n.world.procs, n.world.tracker);
    }
  }

  /** A process killed while it waited leaves the queue and exits. */
  lemma SkipKeeps(w: World)
    requires Ok(w) && w.tracker.queued != []
    ensures w.tracker.queued[0] < |w.procs| && w.tracker.queued[0] !in w.tracker.queued[1..]
    ensures Ok(Change(w.(tracker := w.tracker.(queued := w.tracker.queued[1..])), w.tracker.queued[0], Exited))
  {
    var i := w.tracker.queued[0];
    PopHead(w.procs, w.tracker);
    var w1 := w.(tracker := w.tracker.(queued := w.tracker.queued[1..]));
    assert i in w.tracker.queued;
    InLine(w1.tracker, i);
    ExitKeeps(w1, i);
    UpdateKeeps(w1.procs, w1.tracker, i, ChangedProc(w1.procs[i], Exited));
  }

  /** Popping keeps everything; the process it puts in limbo was not tracked. */
  lemma {:induction false} PopKeeps(w: World, ok: bool)
    requires Ok(w) && w.tracker.created == []
    ensures var n := PopQueued(w, ok); Ok(n.world) && n.world.tracker.tracking == w.tracker.tracking
    ensures var n := PopQueued(w, ok);
            n.proc.Some? ==> n.world.tracker.created == [n.proc.value] && n.proc.value < |n.world.procs| &&
                             n.world.procs[n.proc.value].status == Started && !IsTracked(w.tracker, n.proc.value)
    ensures var n := PopQueued(w, ok); n.proc.None? ==> n.world.tracker.created == []
    decreases |w.tracker.queued|
  {
    if w.tracker.queued != [] {
      var i := w.tracker.queued[0];
      PopHead(w.procs, w.tracker);
      var w1 := w.(tracker := w.tracker.(queued := w.tracker.queued[1..]));
      assert i in w.tracker.queued;
      if w1.procs[i].exitPending {
        SkipKeeps(w);
        PopKeeps(Change(w1, i, Exited), ok);
      } else {
        assert Line(w.tracker) == w.tracker.attachLog + [i] + w1.tracker.queued;
        InstallKeeps(w1, i, ok);
      }
    }
  }

  lemma TryKeeps(w: World, ok: bool, launch: Option<nat>)
    requires Ok(w) && Enabled(w, TryEvent(ok, launch))
    ensures Ok(TryToLaunch(w, ok, launch))
  {
    if w.tracker.created == [] {
      PopKeeps(w, ok);
      var popped := PopQueued(w, ok);
      if popped.proc.Some? {
        var i := popped.proc.value;
        if launch.Some? {
          TrackKeeps(popped.world.procs, popped.world.tracker, launch.value, i);
        } else {
          FailKeeps(popped.world, i);
        }
      }
    }
  }

  lemma TrackKeeps(procs: seq<Proc>, t: Tracker, pid: nat, i: nat)
    requires TrackerOk(procs, t) && i < |procs| && procs[i].status == Started && t.created == [i] && !IsTracked(t, i)
    requires pid !in t.tracking
    ensures TrackerOk(procs, t.(tracking := t.tracking[pid := i]))
  {
    var n := t.(tracking := t.tracking[pid := i]);
    assert Line(n) == Line(t);
    NotBoth(procs, t, i);
    forall j | IsTracked(n, j) ensures j == i || IsTracked(t, j) {
      var other :| other in n.tracking && n.tracking[other] == j;
      if other != pid { assert t.tracking[other] == j; }
    }
    forall a | a in t.tracking ensures t.tracking[a] != i {
      assert IsTracked(t, t.tracking[a]);
    }
  }

  /** The process in limbo is not queued again. */
  lemma NotBoth(procs: seq<Proc>, t: Tracker, i: nat)
    requires TrackerOk(procs, t) && t.created == [i]
    ensures i !in t.queued && i !in t.attachLog
  {
    var at := |t.attachLog|;
    assert Line(t)[at] == i;
    forall k | 0 <= k < |t.queued| ensures t.queued[k] != i {
      assert Line(t)[at + 1 + k] == t.queued[k];
    }
    forall k | 0 <= k < |t.attachLog| ensures t.attachLog[k] != i {
      assert Line(t)[k] == t.attachLog[k];
    }
  }

  lemma FailKeeps(w: World, i: nat)
    requires Ok(w) && i < |w.procs| && w.procs[i].status == Started && w.tracker.created == [i] && !IsTracked(w.tracker, i)
    ensures var w2 := Change(w, i, Exited); Ok(w2.(tracker := w2.tracker.(created := [])))
  {
    NotBoth(w.procs, w.tracker, i);
    ExitKeeps(w, i);
    UpdateKeeps(w.procs, w.tracker, i, ChangedProc(w.procs[i], Exited));
    var w2 := Change(w, i, Exited);
    DropLimbo(w2.procs, w2.tracker);
    assert w.procs[i].ecsPending ==> w2.ecs == None;
  }

  lemma DropLimbo(procs: seq<Proc>, t: Tracker)
    requires TrackerOk(procs, t) && |t.created| == 1
    ensures TrackerOk(procs, t.(created := []))
  {
    var n := t.(created := []);
    var at := |t.attachLog|;
    forall k | 0 <= k < |Line(n)| ensures Line(n)[k] == Line(t)[if k < at then k else k + 1] {
    }
    forall j | IsTracked(n, j) ensures IsTracked(t, j) {
      var pid :| pid in n.tracking && n.tracking[pid] == j;
      assert t.tracking[pid] == j;
    }
  }

  /** The process in limbo attaches: it moves to the log, and its content source, if it was still installed, is used up. */
  lemma AttachedPlaces(procs: seq<Proc>, t: Tracker, i: nat, p: Proc)
    requires TrackerOk(procs, t) && t.created == [i] && i < |procs|
    requires p.attached && !p.ecsPending && p.status == Attached && p.ticket == procs[i].ticket
    ensures TrackerOk(procs[i := p], t.(created := [], attachLog := t.attachLog + [i]))
  {
    NotBoth(procs, t, i);
    var n := t.(created := [], attachLog := t.attachLog + [i]);
    assert Line(n) == Line(t);
    forall j | IsTracked(n, j) ensures IsTracked(t, j) {
      var pid :| pid in n.tracking && n.tracking[pid] == j;
      assert t.tracking[pid] == j;
    }
  }

  lemma AttachKeeps(w: World)
    requires Ok(w) && Enabled(w, AttachEvent)
    ensures Ok(AttachHost(w)) && !w.procs[w.tracker.created[0]].attached
  {
    var i := w.tracker.created[0];
    assert w.tracker.created == [i] && i in w.tracker.created;
    var p := ChangedProc(w.procs[i].(attached := true), Attached);
    AttachedPlaces(w.procs, w.tracker, i, p);
    assert w.procs[i := w.procs[i].(attached := true)][i := p] == w.procs[i := p];
  }

  lemma StepKeeps(w: World, e: Event)
    requires Ok(w) && Enabled(w, e)
    ensures Ok(Step(w, e))
  {
    match e {
      case CreateEvent(files) => CreateKeeps(w, Proc(Created, None, false, false, false, None, false, 0, files));
      case LaunchEvent(i, suspended) => LaunchKeeps(w, i, suspended);
      case TryEvent(ok, launch) => TryKeeps(w, ok, launch);
      case AttachEvent => AttachKeeps(w);
      case ExitedEvent(pid) => ExitedKeeps(w, pid);
      case KillEvent(i) => KillKeeps(w, i);
      case TerminateEvent(i) => KillKeeps(w, i);
      case ContinueEvent(i) => ContinueKeeps(w, i);
      case WaitEvent(i) => WaitKeeps(w, i);
    }
  }

  // ---------------------------------------------------------------- runs

  lemma StepBooks(w: World, e: Event, id: nat)
    requires Ok(w) && Books(w, id) && Enabled(w, e)
    ensures Books(Step(w, e), id)
  {
    match e {
      case CreateEvent(files) =>
        var p := Proc(Created, None, false, false, false, None, false, 0, files);
        TotalAppend(w.procs, p, Owes(id));
        TotalAppend(w.procs, p, Waits(id));
      case LaunchEvent(i, suspended) => LaunchBooks(w, i, suspended, id);
      case TryEvent(ok, launch) => TryBooks(w, ok, launch, id);
      case AttachEvent => AttachBooks(w, id);
      case ExitedEvent(pid) =>
        if pid in w.tracker.tracking { ChangeBooks(w, w.tracker.tracking[pid], Exited, id); }
      case KillEvent(i) => KillBooks(w, i, id);
      case TerminateEvent(i) => KillBooks(w, i, id);
      case ContinueEvent(i) => ContinueBooks(w, i, id);
      case WaitEvent(i) => WaitBooks(w, i, id);
    }
  }

  lemma TryBooks(w: World, ok: bool, launch: Option<nat>, id: nat)
    requires Books(w, id)
    ensures Books(TryToLaunch(w, ok, launch), id)
  {
    PopBooks(w, ok, id);
    LaunchedBooks(PopQueued(w, ok), launch, id);
  }

  lemma LaunchedBooks(popped: Popped, launch: Option<nat>, id: nat)
    requires Books(popped.world, id)
    ensures Books(LaunchPopped(popped, launch), id)
  {
    if popped.proc.Some? && popped.proc.value < |popped.world.procs| && launch.None? {
      ChangeBooks(popped.world, popped.proc.value, Exited, id);
    }
  }

  lemma AttachBooks(w: World, id: nat)
    requires Books(w, id) && Enabled(w, AttachEvent)
    ensures Books(AttachHost(w), id)
  {
    var i := w.tracker.created[0];
    SameBooks(w, i, w.procs[i].(attached := true), id);
    ChangedBalanced(w.procs[i := w.procs[i].(attached := true)], w.ledger, i, Attached, id);
  }

  lemma KillBooks(w: World, i: nat, id: nat)
    requires Books(w, id) && i < |w.procs|
    ensures Books(Kill(w, i), id) && Books(Terminate(w, i), id)
  {
    ChangeBooks(w, i, Exited, id);
    CallBackBooks(w, i, id);
    SameBooks(w, i, w.procs[i].(exitPending := true), id);
  }

  lemma ContinueBooks(w: World, i: nat, id: nat)
    requires Books(w, id) && i < |w.procs|
    ensures Books(Continue(w, i), id)
  {
    ChangeBooks(w, i, Running, id);
    CallBackBooks(Change(w, i, Running), i, id);
    SameBooks(w, i, w.procs[i].(suspend := false), id);
  }

  /** No process yet, and no content source installed. */
  ghost predicate Initial(w: World) {
    && w.procs == [] && w.tracker.queued == [] && w.tracker.created == [] && w.tracker.tracking == map[]
    && w.tracker.attachLog == [] && w.ecs == None && !w.fault && !w.crashed
    && w.ledger == Ledger([], [], 0, 0)
  }

  lemma StartOk(w: World, id: nat)
    requires Initial(w)
    ensures Ok(w) && Books(w, id)
  {
  }

  /** A run: the states it goes through, one event between each two. */
  ghost predicate IsRun(states: seq<World>, events: seq<Event>) {
    && |states| == |events| + 1 && Initial(states[0])
    && forall k :: 0 <= k < |events| ==> IsStep(states[k], events[k], states[k + 1])
  }

  ghost predicate IsStep(w: World, e: Event, n: World) { Enabled(w, e) && n == Step(w, e) }

  lemma {:induction false} RunOk(states: seq<World>, events: seq<Event>, k: nat, id: nat)
    requires IsRun(states, events) && k < |states|
    ensures Ok(states[k]) && Books(states[k], id)
    decreases k
  {
    if k == 0 {
      StartOk(states[0], id);
    } else {
      RunOk(states, events, k - 1, id);
      StepOk(states[k - 1], events[k - 1], states[k], id);
    }
  }

  lemma StepOk(w: World, e: Event, n: World, id: nat)
    requires Ok(w) && Books(w, id) && IsStep(w, e, n)
    ensures Ok(n) && Books(n, id)
  {
    StepKeeps(w, e);
    StepBooks(w, e, id);
  }

  /**
   At every point of every run: at most one process is in limbo; no content source was installed while another one was,
   and none was cleared but by the process it was installed for; processes attached in the order they were queued in.
   */
  lemma OneAtATime(states: seq<World>, events: seq<Event>, k: nat)
    requires IsRun(states, events) && k < |states|
    ensures var w := states[k];
            |w.tracker.created| <= 1 && !w.fault && (w.ecs.Some? ==> w.tracker.created == [w.ecs.value]) &&
            InOrder(w.procs, w.tracker.attachLog, w.tracker.nextTicket)
  {
    RunOk(states, events, k, 0);
    LogInOrder(states[k].procs, states[k].tracker);
  }

  lemma LogInOrder(procs: seq<Proc>, t: Tracker)
    requires InOrder(procs, Line(t), t.nextTicket)
    ensures InOrder(procs, t.attachLog, t.nextTicket)
  {
    forall k | 0 <= k < |t.attachLog| ensures t.attachLog[k] == Line(t)[k] {
    }
  }

  /**
   A suspended process keeps its state when it is killed, so that killing or continuing it once more calls a callback
   that is gone: this happens exactly when no callback is held.
   */
  lemma CrashesExactly(w: World, i: nat)
    requires i < |w.procs| && !w.crashed
    ensures Kill(w, i).crashed <==> w.procs[i].status == ShimSuspended && w.procs[i].cb == None
    ensures Continue(w, i).crashed <==> w.procs[i].status == ShimSuspended && w.procs[i].cb == None
    ensures w.procs[i].status == ShimSuspended && w.procs[i].cb != None ==>
            !Kill(w, i).crashed && Kill(Kill(w, i), i).crashed && Continue(Kill(w, i), i).crashed
  {
    if w.procs[i].status == ShimSuspended && w.procs[i].cb != None {
      var p := w.procs[i].(cb := None);
      assert Kill(w, i).procs[i] == p;
    }
  }
}
