/** The shell tracker and its processes on their fields, proved to do what `ShellLaunch` says. */
module ShellTrackers {
  import opened Common
  import opened ShellLaunch

  class ShellTracker {
    var procs: seq<Proc>
    var queued: seq<nat>
    var created: seq<nat>
    var tracking: map<nat, nat>
    var attachLog: seq<nat>
    var nextTicket: nat
    var ecs: Option<nat>
    var answered: seq<nat>
    var called: seq<nat>
    var nextLaunch: nat
    var nextCb: nat
    var fault: bool
    var crashed: bool

    ghost function Abs(): World
      reads this
    {
      World(procs, Tracker(queued, created, tracking, attachLog, nextTicket), ecs,
            Ledger(answered, called, nextLaunch, nextCb), fault, crashed)
    }

    constructor ()
      ensures Initial(Abs())
    {
      procs, queued, created, tracking, attachLog, nextTicket := [], [], [], map[], [], 0;
      ecs, answered, called, nextLaunch, nextCb, fault, crashed := None, [], [], 0, 0, false, false;
    }

    /** The base process: an exit lets go of a suspended shim. */
    method MonitoredChangeState(i: nat, s: Status)
      requires i < |procs|
      modifies this`procs, this`called
      ensures procs == old(procs)[i := old(procs[i]).(status := s, cb := if s == Exited then None else old(procs[i]).cb)]
      ensures called == if s == Exited && old(procs[i]).cb.Some? then old(called) + [old(procs[i]).cb.value] else old(called)
    {
      var p := procs[i];
      if s == Exited && p.cb.Some? {
        called := called + [p.cb.value];
        p := p.(cb := None);
      }
      procs := procs[i := p.(status := s)];
    }

    /** Then the content source: used up by attaching, cleared by exiting before that. */
    method EcsChangeState(i: nat, s: Status)
      requires i < |procs|
      modifies this`procs, this`called, this`ecs, this`fault
      ensures procs == old(procs)[i := ChangedProc(old(procs[i]), s).(opener := old(procs[i]).opener)]
      ensures called == if s == Exited && old(procs[i]).cb.Some? then old(called) + [old(procs[i]).cb.value] else old(called)
      ensures ecs == ChangedEcs(old(Abs()), i, s) && fault == (old(fault) || ClearsWrongly(old(Abs()), i, s))
    {
      MonitoredChangeState(i, s);
      if s == Attached {
        procs := procs[i := procs[i].(ecsPending := false)];
        if ecs == Some(i) {
          ecs := None;
        }
      }
      if s == Exited && procs[i].ecsPending {
        fault := fault || ecs != Some(i);
        ecs := None;
      }
    }

    /** Then the launch request: attaching and exiting answer it. */
    method ChangeState(i: nat, s: Status)
      requires i < |procs|
      modifies this`procs, this`called, this`ecs, this`fault, this`answered
      ensures Abs() == Change(old(Abs()), i, s)
    {
      EcsChangeState(i, s);
      if s == Attached || s == Exited {
        AnswerLaunch(i);
      }
    }

    /** Answers the launch request, if one is still open. */
    method AnswerLaunch(i: nat)
      requires i < |procs|
      modifies this`procs, this`answered
      ensures procs == old(procs)[i := old(procs[i]).(opener := None)]
      ensures answered == if old(procs[i]).opener.Some? then old(answered) + [old(procs[i]).opener.value] else old(answered)
    {
      if procs[i].opener.Some? {
        answered := answered + [procs[i].opener.value];
        procs := procs[i := procs[i].(opener := None)];
      }
    }

    method CallSuspended(i: nat)
      requires i < |procs|
      modifies this`procs, this`called, this`crashed
      ensures Abs() == CallBack(old(Abs()), i)
    {
      var slcb := procs[i].cb;
      if slcb.None? {
        crashed := true;
        return;
      }
      procs := procs[i := procs[i].(cb := None)];
      called := called + [slcb.value];
    }

    method Continue(i: nat)
      requires i < |procs|
      modifies this
      ensures Abs() == ShellLaunch.Continue(old(Abs()), i)
    {
      if procs[i].status == ShimSuspended {
        ChangeState(i, Running);
        CallSuspended(i);
      } else {
        procs := procs[i := procs[i].(suspend := false)];
      }
    }

    method WaitToStart(i: nat)
      requires i < |procs|
      modifies this
      ensures Abs() == ShellLaunch.WaitToStart(old(Abs()), i)
    {
      var cb := nextCb;
      nextCb := nextCb + 1;
      if procs[i].suspend {
        ChangeState(i, ShimSuspended);
        procs := procs[i := procs[i].(cb := Some(cb))];
      } else {
        ChangeState(i, Running);
        called := called + [cb];
      }
    }

    method Terminate(i: nat)
      requires i < |procs|
      modifies this
      ensures Abs() == ShellLaunch.Terminate(old(Abs()), i)
    {
      if procs[i].status == Created {
        ChangeState(i, Exited);
      } else if procs[i].status == ShimSuspended {
        CallSuspended(i);
      }
    }

    method Kill(i: nat)
      requires i < |procs|
      modifies this
      ensures Abs() == ShellLaunch.Kill(old(Abs()), i)
    {
      if procs[i].status == Created {
        ChangeState(i, Exited);
      } else if procs[i].status == Started {
        procs := procs[i := procs[i].(exitPending := true)];
      } else if procs[i].status == ShimSuspended {
        CallSuspended(i);
      }
    }

    method Launch(i: nat, suspended: bool)
      requires i < |procs|
      modifies this
      ensures Abs() == ShellLaunch.Launch(old(Abs()), i, suspended)
    {
      procs := procs[i := procs[i].(opener := Some(nextLaunch), suspend := procs[i].suspend || suspended, ticket := nextTicket)];
      nextLaunch := nextLaunch + 1;
      ChangeState(i, Started);
      queued := queued + [i];
      nextTicket := nextTicket + 1;
    }

    /** Sets up the content source of a process and puts it in limbo. */
    method PrepareForLaunch(i: nat, ok: bool) returns (r: Option<nat>)
      requires i < |procs|
      modifies this`procs, this`ecs, this`fault, this`created
      ensures Popped(Abs(), r) == Install(old(Abs()), i, ok)
    {
      if procs[i].files != 1 || !ok { return None; }
      fault := fault || ecs.Some?;
      ecs := Some(i);
      procs := procs[i := procs[i].(ecsPending := true)];
      created := created + [i];
      return Some(i);
    }

    method PopQueuedProcess(ok: bool) returns (r: Option<nat>)
      requires forall i :: i in queued ==> i < |procs|
      modifies this
      ensures Popped(Abs(), r) == PopQueued(old(Abs()), ok)
    {
      ghost var all := PopQueued(Abs(), ok);
      while |queued| > 0
        invariant forall i :: i in queued ==> i < |procs|
        invariant PopQueued(Abs(), ok) == all
        decreases |queued|
      {
        var i := queued[0];
        assert i in queued && forall j :: j in queued[1..] ==> j in queued;
        queued := queued[1..];
        if procs[i].exitPending {
          ChangeState(i, Exited);
        } else {
          r := PrepareForLaunch(i, ok);
          return;
        }
      }
      return None;
    }

    method TryToLaunch(ok: bool, launch: Option<nat>)
      requires forall i :: i in queued ==> i < |procs|
      modifies this
      ensures Abs() == ShellLaunch.TryToLaunch(old(Abs()), ok, launch)
    {
      if |created| != 0 { return; }
      var proc := PopQueuedProcess(ok);
      if proc.None? || proc.value >= |procs| { return; }
      if launch.Some? {
        if launch.value !in tracking {
          tracking := tracking[launch.value := proc.value];
        }
      } else {
        ChangeState(proc.value, Exited);
        created := [];
      }
    }

    method AttachHostProcess()
      requires created != [] && created[0] < |procs|
      modifies this
      ensures Abs() == AttachHost(old(Abs()))
    {
      var i := created[0];
      procs := procs[i := procs[i].(attached := true)];
      ChangeState(i, Attached);
      created := created[1..];
      attachLog := attachLog + [i];
    }

    method ProcessExited(pid: nat)
      requires pid in tracking ==> tracking[pid] < |procs|
      modifies this
      ensures Abs() == ExitEvent(old(Abs()), pid)
    {
      if pid !in tracking { return; }
      ChangeState(tracking[pid], Exited);
      tracking := tracking - {pid};
    }
  }
}
