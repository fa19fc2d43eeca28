/** `CancellableTask`: a restartable background worker with a five-state
    lifecycle. The worker thread is not modelled as a thread: the steps it
    takes (invoking the action, returning, throwing) are methods the
    environment calls, in the order the runtime would run them. */
module Lifecycle {
  import opened Wrappers

  datatype Status = Created | Started | Stopped | Faulted | Terminated

  /** Where the worker of the current task is: not running (never started or
      finished), scheduled but not yet invoking the action, or inside the
      action. */
  datatype Phase = Idle | Scheduled | Running

  /** What the task reports: a status change (logged and raised as
      `StatusChanged`), the "already running" and "cannot be restarted"
      log lines, the "restarting" log line, and `ExceptionRaised`. */
  datatype TaskEvent =
    | StatusChanged(status: Status)
    | AlreadyRunning
    | CannotRestart
    | Restarting
    | ExceptionRaised(error: Exception)

  /** How the action ends when it runs to its end. */
  datatype Ending = Returns | Throws(error: Exception)

  /** Every field but the event log. */
  datatype Fields = Fields(
    status: Status, hasTokenSource: bool, cancelRequested: bool, hasTask: bool,
    hasAction: bool, mustTerminate: bool, phase: Phase, exception: Option<Exception>)

  class CancellableTask {
    var status: Status
    /** The cancellation token source exists / has been cancelled. */
    var hasTokenSource: bool
    var cancelRequested: bool
    /** The `Task` object exists. */
    var hasTask: bool
    /** The action is still set (`Terminate` clears it). */
    var hasAction: bool
    var mustTerminate: bool
    var phase: Phase
    var exception: Option<Exception>
    var events: seq<TaskEvent>

    ghost function Snapshot(): Fields
      reads this
    {
      Fields(status, hasTokenSource, cancelRequested, hasTask, hasAction, mustTerminate, phase, exception)
    }

    /** The lifecycle invariant: a worker is scheduled or running exactly
        while the status is Started; a task still Created was never
        cancelled; Terminated is only reached through a requested
        termination, and a requested termination has dropped the action. */
    ghost predicate Valid()
      reads this
    {
      && hasTokenSource && hasTask
      && (phase != Idle <==> status == Started)
      && (status == Created ==> !cancelRequested)
      && (status == Terminated ==> mustTerminate)
      && (mustTerminate ==> !hasAction)
    }

    /** `IsCancelled`: true without a token source, otherwise the token's
        state. */
    function IsCancelled(): (r: bool)
      reads this
      ensures !hasTokenSource ==> r
      ensures hasTokenSource ==> (r <==> cancelRequested)
    {
      if hasTokenSource then cancelRequested else true
    }

    /** The constructor: `Initialize` finds no task yet, so it creates a
        fresh token source and task; then the status is set to Created. */
    constructor(actionGiven: bool)
      ensures Valid()
      ensures Snapshot() == Fields(Created, true, false, true, actionGiven, false, Idle, None)
      ensures events == [StatusChanged(Created)]
    {
      status := Created;
      hasTokenSource := true;
      cancelRequested := false;
      hasTask := true;
      hasAction := actionGiven;
      mustTerminate := false;
      phase := Idle;
      exception := None;
      events := [StatusChanged(Created)];
    }

    /** A fresh, uncancelled token source and a new unstarted task, unless the
        task is still Created with its original task. */
    method Initialize()
      modifies this
      ensures old(status) != Created || !old(hasTask) ==>
        Snapshot() == old(Snapshot()).(hasTokenSource := true, cancelRequested := false, hasTask := true)
      ensures old(status) == Created && old(hasTask) ==> Snapshot() == old(Snapshot())
      ensures events == old(events)
    {
      if status != Created || !hasTask {
        hasTask := true;
        hasTokenSource := true;
        cancelRequested := false;
      }
    }

    /** From Created, Faulted or Stopped: re-initialise, schedule the worker
        and become Started. Started: only logs. Terminated: only logs, and
        does not throw. */
    method Start()
      requires Valid()
      modifies this
      ensures Valid()
      ensures old(status) in {Created, Faulted, Stopped} ==>
        && Snapshot() == old(Snapshot()).(status := Started, phase := Scheduled, cancelRequested := false)
        && !IsCancelled()
        && events == old(events) + [StatusChanged(Started)]
      ensures old(status) == Started ==>
        Snapshot() == old(Snapshot()) && events == old(events) + [AlreadyRunning]
      ensures old(status) == Terminated ==>
        Snapshot() == old(Snapshot()) && events == old(events) + [CannotRestart]
    {
      match status {
        case Created | Faulted | Stopped =>
          Initialize();
          phase := Scheduled;
          status := Started;
          events := events + [StatusChanged(Started)];
        case Started =>
          events := events + [AlreadyRunning];
        case Terminated =>
          events := events + [CannotRestart];
      }
    }

    /** Requests cancellation when Started or Faulted and not yet requested;
        never changes the status. */
    method Stop()
      modifies this
      ensures Snapshot() == old(Snapshot()).(cancelRequested :=
        old(cancelRequested) || (old(status) in {Started, Faulted} && old(hasTokenSource)))
      ensures events == old(events)
    {
      if (status == Started || status == Faulted) && hasTokenSource && !cancelRequested {
        cancelRequested := true;
      }
    }

    /** Unless already Terminated: mark termination, stop, drop the action.
        The status itself is left to the worker. */
    method Terminate()
      requires Valid()
      modifies this
      ensures Valid()
      ensures old(status) == Terminated ==> Snapshot() == old(Snapshot())
      ensures old(status) != Terminated ==>
        Snapshot() == old(Snapshot()).(mustTerminate := true, hasAction := false,
          cancelRequested := old(cancelRequested) || (old(status) in {Started, Faulted} && old(hasTokenSource)))
      ensures events == old(events)
    {
      if status != Terminated {
        mustTerminate := true;
        Stop();
        hasAction := false;
      }
    }

    /** The worker starts and invokes the action. With the action dropped the
        invocation raises a null dereference, which the worker catches: the
        task faults and raises `ExceptionRaised`. */
    method WorkerInvoke()
      requires Valid() && phase == Scheduled
      modifies this
      ensures Valid()
      ensures old(hasAction) ==> Snapshot() == old(Snapshot()).(phase := Running) && events == old(events)
      ensures !old(hasAction) ==>
        && Snapshot() == old(Snapshot()).(status := Faulted, phase := Idle, exception := Some(NullReferenceException))
        && events == old(events) + [StatusChanged(Faulted), ExceptionRaised(NullReferenceException)]
    {
      if hasAction {
        phase := Running;
      } else {
        Fault(NullReferenceException);
      }
    }

    /** The action returned: Terminated if termination was requested, else
        Stopped. */
    method WorkerReturned()
      requires Valid() && phase == Running
      modifies this
      ensures Valid()
      ensures Snapshot() == old(Snapshot()).(status := if old(mustTerminate) then Terminated else Stopped, phase := Idle)
      ensures events == old(events) + [StatusChanged(status)]
    {
      phase := Idle;
      status := if mustTerminate then Terminated else Stopped;
      events := events + [StatusChanged(status)];
    }

    /** The action threw: Faulted first, then the exception is stored and
        `ExceptionRaised` is raised. */
    method WorkerThrew(error: Exception)
      requires Valid() && phase == Running
      modifies this
      ensures Valid()
      ensures Snapshot() == old(Snapshot()).(status := Faulted, phase := Idle, exception := Some(error))
      ensures events == old(events) + [StatusChanged(Faulted), ExceptionRaised(error)]
    {
      Fault(error);
    }

    method Fault(error: Exception)
      requires Valid() && phase != Idle
      modifies this
      ensures Valid()
      ensures Snapshot() == old(Snapshot()).(status := Faulted, phase := Idle, exception := Some(error))
      ensures events == old(events) + [StatusChanged(Faulted), ExceptionRaised(error)]
    {
      phase := Idle;
      status := Faulted;
      events := events + [StatusChanged(Faulted)];
      exception := Some(error);
      events := events + [ExceptionRaised(error)];
    }

    /** `Wait` blocks on the task only when there is one and it is no longer
        Created; otherwise it returns at once. */
    method Wait() returns (blocks: bool)
      ensures blocks <==> hasTask && status != Created
    {
      blocks := hasTask && status != Created;
    }

    /** The worker of a Started task once `Stop` has cancelled it, run to
        its end, and the events it raises: a worker still scheduled with the
        action dropped faults with a null dereference; otherwise the action
        ends with `ending`, and returning ends Terminated only when
        termination was requested. */
    static ghost function RunToEnd(f: Fields, ending: Ending): (r: (Fields, seq<TaskEvent>))
      ensures r.0 == f.(status := r.0.status, phase := Idle, cancelRequested := true, exception := r.0.exception)
      ensures r.0.status in {Stopped, Faulted, Terminated}
      ensures r.0.status == Terminated <==>
        ending == Returns && f.mustTerminate && !(f.phase == Scheduled && !f.hasAction)
      ensures r.0.status == Faulted <==> (f.phase == Scheduled && !f.hasAction) || ending.Throws?
      ensures r.0.status == Faulted ==>
        r.0.exception.Some? && r.1 == [StatusChanged(Faulted), ExceptionRaised(r.0.exception.value)]
      ensures r.0.status != Faulted ==> r.0.exception == f.exception && r.1 == [StatusChanged(r.0.status)]
    {
      var stopped := f.(cancelRequested := true, phase := Idle);
      if f.phase == Scheduled && !f.hasAction then
        (stopped.(status := Faulted, exception := Some(NullReferenceException)),
         [StatusChanged(Faulted), ExceptionRaised(NullReferenceException)])
      else match ending
        case Returns =>
          var ended := if f.mustTerminate then Terminated else Stopped;
          (stopped.(status := ended), [StatusChanged(ended)])
        case Throws(e) =>
          (stopped.(status := Faulted, exception := Some(e)), [StatusChanged(Faulted), ExceptionRaised(e)])
    }

    /** Logs, stops, waits for the worker, then starts again. While Created
        the task was never started, so waiting on it never returns
        (`hangs`). Stopped or Faulted, there is no worker and the task is
        started at once; Terminated, `Start` only logs. Started, the
        cancelled worker is run to its end with `ending` before `Start`. */
    method Restart(ending: Ending) returns (hangs: bool)
      requires Valid()
      modifies this
      ensures Valid()
      ensures hangs <==> old(status) == Created
      ensures !hangs ==> status in {Started, Terminated}
      ensures !hangs && !old(mustTerminate) ==> status == Started && phase == Scheduled && !IsCancelled()
      ensures old(status) == Terminated ==> status == Terminated
      ensures |events| > |old(events)| && events[|old(events)|] == Restarting
      ensures hangs ==> Snapshot() == old(Snapshot()) && events == old(events) + [Restarting]
      ensures old(status) in {Stopped, Faulted} ==>
        && Snapshot() == old(Snapshot()).(status := Started, phase := Scheduled, cancelRequested := false)
        && events == old(events) + [Restarting, StatusChanged(Started)]
      ensures old(status) == Terminated ==>
        Snapshot() == old(Snapshot()) && events == old(events) + [Restarting, CannotRestart]
      ensures old(status) == Started ==>
        var (end, worker) := RunToEnd(old(Snapshot()), ending);
        if end.status == Terminated then
          Snapshot() == end && events == old(events) + [Restarting] + worker + [CannotRestart]
        else
          && Snapshot() == end.(status := Started, phase := Scheduled, cancelRequested := false)
          && events == old(events) + [Restarting] + worker + [StatusChanged(Started)]
    {
      events := events + [Restarting];
      ghost var restarting := events;
      Stop();
      if status == Created {
        hangs := true;
        return;
      }
      hangs := false;
      if status == Started {
        ghost var stopped := Snapshot();
        assert RunToEnd(stopped, ending) == RunToEnd(old(Snapshot()), ending);
        WaitForWorker(ending);
      }
      Start();
      assert events[..|restarting|] == restarting;
    }

    /** `Task.Wait()` on a Started task that `Stop` has cancelled: the
        worker, still scheduled or inside the action, runs to its end with
        `ending`. */
    method WaitForWorker(ending: Ending)
      requires Valid() && status == Started && cancelRequested
      modifies this
      ensures Valid()
      ensures var (end, worker) := RunToEnd(old(Snapshot()), ending);
        Snapshot() == end && events == old(events) + worker
    {
      if phase == Scheduled {
        WorkerInvoke();
      }
      if phase == Running {
        match ending {
          case Returns => WorkerReturned();
          case Throws(e) => WorkerThrew(e);
        }
      }
    }
  }

  /** `Terminate` before the first `Start` drops the action, so the worker
      that `Start` schedules faults with a null dereference instead of
      running. */
  method TerminateBeforeStartFaults() returns (status: Status, error: Option<Exception>)
    ensures status == Faulted && error == Some(NullReferenceException)
  {
    var task := new CancellableTask(true);
    task.Terminate();
    task.Start();
    task.WorkerInvoke();
    status, error := task.status, task.exception;
  }

  /** Terminating a running task cancels it; when the action returns the task
      is Terminated, and a later `Start` leaves it Terminated. */
  method TerminateWhileRunning() returns (status: Status, cancelled: bool, last: TaskEvent)
    ensures status == Terminated && cancelled && last == CannotRestart
  {
    var task := new CancellableTask(true);
    task.Start();
    task.WorkerInvoke();
    task.Terminate();
    cancelled := task.IsCancelled();
    task.WorkerReturned();
    task.Start();
    status, last := task.status, task.events[|task.events| - 1];
  }

  /** A task stopped while running ends Stopped when its action returns, and
      starts again with a fresh, uncancelled token. */
  method StopThenStartAgain() returns (stopped: Status, cancelledBefore: bool, restarted: Status, cancelledAfter: bool)
    ensures stopped == Stopped && cancelledBefore
    ensures restarted == Started && !cancelledAfter
  {
    var task := new CancellableTask(true);
    task.Start();
    task.WorkerInvoke();
    task.Stop();
    cancelledBefore := task.IsCancelled();
    task.WorkerReturned();
    stopped := task.status;
    task.Start();
    restarted, cancelledAfter := task.status, task.IsCancelled();
  }
}
