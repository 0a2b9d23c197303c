/**
 The supervisor (`sandbox_supervisor.rs`): monitor while ready, recover while not, owning one
 sync task. The consumers of the handle act between any two of its accesses.
*/
module SandboxSupervisor {
  import opened Basics
  import opened SandboxRuntime

  // A spawned sync task and the sandbox it mirrors.
  datatype SyncTask = SyncTask(id: nat, sandbox: Sandbox)

  datatype Phase = Created | Starting | Stopped | Crashed
  datatype SandboxError = NotRunning(phase: Phase) | Unreachable
  datatype BringUp = Up(sandbox: Sandbox) | Down(diagnosis: Diagnosis) | HardError
  datatype LoopStep = Continue | Break

  const RECOVERY_BACKOFF: seq<nat> := [5, 10, 15, 15, 30]

  // The pause after the failure number `attempt`, counted from 0.
  function Pause(attempt: nat): (secs: nat)
  {
    RECOVERY_BACKOFF[Min(attempt, |RECOVERY_BACKOFF| - 1)]
  }

  /** The schedule: 5, 10, 15 and 15 seconds, then 30 for as long as it takes. */
  lemma PauseSchedule(attempt: nat)
    ensures Pause(0) == 5 && Pause(1) == 10 && Pause(2) == 15 && Pause(3) == 15
    ensures attempt >= 4 ==> Pause(attempt) == 30
  {
  }

  /** Pauses never shrink while recovery keeps failing, and stay within 5 and 30 seconds. */
  lemma PausesGrow(i: nat, j: nat)
    requires i <= j
    ensures 5 <= Pause(i) <= Pause(j) <= 30
  {
  }

  // A sandbox that is still coming up.
  predicate Booting(error: SandboxError) {
    error.NotRunning? && (error.phase.Created? || error.phase.Starting?)
  }

  // A booting sandbox is no failure.
  function DegradeDecision(error: SandboxError): (d: Option<Diagnosis>)
    ensures d.None? <==> Booting(error)
  {
    match error
    case NotRunning(Created) => None
    case NotRunning(Starting) => None
    case NotRunning(_) => Some("not running")
    case Unreachable => Some("unreachable")
  }

  // The answer of a live sandbox to a health probe: None is healthy.
  function ProbeVerdict(answer: Option<SandboxError>): Option<Diagnosis> {
    match answer
    case None => None
    case Some(error) => DegradeDecision(error)
  }

  class Supervisor {
    const handle: SandboxRuntimeHandle
    var syncTask: Option<SyncTask>
    var attempt: nat
    // Sync tasks spawned and not aborted; the pauses slept since the last recovery.
    ghost var running: set<SyncTask>
    ghost var pauses: seq<nat>
    var spawned: nat

    // Holds at every loop head: the owned task exists exactly when the handle is ready, it is
    // the only one running, and it mirrors the current sandbox.
    ghost predicate Owned() reads this, handle {
      && handle.Valid() && handle.Heard()
      && (handle.health.Ready? <==> syncTask.Some?)
      && (handle.health.Ready? ==> handle.sandbox == Some(syncTask.value.sandbox))
      && (handle.health.Unavailable? ==> handle.sandbox.None?)
      && OneTask() && PausesKept()
    }

    ghost predicate OneTask() reads this {
      && running == (if syncTask.Some? then {syncTask.value} else {})
      && (syncTask.Some? ==> syncTask.value.id < spawned)
    }

    // The pauses since the last recovery followed the schedule.
    ghost predicate PausesKept() reads this {
      && |pauses| == attempt
      && forall k :: 0 <= k < attempt ==> pauses[k] == Pause(k)
    }

    // The startup seeding: one sync task if bring-up left a sandbox, none otherwise.
    constructor (handle: SandboxRuntimeHandle)
      requires handle.Valid() && handle.Heard() && (handle.health.Ready? <==> handle.sandbox.Some?)
      ensures this.handle == handle && Owned()
    {
      this.handle := handle;
      var seed := match handle.sandbox case Some(s) => Some(SyncTask(0, s)) case None => None;
      syncTask, attempt, spawned, pauses := seed, 0, 1, [];
      running := match seed case Some(t) => {t} case None => {};
    }

    method SpawnSyncTask(sandbox: Sandbox) returns (task: SyncTask)
      requires OneTask()
      modifies this`running, this`spawned
      ensures task == SyncTask(old(spawned), sandbox) && spawned == old(spawned) + 1
      ensures task !in old(running) && running == old(running) + {task}
    {
      task := SyncTask(spawned, sandbox);
      spawned := spawned + 1;
      running := running + {task};
    }

    method AbortSyncTask()
      requires OneTask()
      modifies this`running, this`syncTask
      ensures syncTask.None? && running == {} && OneTask()
    {
      if syncTask.Some? {
        running := running - {syncTask.value};
        syncTask := None;
      }
    }

    /**
     `monitor_step`: a waiting report is always followed by a probe, and only a failed probe
     degrades; the handle and the sync task are given up together.
    */
    method MonitorStep(answer: Option<SandboxError>, shutdown: bool) returns (step: LoopStep, ghost probed: bool)
      requires Owned() && handle.health.Ready?
      modifies this, handle
      ensures OneTask() && handle.Valid() && old(handle.events) <= handle.events
      ensures step == if shutdown then Break else Continue
      ensures step.Continue? ==> Owned()
      ensures !shutdown && old(handle.wake) ==> probed
      ensures probed ==> Probed in handle.events[|old(handle.events)|..]
      ensures handle.health.Unavailable? <==>
        probed && answer.Some?
        && !(answer.value.NotRunning? && (answer.value.phase.Created? || answer.value.phase.Starting?))
      ensures handle.health ==
        if probed && ProbeVerdict(answer).Some? then Unavailable(ProbeVerdict(answer).value) else Ready
    {
      probed := false;
      handle.Others();
      if shutdown {
        return Break, false;
      }
      if !handle.wake {
        return Continue, false;
      }
      probed := true;
      handle.StartProbe();
      var sandbox := handle.sandbox;
      var diagnosis := if sandbox.Some? then ProbeVerdict(answer) else Some("not running");
      handle.Others();
      if diagnosis.None? {
        return Continue, true;
      }
      handle.SetUnavailable(diagnosis.value);
      AbortSyncTask();
      return Continue, true;
    }

    // One notice to every chat drained, each once.
    method NotifyBackOnline() returns (ghost sent: seq<Chat>, ghost drained: set<Chat>)
      requires handle.Valid() && handle.Heard() && handle.health.Ready?
      modifies handle`affected, handle`events, handle`wake
      ensures handle.Valid() && handle.Heard() && old(handle.events) <= handle.events
      ensures forall chat :: chat in sent <==> chat in drained
      ensures forall i, j :: 0 <= i < j < |sent| ==> sent[i] != sent[j]
      ensures old(handle.affected) <= drained && Drained(drained) in handle.events[|old(handle.events)|..]
    {
      handle.Others();
      var taken := handle.TakeAffected();
      drained, sent := taken, [];
      assert handle.events[|handle.events| - 1] == Drained(drained);
      while taken != {}
        invariant handle.Valid() && handle.Heard() && old(handle.events) <= handle.events
        invariant Drained(drained) in handle.events[|old(handle.events)|..]
        invariant taken <= drained && forall chat :: chat in sent <==> chat in drained - taken
        invariant forall i, j :: 0 <= i < j < |sent| ==> sent[i] != sent[j]
        decreases |taken|
      {
        var chat :| chat in taken;
        assert chat !in sent;
        sent := sent + [chat];
        taken := taken - {chat};
      }
    }

    /**
     `recovery_step`: success publishes the sandbox, gives it the only sync task and tells the
     waiting chats; failure keeps the handle degraded and pauses by the schedule; a hard error
     ends the loop.
    */
    method RecoveryStep(outcome: BringUp, shutdown: bool) returns (step: LoopStep)
      requires Owned() && handle.health.Unavailable?
      modifies this, handle
      ensures OneTask() && handle.Valid() && old(handle.events) <= handle.events
      ensures step.Continue? ==> Owned()
      ensures step.Break? <==> outcome.HardError? || (outcome.Down? && shutdown)
      ensures match outcome
              case Up(sandbox) =>
                && handle.health.Ready? && handle.sandbox == Some(sandbox) && attempt == 0
                && exists drained ::
                     old(handle.affected) <= drained && Drained(drained) in handle.events[|old(handle.events)|..]
              case Down(diagnosis) => handle.health == Unavailable(diagnosis) && syncTask.None?
              case HardError => handle.health == old(handle.health) && syncTask.None?
      ensures outcome.Down? ==> attempt == old(attempt) + 1 && pauses == old(pauses) + [Pause(old(attempt))]
    {
      handle.Others();
      match outcome
      case Up(sandbox) =>
        handle.SetReady(sandbox);
        ghost var seen := handle.events;
        // Nothing is overwritten here: the loop head owns no task while degraded.
        assert syncTask.None?;
        var task := SpawnSyncTask(sandbox);
        syncTask := Some(task);
        var _, drained := NotifyBackOnline();
        assert old(handle.affected) <= drained;
        Later(old(handle.events), seen, handle.events, Drained(drained));
        attempt, pauses := 0, [];
        return Continue;
      case Down(diagnosis) =>
        handle.SetUnavailable(diagnosis);
        pauses := pauses + [Pause(attempt)];
        attempt := attempt + 1;
        handle.Others();
        return if shutdown then Break else Continue;
      case HardError =>
        return Break;
    }

    /**
     `run_supervisor` over any environment: at every loop head the task is owned as promised,
     and when the loop ends no sync task is left running.
    */
    method RunSupervisor(turns: seq<Turn>) returns (stopped: bool)
      requires Owned()
      modifies this, handle
      ensures handle.Valid() && old(handle.events) <= handle.events
      ensures stopped ==> running == {} && syncTask.None?
      ensures !stopped ==> Owned()
    {
      var i := 0;
      while i < |turns|
        invariant Owned() && old(handle.events) <= handle.events
      {
        var turn := turns[i];
        var step;
        if handle.health.Ready? {
          ghost var probed;
          step, probed := MonitorStep(turn.answer, turn.shutdown);
        } else {
          step := RecoveryStep(turn.outcome, turn.shutdown);
        }
        if step.Break? {
          AbortSyncTask();
          return true;
        }
        i := i + 1;
      }
      return false;
    }
  }

  lemma Later(first: seq<Event>, second: seq<Event>, third: seq<Event>, e: Event)
    requires first <= second <= third && e in third[|second|..]
    ensures e in third[|first|..]
  {
    var k :| 0 <= k < |third| - |second| && third[|second|..][k] == e;
    assert third[|first|..][|second| - |first| + k] == e;
  }

  // What the environment answers in one turn of the loop.
  datatype Turn = Turn(answer: Option<SandboxError>, outcome: BringUp, shutdown: bool)
}
