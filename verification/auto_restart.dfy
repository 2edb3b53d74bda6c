/** The restart supervisor: it runs the bot as a child process and restarts
    it after a crash, at most `MaxRestarts` times, until a clean exit or a
    shutdown signal. */
module AutoRestart {
  import opened Wrappers

  const MaxRestarts: nat := 10

  /** Milliseconds before a restart, and the run time under which a run is
      reported as suspiciously short. */
  const RestartDelay: nat := 30000
  const ShortRun: nat := 30000

  /** `shouldRestart`. `exitCode` is the child's exit code, `None` when it
      was ended by a signal; `runTime` only decides a warning. */
  function ShouldRestart(restartCount: nat, exitCode: Option<int>, runTime: int): (restart: bool)
    ensures restart ==> restartCount < MaxRestarts && exitCode != Some(0)
  {
    if restartCount >= MaxRestarts then false
    else if exitCode == Some(0) then false
    else true
  }

  /** No restart once the limit is reached, none after a clean exit, and a
      restart for every other exit, however long or short the run was. */
  lemma ShouldRestartCases(restartCount: nat, exitCode: Option<int>, runTime: int, otherRunTime: int)
    ensures restartCount >= MaxRestarts ==> !ShouldRestart(restartCount, exitCode, runTime)
    ensures exitCode == Some(0) ==> !ShouldRestart(restartCount, exitCode, runTime)
    ensures restartCount < MaxRestarts && exitCode != Some(0) ==> ShouldRestart(restartCount, exitCode, runTime)
    ensures ShouldRestart(restartCount, exitCode, runTime) == ShouldRestart(restartCount, exitCode, otherRunTime)
  {
  }

  /** The restarts that follow a series of child exits, the child being
      restarted after each exit the supervisor accepts and the series ending
      at the first exit it does not. */
  function Restarts(restartCount: nat, exits: seq<Option<int>>): nat
    decreases |exits|
  {
    if exits == [] || !ShouldRestart(restartCount, exits[0], 0) then 0
    else 1 + Restarts(restartCount + 1, exits[1..])
  }

  /** Whatever the exits, the restart count never passes the limit. */
  lemma {:induction false} RestartsBounded(restartCount: nat, exits: seq<Option<int>>)
    requires restartCount <= MaxRestarts
    ensures restartCount + Restarts(restartCount, exits) <= MaxRestarts
    decreases |exits|
  {
    if exits != [] && ShouldRestart(restartCount, exits[0], 0) {
      RestartsBounded(restartCount + 1, exits[1..]);
    }
  }

  /** A child that keeps crashing is restarted exactly up to the limit. */
  lemma {:induction false} CrashLoopReachesLimit(restartCount: nat, exits: seq<Option<int>>)
    requires restartCount <= MaxRestarts
    requires |exits| > MaxRestarts - restartCount
    requires forall i :: 0 <= i < |exits| ==> exits[i] != Some(0)
    ensures restartCount + Restarts(restartCount, exits) == MaxRestarts
    decreases |exits|
  {
    if restartCount < MaxRestarts {
      assert exits[0] != Some(0);
      CrashLoopReachesLimit(restartCount + 1, exits[1..]);
    }
  }

  /** No restart follows a clean exit: the restarts stop before the first
      exit with code 0. */
  lemma {:induction false} CleanExitEnds(restartCount: nat, exits: seq<Option<int>>, i: nat)
    requires i < |exits| && exits[i] == Some(0)
    ensures Restarts(restartCount, exits) <= i
    decreases |exits|
  {
    if i > 0 && ShouldRestart(restartCount, exits[0], 0) {
      CleanExitEnds(restartCount + 1, exits[1..], i - 1);
    }
  }

  /** The supervisor's state: the restarts made, whether a child is running,
      whether a shutdown has begun, when the child last started, whether
      the child was asked to terminate, and the status the supervisor exits
      with once it decides to. */
  class AutoRestarter {
    var restartCount: nat
    var running: bool
    var isShuttingDown: bool
    var lastStartTime: int
    var terminateSent: bool
    var exitStatus: Option<int>

    /** The restart count stays within the limit; a supervisor that decided
        to exit 0 is shutting down. */
    predicate Valid()
      reads this
    {
      restartCount <= MaxRestarts && (exitStatus == Some(0) ==> isShuttingDown)
    }

    /** Events still reach the supervisor: it has not given up with status 1. */
    predicate Live()
      reads this
    {
      exitStatus.None? || isShuttingDown
    }

    constructor()
      ensures Valid() && Live()
      ensures restartCount == 0 && !running && !isShuttingDown && !terminateSent && exitStatus == None
    {
      restartCount := 0;
      running := false;
      isShuttingDown := false;
      lastStartTime := 0;
      terminateSent := false;
      exitStatus := None;
    }

    /** `handleProcessExit`: ignored during a shutdown; otherwise the child is
        gone, and either one more restart is scheduled or the supervisor exits
        with status 1. */
    method HandleProcessExit(exitCode: Option<int>, now: int)
      modifies this
      requires Valid() && Live()
      ensures Valid() && Live() == (old(isShuttingDown) || ShouldRestart(old(restartCount), exitCode, now - old(lastStartTime)))
      ensures old(isShuttingDown) ==> unchanged(this)
      ensures !old(isShuttingDown) ==>
        !running && !isShuttingDown && lastStartTime == old(lastStartTime) && terminateSent == old(terminateSent)
        && if ShouldRestart(old(restartCount), exitCode, now - old(lastStartTime))
           then restartCount == old(restartCount) + 1 && exitStatus == old(exitStatus)
           else restartCount == old(restartCount) && exitStatus == Some(1)
    {
      if isShuttingDown {
        return;
      }
      running := false;
      var runTime := now - lastStartTime;
      if ShouldRestart(restartCount, exitCode, runTime) {
        restartCount := restartCount + 1;
      } else {
        exitStatus := Some(1);
      }
    }

    /** `startProcess`, run at launch and when a scheduled restart fires:
        ignored during a shutdown; otherwise the child starts now, or, when
        spawning throws, the failure is handled as an exit with code 1. */
    method StartProcess(now: int, spawnThrows: bool)
      modifies this
      requires Valid() && Live()
      ensures Valid()
      ensures old(isShuttingDown) ==> unchanged(this)
      ensures !old(isShuttingDown) && !spawnThrows ==>
        running && lastStartTime == now && !isShuttingDown && restartCount == old(restartCount)
        && exitStatus == old(exitStatus) && terminateSent == old(terminateSent)
      ensures !old(isShuttingDown) && spawnThrows ==>
        !running && lastStartTime == now && !isShuttingDown && terminateSent == old(terminateSent)
        && if ShouldRestart(old(restartCount), Some(1), 0)
           then restartCount == old(restartCount) + 1 && exitStatus == old(exitStatus)
           else restartCount == old(restartCount) && exitStatus == Some(1)
    {
      if isShuttingDown {
        return;
      }
      lastStartTime := now;
      if spawnThrows {
        HandleProcessExit(Some(1), now);
      } else {
        running := true;
      }
    }

    /** `shutdown`, the handler of SIGINT and SIGTERM: from now on exits and
        restarts are ignored, a running child is asked to terminate, and the
        supervisor exits with status 0. */
    method Shutdown()
      modifies this
      requires Valid() && Live()
      ensures Valid() && Live()
      ensures isShuttingDown && exitStatus == Some(0)
      ensures terminateSent == (old(terminateSent) || old(running))
      ensures restartCount == old(restartCount) && running == old(running) && lastStartTime == old(lastStartTime)
    {
      isShuttingDown := true;
      if running {
        terminateSent := true;
      }
      exitStatus := Some(0);
    }
  }
}
