/** One managed process: its command slot, its stop flag and its restarts
    (internal/stackcmd/process_launcher.go). */
module ProcessRestart {
  import opened Wrappers

  datatype RestartPolicy = Never | OnFailure | Always

  /** What happens when the process is launched: it does not start, or it runs and exits; a stop
      may be requested before the launch or while the process runs. */
  datatype Launch = Launch(stopBefore: bool, starts: bool, stopDuring: bool, fails: bool)

  datatype Ending = StillRunning | Canceled | StartFailed | Stopped | Exited(failed: bool) | ExceededLimit(failed: bool)

  datatype Decision = Decision(restart: bool, exceeded: bool)

  function RestartDecision(policy: RestartPolicy, maxRestarts: int, failed: bool, restarts: nat): Decision {
    match policy
    case Always => if maxRestarts > 0 && restarts >= maxRestarts then Decision(false, true) else Decision(true, false)
    case OnFailure =>
      if !failed then Decision(false, false)
      else if maxRestarts > 0 && restarts >= maxRestarts then Decision(false, true)
      else Decision(true, false)
    case Never => Decision(false, false)
  }

  /** An exit the policy answers with a restart, limits aside. */
  predicate WantsRestart(policy: RestartPolicy, l: Launch) {
    l.starts && !l.stopDuring && (policy.Always? || (policy.OnFailure? && l.fails))
  }

  /** Nothing restarts a process that did not start, was stopped, or must not be restarted; otherwise
      the policy decides by how it exited. */
  lemma PolicyDecides(l: Launch)
    ensures !WantsRestart(Never, l)
    ensures WantsRestart(Always, l) <==> l.starts && !l.stopDuring
    ensures WantsRestart(OnFailure, l) <==> l.starts && !l.stopDuring && l.fails
  {
  }

  class ProcessLifecycle {
    const restartPolicy: RestartPolicy
    const maxRestarts: int
    /** The command in the slot, by launch number. */
    var cmd: Option<nat>
    var stopRequested: bool
    var launched: nat

    constructor (restartPolicy: RestartPolicy, maxRestarts: int)
      ensures this.restartPolicy == restartPolicy && this.maxRestarts == maxRestarts
      ensures cmd == None && !stopRequested && launched == 0
    {
      this.restartPolicy, this.maxRestarts := restartPolicy, maxRestarts;
      cmd, stopRequested, launched := None, false, 0;
    }

    /** Takes the command slot, unless a stop was requested or a command is in it. */
    method PrepareCommand() returns (taken: bool)
      modifies this
      ensures taken == (!old(stopRequested) && old(cmd) == None)
      ensures stopRequested == old(stopRequested)
      ensures launched == old(launched) + if taken then 1 else 0
      ensures cmd == if taken then Some(old(launched)) else old(cmd)
    {
      if stopRequested {
        return false;
      }
      if cmd != None {
        return false;
      }
      cmd := Some(launched);
      launched := launched + 1;
      return true;
    }

    /** Gives the slot back and tells whether a stop was requested. */
    method MarkWait() returns (stopping: bool)
      modifies this
      ensures cmd == None && stopping == stopRequested == old(stopRequested) && launched == old(launched)
    {
      cmd := None;
      return stopRequested;
    }

    method RequestStop()
      modifies this
      ensures stopRequested && cmd == old(cmd) && launched == old(launched)
    {
      stopRequested := true;
    }

    /** Launches the process until it is done, against a script of what each launch meets.  Every
        launch but the last exited in a way the policy restarts after, with a limit the process
        was launched at most one time more often than that, and the ending says which of the
        conditions ended it. */
    method Start(script: seq<Launch>) returns (launches: nat, ending: Ending)
      requires cmd == None && !stopRequested && launched == 0
      modifies this
      ensures launches == launched <= |script| && cmd == None
      ensures ending == StillRunning <==>
              launches == |script| && Continues(restartPolicy, maxRestarts, script, launches)
      ensures forall i | 0 <= i < launches - 1 :: WantsRestart(restartPolicy, script[i]) && !script[i].stopBefore
      ensures maxRestarts > 0 ==> launches <= maxRestarts + 1
      ensures ending == Canceled ==> launches < |script| && script[launches].stopBefore
      ensures ending != StillRunning && ending != Canceled ==>
        (launches > 0 && ending == EndingOf(restartPolicy, maxRestarts, script[launches - 1], launches - 1))
      ensures ending == StartFailed ==> launches > 0 && !script[launches - 1].starts
      ensures ending == Stopped ==> launches > 0 && script[launches - 1].starts && script[launches - 1].stopDuring
      ensures ending.Exited? ==>
        && launches > 0 && ending.failed == script[launches - 1].fails
        && (restartPolicy.Never? || (restartPolicy.OnFailure? && !ending.failed))
      ensures ending.ExceededLimit? ==>
        && launches == maxRestarts + 1 && maxRestarts > 0 && ending.failed == script[launches - 1].fails
        && (restartPolicy.Always? || (restartPolicy.OnFailure? && ending.failed))
    {
      var restarts := 0;
      ending := StillRunning;
      while restarts < |script|
        invariant restarts == launched <= |script| && cmd == None && !stopRequested && ending == StillRunning
        invariant forall i | 0 <= i < restarts :: WantsRestart(restartPolicy, script[i]) && !script[i].stopBefore
        invariant maxRestarts > 0 ==> restarts <= maxRestarts
        decreases |script| - restarts
      {
        var l := script[restarts];
        if l.stopBefore {
          RequestStop();
        }
        var prepared := PrepareCommand();
        if !prepared {
          return launched, Canceled;
        }
        if !l.starts {
          var _ := MarkWait();
          return launched, StartFailed;
        }
        if l.stopDuring {
          RequestStop();
        }
        var stopping := MarkWait();
        if stopping {
          return launched, Stopped;
        }
        var decision := RestartDecision(restartPolicy, maxRestarts, l.fails, restarts);
        if !decision.restart {
          return launched, if decision.exceeded then ExceededLimit(l.fails) else Exited(l.fails);
        }
        restarts := restarts + 1;
      }
      launches := launched;
    }
  }

  /** The first `n` launches all exit in a way the policy and the limit restart after. */
  predicate Continues(policy: RestartPolicy, maxRestarts: int, script: seq<Launch>, n: nat)
    requires n <= |script|
  {
    forall i | 0 <= i < n ::
      !script[i].stopBefore && WantsRestart(policy, script[i]) && (maxRestarts > 0 ==> i < maxRestarts)
  }

  /** How a launch after `restarts` restarts ends the process, if it does. */
  function EndingOf(policy: RestartPolicy, maxRestarts: int, l: Launch, restarts: nat): Ending {
    if !l.starts then StartFailed
    else if l.stopDuring then Stopped
    else if !WantsRestart(policy, l) then Exited(l.fails)
    else if maxRestarts > 0 && restarts >= maxRestarts then ExceededLimit(l.fails)
    else StillRunning
  }
}
