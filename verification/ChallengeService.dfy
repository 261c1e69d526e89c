/** The challenge service, changing challenges, workflows and provider states in place. */
module ChallengeServices {
  import opened Prelude
  import opened Challenges
  import Workflows
  import AuthStates

  class ChallengeService {
    const workflows: Workflows.HumanInTheLoopService
    const providers: AuthStates.AuthProviderService
    var challenges: seq<Challenge>

    ghost function Contents(): State
      reads this, workflows, providers
    {
      State(workflows.runs, challenges, providers.states)
    }

    constructor (workflows: Workflows.HumanInTheLoopService, providers: AuthStates.AuthProviderService)
      requires workflows.runs == [] && providers.states == map[]
      ensures this.workflows == workflows && this.providers == providers
      ensures Contents() == INITIAL
    {
      this.workflows, this.providers := workflows, providers;
      challenges := [];
    }

    method EnsureOpen(provider: nat, kind: ChallengeType, o: Opening) returns (id: nat)
      modifies this, workflows
      ensures (Contents(), id) == Challenges.EnsureOpen(old(Contents()), provider, kind, o)
    {
      var existing := GetInFlight(challenges, provider, kind);
      if existing.Some? {
        return existing.value;
      }
      var workflow := workflows.StartRun(o.maxRetries + 1, Some(o.expiresIn), o.token, o.now);
      if o.humanRequired {
        var paused := workflows.PauseForHumanAction(workflow);
      }
      ghost var started := Workflows.Start(o.maxRetries + 1, Some(o.expiresIn), o.token, o.now);
      assert workflows.runs ==
        old(workflows.runs) + [if o.humanRequired then started.(status := Workflows.PausedHumanAction) else started];
      id := |challenges|;
      challenges := challenges + [Challenge(provider, kind, Open, o.humanRequired, Some(workflow), None)];
    }

    method Escalate(id: nat) returns (r: Result<(), Error>)
      modifies this, workflows
      ensures (Contents(), r) == Challenges.Escalate(old(Contents()), id)
    {
      if id >= |challenges| {
        return Err(NotFound);
      }
      var challenge := challenges[id];
      if challenge.status == HumanActionRequired {
        return Ok(());
      }
      if Terminal(challenge.status) {
        return Err(AlreadyClosed);
      }
      var savepoint := challenges;
      challenges := challenges[id := challenge.(status := HumanActionRequired)];
      if challenge.workflow.Some? {
        if challenge.workflow.value >= |workflows.runs| {
          challenges := savepoint;
          return Err(NotFound);
        }
        var paused := workflows.PauseForHumanAction(challenge.workflow.value);
        if paused.Err? {
          challenges := savepoint;
          return Err(WorkflowError(paused.error));
        }
      }
      r := Ok(());
    }

    method Acknowledge(id: nat) returns (r: Result<(), Error>)
      modifies this
      ensures (Contents(), r) == Challenges.Acknowledge(old(Contents()), id)
    {
      if id >= |challenges| {
        return Err(NotFound);
      }
      if challenges[id].status == Acknowledged {
        return Ok(());
      }
      if Terminal(challenges[id].status) {
        return Err(AlreadyClosed);
      }
      challenges := challenges[id := challenges[id].(status := Acknowledged)];
      r := Ok(());
    }

    /** Finish the workflow after a resolution; a refused resume leaves the run as the resume marked it. */
    method FinishWorkflowAfterResolution(workflow: nat, now: Time) returns (r: Result<(), Workflows.Error>)
      requires workflow < |workflows.runs|
      modifies workflows
      ensures match FinishWorkflow(old(workflows.runs)[workflow], now)
              case Ok(run) => r == Ok(()) && workflows.runs == old(workflows.runs)[workflow := run]
              case Err(e) =>
                && r == Err(e)
                && workflows.runs == old(workflows.runs)[workflow := MarkedByResume(old(workflows.runs)[workflow], now)]
    {
      var run := workflows.runs[workflow];
      if run.status == Workflows.Running {
        r := workflows.Finish(workflow, Workflows.Completed);
      } else {
        r := workflows.ResumeRun(workflow, Some(run.token), now);
      }
    }

    method Complete(id: nat, how: Resolution, now: Time) returns (r: Result<(), Error>)
      modifies this, workflows, providers
      ensures (Contents(), r) == Challenges.Complete(old(Contents()), id, how, now)
    {
      if id >= |challenges| {
        return Err(NotFound);
      }
      if Terminal(challenges[id].status) {
        return Err(AlreadyClosed);
      }
      var savedChallenges, savedRuns, savedStates := challenges, workflows.runs, providers.states;
      if challenges[id].status == Open {
        var acknowledged := Acknowledge(id);
      }
      var challenge := challenges[id];
      challenges := challenges[id := challenge.(status := Resolved, resolution := Some(how))];
      assert challenges == savedChallenges[id := savedChallenges[id].(status := Resolved, resolution := Some(how))];
      var authenticated := providers.Apply(challenge.provider, AuthStates.Authenticated);
      if authenticated.Err? {
        challenges := savedChallenges;
        return Err(AuthError(authenticated.error));
      }
      if challenge.workflow.Some? {
        if challenge.workflow.value >= |workflows.runs| {
          challenges, providers.states := savedChallenges, savedStates;
          return Err(NotFound);
        }
        var finished := FinishWorkflowAfterResolution(challenge.workflow.value, now);
        if finished.Err? {
          challenges, workflows.runs, providers.states := savedChallenges, savedRuns, savedStates;
          return Err(WorkflowError(finished.error));
        }
      }
      r := Ok(());
    }

    /** cancel and time_out: close the challenge and end its workflow alike. */
    method Close(id: nat, status: Status, target: Workflows.Status) returns (r: Result<(), Error>)
      requires (status, target) in {(Cancelled, Workflows.Cancelled), (TimedOut, Workflows.TimedOut)}
      modifies this, workflows
      ensures (Contents(), r) == Challenges.Close(old(Contents()), id, status, target)
    {
      if id >= |challenges| {
        return Err(NotFound);
      }
      var challenge := challenges[id];
      if Terminal(challenge.status) {
        return Err(AlreadyClosed);
      }
      var savepoint := challenges;
      challenges := challenges[id := challenge.(status := status)];
      if challenge.workflow.Some? {
        if challenge.workflow.value >= |workflows.runs| {
          challenges := savepoint;
          return Err(NotFound);
        }
        var ended := workflows.Finish(challenge.workflow.value, target);
        if ended.Err? {
          challenges := savepoint;
          return Err(WorkflowError(ended.error));
        }
      }
      r := Ok(());
    }

    method ResolveSuperseded(provider: nat, now: Time) returns (r: Result<(), Error>)
      modifies this, workflows
      ensures (Contents(), r) == Challenges.ResolveSuperseded(old(Contents()), provider, now)
    {
      var savedChallenges, savedRuns := challenges, workflows.runs;
      ghost var start := Contents();
      for i := 0 to |savedChallenges|
        invariant |challenges| == |savedChallenges|
        invariant (Contents(), Ok(())) == SupersedeFirst(start, provider, i, now)
      {
        var challenge := challenges[i];
        if challenge.provider == provider && InFlight(challenge.status) {
          challenges := challenges[i := challenge.(status := Resolved, resolution := Some(Superseded))];
          if challenge.workflow.Some? {
            if challenge.workflow.value >= |workflows.runs| {
              SupersedeStops(start, provider, i + 1, |start.challenges|, now);
              challenges, workflows.runs := savedChallenges, savedRuns;
              return Err(NotFound);
            }
            var finished := FinishWorkflowAfterResolution(challenge.workflow.value, now);
            if finished.Err? {
              SupersedeStops(start, provider, i + 1, |start.challenges|, now);
              challenges, workflows.runs := savedChallenges, savedRuns;
              return Err(WorkflowError(finished.error));
            }
          }
        }
      }
      r := Ok(());
    }

    /** The automation hand-off of a challenge to a human. */
    method HandOff(provider: nat, kind: ChallengeType, now: Time, token: nat) returns (id: nat)
      modifies this, workflows
      ensures (Contents(), id) == Challenges.HandOff(old(Contents()), provider, kind, now, token)
    {
      id := EnsureOpen(provider, kind, Opening(true, 60 * 60 * 24, 2, now, token));
      challenges := challenges[id := challenges[id].(status := HumanActionRequired)];
    }
  }

  /** The run object a resume with its own token leaves behind. */
  function MarkedByResume(run: Workflows.Run, now: Time): Workflows.Run {
    Workflows.Resume(run, Some(run.token), now).0
  }

  /** The first refusal while superseding is the outcome of the whole pass. */
  lemma {:induction false} SupersedeStops(s: State, provider: nat, m: nat, n: nat, now: Time)
    requires m <= n <= |s.challenges|
    requires SupersedeFirst(s, provider, m, now).1.Err?
    ensures SupersedeFirst(s, provider, n, now).1 == SupersedeFirst(s, provider, m, now).1
  {
    if m < n {
      SupersedeStops(s, provider, m, n - 1, now);
    }
  }
}
