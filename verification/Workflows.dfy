/**
 * The human-in-the-loop workflow: a run starts RUNNING, pauses for a human,
 * and is resumed with its token within its attempt budget.
 */
module Workflows {
  import opened Prelude

  datatype Status = Running | PausedHumanAction | Resumed | Completed | Cancelled | TimedOut | Failed

  const TERMINAL: set<Status> := {Completed, Cancelled, TimedOut, Failed}

  /** The transition table. */
  function Targets(status: Status): set<Status> {
    match status
    case Running => {PausedHumanAction} + TERMINAL
    case PausedHumanAction => TERMINAL + {Running} + {Resumed}
    case Resumed => TERMINAL
    case _ => {}
  }

  predicate CanTransition(current: Status, target: Status) {
    target in Targets(current)
  }

  datatype Run = Run(
    status: Status,
    attempts: int,
    maxAttempts: int,
    expiresAt: Option<Time>,
    token: nat)

  datatype Error =
    | NotFound
    | IllegalTransition
    | AlreadyTerminal
    | NotResumable
    | InvalidToken
    | Expired
    | AttemptsExceeded

  /** A new run; a zero lifetime means it never expires. */
  function Start(maxAttempts: int, expiresIn: Option<int>, token: nat, now: Time): Run {
    Run(Running, 0, maxAttempts,
        if expiresIn.Some? && expiresIn.value != 0 then Some(now + expiresIn.value) else None,
        token)
  }

  function Transition(run: Run, target: Status): Result<Run, Error> {
    if CanTransition(run.status, target) then Ok(run.(status := target)) else Err(IllegalTransition)
  }

  /** Pausing a finished run is a no-op; pausing a paused one is an illegal transition. */
  function Pause(run: Run): Result<Run, Error> {
    if run.status in TERMINAL then Ok(run) else Transition(run, PausedHumanAction)
  }

  /**
   * The run object after a resume, and the outcome. Two refusals still change
   * the object: an expired run is marked timed out and an exhausted one failed.
   */
  function Resume(run: Run, token: Option<nat>, now: Time): (Run, Result<(), Error>) {
    if run.status == Running then (run, Ok(()))
    else if run.status in TERMINAL then (run, Err(AlreadyTerminal))
    else if run.status != PausedHumanAction && run.status != Resumed then (run, Err(NotResumable))
    else if token != Some(run.token) then (run, Err(InvalidToken))
    else if run.expiresAt.Some? && now > run.expiresAt.value then (run.(status := TimedOut), Err(Expired))
    else if run.attempts >= run.maxAttempts then (run.(status := Failed), Err(AttemptsExceeded))
    else
      var counted := run.(attempts := run.attempts + 1);
      match Transition(counted, Running)
      case Ok(resumed) => (resumed, Ok(()))
      case Err(e) => (counted, Err(e))
  }

  // ------------------------------------------------------------- exact outcomes

  predicate IsOver(status: Status) {
    status.Completed? || status.Cancelled? || status.TimedOut? || status.Failed?
  }

  /** A running run may pause or end, a paused one may run again or end, a finished one nothing; only the status changes. */
  lemma TransitionExactly(run: Run, target: Status)
    ensures var r := Transition(run, target);
            && (r.Ok? <==>
                  match run.status
                  case Running => target.PausedHumanAction? || IsOver(target)
                  case PausedHumanAction => !target.PausedHumanAction?
                  case Resumed => IsOver(target)
                  case _ => false)
            && (r.Ok? ==> r.value == run.(status := target))
            && (r.Err? ==> r.error == IllegalTransition)
  {
  }

  /** Pausing changes a running run alone; it is refused on a paused or resumed one. */
  lemma PauseExactly(run: Run)
    ensures Pause(run).Ok? <==> !run.status.PausedHumanAction? && !run.status.Resumed?
    ensures run.status.Running? ==> Pause(run) == Ok(run.(status := PausedHumanAction))
    ensures IsOver(run.status) ==> Pause(run) == Ok(run)
  {
  }

  /**
   * A resume is accepted exactly on a running run, which it leaves alone, and on
   * a paused one whose own token is shown, before it expires and with an attempt
   * left, which it sets running and charges one attempt.
   */
  lemma ResumeAcceptedExactly(run: Run, token: Option<nat>, now: Time)
    ensures var (run', r) := Resume(run, token, now);
            && (r.Ok? <==>
                  || run.status.Running?
                  || (&& run.status.PausedHumanAction?
                      && token.Some? && token.value == run.token
                      && (run.expiresAt.Some? ==> now <= run.expiresAt.value)
                      && run.attempts < run.maxAttempts))
            && (r.Ok? && run.status.Running? ==> run' == run)
            && (r.Ok? && !run.status.Running? ==> run' == run.(status := Running, attempts := run.attempts + 1))
  {
  }

  /** Why a resume is refused, and the mark it leaves on the run object: none, unless it expired or used up its attempts. */
  lemma ResumeRefusalIsTrue(run: Run, token: Option<nat>, now: Time)
    requires Resume(run, token, now).1.Err?
    ensures var (run', r) := Resume(run, token, now);
            match r.error
            case AlreadyTerminal => IsOver(run.status) && run' == run
            case InvalidToken => token != Some(run.token) && run' == run
            case Expired => run.expiresAt.Some? && now > run.expiresAt.value && run' == run.(status := TimedOut)
            case AttemptsExceeded => run.attempts >= run.maxAttempts && run' == run.(status := Failed)
            case IllegalTransition => run.status.Resumed?
            case _ => false
  {
  }

  /** A new run is running, has used no attempt, and expires after its lifetime, or never for an absent or zero one. */
  lemma StartExactly(maxAttempts: int, expiresIn: Option<int>, token: nat, now: Time)
    ensures var run := Start(maxAttempts, expiresIn, token, now);
            && run.status.Running? && run.attempts == 0 && run.maxAttempts == maxAttempts && run.token == token
            && (run.expiresAt.Some? <==> expiresIn.Some? && expiresIn.value != 0)
            && (run.expiresAt.Some? ==> run.expiresAt.value == now + expiresIn.value)
  {
  }

  // ----------------------------------------------------------- bounded stepping

  datatype Call = PauseCall | ResumeCall(token: Option<nat>, now: Time) | FinishCall(target: Status)

  /** The run object after one call, whether the call succeeds or raises. */
  function Step(run: Run, call: Call): Run {
    match call
    case PauseCall => if Pause(run).Ok? then Pause(run).value else run
    case ResumeCall(token, now) => Resume(run, token, now).0
    case FinishCall(target) => if target in TERMINAL && Transition(run, target).Ok? then Transition(run, target).value else run
  }

  function StepAll(run: Run, calls: seq<Call>): Run {
    if calls == [] then run else Step(StepAll(run, calls[..|calls| - 1]), calls[|calls| - 1])
  }

  /** How many of the calls changed the status. */
  function Changes(run: Run, calls: seq<Call>): nat {
    if calls == [] then 0
    else
      var before := StepAll(run, calls[..|calls| - 1]);
      Changes(run, calls[..|calls| - 1]) + if Step(before, calls[|calls| - 1]).status != before.status then 1 else 0
  }

  /** What a run can still change: a pause and a resume per remaining attempt, one last pause, one end. */
  function Potential(run: Run): nat {
    var left := Max(0, run.maxAttempts - run.attempts);
    match run.status
    case Running => 2 * left + 2
    case PausedHumanAction => 2 * left + 1
    case _ => 0
  }

  ghost predicate Reached(run: Run) {
    && run.status != Resumed
    && 0 <= run.attempts <= Max(0, run.maxAttempts)
  }

  lemma StepUsesPotential(run: Run, call: Call)
    requires Reached(run)
    ensures var next := Step(run, call);
            && Reached(next)
            && next.maxAttempts == run.maxAttempts
            && Potential(next) <= Potential(run) - (if next.status != run.status then 1 else 0)
            && (run.status in TERMINAL ==> next == run)
            && (next.attempts != run.attempts ==>
                  next.attempts == run.attempts + 1 && run.status == PausedHumanAction && next.status == Running)
  {
  }

  /**
   * However pause, resume and finish are called, a started run changes status
   * at most 2 * max_attempts + 2 times, never exceeds its budget and never
   * reaches RESUMED.
   */
  lemma {:induction false} BoundedChanges(run: Run, calls: seq<Call>)
    requires run.status == Running && run.attempts == 0
    ensures var last := StepAll(run, calls);
            && Changes(run, calls) + Potential(last) <= 2 * Max(0, run.maxAttempts) + 2
            && Reached(last)
            && last.maxAttempts == run.maxAttempts
  {
    if calls != [] {
      BoundedChanges(run, calls[..|calls| - 1]);
      StepUsesPotential(StepAll(run, calls[..|calls| - 1]), calls[|calls| - 1]);
    }
  }

  /** The bound is reached: pausing and resuming until the budget is gone, then ending. */
  lemma {:induction false} BoundIsTight(run: Run, now: Time)
    requires run.status == Running && run.attempts == 0 && run.maxAttempts >= 0 && run.expiresAt.None?
    ensures Changes(run, Cycles(run, run.maxAttempts, now) + [PauseCall, FinishCall(Cancelled)])
            == 2 * run.maxAttempts + 2
  {
    var calls := Cycles(run, run.maxAttempts, now);
    CyclesChange(run, run.maxAttempts, now);
    assert calls + [PauseCall, FinishCall(Cancelled)] == (calls + [PauseCall]) + [FinishCall(Cancelled)];
    hide StepAll, Changes;
    OneMoreCall(run, calls, PauseCall);
    OneMoreCall(run, calls + [PauseCall], FinishCall(Cancelled));
  }

  function Cycles(run: Run, n: nat, now: Time): seq<Call> {
    if n == 0 then [] else Cycles(run, n - 1, now) + [PauseCall, ResumeCall(Some(run.token), now)]
  }

  lemma {:induction false} CyclesChange(run: Run, n: nat, now: Time)
    requires run.status == Running && run.attempts == 0 && n <= run.maxAttempts && run.expiresAt.None?
    ensures Changes(run, Cycles(run, n, now)) == 2 * n
    ensures StepAll(run, Cycles(run, n, now)) == run.(attempts := n)
  {
    if n > 0 {
      CyclesChange(run, n - 1, now);
      var calls := Cycles(run, n - 1, now);
      var resume := ResumeCall(Some(run.token), now);
      assert Cycles(run, n, now) == (calls + [PauseCall]) + [resume];
      hide StepAll, Changes, Cycles, Step;
      OneMoreCall(run, calls, PauseCall);
      OneMoreCall(run, calls + [PauseCall], resume);
      OneCycle(run.(attempts := n - 1), now);
    }
  }

  lemma OneCycle(run: Run, now: Time)
    requires run.status == Running && run.attempts < run.maxAttempts && run.expiresAt.None?
    ensures var paused := Step(run, PauseCall);
            && paused == run.(status := PausedHumanAction)
            && Step(paused, ResumeCall(Some(run.token), now)) == run.(attempts := run.attempts + 1)
  {
  }

  lemma OneMoreCall(run: Run, calls: seq<Call>, call: Call)
    ensures StepAll(run, calls + [call]) == Step(StepAll(run, calls), call)
    ensures Changes(run, calls + [call]) ==
            Changes(run, calls) + if Step(StepAll(run, calls), call).status != StepAll(run, calls).status then 1 else 0
  {
    assert (calls + [call])[..|calls|] == calls;
  }

  /** A finished run is never changed by any sequence of calls. */
  lemma {:induction false} TerminalIsAbsorbing(run: Run, calls: seq<Call>)
    requires run.status in TERMINAL
    ensures StepAll(run, calls) == run && Changes(run, calls) == 0
  {
    if calls != [] {
      TerminalIsAbsorbing(run, calls[..|calls| - 1]);
    }
  }

  // ---------------------------------------------------------------------- service

  /** The workflow service of one candidate; a run's id is its position. */
  class HumanInTheLoopService {
    var runs: seq<Run>

    constructor ()
      ensures runs == []
    {
      runs := [];
    }

    method StartRun(maxAttempts: int, expiresIn: Option<int>, token: nat, now: Time) returns (id: nat)
      modifies this
      ensures id == |old(runs)| && runs == old(runs) + [Start(maxAttempts, expiresIn, token, now)]
    {
      id := |runs|;
      var run := Run(Running, 0, maxAttempts, None, token);
      if expiresIn.Some? && expiresIn.value != 0 {
        run := run.(expiresAt := Some(now + expiresIn.value));
      }
      runs := runs + [run];
    }

    method ApplyAndUpdate(id: nat, target: Status) returns (r: Result<(), Error>)
      requires id < |runs|
      modifies this
      ensures r == (match Transition(old(runs)[id], target) case Ok(_) => Ok(()) case Err(e) => Err(e))
      ensures runs == if r.Ok? then old(runs)[id := old(runs)[id].(status := target)] else old(runs)
    {
      if !CanTransition(runs[id].status, target) {
        return Err(IllegalTransition);
      }
      runs := runs[id := runs[id].(status := target)];
      r := Ok(());
    }

    method PauseForHumanAction(id: nat) returns (r: Result<(), Error>)
      requires id < |runs|
      modifies this
      ensures match Pause(old(runs)[id])
              case Ok(run) => r == Ok(()) && runs == old(runs)[id := run]
              case Err(e) => r == Err(e) && runs == old(runs)
    {
      if runs[id].status in TERMINAL {
        return Ok(());
      }
      r := ApplyAndUpdate(id, PausedHumanAction);
    }

    /** The run rows after the call hold the object's state even when it raises. */
    method ResumeRun(id: nat, token: Option<nat>, now: Time) returns (r: Result<(), Error>)
      requires id < |runs|
      modifies this
      ensures r == Resume(old(runs)[id], token, now).1
      ensures runs == old(runs)[id := Resume(old(runs)[id], token, now).0]
    {
      var run := runs[id];
      if run.status == Running {
        return Ok(());
      }
      if run.status in TERMINAL {
        return Err(AlreadyTerminal);
      }
      if run.status != PausedHumanAction && run.status != Resumed {
        return Err(NotResumable);
      }
      if token != Some(run.token) {
        return Err(InvalidToken);
      }
      if run.expiresAt.Some? && now > run.expiresAt.value {
        var _ := ApplyAndUpdate(id, TimedOut);
        return Err(Expired);
      }
      if run.attempts >= run.maxAttempts {
        var _ := ApplyAndUpdate(id, Failed);
        return Err(AttemptsExceeded);
      }
      runs := runs[id := run.(attempts := run.attempts + 1)];
      r := ApplyAndUpdate(id, Running);
    }

    /** mark_completed, cancel, mark_timed_out and mark_failed. */
    method Finish(id: nat, target: Status) returns (r: Result<(), Error>)
      requires id < |runs| && target in TERMINAL
      modifies this
      ensures match Transition(old(runs)[id], target)
              case Ok(run) => r == Ok(()) && runs == old(runs)[id := run]
              case Err(e) => r == Err(e) && runs == old(runs)
    {
      r := ApplyAndUpdate(id, target);
    }
  }
}
