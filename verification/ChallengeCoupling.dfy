/** The invariant that ties challenges to their workflows over every run of operations. */
module ChallengeCoupling {
  import opened Prelude
  import opened Challenges
  import Workflows
  import AuthStates

  /** What a challenge's status says about its workflow; `attempts` counts the resumes. */
  ghost predicate Linked(c: Challenge, run: Workflows.Run) {
    match c.status
    case Resolved =>
      || (run.status == Workflows.Completed && run.attempts == 0)
      || (run.status == Workflows.Running && run.attempts == 1)
    case Cancelled => run.status == Workflows.Cancelled && run.attempts == 0
    case TimedOut => run.status == Workflows.TimedOut && run.attempts == 0
    case Failed => false
    case _ =>
      && run.status in {Workflows.Running, Workflows.PausedHumanAction}
      && run.attempts == 0
      && (c.humanRequired ==> run.status == Workflows.PausedHumanAction)
  }

  ghost predicate LinkedAt(s: State, i: nat)
    requires i < |s.challenges|
  {
    && s.challenges[i].workflow.Some?
    && s.challenges[i].workflow.value < |s.workflows|
    && Linked(s.challenges[i], s.workflows[s.challenges[i].workflow.value])
  }

  ghost predicate NoneShared(s: State) {
    forall i, j :: 0 <= i < j < |s.challenges| ==> s.challenges[i].workflow != s.challenges[j].workflow
  }

  ghost predicate OneInFlight(s: State) {
    forall i, j :: 0 <= i < j < |s.challenges| && InFlight(s.challenges[i].status) && InFlight(s.challenges[j].status) ==>
      !SameSlot(s.challenges[i], s.challenges[j].provider, s.challenges[j].kind)
  }

  ghost predicate AllLinked(s: State) {
    forall i :: 0 <= i < |s.challenges| ==> LinkedAt(s, i)
  }

  ghost predicate Coupled(s: State) {
    AllLinked(s) && NoneShared(s) && OneInFlight(s)
  }

  /** Two states that differ in one challenge and its workflow only. */
  ghost predicate Changed(s: State, s': State, id: nat) {
    && id < |s.challenges| == |s'.challenges|
    && s'.challenges == s.challenges[id := s'.challenges[id]]
    && s'.challenges[id].workflow == s.challenges[id].workflow
    && s'.challenges[id].provider == s.challenges[id].provider
    && s'.challenges[id].kind == s.challenges[id].kind
    && (InFlight(s'.challenges[id].status) ==> InFlight(s.challenges[id].status))
    && s.challenges[id].workflow.Some?
    && var w := s.challenges[id].workflow.value;
       && w < |s.workflows| == |s'.workflows|
       && s'.workflows == s.workflows[w := s'.workflows[w]]
  }

  lemma ChangeKeepsCoupling(s: State, s': State, id: nat)
    requires Coupled(s) && Changed(s, s', id)
    requires LinkedAt(s', id)
    ensures Coupled(s')
  {
    forall i | 0 <= i < |s'.challenges| ensures LinkedAt(s', i) {
      assert LinkedAt(s, i);
    }
  }

  lemma EnsureOpenKeepsCoupling(s: State, provider: nat, kind: ChallengeType, o: Opening)
    requires Coupled(s)
    ensures var (s', c) := EnsureOpen(s, provider, kind, o);
            && Coupled(s')
            && c < |s'.challenges| && InFlight(s'.challenges[c].status)
            && SameSlot(s'.challenges[c], provider, kind)
            && |s.challenges| <= |s'.challenges|
            && forall i :: 0 <= i < |s.challenges| ==> s'.challenges[i] == s.challenges[i]
  {
    var (s', c) := EnsureOpen(s, provider, kind, o);
    if GetInFlight(s.challenges, provider, kind).None? {
      forall i | 0 <= i < |s'.challenges| ensures LinkedAt(s', i) {
        if i < |s.challenges| {
          assert LinkedAt(s, i);
        }
      }
      forall i | 0 <= i < |s.challenges| ensures s'.challenges[i].workflow != s'.challenges[|s.challenges|].workflow {
        assert LinkedAt(s, i);
      }
    }
  }

  lemma EscalateKeepsCoupling(s: State, id: nat)
    requires Coupled(s)
    ensures Coupled(Escalate(s, id).0)
  {
    var s' := Escalate(s, id).0;
    if s' != s {
      assert LinkedAt(s, id);
      ChangeKeepsCoupling(s, s', id);
    }
  }

  lemma AcknowledgeKeepsCoupling(s: State, id: nat)
    requires Coupled(s)
    ensures Coupled(Acknowledge(s, id).0)
  {
    var s' := Acknowledge(s, id).0;
    if s' != s {
      assert LinkedAt(s, id);
      ChangeKeepsCoupling(s, s', id);
    }
  }

  lemma CloseKeepsCoupling(s: State, id: nat, status: Status, target: Workflows.Status)
    requires Coupled(s)
    requires (status, target) in {(Cancelled, Workflows.Cancelled), (TimedOut, Workflows.TimedOut)}
    ensures Coupled(Close(s, id, status, target).0)
  {
    var s' := Close(s, id, status, target).0;
    if s' != s {
      assert LinkedAt(s, id);
      ChangeKeepsCoupling(s, s', id);
    }
  }

  /** Finishing the workflow of an in-flight challenge links it to RESOLVED. */
  lemma FinishLinks(c: Challenge, run: Workflows.Run, how: Resolution, now: Time)
    requires InFlight(c.status) && Linked(c, run)
    requires FinishWorkflow(run, now).Ok?
    ensures Linked(c.(status := Resolved, resolution := Some(how)), FinishWorkflow(run, now).value)
  {
  }

  lemma CompleteKeepsCoupling(s: State, id: nat, how: Resolution, now: Time)
    requires Coupled(s)
    ensures Coupled(Complete(s, id, how, now).0)
  {
    var s' := Complete(s, id, how, now).0;
    if Complete(s, id, how, now).1.Ok? {
      assert LinkedAt(s, id);
      FinishLinks(s.challenges[id], s.workflows[s.challenges[id].workflow.value], how, now);
      ChangeKeepsCoupling(s, s', id);
    }
  }

  lemma SupersedeOneKeepsCoupling(s: State, id: nat, now: Time)
    requires Coupled(s) && id < |s.challenges| && InFlight(s.challenges[id].status)
    ensures var s' := Supersede(s, id, now).0;
            && Coupled(s')
            && |s'.challenges| == |s.challenges|
            && forall i :: 0 <= i < |s.challenges| && i != id ==> s'.challenges[i] == s.challenges[i]
  {
    assert LinkedAt(s, id);
    if Supersede(s, id, now).1.Ok? {
      FinishLinks(s.challenges[id], s.workflows[s.challenges[id].workflow.value], Superseded, now);
      ChangeKeepsCoupling(s, Supersede(s, id, now).0, id);
    }
    hide Coupled, FinishWorkflow;
  }

  lemma {:induction false} SupersedeKeepsCoupling(s: State, provider: nat, n: nat, now: Time)
    requires Coupled(s) && n <= |s.challenges|
    ensures Coupled(SupersedeFirst(s, provider, n, now).0)
    ensures forall i :: 0 <= i < n && Terminal(s.challenges[i].status) ==>
              SupersedeFirst(s, provider, n, now).0.challenges[i] == s.challenges[i]
  {
    hide Coupled, Supersede;
    if n > 0 {
      SupersedeKeepsCoupling(s, provider, n - 1, now);
      var (s', r) := SupersedeFirst(s, provider, n - 1, now);
      if r.Ok? && s'.challenges[n - 1].provider == provider && InFlight(s'.challenges[n - 1].status) {
        SupersedeOneKeepsCoupling(s', n - 1, now);
      }
    }
  }

  /** Superseding closes every in-flight challenge of the provider and leaves those of others alone. */
  lemma {:induction false} SupersedeClosesAll(s: State, provider: nat, n: nat, now: Time)
    requires n <= |s.challenges| && SupersedeFirst(s, provider, n, now).1.Ok?
    ensures var s' := SupersedeFirst(s, provider, n, now).0;
            forall i :: 0 <= i < n ==>
              if s.challenges[i].provider == provider && InFlight(s.challenges[i].status)
              then s'.challenges[i] == s.challenges[i].(status := Resolved, resolution := Some(Superseded))
              else s'.challenges[i] == s.challenges[i]
  {
    if n > 0 {
      SupersedeClosesAll(s, provider, n - 1, now);
      hide Workflows.Resume, FinishWorkflow;
    }
  }

  /** Reporting the same challenge again reuses the one in flight. */
  lemma EnsureOpenIsIdempotent(s: State, provider: nat, kind: ChallengeType, o: Opening, again: Opening)
    ensures var (s', c) := EnsureOpen(s, provider, kind, o);
            EnsureOpen(s', provider, kind, again) == (s', c)
  {
    if GetInFlight(s.challenges, provider, kind).None? {
      var s' := EnsureOpen(s, provider, kind, o).0;
      assert s'.challenges[..|s.challenges|] == s.challenges;
    }
  }

  lemma HandOffKeepsCoupling(s: State, provider: nat, kind: ChallengeType, now: Time, token: nat)
    requires Coupled(s)
    ensures var (s', c) := HandOff(s, provider, kind, now, token);
            && Coupled(s')
            && c < |s'.challenges| && s'.challenges[c].status == HumanActionRequired
            && SameSlot(s'.challenges[c], provider, kind)
            && |s.challenges| <= |s'.challenges|
            && forall i :: 0 <= i < |s.challenges| && Terminal(s.challenges[i].status) ==> s'.challenges[i] == s.challenges[i]
  {
    var o := Opening(true, 60 * 60 * 24, 2, now, token);
    EnsureOpenKeepsCoupling(s, provider, kind, o);
    var (s1, c) := EnsureOpen(s, provider, kind, o);
    var s' := HandOff(s, provider, kind, now, token).0;
    assert LinkedAt(s1, c);
    ChangeKeepsCoupling(s1, s', c);
  }

  lemma ReportKeepsCoupling(s: State, provider: nat, status: AuthStates.AuthState, now: Time, token: nat)
    requires Coupled(s)
    ensures Coupled(Report(s, provider, status, now, token).0)
    ensures |s.challenges| <= |Report(s, provider, status, now, token).0.challenges|
    ensures forall i :: 0 <= i < |s.challenges| && Terminal(s.challenges[i].status) ==>
              Report(s, provider, status, now, token).0.challenges[i] == s.challenges[i]
  {
    match AuthStates.ApplyState(s.auth, provider, status)
    case Err(_) =>
    case Ok(auth) =>
      var reported := s.(auth := auth);
      SameRowsSameCoupling(s, reported);
      hide Coupled, Escalate;
      if IsSettled(status) {
        SupersedeKeepsCoupling(reported, provider, |s.challenges|, now);
      } else if TypeFor(status).Some? {
        var o := Opening(true, 60 * 60 * 24, 2, now, token);
        EnsureOpenKeepsCoupling(reported, provider, TypeFor(status).value, o);
        var (waiting, c) := EnsureOpen(reported, provider, TypeFor(status).value, o);
        EscalateKeepsCoupling(waiting, c);
        EscalateTouchesOne(waiting, c);
      }
  }

  lemma EscalateTouchesOne(s: State, id: nat)
    requires id < |s.challenges| && InFlight(s.challenges[id].status)
    ensures var s' := Escalate(s, id).0;
            && |s'.challenges| == |s.challenges|
            && forall i :: 0 <= i < |s.challenges| && i != id ==> s'.challenges[i] == s.challenges[i]
  {
  }

  lemma ApplyKeepsCoupling(s: State, op: Op)
    requires Coupled(s)
    ensures Coupled(Apply(s, op))
  {
    match op
    case EnsureOpenOp(provider, kind, o) => EnsureOpenKeepsCoupling(s, provider, kind, o);
    case EscalateOp(id) => EscalateKeepsCoupling(s, id);
    case AcknowledgeOp(id) => AcknowledgeKeepsCoupling(s, id);
    case CompleteOp(id, how, now) => CompleteKeepsCoupling(s, id, how, now);
    case CancelOp(id) => CloseKeepsCoupling(s, id, Cancelled, Workflows.Cancelled);
    case TimeOutOp(id) => CloseKeepsCoupling(s, id, TimedOut, Workflows.TimedOut);
    case ResolveSupersededOp(provider, now) => SupersedeKeepsCoupling(s, provider, |s.challenges|, now);
    case HandOffOp(provider, kind, now, token) => HandOffKeepsCoupling(s, provider, kind, now, token);
    case ReportOp(provider, status, now, token) => ReportKeepsCoupling(s, provider, status, now, token);
    case EnsureProviderOp(provider) => SameRowsSameCoupling(s, EnsureProvider(s, provider));
  }

  lemma SameRowsSameCoupling(s: State, s': State)
    requires Coupled(s) && s'.challenges == s.challenges && s'.workflows == s.workflows
    ensures Coupled(s')
  {
    forall i | 0 <= i < |s'.challenges| ensures LinkedAt(s', i) {
      assert LinkedAt(s, i);
    }
  }

  // ---------------------------------------------------------------- main results

  lemma {:induction false} RunKeepsCoupling(ops: seq<Op>)
    ensures Coupled(Run(INITIAL, ops))
  {
    if ops != [] {
      RunKeepsCoupling(ops[..|ops| - 1]);
      ApplyKeepsCoupling(Run(INITIAL, ops[..|ops| - 1]), ops[|ops| - 1]);
    }
  }

  /** A workflow is resumed at most once, and only when its challenge has been resolved. */
  lemma ResumedOnceAfterResolution(ops: seq<Op>, i: nat)
    requires i < |Run(INITIAL, ops).challenges|
    ensures var s := Run(INITIAL, ops);
            var c := s.challenges[i];
            && c.workflow.Some? && c.workflow.value < |s.workflows|
            && var run := s.workflows[c.workflow.value];
               && 0 <= run.attempts <= 1
               && (run.attempts == 1 ==> c.status == Resolved && run.status == Workflows.Running)
               && (InFlight(c.status) && c.humanRequired ==> run.status == Workflows.PausedHumanAction)
               && (c.status == Resolved && run.attempts == 0 ==> run.status == Workflows.Completed)
  {
    RunKeepsCoupling(ops);
    assert LinkedAt(Run(INITIAL, ops), i);
  }

  lemma NoneDisappear(s: State, op: Op)
    ensures |s.challenges| <= |Apply(s, op).challenges|
  {
  }

  /** A closed challenge is never reopened or changed. */
  lemma ClosedIsFinal(s: State, op: Op, i: nat)
    requires Coupled(s) && i < |s.challenges| && Terminal(s.challenges[i].status)
    ensures i < |Apply(s, op).challenges| && Apply(s, op).challenges[i] == s.challenges[i]
  {
    match op
    case EnsureOpenOp(provider, kind, o) => EnsureOpenKeepsCoupling(s, provider, kind, o);
    case ResolveSupersededOp(provider, now) => SupersedeKeepsCoupling(s, provider, |s.challenges|, now);
    case HandOffOp(provider, kind, now, token) => HandOffKeepsCoupling(s, provider, kind, now, token);
    case ReportOp(provider, status, now, token) => ReportKeepsCoupling(s, provider, status, now, token);
    case _ =>
  }

  /**
   * The code calls escalation idempotent, but it raises on a challenge whose
   * workflow is already paused: it succeeds exactly on one marked
   * HUMAN_ACTION_REQUIRED already, or in flight with a running workflow.
   */
  lemma EscalateSucceedsExactly(s: State, id: nat)
    requires id < |s.challenges| && LinkedAt(s, id)
    ensures Escalate(s, id).1.Ok? <==>
            || s.challenges[id].status == HumanActionRequired
            || (InFlight(s.challenges[id].status)
                && s.workflows[s.challenges[id].workflow.value].status == Workflows.Running)
  {
  }

  /** Opening a new challenge for a human and escalating it, as a state report can do, raises in every state. */
  lemma EscalateAfterOpenRaises(s: State, provider: nat, kind: ChallengeType, o: Opening)
    requires o.humanRequired && GetInFlight(s.challenges, provider, kind).None?
    ensures var (s', c) := EnsureOpen(s, provider, kind, o);
            Escalate(s', c) == (s', Err(WorkflowError(Workflows.IllegalTransition)))
  {
  }

  /** Completion succeeds exactly when the provider may authenticate and the workflow may still be resumed. */
  lemma CompleteSucceedsExactly(s: State, id: nat, how: Resolution, now: Time)
    requires id < |s.challenges| && LinkedAt(s, id)
    ensures var c := s.challenges[id];
            var run := s.workflows[c.workflow.value];
            Complete(s, id, how, now).1.Ok? <==>
            && InFlight(c.status)
            && c.provider in s.auth && s.auth[c.provider] != AuthStates.AccessBlocked
            && (run.status == Workflows.Running ||
                (run.maxAttempts >= 1 && (run.expiresAt.Some? ==> now <= run.expiresAt.value)))
  {
    if s.challenges[id].provider in s.auth {
      AuthStates.OnlyBlockedCannotAuthenticate(s.auth[s.challenges[id].provider]);
    }
  }

  /**
   * A refused resume marks its run TIMED_OUT or FAILED and is then undone: over
   * any run no challenge's workflow is FAILED, and one is TIMED_OUT exactly when
   * its challenge is.
   */
  lemma NoMarkIsStored(ops: seq<Op>, i: nat)
    requires i < |Run(INITIAL, ops).challenges|
    ensures var s := Run(INITIAL, ops);
            var c := s.challenges[i];
            && c.workflow.Some? && c.workflow.value < |s.workflows|
            && s.workflows[c.workflow.value].status != Workflows.Failed
            && (s.workflows[c.workflow.value].status == Workflows.TimedOut <==> c.status == TimedOut)
  {
    RunKeepsCoupling(ops);
    assert LinkedAt(Run(INITIAL, ops), i);
    hide Run;
  }

  lemma RunSnoc(s: State, ops: seq<Op>, op: Op)
    ensures Run(s, ops + [op]) == Apply(Run(s, ops), op)
  {
    hide Apply;
    assert (ops + [op])[..|ops|] == ops;
  }

  /** A challenge with a lifetime of ten seconds, opened for a human at time 0. */
  const WAITING := State(
    [Workflows.Run(Workflows.PausedHumanAction, 0, 3, Some(10), 0)],
    [Challenge(0, Captcha, Open, true, Some(0), None)],
    map[0 := AuthStates.NotConfigured])

  lemma WaitingIsReachable()
    ensures Run(INITIAL, [EnsureProviderOp(0), EnsureOpenOp(0, Captcha, Opening(true, 10, 2, 0, 0))]) == WAITING
  {
    var a, b := EnsureProviderOp(0), EnsureOpenOp(0, Captcha, Opening(true, 10, 2, 0, 0));
    var described := INITIAL.(auth := map[0 := AuthStates.NotConfigured]);
    assert Apply(INITIAL, a) == described && Apply(described, b) == WAITING;
    hide Apply;
    assert [a, b] == ([] + [a]) + [b];
    RunSnoc(INITIAL, [], a);
    RunSnoc(INITIAL, [] + [a], b);
  }

  /** Completing it after it expired raises, and its workflow stays paused although the resume marked it timed out. */
  lemma ExpiredStaysPaused()
    ensures Run(INITIAL, [EnsureProviderOp(0), EnsureOpenOp(0, Captcha, Opening(true, 10, 2, 0, 0))]) == WAITING
    ensures Workflows.Resume(WAITING.workflows[0], Some(0), 11).0.status == Workflows.TimedOut
    ensures Complete(WAITING, 0, Human, 11) == (WAITING, Err(WorkflowError(Workflows.Expired)))
  {
    WaitingIsReachable();
    hide Run;
  }

  /** A workflow that can still be finished: running, or paused and to be resumed within its lifetime. */
  predicate Finishable(run: Workflows.Run, now: Time) {
    || run.status == Workflows.Running
    || (run.maxAttempts >= 1 && (run.expiresAt.Some? ==> now <= run.expiresAt.value))
  }

  /** Every in-flight challenge of the provider among the first n has a workflow that can still be finished. */
  ghost predicate AllFinishable(s: State, provider: nat, n: nat, now: Time)
    requires n <= |s.challenges|
  {
    forall i :: 0 <= i < n && s.challenges[i].provider == provider && InFlight(s.challenges[i].status) ==>
      LinkedAt(s, i) && Finishable(s.workflows[s.challenges[i].workflow.value], now)
  }

  /** Superseding the first n challenges leaves the workflows of the others alone. */
  lemma {:induction false} SupersedeLeavesOthers(s: State, provider: nat, n: nat, now: Time, k: nat)
    requires Coupled(s) && n <= k < |s.challenges|
    ensures var s' := SupersedeFirst(s, provider, n, now).0;
            && LinkedAt(s, k)
            && s'.challenges[k] == s.challenges[k]
            && s'.workflows[s.challenges[k].workflow.value] == s.workflows[s.challenges[k].workflow.value]
  {
    assert LinkedAt(s, k);
    if n > 0 {
      SupersedeLeavesOthers(s, provider, n - 1, now, k);
      SupersedeLeavesOthers(s, provider, n - 1, now, n - 1);
      hide FinishWorkflow;
    }
  }

  /** What the next challenge adds to the condition. */
  lemma AllFinishableNext(s: State, provider: nat, n: nat, now: Time)
    requires Coupled(s) && n < |s.challenges|
    ensures LinkedAt(s, n)
    ensures AllFinishable(s, provider, n + 1, now) <==>
            AllFinishable(s, provider, n, now) &&
            (s.challenges[n].provider == provider && InFlight(s.challenges[n].status) ==>
               Finishable(s.workflows[s.challenges[n].workflow.value], now))
  {
    assert LinkedAt(s, n);
    hide Finishable, Linked, LinkedAt, Coupled;
  }

  /** Whether the pass survives the next challenge depends on that challenge's own workflow. */
  lemma SupersedeNext(s: State, provider: nat, n: nat, now: Time)
    requires Coupled(s) && n < |s.challenges|
    ensures LinkedAt(s, n)
    ensures SupersedeFirst(s, provider, n + 1, now).1.Ok? <==>
            SupersedeFirst(s, provider, n, now).1.Ok? &&
            (s.challenges[n].provider == provider && InFlight(s.challenges[n].status) ==>
               FinishWorkflow(s.workflows[s.challenges[n].workflow.value], now).Ok?)
  {
    SupersedeLeavesOthers(s, provider, n, now, n);
    hide FinishWorkflow, Coupled, Linked;
  }

  lemma OneMoreSucceeds(s: State, provider: nat, n: nat, now: Time)
    requires Coupled(s) && n < |s.challenges|
    requires SupersedeFirst(s, provider, n, now).1.Ok? <==> AllFinishable(s, provider, n, now)
    ensures SupersedeFirst(s, provider, n + 1, now).1.Ok? <==> AllFinishable(s, provider, n + 1, now)
  {
    hide *;
    SupersedeNext(s, provider, n, now);
    AllFinishableNext(s, provider, n, now);
    FinishSucceedsExactly(s, n, now);
  }

  lemma {:induction false} SupersedeSucceeds(s: State, provider: nat, n: nat, now: Time)
    requires Coupled(s) && n <= |s.challenges|
    ensures SupersedeFirst(s, provider, n, now).1.Ok? <==> AllFinishable(s, provider, n, now)
  {
    if n == 0 {
      hide Coupled;
    } else {
      hide *;
      SupersedeSucceeds(s, provider, n - 1, now);
      OneMoreSucceeds(s, provider, n - 1, now);
    }
  }

  lemma FinishSucceedsExactly(s: State, i: nat, now: Time)
    requires i < |s.challenges| && LinkedAt(s, i)
    ensures var run := s.workflows[s.challenges[i].workflow.value];
            InFlight(s.challenges[i].status) ==> (FinishWorkflow(run, now).Ok? <==> Finishable(run, now))
  {
  }

  /**
   * A provider that authenticates again has its challenges superseded exactly
   * when each of those in flight has a running or still resumable workflow: one
   * expired challenge blocks them all, and nothing changes.
   */
  lemma SupersedeSucceedsExactly(s: State, provider: nat, now: Time)
    requires Coupled(s)
    ensures ResolveSuperseded(s, provider, now).1.Ok? <==> AllFinishable(s, provider, |s.challenges|, now)
    ensures ResolveSuperseded(s, provider, now).1.Err? ==> ResolveSuperseded(s, provider, now).0 == s
  {
    SupersedeSucceeds(s, provider, |s.challenges|, now);
  }

  // -------------------------------------------------------------- state reports

  /** The in-flight challenge of the slot cannot be escalated: its workflow is paused and it is not marked yet. */
  predicate Blocks(s: State, c: nat)
    requires c < |s.challenges|
  {
    var w := s.challenges[c].workflow;
    && s.challenges[c].status != HumanActionRequired
    && w.Some? && w.value < |s.workflows| && s.workflows[w.value].status == Workflows.PausedHumanAction
  }

  /** Reporting would escalate a challenge that is new, or whose workflow is paused while it is not marked yet. */
  predicate EscalationFails(s: State, provider: nat, kind: ChallengeType) {
    match GetInFlight(s.challenges, provider, kind)
    case None => true
    case Some(c) => Blocks(s, c)
  }

  lemma OpenThenEscalate(s: State, provider: nat, kind: ChallengeType, o: Opening)
    requires Coupled(s) && o.humanRequired
    ensures var (waiting, c) := EnsureOpen(s, provider, kind, o);
            Escalate(waiting, c).1.Err? <==> EscalationFails(s, provider, kind)
  {
    match GetInFlight(s.challenges, provider, kind)
    case None =>
      EscalateAfterOpenRaises(s, provider, kind, o);
    case Some(c) =>
      assert LinkedAt(s, c);
      EscalateSucceedsExactly(s, c);
      hide Escalate;
  }

  /**
   * When a report raises: the provider is unknown or may not move to the state;
   * a settled state meets a challenge whose workflow can no longer be finished;
   * or the provider needed a human before, and the challenge of the new state is
   * new, or paused and not marked yet. A report that raises changes nothing.
   */
  lemma ReportRaisesExactly(s: State, provider: nat, status: AuthStates.AuthState, now: Time, token: nat)
    requires Coupled(s)
    ensures Report(s, provider, status, now, token).1.Err? <==>
            || provider !in s.auth
            || (s.auth[provider] != status && !AuthStates.CanTransition(s.auth[provider], status))
            || (IsSettled(status) && !AllFinishable(s, provider, |s.challenges|, now))
            || (TypeFor(status).Some? && AuthStates.IsEscalation(s.auth[provider])
                && EscalationFails(s, provider, TypeFor(status).value))
    ensures Report(s, provider, status, now, token).1.Err? ==> Report(s, provider, status, now, token).0 == s
  {
    hide AuthStates.Targets, Coupled, AllFinishable, ResolveSuperseded, EnsureOpen, Escalate, EscalationFails;
    match AuthStates.ApplyState(s.auth, provider, status)
    case Err(_) =>
    case Ok(auth) =>
      var reported := s.(auth := auth);
      SameRowsSameCoupling(s, reported);
      SupersedeSucceedsExactly(reported, provider, now);
      AuthPlaysNoPart(s, auth, provider, now);
      if TypeFor(status).Some? {
        OpenThenEscalate(reported, provider, TypeFor(status).value, Opening(true, 60 * 60 * 24, 2, now, token));
        EscalationIgnoresAuth(s, auth, provider, TypeFor(status).value);
      }
  }

  lemma AuthPlaysNoPart(s: State, auth: map<nat, AuthStates.AuthState>, provider: nat, now: Time)
    ensures AllFinishable(s.(auth := auth), provider, |s.challenges|, now) <==> AllFinishable(s, provider, |s.challenges|, now)
  {
    hide Linked, Finishable;
    var s' := s.(auth := auth);
    assert forall i :: 0 <= i < |s.challenges| ==> (LinkedAt(s', i) <==> LinkedAt(s, i));
  }

  lemma EscalationIgnoresAuth(s: State, auth: map<nat, AuthStates.AuthState>, provider: nat, kind: ChallengeType)
    ensures EscalationFails(s.(auth := auth), provider, kind) <==> EscalationFails(s, provider, kind)
  {
    hide GetInFlight;
  }

  /**
   * Repeating a report is said to be safe. It raises exactly when the state
   * needs a human and the challenge the first report left in flight is paused
   * and not marked HUMAN_ACTION_REQUIRED.
   */
  lemma RepeatRaisesExactly(s: State, provider: nat, status: AuthStates.AuthState, now: Time, token: nat, later: Time, other: nat)
    requires Coupled(s) && Report(s, provider, status, now, token).1.Ok?
    ensures var s' := Report(s, provider, status, now, token).0;
            Report(s', provider, status, later, other).1.Err? <==>
            AuthStates.IsEscalation(status) && EscalationFails(s', provider, TypeFor(status).value)
  {
    var s' := Report(s, provider, status, now, token).0;
    ReportMovesProvider(s, provider, status, now, token);
    ReportKeepsCoupling(s, provider, status, now, token);
    ReportRaisesExactly(s', provider, status, later, other);
    if IsSettled(status) {
      SettledLeavesNone(s, provider, status, now, token, later);
    }
    hide Report, Coupled, AllFinishable, EscalationFails;
  }

  lemma ReportMovesProvider(s: State, provider: nat, status: AuthStates.AuthState, now: Time, token: nat)
    requires Report(s, provider, status, now, token).1.Ok?
    ensures var auth := Report(s, provider, status, now, token).0.auth;
            provider in auth && auth[provider] == status
  {
    SupersedeKeepsAuth(s.(auth := s.auth[provider := status]), provider, |s.challenges|, now);
    hide GetInFlight, AuthStates.Targets, SupersedeFirst, Escalate;
    if TypeFor(status).Some? {
      var (waiting, c) := EnsureOpen(s.(auth := s.auth[provider := status]), provider, TypeFor(status).value,
                                     Opening(true, 60 * 60 * 24, 2, now, token));
      EscalateKeepsAuth(waiting, c);
    }
  }

  lemma EscalateKeepsAuth(s: State, id: nat)
    ensures Escalate(s, id).0.auth == s.auth
  {
    hide Workflows.Pause;
  }

  lemma {:induction false} SupersedeKeepsAuth(s: State, provider: nat, n: nat, now: Time)
    requires n <= |s.challenges|
    ensures SupersedeFirst(s, provider, n, now).0.auth == s.auth
  {
    if n > 0 {
      SupersedeKeepsAuth(s, provider, n - 1, now);
      hide FinishWorkflow;
    }
  }

  /** After a settled state was reported, no challenge of the provider is in flight. */
  lemma SettledLeavesNone(s: State, provider: nat, status: AuthStates.AuthState, now: Time, token: nat, later: Time)
    requires IsSettled(status) && Report(s, provider, status, now, token).1.Ok?
    ensures var s' := Report(s, provider, status, now, token).0;
            AllFinishable(s', provider, |s'.challenges|, later)
  {
    var reported := s.(auth := s.auth[provider := status]);
    hide AuthStates.Targets, SupersedeFirst, Finishable;
    SupersedeClosesAll(reported, provider, |s.challenges|, now);
  }

  /** A provider whose CAPTCHA was reported at time 0, and the challenge opened for it. */
  const CHALLENGED := State(
    [Workflows.Run(Workflows.PausedHumanAction, 0, 3, Some(86400), 0)],
    [Challenge(0, Captcha, Open, true, Some(0), None)],
    map[0 := AuthStates.CaptchaRequired])

  lemma FirstReport()
    ensures var described := INITIAL.(auth := map[0 := AuthStates.NotConfigured]);
            && EnsureProvider(INITIAL, 0) == described
            && Report(described, 0, AuthStates.CaptchaRequired, 0, 0) == (CHALLENGED, Ok(()))
  {
    var described := INITIAL.(auth := map[0 := AuthStates.NotConfigured]);
    var reported := INITIAL.(auth := map[0 := AuthStates.CaptchaRequired]);
    assert described.auth[0 := AuthStates.CaptchaRequired] == reported.auth;
    assert AuthStates.ApplyState(described.auth, 0, AuthStates.CaptchaRequired) == Ok(reported.auth);
    var (waiting, c) := EnsureOpen(reported, 0, Captcha, Opening(true, 60 * 60 * 24, 2, 0, 0));
    assert waiting.workflows[0] == CHALLENGED.workflows[0] && waiting.workflows == CHALLENGED.workflows;
    assert waiting.challenges[0] == CHALLENGED.challenges[0] && waiting.challenges == CHALLENGED.challenges;
    assert waiting == CHALLENGED && c == 0;
    hide EnsureOpen, AuthStates.ApplyState, ResolveSuperseded;
  }

  lemma SecondReport(later: Time, other: nat)
    ensures Report(CHALLENGED, 0, AuthStates.CaptchaRequired, later, other)
            == (CHALLENGED, Err(WorkflowError(Workflows.IllegalTransition)))
  {
    assert GetInFlight(CHALLENGED.challenges, 0, Captcha) == Some(0) by {
      assert CHALLENGED.challenges[..0] == [];
    }
    assert Escalate(CHALLENGED, 0).1 == Err(WorkflowError(Workflows.IllegalTransition));
    assert CHALLENGED.(auth := CHALLENGED.auth[0 := AuthStates.CaptchaRequired]) == CHALLENGED;
    hide GetInFlight, Escalate, ResolveSuperseded, AuthStates.Targets;
  }

  /** A CAPTCHA reported for a new provider, and reported again: the second report raises. */
  lemma RepeatedCaptchaRaises(later: Time, other: nat)
    ensures Run(INITIAL, [EnsureProviderOp(0), ReportOp(0, AuthStates.CaptchaRequired, 0, 0)]) == CHALLENGED
    ensures Report(CHALLENGED, 0, AuthStates.CaptchaRequired, later, other)
            == (CHALLENGED, Err(WorkflowError(Workflows.IllegalTransition)))
  {
    hide Report, EnsureProvider;
    FirstReport();
    SecondReport(later, other);
    var a, b := EnsureProviderOp(0), ReportOp(0, AuthStates.CaptchaRequired, 0, 0);
    assert [a, b] == ([] + [a]) + [b];
    RunSnoc(INITIAL, [], a);
    RunSnoc(INITIAL, [] + [a], b);
  }
}
