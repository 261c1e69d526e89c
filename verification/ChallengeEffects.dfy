/** What each challenge operation leaves behind, in challenges, workflows and provider states. */
module ChallengeEffects {
  import opened Prelude
  import opened Challenges
  import opened ChallengeCoupling
  import Workflows
  import AuthStates

  /** The workflow of a challenge, which must exist, became `after`; no other workflow changed. */
  predicate OnlyWorkflow(s: State, s': State, id: nat, after: Workflows.Run -> Workflows.Run)
    requires id < |s.challenges|
  {
    match s.challenges[id].workflow
    case None => s'.workflows == s.workflows
    case Some(w) =>
      && w < |s.workflows|
      && |s'.workflows| == |s.workflows|
      && s'.workflows[w] == after(s.workflows[w])
      && forall v :: 0 <= v < |s.workflows| && v != w ==> s'.workflows[v] == s.workflows[v]
  }

  /** Only challenge `id` changed, and became `after`. */
  predicate OnlyChallenge(s: State, s': State, id: nat, after: Challenge)
    requires id < |s.challenges|
  {
    && |s'.challenges| == |s.challenges|
    && s'.challenges[id] == after
    && forall i :: 0 <= i < |s.challenges| && i != id ==> s'.challenges[i] == s.challenges[i]
  }

  /** A finished workflow: completed if it never paused, otherwise running again with one more attempt. */
  function Finished(): Workflows.Run -> Workflows.Run {
    (run: Workflows.Run) =>
      if run.status.Running? then run.(status := Workflows.Completed)
      else run.(status := Workflows.Running, attempts := run.attempts + 1)
  }

  lemma FinishExactly(run: Workflows.Run, now: Time)
    ensures FinishWorkflow(run, now).Ok? <==>
            || run.status.Running?
            || (run.status.PausedHumanAction? && run.attempts < run.maxAttempts
                && (run.expiresAt.Some? ==> now <= run.expiresAt.value))
    ensures FinishWorkflow(run, now).Ok? ==> FinishWorkflow(run, now).value == Finished()(run)
  {
  }

  /**
   * A completed challenge is RESOLVED the way it was said to be, its provider is
   * AUTHENTICATED, and its workflow finished; everything else stays. A refused
   * completion changes nothing.
   */
  lemma CompleteLeaves(s: State, id: nat, how: Resolution, now: Time)
    ensures var (s', r) := Complete(s, id, how, now);
            && (r.Err? ==> s' == s)
            && (r.Ok? ==>
                  && id < |s.challenges|
                  && var c := s.challenges[id];
                     && (c.status.Open? || c.status.Acknowledged? || c.status.HumanActionRequired?)
                     && c.provider in s.auth
                     && s'.auth == s.auth[c.provider := AuthStates.Authenticated]
                     && OnlyChallenge(s, s', id, c.(status := Resolved, resolution := Some(how)))
                     && OnlyWorkflow(s, s', id, Finished()))
  {
    if id < |s.challenges| && s.challenges[id].workflow.Some? && s.challenges[id].workflow.value < |s.workflows| {
      FinishExactly(s.workflows[s.challenges[id].workflow.value], now);
    }
    hide FinishWorkflow, AuthStates.Targets;
  }

  function Paused(): Workflows.Run -> Workflows.Run {
    (run: Workflows.Run) => if run.status.Running? then run.(status := Workflows.PausedHumanAction) else run
  }

  /** An escalated challenge is marked and its workflow paused, unless it was marked already; a refusal changes nothing. */
  lemma EscalateLeaves(s: State, id: nat)
    ensures var (s', r) := Escalate(s, id);
            && (r.Err? ==> s' == s)
            && (r.Ok? ==>
                  && id < |s.challenges|
                  && s'.auth == s.auth
                  && var c := s.challenges[id];
                     if c.status.HumanActionRequired? then s' == s
                     else
                       && (c.status.Open? || c.status.Acknowledged?)
                       && OnlyChallenge(s, s', id, c.(status := HumanActionRequired))
                       && OnlyWorkflow(s, s', id, Paused()))
  {
    if id < |s.challenges| && s.challenges[id].workflow.Some? && s.challenges[id].workflow.value < |s.workflows| {
      Workflows.PauseExactly(s.workflows[s.challenges[id].workflow.value]);
    }
  }

  /** Exactly the challenges in flight can be acknowledged; only the status changes. */
  lemma AcknowledgeLeaves(s: State, id: nat)
    ensures var (s', r) := Acknowledge(s, id);
            && (r.Ok? <==> id < |s.challenges| && (s.challenges[id].status.Open? || s.challenges[id].status.Acknowledged?
                                                   || s.challenges[id].status.HumanActionRequired?))
            && (r.Ok? ==> s' == s.(challenges := s'.challenges)
                          && OnlyChallenge(s, s', id, s.challenges[id].(status := Acknowledged)))
            && (r.Err? ==> s' == s)
  {
  }

  function Ended(target: Workflows.Status): Workflows.Run -> Workflows.Run {
    (run: Workflows.Run) => run.(status := target)
  }

  /** Cancelling and timing out end challenge and workflow alike, exactly when the one is in flight and the other not over. */
  lemma CloseLeaves(s: State, id: nat, status: Status, target: Workflows.Status)
    requires (status, target) in {(Cancelled, Workflows.Cancelled), (TimedOut, Workflows.TimedOut)}
    ensures var (s', r) := Close(s, id, status, target);
            && (r.Ok? <==>
                  && id < |s.challenges|
                  && var c := s.challenges[id];
                     && (c.status.Open? || c.status.Acknowledged? || c.status.HumanActionRequired?)
                     && (c.workflow.Some? ==> c.workflow.value < |s.workflows| && !Workflows.IsOver(s.workflows[c.workflow.value].status)))
            && (r.Ok? ==>
                  && s'.auth == s.auth
                  && OnlyChallenge(s, s', id, s.challenges[id].(status := status))
                  && OnlyWorkflow(s, s', id, Ended(target)))
            && (r.Err? ==> s' == s)
    ensures Cancel(s, id) == Close(s, id, Cancelled, Workflows.Cancelled)
    ensures TimeOut(s, id) == Close(s, id, TimedOut, Workflows.TimedOut)
  {
    if id < |s.challenges| && s.challenges[id].workflow.Some? && s.challenges[id].workflow.value < |s.workflows| {
      Workflows.TransitionExactly(s.workflows[s.challenges[id].workflow.value], target);
    }
    hide Workflows.Targets;
  }

  /** A challenge as it is opened, with the workflow opened for it. */
  predicate IsOpened(s: State, s': State, provider: nat, kind: ChallengeType, o: Opening) {
    && s'.auth == s.auth
    && |s'.challenges| == |s.challenges| + 1 && s'.challenges[..|s.challenges|] == s.challenges
    && |s'.workflows| == |s.workflows| + 1 && s'.workflows[..|s.workflows|] == s.workflows
    && var c, run := s'.challenges[|s.challenges|], s'.workflows[|s.workflows|];
       && c.provider == provider && c.kind == kind && c.status.Open? && c.humanRequired == o.humanRequired
       && c.workflow == Some(|s.workflows|) && c.resolution.None?
       && (if o.humanRequired then run.status.PausedHumanAction? else run.status.Running?)
       && run.attempts == 0 && run.maxAttempts == o.maxRetries + 1 && run.token == o.token
       && run.expiresAt == if o.expiresIn == 0 then None else Some(o.now + o.expiresIn)
  }

  /** A challenge of this provider and type in flight is reused; otherwise one is opened with a workflow of its own. */
  lemma EnsureOpenLeaves(s: State, provider: nat, kind: ChallengeType, o: Opening)
    ensures var (s', c) := EnsureOpen(s, provider, kind, o);
            if exists i :: 0 <= i < |s.challenges| && s.challenges[i].provider == provider && s.challenges[i].kind == kind
                           && (s.challenges[i].status.Open? || s.challenges[i].status.Acknowledged?
                               || s.challenges[i].status.HumanActionRequired?)
            then
              && s' == s && c < |s.challenges|
              && s.challenges[c].provider == provider && s.challenges[c].kind == kind
              && (s.challenges[c].status.Open? || s.challenges[c].status.Acknowledged? || s.challenges[c].status.HumanActionRequired?)
            else c == |s.challenges| && IsOpened(s, s', provider, kind, o)
  {
    var found := GetInFlight(s.challenges, provider, kind);
    if found.Some? {
      assert s.challenges[found.value].provider == provider;
    } else {
      forall i | 0 <= i < |s.challenges| && s.challenges[i].provider == provider && s.challenges[i].kind == kind
        ensures !s.challenges[i].status.Open? && !s.challenges[i].status.Acknowledged? && !s.challenges[i].status.HumanActionRequired?
      {
        assert !(SameSlot(s.challenges[i], provider, kind) && InFlight(s.challenges[i].status));
      }
    }
  }

  /** The automation hand-off opens a challenge for a human, for a day and two retries, or reuses one, and marks it. */
  lemma HandOffLeaves(s: State, provider: nat, kind: ChallengeType, now: Time, token: nat)
    ensures var (waiting, c) := EnsureOpen(s, provider, kind, Opening(true, 86400, 2, now, token));
            var (s', c') := HandOff(s, provider, kind, now, token);
            && c' == c < |waiting.challenges|
            && s'.auth == waiting.auth && s'.workflows == waiting.workflows
            && OnlyChallenge(waiting, s', c, waiting.challenges[c].(status := HumanActionRequired))
  {
    hide GetInFlight;
  }

  /** Superseding finishes the workflows of the provider's challenges in flight and no other. */
  lemma {:induction false} SupersedeLeaves(s: State, provider: nat, n: nat, now: Time)
    requires Coupled(s) && n <= |s.challenges| && SupersedeFirst(s, provider, n, now).1.Ok?
    ensures var s' := SupersedeFirst(s, provider, n, now).0;
            && s'.auth == s.auth
            && |s'.workflows| == |s.workflows|
            && forall i :: 0 <= i < |s.challenges| ==>
                 && LinkedAt(s, i)
                 && var w := s.challenges[i].workflow.value;
                    s'.workflows[w] == if i < n && s.challenges[i].provider == provider && InFlight(s.challenges[i].status)
                                       then Finished()(s.workflows[w]) else s.workflows[w]
  {
    SupersedeKeepsAuth(s, provider, n, now);
    if n > 0 {
      SupersedeLeaves(s, provider, n - 1, now);
      SupersedeOneLeaves(s, provider, n - 1, now);
      hide FinishWorkflow, SupersedeFirst, InFlight;
    } else {
      assert forall i :: 0 <= i < |s.challenges| ==> LinkedAt(s, i);
    }
  }

  lemma SupersedeOneLeaves(s: State, provider: nat, n: nat, now: Time)
    requires Coupled(s) && n < |s.challenges| && SupersedeFirst(s, provider, n + 1, now).1.Ok?
    ensures var before, after := SupersedeFirst(s, provider, n, now), SupersedeFirst(s, provider, n + 1, now).0;
            && before.1.Ok?
            && forall i :: 0 <= i < |s.challenges| ==>
                 && LinkedAt(s, i)
                 && var w := s.challenges[i].workflow.value;
                    after.workflows[w] == if i == n && s.challenges[n].provider == provider && InFlight(s.challenges[n].status)
                                          then Finished()(before.0.workflows[w]) else before.0.workflows[w]
  {
    hide Linked, OneInFlight, FinishWorkflow;
    assert forall i :: 0 <= i < |s.challenges| ==> LinkedAt(s, i);
    SupersedeLeavesOthers(s, provider, n, now, n);
    var (before, r) := SupersedeFirst(s, provider, n, now);
    assert r.Ok?;
    var after := SupersedeFirst(s, provider, n + 1, now).0;
    var v := s.challenges[n].workflow.value;
    FinishExactly(before.workflows[v], now);
    if s.challenges[n].provider == provider && InFlight(s.challenges[n].status) {
      assert after == Supersede(before, n, now).0;
      assert after.workflows == before.workflows[v := Finished()(before.workflows[v])];
    } else {
      assert after == before;
    }
    var active := s.challenges[n].provider == provider && InFlight(s.challenges[n].status);
    forall i | 0 <= i < |s.challenges|
      ensures LinkedAt(s, i)
      ensures var w := s.challenges[i].workflow.value;
              after.workflows[w] == if i == n && active then Finished()(before.workflows[w]) else before.workflows[w]
    {
      assert LinkedAt(s, i);
      if i != n {
        assert s.challenges[i].workflow != s.challenges[n].workflow;
      }
    }
  }

  /** Which states are reported as which challenge. */
  lemma TypesExactly(status: AuthStates.AuthState)
    ensures TypeFor(status) == Some(Captcha) <==> status.CaptchaRequired?
    ensures TypeFor(status) == Some(Mfa) <==> status.MfaRequired?
    ensures TypeFor(status) == Some(AccessDenied) <==> status.AccessBlocked?
    ensures TypeFor(status) == Some(RateLimit) <==> status.RateLimited?
    ensures TypeFor(status) == Some(ChallengeType.SessionExpired) <==> status.SessionExpired?
    ensures TypeFor(status) == Some(LoginRequired) <==> status.AuthenticationRequired?
    ensures TypeFor(status) == Some(UnknownHumanVerification) <==> status.HumanActionRequired?
    ensures TypeFor(status) == None <==> status.NotConfigured? || status.NotRequired? || status.Authenticated? || status.ErrorState?
    ensures IsSettled(status) <==> status.Authenticated? || status.NotRequired?
  {
  }

  /**
   * An accepted report moves its provider and no other. A settled state
   * supersedes the provider's challenges; any other opens the challenge of the
   * state, for a day and two retries, and escalates it if the provider needed a
   * human before.
   */
  lemma ReportLeaves(s: State, provider: nat, status: AuthStates.AuthState, now: Time, token: nat)
    requires Report(s, provider, status, now, token).1.Ok?
    ensures var s' := Report(s, provider, status, now, token).0;
            && provider in s.auth
            && s'.auth == s.auth[provider := status]
            && var reported := s.(auth := s.auth[provider := status]);
               if status.Authenticated? || status.NotRequired? then s' == SupersedeFirst(reported, provider, |s.challenges|, now).0
               else match TypeFor(status)
                 case None => s' == reported
                 case Some(kind) =>
                   var (waiting, c) := EnsureOpen(reported, provider, kind, Opening(true, 86400, 2, now, token));
                   s' == if s.auth[provider].MfaRequired? || s.auth[provider].CaptchaRequired?
                            || s.auth[provider].AccessBlocked? || s.auth[provider].HumanActionRequired?
                         then Escalate(waiting, c).0 else waiting
  {
    ReportMovesProvider(s, provider, status, now, token);
    AuthStates.EscalationExactly(s.auth[provider]);
    ReportAuth(s, provider, status, now, token);
    hide AuthStates.Targets, AuthStates.IsEscalation, SupersedeFirst, EnsureOpen, Escalate;
  }

  lemma ReportAuth(s: State, provider: nat, status: AuthStates.AuthState, now: Time, token: nat)
    requires Report(s, provider, status, now, token).1.Ok?
    ensures provider in s.auth && Report(s, provider, status, now, token).0.auth == s.auth[provider := status]
  {
    var reported := s.(auth := s.auth[provider := status]);
    SupersedeKeepsAuth(reported, provider, |s.challenges|, now);
    hide GetInFlight, AuthStates.Targets, SupersedeFirst, Escalate;
    if TypeFor(status).Some? {
      var (waiting, c) := EnsureOpen(reported, provider, TypeFor(status).value, Opening(true, 60 * 60 * 24, 2, now, token));
      EscalateKeepsAuth(waiting, c);
    }
  }
}
