/**
 * When the submitter is called and what each answer leaves behind, in terms of
 * the configuration, the gates, the approvals and the runs alone.
 */
module AutomationGates {
  import opened Prelude
  import opened Automation
  import opened AutomationSafety
  import Approvals
  import Backoff
  import Challenges

  /** A submission that has been approved, with no request for it still open. */
  predicate Permitted(rows: seq<Approvals.Approval>, a: nat) {
    var target := Approvals.Target(Approvals.ApplicationSubmission, "application", a);
    && (exists i :: 0 <= i < |rows| && rows[i].target == target && rows[i].status == Approvals.Approved)
    && (forall i :: 0 <= i < |rows| && rows[i].target == target ==>
          rows[i].status != Approvals.Pending && rows[i].status != Approvals.Snoozed)
  }

  lemma PermittedExactly(rows: seq<Approvals.Approval>, a: nat)
    ensures CheckApproval(rows, a).None? <==> Permitted(rows, a)
  {
    Approvals.OpenExactly(rows, SubmissionTarget(a));
    var found := Approvals.GetApproved(rows, SubmissionTarget(a));
    if found.Some? {
      assert rows[found.value].status == Approvals.Approved;
    }
    hide Approvals.GetOpen;
  }

  /** No run yet, or the latest one over and not waiting for a retry. */
  predicate RestsFrom(app: Application) {
    app.runs != [] ==>
      var latest := app.runs[|app.runs| - 1];
      && latest.status in {Submitted, Failed, RunStatus.Cancelled}
      && !(latest.status == Failed && latest.nextRetryAt.Some?)
  }

  /**
   * A new execution is accepted exactly when automation is switched on with
   * enough autonomy; the application exists, is neither submitted nor withdrawn
   * and has no run under way; its job exists; the job's source exists, allows
   * automation and is enabled; and the submission is approved with no request
   * open.
   */
  lemma ExecuteAcceptedExactly(cfg: Config, st: State, a: nat, g: Gates, provider: nat, outcome: SubmitOutcome, now: Time, token: nat)
    ensures Execute(cfg, st, a, g, provider, outcome, now, token).1.Ok? <==>
            && cfg.enabled && cfg.autonomy >= 2
            && a < |st.apps| && st.apps[a].status in {Draft, Ready}
            && RestsFrom(st.apps[a])
            && g.jobFound && g.sourceFound && g.termsAllowAutomation && g.sourceEnabled
            && Permitted(st.approvals.rows, a)
  {
    hide CheckApproval, Permitted, Attempt;
    PermittedExactly(st.approvals.rows, a);
    if a < |st.apps| {
      EveryStatus(st.apps[a]);
    }
  }

  lemma EveryStatus(app: Application)
    ensures app.status in {Draft, Ready} <==> app.status !in {AppSubmitted, Withdrawn}
    ensures forall k :: 0 <= k < |app.runs| ==>
              (app.runs[k].status in {Submitted, Failed, RunStatus.Cancelled} <==> app.runs[k].status !in ACTIVE)
  {
    assert app.status.Draft? || app.status.Ready? || app.status.AppSubmitted? || app.status.Withdrawn?;
    forall k | 0 <= k < |app.runs|
      ensures app.runs[k].status in {Submitted, Failed, RunStatus.Cancelled} <==> app.runs[k].status !in ACTIVE
    {
      var status := app.runs[k].status;
      assert status.Pending? || status.Running? || status.PausedHumanAction? || status.Submitted? || status.Failed? || status.Cancelled?;
    }
  }

  /**
   * A retry is accepted exactly when the run has an attempt left, has failed with
   * a retry scheduled or is paused, has no challenge in flight, its job exists,
   * and the submission is approved with no request open.
   */
  lemma RetryAcceptedIff(cfg: Config, st: State, a: nat, k: nat, g: Gates, outcome: SubmitOutcome, now: Time, token: nat)
    ensures Retry(cfg, st, a, k, g, outcome, now, token).1.Ok? <==>
            && a < |st.apps| && k < |st.apps[a].runs|
            && var run := st.apps[a].runs[k];
               && run.attempts < run.maxAttempts
               && ((run.status == Failed && run.nextRetryAt.Some?) || run.status == PausedHumanAction)
               && (run.challengeId.Some? && run.challengeId.value < |st.human.challenges| ==>
                     st.human.challenges[run.challengeId.value].status
                     in {Challenges.Resolved, Challenges.Cancelled, Challenges.TimedOut, Challenges.Status.Failed})
               && g.jobFound
               && Permitted(st.approvals.rows, a)
  {
    hide CheckApproval, Permitted, Attempt;
    PermittedExactly(st.approvals.rows, a);
    if a < |st.apps| && k < |st.apps[a].runs| {
      var run := st.apps[a].runs[k];
      if run.challengeId.Some? && run.challengeId.value < |st.human.challenges| {
        EveryChallenge(st.human.challenges[run.challengeId.value]);
      }
    }
  }

  lemma EveryChallenge(c: Challenges.Challenge)
    ensures c.status in {Challenges.Resolved, Challenges.Cancelled, Challenges.TimedOut, Challenges.Status.Failed}
            <==> !Challenges.InFlight(c.status)
  {
  }

  // --------------------------------------------------------- why a call is refused

  predicate SomeOpen(rows: seq<Approvals.Approval>, a: nat) {
    exists i :: 0 <= i < |rows| && rows[i].target == SubmissionTarget(a) && rows[i].status in {Approvals.Pending, Approvals.Snoozed}
  }

  predicate SomeApproved(rows: seq<Approvals.Approval>, a: nat) {
    exists i :: 0 <= i < |rows| && rows[i].target == SubmissionTarget(a) && rows[i].status == Approvals.Approved
  }

  /** What a refusal for want of an approval says is the case. */
  ghost predicate ApprovalRefusedFor(e: Error, rows: seq<Approvals.Approval>, a: nat) {
    match e
    case ApprovalStillPending => SomeOpen(rows, a)
    case NoApprovedApproval => !SomeOpen(rows, a) && !SomeApproved(rows, a)
    case StoreError(_) => !Approvals.OneOpenPerTarget(rows)
    case _ => false
  }

  lemma ApprovalRefusalIsTrue(rows: seq<Approvals.Approval>, a: nat)
    ensures CheckApproval(rows, a).Some? ==> ApprovalRefusedFor(CheckApproval(rows, a).value, rows, a)
  {
    Approvals.OpenExactly(rows, SubmissionTarget(a));
    hide Approvals.GetOpen;
  }

  ghost predicate ExecuteRefusedFor(e: Error, cfg: Config, st: State, a: nat, g: Gates) {
    if a >= |st.apps| then (e == NotFound || (e == AutomationDisabled && !cfg.enabled))
    else
      var runs := st.apps[a].runs;
      match e
      case AutomationDisabled => !cfg.enabled
      case AlreadyClosed => st.apps[a].status == AppSubmitted || st.apps[a].status == Withdrawn
      case RunStillActive => runs != [] && runs[|runs| - 1].status in {RunStatus.Pending, Running, PausedHumanAction}
      case RetryPending => runs != [] && runs[|runs| - 1].status == Failed && runs[|runs| - 1].nextRetryAt.Some?
      case AutonomyTooLow => cfg.autonomy < 2
      case NotFound => !g.jobFound
      case SourceForbidsAutomation => !g.sourceFound || !g.termsAllowAutomation
      case SourceDisabled => g.sourceFound && !g.sourceEnabled
      case _ => ApprovalRefusedFor(e, st.approvals.rows, a)
  }

  lemma ExecuteRefusalIsTrue(cfg: Config, st: State, a: nat, g: Gates, provider: nat, outcome: SubmitOutcome, now: Time, token: nat)
    requires Execute(cfg, st, a, g, provider, outcome, now, token).1.Err?
    ensures ExecuteRefusedFor(Execute(cfg, st, a, g, provider, outcome, now, token).1.error, cfg, st, a, g)
    ensures Execute(cfg, st, a, g, provider, outcome, now, token).0 == st
  {
    ApprovalRefusalIsTrue(st.approvals.rows, a);
    hide CheckApproval, Attempt;
  }

  ghost predicate RetryRefusedFor(e: Error, st: State, a: nat, k: nat, g: Gates) {
    if a >= |st.apps| || k >= |st.apps[a].runs| then e == NotFound
    else
      var run := st.apps[a].runs[k];
      match e
      case AlreadySubmitted => run.status == Submitted
      case RunStillActive => run.status == RunStatus.Pending || run.status == Running
      case RunWasCancelled => run.status == RunStatus.Cancelled
      case AttemptsExhausted => run.attempts >= run.maxAttempts
      case NotRetryable => run.status == Failed && run.nextRetryAt.None?
      case ChallengeStillOpen =>
        && run.challengeId.Some? && run.challengeId.value < |st.human.challenges|
        && st.human.challenges[run.challengeId.value].status
           in {Challenges.Open, Challenges.Acknowledged, Challenges.HumanActionRequired}
      case NotFound => !g.jobFound
      case _ => ApprovalRefusedFor(e, st.approvals.rows, a)
  }

  lemma RetryRefusalIsTrue(cfg: Config, st: State, a: nat, k: nat, g: Gates, outcome: SubmitOutcome, now: Time, token: nat)
    requires Retry(cfg, st, a, k, g, outcome, now, token).1.Err?
    ensures RetryRefusedFor(Retry(cfg, st, a, k, g, outcome, now, token).1.error, st, a, k, g)
    ensures Retry(cfg, st, a, k, g, outcome, now, token).0 == st
  {
    ApprovalRefusalIsTrue(st.approvals.rows, a);
    hide CheckApproval, Attempt;
  }

  // ------------------------------------------------------------ what a call leaves

  /** What one call of the submitter makes of a running run. */
  ghost predicate RunAnswered(cfg: Config, before: AutomationRun, after: AutomationRun, outcome: SubmitOutcome, challenge: nat, now: Time) {
    && after.provider == before.provider && after.maxAttempts == before.maxAttempts
    && match outcome
       case SubmitAccepted =>
         && after.status == Submitted && after.attempts == before.attempts && after.nextRetryAt.None?
         && after.challengeId == before.challengeId && after.scheduled == before.scheduled
         && after.calls == before.calls + [SubmittedCall]
       case ChallengeHit(_) =>
         && after.status == PausedHumanAction && after.attempts == before.attempts + 1 && after.nextRetryAt.None?
         && after.challengeId == Some(challenge) && after.scheduled == before.scheduled
         && after.calls == before.calls + [ChallengeCall(challenge)]
       case SubmitFailed(_) =>
         && after.status == Failed && after.attempts == before.attempts + 1
         && after.challengeId == before.challengeId
         && after.calls == before.calls + [FailedCall]
         && (if before.attempts + 1 < before.maxAttempts then
               && after.nextRetryAt == Some(now + cfg.retryBase * Backoff.Pow2(before.attempts))
               && after.scheduled == before.scheduled + [before.attempts + 1]
             else after.nextRetryAt.None? && after.scheduled == before.scheduled)
  }

  /** What a call leaves elsewhere: the application's status, the submissions and the challenges. */
  ghost predicate StoreAnswered(st: State, st': State, a: nat, provider: nat, human: Challenges.State, outcome: SubmitOutcome, now: Time, token: nat)
    requires a < |st.apps|
  {
    && |st'.apps| == |st.apps|
    && (forall b :: 0 <= b < |st.apps| && b != a ==> st'.apps[b] == st.apps[b])
    && st'.approvals == st.approvals
    && st'.apps[a].status == (if outcome.SubmitAccepted? then AppSubmitted else st.apps[a].status)
    && st'.submissions == (if outcome.SubmitAccepted? then st.submissions + [a] else st.submissions)
    && st'.human == (match outcome
                     case ChallengeHit(Some(kind)) => Challenges.HandOff(human, provider, kind, now, token).0
                     case ChallengeHit(None) => Challenges.HandOff(human, provider, Challenges.UnknownHumanVerification, now, token).0
                     case _ => human)
  }

  function ChallengeOf(human: Challenges.State, provider: nat, outcome: SubmitOutcome, now: Time, token: nat): nat {
    match outcome
    case ChallengeHit(Some(kind)) => Challenges.HandOff(human, provider, kind, now, token).1
    case ChallengeHit(None) => Challenges.HandOff(human, provider, Challenges.UnknownHumanVerification, now, token).1
    case _ => 0
  }

  /** An accepted execution makes sure the provider is known, adds one run with the configured budget, and has it answered. */
  lemma ExecuteLeaves(cfg: Config, st: State, a: nat, g: Gates, provider: nat, outcome: SubmitOutcome, now: Time, token: nat)
    requires Execute(cfg, st, a, g, provider, outcome, now, token).1.Ok?
    ensures var (st', r) := Execute(cfg, st, a, g, provider, outcome, now, token);
            var human := st.human.(auth := if provider in st.human.auth then st.human.auth
                                           else st.human.auth[provider := Challenges.AuthStates.NotConfigured]);
            && a < |st.apps|
            && StoreAnswered(st, st', a, provider, human, outcome, now, token)
            && r.value == |st.apps[a].runs|
            && |st'.apps[a].runs| == r.value + 1
            && st'.apps[a].runs[..r.value] == st.apps[a].runs
            && RunAnswered(cfg, AutomationRun(provider, Running, 0, cfg.maxAttempts, None, None, [], []),
                           st'.apps[a].runs[r.value], outcome, ChallengeOf(human, provider, outcome, now, token), now)
  {
    hide CheckApproval, Challenges.HandOff;
  }

  /** An accepted retry has the run answered again and touches no other run. */
  lemma RetryLeaves(cfg: Config, st: State, a: nat, k: nat, g: Gates, outcome: SubmitOutcome, now: Time, token: nat)
    requires Retry(cfg, st, a, k, g, outcome, now, token).1.Ok?
    ensures var st' := Retry(cfg, st, a, k, g, outcome, now, token).0;
            && a < |st.apps| && k < |st.apps[a].runs|
            && var run := st.apps[a].runs[k];
               && StoreAnswered(st, st', a, run.provider, st.human, outcome, now, token)
               && |st'.apps[a].runs| == |st.apps[a].runs|
               && st'.apps[a].runs == st.apps[a].runs[k := st'.apps[a].runs[k]]
               && RunAnswered(cfg, run.(nextRetryAt := None), st'.apps[a].runs[k], outcome,
                              ChallengeOf(st.human, run.provider, outcome, now, token), now)
  {
    hide CheckApproval, Challenges.HandOff, ChallengeOpen;
  }
}
