/** The application automation service, changing its runs and applications step by step. */
module AutomationServices {
  import opened Prelude
  import opened Automation
  import Approvals
  import Backoff
  import Challenges
  import ChallengeServices

  class ApplicationAutomationService {
    const cfg: Config
    const challenges: ChallengeServices.ChallengeService
    const approvals: Approvals.ApprovalService
    var apps: seq<Application>
    var submissions: seq<nat>

    ghost function Contents(): State
      reads this, challenges, challenges.workflows, challenges.providers, approvals
    {
      State(challenges.Contents(), approvals.Contents(), apps, submissions)
    }

    constructor (cfg: Config, challenges: ChallengeServices.ChallengeService, approvals: Approvals.ApprovalService)
      requires challenges.Contents() == Challenges.INITIAL && approvals.Contents() == Approvals.Store([], [])
      ensures this.cfg == cfg && this.challenges == challenges && this.approvals == approvals
      ensures Contents() == INITIAL
    {
      this.cfg, this.challenges, this.approvals := cfg, challenges, approvals;
      apps, submissions := [], [];
    }

    method Execute(a: nat, g: Gates, provider: nat, outcome: SubmitOutcome, now: Time, token: nat)
      returns (r: Result<nat, Error>)
      modifies this, challenges, challenges.workflows, challenges.providers
      ensures (Contents(), r) == Automation.Execute(cfg, old(Contents()), a, g, provider, outcome, now, token)
    {
      if !cfg.enabled {
        return Err(AutomationDisabled);
      }
      if a >= |apps| {
        return Err(NotFound);
      }
      var application := apps[a];
      if application.status in {AppSubmitted, Withdrawn} {
        return Err(AlreadyClosed);
      }
      if application.runs != [] {
        var latest := application.runs[|application.runs| - 1];
        if latest.status in ACTIVE {
          return Err(RunStillActive);
        }
        if latest.status == Failed && latest.nextRetryAt.Some? {
          return Err(RetryPending);
        }
      }
      if cfg.autonomy < 2 {
        return Err(AutonomyTooLow);
      }
      if !g.jobFound {
        return Err(NotFound);
      }
      if !g.sourceFound || !g.termsAllowAutomation {
        return Err(SourceForbidsAutomation);
      }
      if !g.sourceEnabled {
        return Err(SourceDisabled);
      }
      var missing := CheckApproval(approvals.rows, a);
      if missing.Some? {
        return Err(missing.value);
      }
      challenges.providers.EnsureProvider(provider);
      var k := |application.runs|;
      apps := apps[a := application.(runs := application.runs + [NewRun(cfg, provider)])];
      CallSubmitter(a, k, outcome, now, token);
      r := Ok(k);
    }

    method Retry(a: nat, k: nat, g: Gates, outcome: SubmitOutcome, now: Time, token: nat)
      returns (r: Result<(), Error>)
      modifies this, challenges, challenges.workflows, challenges.providers
      ensures (Contents(), r) == Automation.Retry(cfg, old(Contents()), a, k, g, outcome, now, token)
    {
      if a >= |apps| || k >= |apps[a].runs| {
        return Err(NotFound);
      }
      var run := apps[a].runs[k];
      if run.status == Submitted {
        return Err(AlreadySubmitted);
      }
      if run.status in {Pending, Running} {
        return Err(RunStillActive);
      }
      if run.status == Cancelled {
        return Err(RunWasCancelled);
      }
      if run.attempts >= run.maxAttempts {
        return Err(AttemptsExhausted);
      }
      if run.status == Failed && run.nextRetryAt.None? {
        return Err(NotRetryable);
      }
      if run.challengeId.Some? && run.challengeId.value < |challenges.challenges| {
        var challenge := challenges.challenges[run.challengeId.value];
        if Challenges.InFlight(challenge.status) {
          return Err(ChallengeStillOpen);
        }
      }
      if !g.jobFound {
        return Err(NotFound);
      }
      var missing := CheckApproval(approvals.rows, a);
      if missing.Some? {
        return Err(missing.value);
      }
      run := run.(status := Running, nextRetryAt := None);
      apps := apps[a := apps[a].(runs := apps[a].runs[k := run])];
      CallSubmitter(a, k, outcome, now, token);
      r := Ok(());
    }

    /** Call the submitter for the k-th run, which is running, and store its answer. */
    method CallSubmitter(a: nat, k: nat, outcome: SubmitOutcome, now: Time, token: nat)
      requires a < |apps| && k < |apps[a].runs|
      modifies this, challenges, challenges.workflows
      ensures Contents() == Attempt(cfg, old(Contents()), a, k, outcome, now, token)
    {
      var application := apps[a];
      var run := application.runs[k];
      match outcome {
        case SubmitAccepted =>
          run := run.(status := Submitted, calls := run.calls + [SubmittedCall]);
          apps := apps[a := application.(runs := application.runs[k := run])];
          apps := apps[a := apps[a].(status := AppSubmitted)];
          submissions := submissions + [a];
        case ChallengeHit(kind) =>
          var kind' := Challenges.UnknownHumanVerification;
          if kind.Some? {
            kind' := kind.value;
          }
          var challenge := challenges.HandOff(run.provider, kind', now, token);
          run := run.(status := PausedHumanAction, attempts := run.attempts + 1);
          run := run.(challengeId := Some(challenge), calls := run.calls + [ChallengeCall(challenge)]);
          apps := apps[a := application.(runs := application.runs[k := run])];
        case SubmitFailed(_) =>
          var used := run.attempts + 1;
          var exhausted := used >= run.maxAttempts;
          if exhausted {
            run := run.(nextRetryAt := None);
          } else {
            run := run.(nextRetryAt := Some(now + Backoff.Delay(cfg.retryBase, used)), scheduled := run.scheduled + [used]);
          }
          run := run.(status := Failed, attempts := used, calls := run.calls + [FailedCall]);
          apps := apps[a := application.(runs := application.runs[k := run])];
      }
    }
  }
}
