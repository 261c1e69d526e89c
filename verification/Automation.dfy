/**
 * Permitted application automation: runs that submit an application, pause on
 * a challenge, or fail and are retried. A refused step leaves the store as it was.
 */
module Automation {
  import opened Prelude
  import Approvals
  import Backoff
  import Challenges

  datatype RunStatus = Pending | Running | Submitted | PausedHumanAction | Failed | Cancelled

  datatype ApplicationStatus = Draft | Ready | AppSubmitted | Withdrawn

  /** What the submitter answered to one call, as the audit log keeps it. */
  datatype CallRecord = SubmittedCall | ChallengeCall(challenge: nat) | FailedCall

  /** One automation run; `calls` and `scheduled` are its audited history. */
  datatype AutomationRun = AutomationRun(
    provider: nat,
    status: RunStatus,
    attempts: nat,
    maxAttempts: int,
    nextRetryAt: Option<Time>,
    challengeId: Option<nat>,
    calls: seq<CallRecord>,
    scheduled: seq<nat>)

  /** An application with its runs, oldest first. */
  datatype Application = Application(status: ApplicationStatus, runs: seq<AutomationRun>)

  datatype Config = Config(enabled: bool, autonomy: int, maxAttempts: int, retryBase: int)

  /** What the other stores say when a call reads them. */
  datatype Gates = Gates(
    jobFound: bool,
    sourceFound: bool,
    termsAllowAutomation: bool,
    sourceEnabled: bool)

  /** What the submitter reports; it may answer anything. */
  datatype SubmitOutcome =
    | SubmitAccepted
    | ChallengeHit(kind: Option<Challenges.ChallengeType>)
    | SubmitFailed(retryable: bool)

  /** The store; `submissions` lists the applications the submitter accepted, in order. */
  datatype State = State(
    human: Challenges.State,
    approvals: Approvals.Store,
    apps: seq<Application>,
    submissions: seq<nat>)

  const INITIAL := State(Challenges.INITIAL, Approvals.Store([], []), [], [])

  datatype Error =
    | AutomationDisabled
    | NotFound
    | AlreadyClosed
    | RunStillActive
    | RetryPending
    | AutonomyTooLow
    | SourceForbidsAutomation
    | SourceDisabled
    | ApprovalStillPending
    | NoApprovedApproval
    | AlreadySubmitted
    | RunWasCancelled
    | AttemptsExhausted
    | NotRetryable
    | ChallengeStillOpen
    | StoreError(error: Approvals.Error)

  const ACTIVE: set<RunStatus> := {Pending, Running, PausedHumanAction}

  function SubmissionTarget(a: nat): Approvals.Target {
    Approvals.Target(Approvals.ApplicationSubmission, "application", a)
  }

  /** The approval a submission needs: none of its requests open and one approved. */
  function CheckApproval(rows: seq<Approvals.Approval>, a: nat): Option<Error> {
    match Approvals.GetOpen(rows, SubmissionTarget(a))
    case Err(e) => Some(StoreError(e))
    case Ok(Some(_)) => Some(ApprovalStillPending)
    case Ok(None) =>
      if Approvals.GetApproved(rows, SubmissionTarget(a)).None? then Some(NoApprovedApproval) else None
  }

  /** Why an application may not be executed now; None when it may. */
  function ExecuteRefusal(cfg: Config, st: State, a: nat, g: Gates): Option<Error> {
    if !cfg.enabled then Some(AutomationDisabled)
    else if a >= |st.apps| then Some(NotFound)
    else if st.apps[a].status in {AppSubmitted, Withdrawn} then Some(AlreadyClosed)
    else
      var runs := st.apps[a].runs;
      if runs != [] && runs[|runs| - 1].status in ACTIVE then Some(RunStillActive)
      else if runs != [] && runs[|runs| - 1].status == Failed && runs[|runs| - 1].nextRetryAt.Some? then Some(RetryPending)
      else if cfg.autonomy < 2 then Some(AutonomyTooLow)
      else if !g.jobFound then Some(NotFound)
      else if !g.sourceFound || !g.termsAllowAutomation then Some(SourceForbidsAutomation)
      else if !g.sourceEnabled then Some(SourceDisabled)
      else CheckApproval(st.approvals.rows, a)
  }

  predicate ChallengeOpen(human: Challenges.State, challengeId: Option<nat>) {
    && challengeId.Some?
    && challengeId.value < |human.challenges|
    && Challenges.InFlight(human.challenges[challengeId.value].status)
  }

  /** Why the k-th run of an application may not be retried now; None when it may. */
  function RetryRefusal(st: State, a: nat, k: nat, g: Gates): Option<Error> {
    if a >= |st.apps| || k >= |st.apps[a].runs| then Some(NotFound)
    else
      var run := st.apps[a].runs[k];
      if run.status == Submitted then Some(AlreadySubmitted)
      else if run.status in {Pending, Running} then Some(RunStillActive)
      else if run.status == Cancelled then Some(RunWasCancelled)
      else if run.attempts >= run.maxAttempts then Some(AttemptsExhausted)
      else if run.status == Failed && run.nextRetryAt.None? then Some(NotRetryable)
      else if ChallengeOpen(st.human, run.challengeId) then Some(ChallengeStillOpen)
      else if !g.jobFound then Some(NotFound)
      else CheckApproval(st.approvals.rows, a)
  }

  /** The run after a failed attempt: every failure below the budget schedules a retry. */
  function AfterFailure(run: AutomationRun, base: int, now: Time): AutomationRun {
    var used := run.attempts + 1;
    var again := used < run.maxAttempts;
    run.(status := Failed,
         attempts := used,
         nextRetryAt := if again then Some(now + Backoff.Delay(base, used)) else None,
         calls := run.calls + [FailedCall],
         scheduled := if again then run.scheduled + [used] else run.scheduled)
  }

  /** Hand the k-th run of an application to the submitter and store what it answers. */
  function Attempt(cfg: Config, st: State, a: nat, k: nat, outcome: SubmitOutcome, now: Time, token: nat): State
    requires a < |st.apps| && k < |st.apps[a].runs|
  {
    var app := st.apps[a];
    var run := app.runs[k];
    match outcome
    case SubmitAccepted =>
      var run' := run.(status := Submitted, calls := run.calls + [SubmittedCall]);
      st.(apps := st.apps[a := Application(AppSubmitted, app.runs[k := run'])], submissions := st.submissions + [a])
    case ChallengeHit(kind) =>
      var kind' := if kind.Some? then kind.value else Challenges.UnknownHumanVerification;
      var (human, c) := Challenges.HandOff(st.human, run.provider, kind', now, token);
      var run' := run.(status := PausedHumanAction, attempts := run.attempts + 1, challengeId := Some(c),
                       calls := run.calls + [ChallengeCall(c)]);
      st.(human := human, apps := st.apps[a := app.(runs := app.runs[k := run'])])
    case SubmitFailed(_) =>
      st.(apps := st.apps[a := app.(runs := app.runs[k := AfterFailure(run, cfg.retryBase, now)])])
  }

  function NewRun(cfg: Config, provider: nat): AutomationRun {
    AutomationRun(provider, Running, 0, cfg.maxAttempts, None, None, [], [])
  }

  /** The store with a fresh run of application `a`, just before the submitter is called. */
  function WithNewRun(cfg: Config, st: State, a: nat, provider: nat): State
    requires a < |st.apps|
  {
    st.(human := Challenges.EnsureProvider(st.human, provider),
        apps := st.apps[a := st.apps[a].(runs := st.apps[a].runs + [NewRun(cfg, provider)])])
  }

  /** The store with the k-th run of application `a` running again. */
  function WithRetriedRun(st: State, a: nat, k: nat): State
    requires a < |st.apps| && k < |st.apps[a].runs|
  {
    var run := st.apps[a].runs[k].(status := Running, nextRetryAt := None);
    st.(apps := st.apps[a := st.apps[a].(runs := st.apps[a].runs[k := run])])
  }

  function Execute(cfg: Config, st: State, a: nat, g: Gates, provider: nat, outcome: SubmitOutcome, now: Time, token: nat):
    (State, Result<nat, Error>)
  {
    match ExecuteRefusal(cfg, st, a, g)
    case Some(e) => (st, Err(e))
    case None =>
      var k := |st.apps[a].runs|;
      (Attempt(cfg, WithNewRun(cfg, st, a, provider), a, k, outcome, now, token), Ok(k))
  }

  function Retry(cfg: Config, st: State, a: nat, k: nat, g: Gates, outcome: SubmitOutcome, now: Time, token: nat):
    (State, Result<(), Error>)
  {
    match RetryRefusal(st, a, k, g)
    case Some(e) => (st, Err(e))
    case None => (Attempt(cfg, WithRetriedRun(st, a, k), a, k, outcome, now, token), Ok(()))
  }

  // ------------------------------------------------------------------ whole runs

  /**
   * Automation steps, challenge and approval operations, and status edits made elsewhere.
   * A status edit stands for the preparation service, which is assumed not to
   * touch submitted applications.
   */
  datatype Op =
    | CreateOp(status: ApplicationStatus)
    | ExecuteOp(a: nat, g: Gates, provider: nat, outcome: SubmitOutcome, now: Time, token: nat)
    | RetryOp(a: nat, k: nat, g: Gates, outcome: SubmitOutcome, now: Time, token: nat)
    | ChallengeOp(op: Challenges.Op)
    | EditStatusOp(a: nat, status: ApplicationStatus)
    | RequestOp(target: Approvals.Target)
    | DecideOp(approval: nat, decision: Approvals.DecisionType, until: Option<Time>, now: Time, wait: nat)

  function EditStatus(st: State, a: nat, status: ApplicationStatus): State {
    if a < |st.apps| && st.apps[a].status != AppSubmitted
    then st.(apps := st.apps[a := st.apps[a].(status := status)]) else st
  }

  function Apply(cfg: Config, st: State, op: Op): State {
    match op
    case CreateOp(status) => st.(apps := st.apps + [Application(status, [])])
    case ExecuteOp(a, g, provider, outcome, now, token) => Execute(cfg, st, a, g, provider, outcome, now, token).0
    case RetryOp(a, k, g, outcome, now, token) => Retry(cfg, st, a, k, g, outcome, now, token).0
    case ChallengeOp(cop) => st.(human := Challenges.Apply(st.human, cop))
    case EditStatusOp(a, status) => EditStatus(st, a, status)
    case RequestOp(target) => st.(approvals := Approvals.Request(st.approvals, target).0)
    case DecideOp(id, d, until, now, wait) => st.(approvals := Approvals.Decide(st.approvals, id, d, until, now, wait).0)
  }

  function Run(cfg: Config, st: State, ops: seq<Op>): State {
    if ops == [] then st else Apply(cfg, Run(cfg, st, ops[..|ops| - 1]), ops[|ops| - 1])
  }
}
