/** What every run of the automation protocol keeps, together with the challenges it raises. */
module AutomationSafety {
  import opened Prelude
  import opened Automation
  import Approvals
  import Backoff
  import Challenges
  import ChallengeCoupling

  // ------------------------------------------------------------------ one run

  /** Budget and schedule: attempts are counted, retries are scheduled in order and below the budget. */
  ghost predicate BudgetOk(cfg: Config, run: AutomationRun) {
    && run.maxAttempts == cfg.maxAttempts
    && Backoff.Ascending(run.scheduled, run.attempts)
    && (forall i :: 0 <= i < |run.scheduled| ==> run.scheduled[i] < run.maxAttempts)
  }

  predicate Closed(human: Challenges.State, c: nat) {
    c < |human.challenges| && Challenges.Terminal(human.challenges[c].status)
  }

  /** Every challenge the submitter reported before the last n calls ended is closed by now. */
  ghost predicate ClosedBefore(human: Challenges.State, calls: seq<CallRecord>, n: nat)
    requires n <= |calls|
  {
    forall j :: 0 <= j < n && calls[j].ChallengeCall? ==> Closed(human, calls[j].challenge)
  }

  /** The submitter accepted none of the first n calls. */
  ghost predicate NotYetSubmitted(calls: seq<CallRecord>, n: nat)
    requires n <= |calls|
  {
    forall j :: 0 <= j < n ==> calls[j] != SubmittedCall
  }

  /** A run between calls: its status is what the last call left behind. */
  ghost predicate RunOk(cfg: Config, human: Challenges.State, run: AutomationRun) {
    && BudgetOk(cfg, run)
    && 1 <= |run.calls| <= Max(1, run.maxAttempts)
    && |run.calls| == run.attempts + (if run.status == Submitted then 1 else 0)
    && var last := |run.calls| - 1;
       && ClosedBefore(human, run.calls, last)
       && NotYetSubmitted(run.calls, last)
       && (run.challengeId.Some? ==> run.challengeId.value < |human.challenges|)
       && (match run.calls[last]
           case SubmittedCall => run.status == Submitted && run.nextRetryAt.None?
           case ChallengeCall(c) => run.status == PausedHumanAction && run.challengeId == Some(c) && run.nextRetryAt.None?
           case FailedCall => run.status == Failed && (run.nextRetryAt.Some? <==> run.attempts < run.maxAttempts))
       && (run.status != PausedHumanAction && run.challengeId.Some? ==> Closed(human, run.challengeId.value))
  }

  /** A run the submitter is about to be called for: every challenge it met has been closed. */
  ghost predicate RunReady(cfg: Config, human: Challenges.State, run: AutomationRun) {
    && BudgetOk(cfg, run)
    && run.status == Running && run.nextRetryAt.None?
    && |run.calls| == run.attempts
    && (run.attempts == 0 || run.attempts < run.maxAttempts)
    && ClosedBefore(human, run.calls, |run.calls|)
    && NotYetSubmitted(run.calls, |run.calls|)
    && (run.challengeId.Some? ==> Closed(human, run.challengeId.value))
  }

  predicate Exhausted(run: AutomationRun) {
    run.status == Failed && run.nextRetryAt.None? && run.attempts >= run.maxAttempts
  }

  ghost predicate AppOk(cfg: Config, human: Challenges.State, app: Application) {
    && (forall k :: 0 <= k < |app.runs| ==> RunOk(cfg, human, app.runs[k]))
    && (forall k :: 0 <= k < |app.runs| - 1 ==> Exhausted(app.runs[k]))
    && (app.runs != [] && app.runs[|app.runs| - 1].status == Submitted ==> app.status == AppSubmitted)
  }

  ghost predicate AppsOk(cfg: Config, st: State) {
    forall a :: 0 <= a < |st.apps| ==> AppOk(cfg, st.human, st.apps[a])
  }

  predicate HasSubmitted(app: Application) {
    app.runs != [] && app.runs[|app.runs| - 1].status == Submitted
  }

  ghost predicate SubmissionsOk(st: State) {
    && (forall d :: 0 <= d < |st.submissions| ==> st.submissions[d] < |st.apps| && HasSubmitted(st.apps[st.submissions[d]]))
    && (forall d, e :: 0 <= d < e < |st.submissions| ==> st.submissions[d] != st.submissions[e])
    && (forall a :: 0 <= a < |st.apps| && HasSubmitted(st.apps[a]) ==> a in st.submissions)
  }

  ghost predicate Inv(cfg: Config, st: State) {
    ChallengeCoupling.Coupled(st.human) && AppsOk(cfg, st) && SubmissionsOk(st)
  }

  // ---------------------------------------------------- challenges change around

  /** Closed challenges stay as they are and no challenge disappears. */
  ghost predicate Kept(human: Challenges.State, human': Challenges.State) {
    && |human.challenges| <= |human'.challenges|
    && (forall c :: Closed(human, c) ==> Closed(human', c))
  }

  lemma KeptRunOk(cfg: Config, human: Challenges.State, human': Challenges.State, run: AutomationRun)
    requires RunOk(cfg, human, run) && Kept(human, human')
    ensures RunOk(cfg, human', run)
  {
  }

  lemma KeptAppOk(cfg: Config, human: Challenges.State, human': Challenges.State, app: Application)
    requires AppOk(cfg, human, app) && Kept(human, human')
    ensures AppOk(cfg, human', app)
  {
    forall k | 0 <= k < |app.runs| ensures RunOk(cfg, human', app.runs[k]) {
      KeptRunOk(cfg, human, human', app.runs[k]);
    }
  }

  lemma ChallengeStepKeeps(human: Challenges.State, op: Challenges.Op)
    requires ChallengeCoupling.Coupled(human)
    ensures ChallengeCoupling.Coupled(Challenges.Apply(human, op))
    ensures Kept(human, Challenges.Apply(human, op))
  {
    ChallengeCoupling.ApplyKeepsCoupling(human, op);
    ChallengeCoupling.NoneDisappear(human, op);
    forall c | Closed(human, c) ensures Closed(Challenges.Apply(human, op), c) {
      ChallengeCoupling.ClosedIsFinal(human, op, c);
    }
  }

  // ------------------------------------------------------------------ attempts

  lemma FailureKeepsRun(cfg: Config, human: Challenges.State, run: AutomationRun, now: Time)
    requires RunReady(cfg, human, run)
    ensures RunOk(cfg, human, AfterFailure(run, cfg.retryBase, now))
  {
  }

  lemma ChallengeKeepsRun(cfg: Config, human: Challenges.State, human': Challenges.State, run: AutomationRun, c: nat)
    requires RunReady(cfg, human, run) && Kept(human, human') && c < |human'.challenges|
    ensures RunOk(cfg, human', run.(status := PausedHumanAction, attempts := run.attempts + 1, challengeId := Some(c),
                                    calls := run.calls + [ChallengeCall(c)]))
  {
  }

  /** The application the submitter is called for, just before the call. */
  ghost predicate AppReady(cfg: Config, human: Challenges.State, app: Application) {
    && app.runs != []
    && RunReady(cfg, human, app.runs[|app.runs| - 1])
    && (forall k :: 0 <= k < |app.runs| - 1 ==> RunOk(cfg, human, app.runs[k]) && Exhausted(app.runs[k]))
  }

  /** Everything holds except that the latest run of application `a` is in the submitter's hands. */
  ghost predicate ReadyAt(cfg: Config, st: State, a: nat) {
    && a < |st.apps| && AppReady(cfg, st.human, st.apps[a])
    && ChallengeCoupling.Coupled(st.human) && SubmissionsOk(st)
    && (forall b :: 0 <= b < |st.apps| && b != a ==> AppOk(cfg, st.human, st.apps[b]))
  }

  lemma AcceptedKeepsInv(cfg: Config, st: State, a: nat, now: Time, token: nat)
    requires ReadyAt(cfg, st, a)
    ensures Inv(cfg, Attempt(cfg, st, a, |st.apps[a].runs| - 1, SubmitAccepted, now, token))
  {
    var k := |st.apps[a].runs| - 1;
    var st' := Attempt(cfg, st, a, k, SubmitAccepted, now, token);
    assert RunOk(cfg, st'.human, st'.apps[a].runs[k]);
    assert AppOk(cfg, st'.human, st'.apps[a]);
    assert st'.submissions[|st.submissions|] == a;
    assert !HasSubmitted(st.apps[a]);
    forall b | 0 <= b < |st'.apps| && HasSubmitted(st'.apps[b]) ensures b in st'.submissions {
      if b != a {
        assert b in st.submissions;
      }
    }
  }

  /** Replacing the latest run by one that was not submitted leaves the submissions right. */
  lemma UnsubmittedKeepsSubmissions(st: State, st': State, a: nat)
    requires SubmissionsOk(st) && a < |st.apps| == |st'.apps|
    requires st'.submissions == st.submissions
    requires !HasSubmitted(st.apps[a]) && !HasSubmitted(st'.apps[a])
    requires forall b :: 0 <= b < |st.apps| && b != a ==> st'.apps[b] == st.apps[b]
    ensures SubmissionsOk(st')
  {
  }

  lemma ChallengedKeepsInv(cfg: Config, st: State, a: nat, kind: Option<Challenges.ChallengeType>, now: Time, token: nat)
    requires ReadyAt(cfg, st, a)
    ensures Inv(cfg, Attempt(cfg, st, a, |st.apps[a].runs| - 1, ChallengeHit(kind), now, token))
  {
    var app := st.apps[a];
    var k := |app.runs| - 1;
    var st' := Attempt(cfg, st, a, k, ChallengeHit(kind), now, token);
    var kind' := if kind.Some? then kind.value else Challenges.UnknownHumanVerification;
    HandOffStepKeeps(st.human, app.runs[k].provider, kind', now, token);
    ChallengeKeepsRun(cfg, st.human, st'.human, app.runs[k],
                      Challenges.HandOff(st.human, app.runs[k].provider, kind', now, token).1);
    forall b | 0 <= b < |st.apps| && b != a ensures AppOk(cfg, st'.human, st'.apps[b]) {
      KeptAppOk(cfg, st.human, st'.human, st.apps[b]);
    }
    forall j | 0 <= j < k ensures RunOk(cfg, st'.human, app.runs[j]) {
      KeptRunOk(cfg, st.human, st'.human, app.runs[j]);
    }
    assert AppOk(cfg, st'.human, st'.apps[a]);
    UnsubmittedKeepsSubmissions(st, st', a);
  }

  lemma HandOffStepKeeps(human: Challenges.State, provider: nat, kind: Challenges.ChallengeType, now: Time, token: nat)
    requires ChallengeCoupling.Coupled(human)
    ensures var (human', c) := Challenges.HandOff(human, provider, kind, now, token);
            ChallengeCoupling.Coupled(human') && Kept(human, human') && c < |human'.challenges|
  {
    ChallengeStepKeeps(human, Challenges.HandOffOp(provider, kind, now, token));
    ChallengeCoupling.HandOffKeepsCoupling(human, provider, kind, now, token);
  }

  lemma FailedKeepsInv(cfg: Config, st: State, a: nat, retryable: bool, now: Time, token: nat)
    requires ReadyAt(cfg, st, a)
    ensures Inv(cfg, Attempt(cfg, st, a, |st.apps[a].runs| - 1, SubmitFailed(retryable), now, token))
  {
    var k := |st.apps[a].runs| - 1;
    var st' := Attempt(cfg, st, a, k, SubmitFailed(retryable), now, token);
    FailureKeepsRun(cfg, st.human, st.apps[a].runs[k], now);
    assert AppOk(cfg, st'.human, st'.apps[a]);
    UnsubmittedKeepsSubmissions(st, st', a);
  }

  lemma AttemptKeepsInv(cfg: Config, st: State, a: nat, outcome: SubmitOutcome, now: Time, token: nat)
    requires ReadyAt(cfg, st, a)
    ensures Inv(cfg, Attempt(cfg, st, a, |st.apps[a].runs| - 1, outcome, now, token))
  {
    match outcome
    case SubmitAccepted => AcceptedKeepsInv(cfg, st, a, now, token);
    case ChallengeHit(kind) => ChallengedKeepsInv(cfg, st, a, kind, now, token);
    case SubmitFailed(retryable) => FailedKeepsInv(cfg, st, a, retryable, now, token);
  }

  lemma ExecuteKeepsInv(cfg: Config, st: State, a: nat, g: Gates, provider: nat, outcome: SubmitOutcome, now: Time, token: nat)
    requires Inv(cfg, st)
    ensures Inv(cfg, Execute(cfg, st, a, g, provider, outcome, now, token).0)
  {
    hide Inv, ReadyAt, Attempt;
    if ExecuteRefusal(cfg, st, a, g).None? {
      ExecuteIsReady(cfg, st, a, g, provider);
      AttemptKeepsInv(cfg, WithNewRun(cfg, st, a, provider), a, outcome, now, token);
    }
  }

  /** An execution that is not refused starts with every earlier run exhausted. */
  lemma ExecuteIsReady(cfg: Config, st: State, a: nat, g: Gates, provider: nat)
    requires Inv(cfg, st) && ExecuteRefusal(cfg, st, a, g).None?
    ensures var ready := WithNewRun(cfg, st, a, provider);
            ReadyAt(cfg, ready, a) && |ready.apps[a].runs| - 1 == |st.apps[a].runs|
  {
    var ready := WithNewRun(cfg, st, a, provider);
    ChallengeStepKeeps(st.human, Challenges.EnsureProviderOp(provider));
    hide RunOk, RunReady, ChallengeCoupling.Coupled, CheckApproval;
    EarlierExhausted(cfg, st.human, st.apps[a]);
    KeptAppsOk(cfg, st, ready.human);
    NewRunIsReady(cfg, ready.human, st.apps[a], provider);
    hide AppOk, AppReady;
    UnsubmittedKeepsSubmissions(st, ready, a);
  }

  lemma KeptAppsOk(cfg: Config, st: State, human': Challenges.State)
    requires AppsOk(cfg, st) && Kept(st.human, human')
    ensures forall b :: 0 <= b < |st.apps| ==> AppOk(cfg, human', st.apps[b])
  {
    hide AppOk, Kept;
    forall b | 0 <= b < |st.apps| ensures AppOk(cfg, human', st.apps[b]) {
      KeptAppOk(cfg, st.human, human', st.apps[b]);
    }
  }

  /** An application whose runs are all exhausted is ready once it has a new one. */
  lemma NewRunIsReady(cfg: Config, human: Challenges.State, app: Application, provider: nat)
    requires AppOk(cfg, human, app) && forall j :: 0 <= j < |app.runs| ==> Exhausted(app.runs[j])
    ensures AppReady(cfg, human, app.(runs := app.runs + [NewRun(cfg, provider)]))
  {
    hide RunOk;
  }

  lemma EarlierExhausted(cfg: Config, human: Challenges.State, app: Application)
    requires AppOk(cfg, human, app) && app.status !in {AppSubmitted, Withdrawn}
    requires app.runs != [] ==>
               var latest := app.runs[|app.runs| - 1];
               latest.status !in ACTIVE && !(latest.status == Failed && latest.nextRetryAt.Some?)
    ensures !HasSubmitted(app)
    ensures forall j :: 0 <= j < |app.runs| ==> Exhausted(app.runs[j])
  {
    if app.runs != [] {
      assert RunOk(cfg, human, app.runs[|app.runs| - 1]);
    }
  }

  /** Only the latest run of an application can be retried, and only with its challenges closed. */
  lemma RetriedRunIsReady(cfg: Config, st: State, a: nat, k: nat, g: Gates)
    requires Inv(cfg, st) && RetryRefusal(st, a, k, g).None?
    ensures k == |st.apps[a].runs| - 1
    ensures AppReady(cfg, st.human, WithRetriedRun(st, a, k).apps[a])
    ensures !HasSubmitted(st.apps[a])
  {
    assert AppOk(cfg, st.human, st.apps[a]) && RunOk(cfg, st.human, st.apps[a].runs[k]);
    var run := st.apps[a].runs[k];
    var ready := WithRetriedRun(st, a, k).apps[a].runs[k];
    assert run.challengeId.Some? ==> Closed(st.human, run.challengeId.value);
    assert RunReady(cfg, st.human, ready);
  }

  lemma RetryIsReady(cfg: Config, st: State, a: nat, k: nat, g: Gates)
    requires Inv(cfg, st) && RetryRefusal(st, a, k, g).None?
    ensures var ready := WithRetriedRun(st, a, k);
            ReadyAt(cfg, ready, a) && |ready.apps[a].runs| - 1 == k
  {
    RetriedRunIsReady(cfg, st, a, k, g);
    hide RunOk, RunReady, ChallengeCoupling.Coupled, RetryRefusal;
    UnsubmittedKeepsSubmissions(st, WithRetriedRun(st, a, k), a);
  }

  lemma RetryKeepsInv(cfg: Config, st: State, a: nat, k: nat, g: Gates, outcome: SubmitOutcome, now: Time, token: nat)
    requires Inv(cfg, st)
    ensures Inv(cfg, Retry(cfg, st, a, k, g, outcome, now, token).0)
  {
    hide Inv, ReadyAt, Attempt;
    if RetryRefusal(st, a, k, g).None? {
      RetryIsReady(cfg, st, a, k, g);
      AttemptKeepsInv(cfg, WithRetriedRun(st, a, k), a, outcome, now, token);
    }
  }

  lemma CreateKeepsInv(cfg: Config, st: State, status: ApplicationStatus)
    requires Inv(cfg, st)
    ensures Inv(cfg, st.(apps := st.apps + [Application(status, [])]))
  {
    hide RunOk, ChallengeCoupling.Coupled;
  }

  lemma ChallengeOpKeepsInv(cfg: Config, st: State, cop: Challenges.Op)
    requires Inv(cfg, st)
    ensures Inv(cfg, st.(human := Challenges.Apply(st.human, cop)))
  {
    hide RunOk, ChallengeCoupling.Coupled, Challenges.Apply;
    ChallengeStepKeeps(st.human, cop);
    forall b | 0 <= b < |st.apps| ensures AppOk(cfg, Challenges.Apply(st.human, cop), st.apps[b]) {
      KeptAppOk(cfg, st.human, Challenges.Apply(st.human, cop), st.apps[b]);
    }
  }

  lemma EditKeepsInv(cfg: Config, st: State, a: nat, status: ApplicationStatus)
    requires Inv(cfg, st)
    ensures Inv(cfg, EditStatus(st, a, status))
  {
    hide RunOk, ChallengeCoupling.Coupled;
    if a < |st.apps| {
      assert AppOk(cfg, st.human, st.apps[a]);
    }
  }

  lemma ApprovalsKeepInv(cfg: Config, st: State, approvals: Approvals.Store)
    requires Inv(cfg, st)
    ensures Inv(cfg, st.(approvals := approvals))
  {
    hide RunOk, ChallengeCoupling.Coupled;
  }

  lemma ApplyKeepsInv(cfg: Config, st: State, op: Op)
    requires Inv(cfg, st)
    ensures Inv(cfg, Apply(cfg, st, op))
  {
    hide Inv, Execute, Retry, EditStatus;
    match op
    case CreateOp(status) => CreateKeepsInv(cfg, st, status);
    case ExecuteOp(a, g, provider, outcome, now, token) => ExecuteKeepsInv(cfg, st, a, g, provider, outcome, now, token);
    case RetryOp(a, k, g, outcome, now, token) => RetryKeepsInv(cfg, st, a, k, g, outcome, now, token);
    case ChallengeOp(cop) => ChallengeOpKeepsInv(cfg, st, cop);
    case EditStatusOp(a, status) => EditKeepsInv(cfg, st, a, status);
    case RequestOp(target) => ApprovalsKeepInv(cfg, st, Approvals.Request(st.approvals, target).0);
    case DecideOp(id, d, until, now, wait) => ApprovalsKeepInv(cfg, st, Approvals.Decide(st.approvals, id, d, until, now, wait).0);
  }

  lemma {:induction false} RunKeepsInv(cfg: Config, ops: seq<Op>)
    ensures Inv(cfg, Run(cfg, INITIAL, ops))
  {
    if ops != [] {
      RunKeepsInv(cfg, ops[..|ops| - 1]);
      ApplyKeepsInv(cfg, Run(cfg, INITIAL, ops[..|ops| - 1]), ops[|ops| - 1]);
    }
  }

  // ---------------------------------------------------------------- main results

  /**
   * An application is submitted at most once: the submitter accepts it at most
   * once, in the last call of its latest run, and every earlier run is an
   * exhausted failure.
   */
  lemma SubmittedAtMostOnce(cfg: Config, ops: seq<Op>)
    ensures var st := Run(cfg, INITIAL, ops);
            && (forall d, e :: 0 <= d < e < |st.submissions| ==> st.submissions[d] != st.submissions[e])
            && (forall a :: 0 <= a < |st.apps| ==>
                  var runs := st.apps[a].runs;
                  && (forall k :: 0 <= k < |runs| - 1 ==> Exhausted(runs[k]))
                  && (forall k, j :: 0 <= k < |runs| && 0 <= j < |runs[k].calls| && runs[k].calls[j] == SubmittedCall ==>
                        k == |runs| - 1 && j == |runs[k].calls| - 1 && a in st.submissions && st.apps[a].status == AppSubmitted))
  {
    RunKeepsInv(cfg, ops);
    hide Run, ChallengeCoupling.Coupled, BudgetOk, ClosedBefore;
    var st := Run(cfg, INITIAL, ops);
    forall a, k | 0 <= a < |st.apps| && 0 <= k < |st.apps[a].runs| ensures RunOk(cfg, st.human, st.apps[a].runs[k]) {
      assert AppOk(cfg, st.human, st.apps[a]);
    }
    assert forall a :: 0 <= a < |st.apps| ==> AppOk(cfg, st.human, st.apps[a]);
  }

  /**
   * After the submitter reported a challenge for a run it is not called again
   * for that run until the challenge is closed: in every reachable state, a
   * challenge followed by another call is closed, and one that is still open
   * keeps its run paused.
   */
  lemma NoCallWhileChallenged(cfg: Config, ops: seq<Op>, a: nat, k: nat, j: nat)
    requires a < |Run(cfg, INITIAL, ops).apps| && k < |Run(cfg, INITIAL, ops).apps[a].runs|
    requires j < |Run(cfg, INITIAL, ops).apps[a].runs[k].calls|
    requires Run(cfg, INITIAL, ops).apps[a].runs[k].calls[j].ChallengeCall?
    ensures var st := Run(cfg, INITIAL, ops);
            var run := st.apps[a].runs[k];
            && (j < |run.calls| - 1 ==> Closed(st.human, run.calls[j].challenge))
            && (j == |run.calls| - 1 ==> run.status == PausedHumanAction && run.challengeId == Some(run.calls[j].challenge))
            && (j == |run.calls| - 1 && !Closed(st.human, run.calls[j].challenge) ==>
                  forall g :: RetryRefusal(st, a, k, g).Some?)
  {
    RunKeepsInv(cfg, ops);
    hide Run;
    var st := Run(cfg, INITIAL, ops);
    assert AppOk(cfg, st.human, st.apps[a]) && RunOk(cfg, st.human, st.apps[a].runs[k]);
    hide Inv, AppOk, AppsOk, BudgetOk;
  }

  /** The submitter is called for one run at most max_attempts times, and the scheduled delays stay below one doubling. */
  lemma RetryBudgetHolds(cfg: Config, ops: seq<Op>, a: nat, k: nat)
    requires a < |Run(cfg, INITIAL, ops).apps| && k < |Run(cfg, INITIAL, ops).apps[a].runs|
    ensures var run := Run(cfg, INITIAL, ops).apps[a].runs[k];
            && 1 <= |run.calls| <= Max(1, cfg.maxAttempts)
            && (|run.calls| <= cfg.maxAttempts <==> cfg.maxAttempts >= 1)
            && Backoff.Ascending(run.scheduled, cfg.maxAttempts - 1)
            && (cfg.retryBase >= 0 ==>
                  Backoff.TotalDelay(cfg.retryBase, run.scheduled)
                  <= cfg.retryBase * (Backoff.Pow2(Max(0, cfg.maxAttempts - 1)) - 1))
  {
    RunKeepsInv(cfg, ops);
    hide Run;
    var st := Run(cfg, INITIAL, ops);
    assert AppOk(cfg, st.human, st.apps[a]);
    BudgetBoundsDelays(cfg, st.human, st.apps[a].runs[k]);
    hide Inv, AppOk, AppsOk, Backoff.TotalDelay, Backoff.Pow2, ClosedBefore, NotYetSubmitted;
  }

  lemma BudgetBoundsDelays(cfg: Config, human: Challenges.State, run: AutomationRun)
    requires RunOk(cfg, human, run)
    ensures Backoff.Ascending(run.scheduled, cfg.maxAttempts - 1)
    ensures cfg.retryBase >= 0 ==>
              Backoff.TotalDelay(cfg.retryBase, run.scheduled)
              <= cfg.retryBase * (Backoff.Pow2(Max(0, cfg.maxAttempts - 1)) - 1)
  {
    hide Backoff.TotalDelay, Backoff.Pow2, ClosedBefore, NotYetSubmitted;
    if cfg.retryBase >= 0 {
      Backoff.TotalDelayBounded(cfg.retryBase, run.scheduled, Max(0, cfg.maxAttempts - 1));
    }
  }

  /** A failure schedules a retry exactly while the budget lasts, retryable or not. */
  lemma FailureSchedulesWhileBudgetLasts(cfg: Config, st: State, a: nat, k: nat, retryable: bool, now: Time, token: nat)
    requires a < |st.apps| && k < |st.apps[a].runs|
    ensures var run := Attempt(cfg, st, a, k, SubmitFailed(retryable), now, token).apps[a].runs[k];
            && run.status == Failed
            && (run.nextRetryAt.Some? <==> run.attempts < run.maxAttempts)
            && (run.nextRetryAt.Some? ==> run.nextRetryAt.value == now + cfg.retryBase * Backoff.Pow2(run.attempts - 1))
  {
  }

  /** A run that is paused with its budget used up. */
  predicate Stuck(st: State, a: nat) {
    && a < |st.apps| && st.apps[a].runs != []
    && var run := st.apps[a].runs[|st.apps[a].runs| - 1];
       run.status == PausedHumanAction && run.attempts >= run.maxAttempts
  }

  /**
   * A run that meets a challenge on its last attempt stays paused for ever:
   * neither a retry nor a new execution is accepted, whatever happens to the
   * challenge, although the refusal advises starting a new run.
   */
  lemma {:induction false} StuckForever(cfg: Config, ops: seq<Op>, more: seq<Op>, a: nat)
    requires Stuck(Run(cfg, INITIAL, ops), a)
    ensures var st := Run(cfg, Run(cfg, INITIAL, ops), more);
            && Inv(cfg, st) && Stuck(st, a)
            && st.apps[a].runs == Run(cfg, INITIAL, ops).apps[a].runs
            && (forall g :: ExecuteRefusal(cfg, st, a, g).Some?)
            && (forall k: nat, g :: RetryRefusal(st, a, k, g).Some?)
  {
    RunKeepsInv(cfg, ops);
    if more != [] {
      StuckForever(cfg, ops, more[..|more| - 1], a);
      var st := Run(cfg, Run(cfg, INITIAL, ops), more[..|more| - 1]);
      StuckStays(cfg, st, more[|more| - 1], a);
    }
    StuckRefusesAll(cfg, Run(cfg, Run(cfg, INITIAL, ops), more), a);
  }

  /** The latest run may be called again: an attempt is left, and it failed or its challenge is closed. */
  predicate Continuable(st: State, a: nat)
    requires a < |st.apps| && st.apps[a].runs != []
  {
    var run := st.apps[a].runs[|st.apps[a].runs| - 1];
    && run.attempts < run.maxAttempts
    && (run.status == Failed
        || (run.status == PausedHumanAction && run.challengeId.Some? && Closed(st.human, run.challengeId.value)))
  }

  /**
   * With the job found and the approval in place, some retry of an application
   * is accepted exactly when its latest run has an attempt left and has failed,
   * or is paused on a challenge that has been closed. Whether the application
   * has been withdrawn plays no part.
   */
  lemma RetryAcceptedExactly(cfg: Config, st: State, a: nat, g: Gates)
    requires Inv(cfg, st) && a < |st.apps| && st.apps[a].runs != []
    requires g.jobFound && CheckApproval(st.approvals.rows, a).None?
    ensures (exists k: nat :: RetryRefusal(st, a, k, g).None?) <==> Continuable(st, a)
  {
    hide CheckApproval;
    var last := |st.apps[a].runs| - 1;
    assert AppOk(cfg, st.human, st.apps[a]) && RunOk(cfg, st.human, st.apps[a].runs[last]);
    var run := st.apps[a].runs[last];
    assert run.challengeId.Some? ==> (Closed(st.human, run.challengeId.value) <==> !ChallengeOpen(st.human, run.challengeId));
    forall k: nat | k != last ensures RetryRefusal(st, a, k, g).Some? {
      assert k < last ==> Exhausted(st.apps[a].runs[k]);
    }
    assert RetryRefusal(st, a, last, g).None? <==> Continuable(st, a);
  }

  /**
   * A paused run can be continued, by a retry or by a new execution, exactly
   * when its challenge is no longer in flight and an attempt is left.
   */
  lemma PausedContinuesExactly(cfg: Config, st: State, a: nat, g: Gates)
    requires Inv(cfg, st) && a < |st.apps| && st.apps[a].runs != []
    requires st.apps[a].runs[|st.apps[a].runs| - 1].status == PausedHumanAction
    requires g.jobFound && CheckApproval(st.approvals.rows, a).None?
    ensures var run := st.apps[a].runs[|st.apps[a].runs| - 1];
            (ExecuteRefusal(cfg, st, a, g).None? || exists k: nat :: RetryRefusal(st, a, k, g).None?)
            <==> run.attempts < run.maxAttempts && Closed(st.human, run.challengeId.value)
  {
    RetryAcceptedExactly(cfg, st, a, g);
    assert AppOk(cfg, st.human, st.apps[a]);
    hide CheckApproval, RetryRefusal;
  }

  lemma StuckRefusesAll(cfg: Config, st: State, a: nat)
    requires Inv(cfg, st) && Stuck(st, a)
    ensures forall g :: ExecuteRefusal(cfg, st, a, g).Some?
    ensures forall k: nat, g :: RetryRefusal(st, a, k, g).Some?
  {
    assert AppOk(cfg, st.human, st.apps[a]);
    forall k: nat, g ensures RetryRefusal(st, a, k, g).Some? {
      if k < |st.apps[a].runs| - 1 {
        assert Exhausted(st.apps[a].runs[k]);
      }
    }
  }

  lemma StuckStays(cfg: Config, st: State, op: Op, a: nat)
    requires Inv(cfg, st) && Stuck(st, a)
    ensures var st' := Apply(cfg, st, op);
            Inv(cfg, st') && Stuck(st', a) && st'.apps[a].runs == st.apps[a].runs
  {
    hide Inv, Apply, ExecuteRefusal, RetryRefusal;
    StuckRefusesAll(cfg, st, a);
    ApplyKeepsInv(cfg, st, op);
    RunsUntouched(cfg, st, op, a);
  }

  /** An application that refuses every execution and retry keeps its runs. */
  lemma RunsUntouched(cfg: Config, st: State, op: Op, a: nat)
    requires a < |st.apps|
    requires forall g :: ExecuteRefusal(cfg, st, a, g).Some?
    requires forall k: nat, g :: RetryRefusal(st, a, k, g).Some?
    ensures a < |Apply(cfg, st, op).apps| && Apply(cfg, st, op).apps[a].runs == st.apps[a].runs
  {
    hide ExecuteRefusal, RetryRefusal, Attempt, Challenges.Apply;
    match op
    case ExecuteOp(b, g, provider, outcome, now, token) =>
      if b != a {
        ExecuteTouchesOne(cfg, st, b, g, provider, outcome, now, token, a);
      }
    case RetryOp(b, k, g, outcome, now, token) =>
      if b != a {
        RetryTouchesOne(cfg, st, b, k, g, outcome, now, token, a);
      }
    case _ =>
  }

  lemma AttemptTouchesOne(cfg: Config, st: State, b: nat, k: nat, outcome: SubmitOutcome, now: Time, token: nat, a: nat)
    requires b < |st.apps| && k < |st.apps[b].runs| && a < |st.apps| && a != b
    ensures var st' := Attempt(cfg, st, b, k, outcome, now, token);
            a < |st'.apps| && st'.apps[a] == st.apps[a]
  {
  }

  lemma ExecuteTouchesOne(cfg: Config, st: State, b: nat, g: Gates, provider: nat, outcome: SubmitOutcome, now: Time, token: nat, a: nat)
    requires a < |st.apps| && a != b
    ensures var st' := Execute(cfg, st, b, g, provider, outcome, now, token).0;
            a < |st'.apps| && st'.apps[a] == st.apps[a]
  {
    if ExecuteRefusal(cfg, st, b, g).None? {
      AttemptTouchesOne(cfg, WithNewRun(cfg, st, b, provider), b, |st.apps[b].runs|, outcome, now, token, a);
    }
  }

  lemma RetryTouchesOne(cfg: Config, st: State, b: nat, k: nat, g: Gates, outcome: SubmitOutcome, now: Time, token: nat, a: nat)
    requires a < |st.apps| && a != b
    ensures var st' := Retry(cfg, st, b, k, g, outcome, now, token).0;
            a < |st'.apps| && st'.apps[a] == st.apps[a]
  {
    if RetryRefusal(st, b, k, g).None? {
      AttemptTouchesOne(cfg, WithRetriedRun(st, b, k), b, k, outcome, now, token, a);
    }
  }

  /** A retry looks at neither the application's status nor the scheduled time: a withdrawn application can still be submitted by one. */
  lemma RetryIgnoresStatusAndTime(st: State, a: nat, k: nat, g: Gates, status: ApplicationStatus, other: Time)
    requires a < |st.apps| && k < |st.apps[a].runs| && st.apps[a].runs[k].nextRetryAt.Some?
    ensures var run := st.apps[a].runs[k].(nextRetryAt := Some(other));
            var app := Application(status, st.apps[a].runs[k := run]);
            RetryRefusal(st.(apps := st.apps[a := app]), a, k, g) == RetryRefusal(st, a, k, g)
  {
  }

  // -------------------------------------------------------------- human approval

  /** The application an operation hands to the submitter, if any. */
  function Attempted(cfg: Config, st: State, op: Op): Option<nat> {
    match op
    case ExecuteOp(a, g, _, _, _, _) => if ExecuteRefusal(cfg, st, a, g).None? then Some(a) else None
    case RetryOp(a, k, g, _, _, _) => if RetryRefusal(st, a, k, g).None? then Some(a) else None
    case _ => None
  }

  /** The submitter is called only for an application with an APPROVED request and none open. */
  lemma AttemptedIsApproved(cfg: Config, st: State, op: Op, a: nat)
    requires Attempted(cfg, st, op) == Some(a)
    ensures exists i :: 0 <= i < |st.approvals.rows| && st.approvals.rows[i].target == SubmissionTarget(a)
                        && st.approvals.rows[i].status == Approvals.Approved
    ensures forall i :: 0 <= i < |st.approvals.rows| && st.approvals.rows[i].target == SubmissionTarget(a) ==>
              !Approvals.IsOpen(st.approvals.rows[i].status)
  {
    var i := Approvals.GetApproved(st.approvals.rows, SubmissionTarget(a)).value;
    assert st.approvals.rows[i].status == Approvals.Approved;
  }

  predicate HasApproved(st: State, a: nat) {
    exists i :: 0 <= i < |st.approvals.rows| && st.approvals.rows[i].target == SubmissionTarget(a)
                && st.approvals.rows[i].status == Approvals.Approved
  }

  lemma ApprovedStays(cfg: Config, st: State, op: Op, a: nat)
    requires HasApproved(st, a)
    ensures HasApproved(Apply(cfg, st, op), a)
  {
    var i :| 0 <= i < |st.approvals.rows| && st.approvals.rows[i].target == SubmissionTarget(a)
             && st.approvals.rows[i].status == Approvals.Approved;
    hide ExecuteRefusal, RetryRefusal, Challenges.Apply, Challenges.HandOff;
    assert i < |Apply(cfg, st, op).approvals.rows| && Apply(cfg, st, op).approvals.rows[i] == st.approvals.rows[i];
  }

  lemma SubmissionsGrow(cfg: Config, st: State, op: Op)
    ensures var st' := Apply(cfg, st, op);
            || st'.submissions == st.submissions
            || (Attempted(cfg, st, op).Some? && st'.submissions == st.submissions + [Attempted(cfg, st, op).value])
  {
    hide ExecuteRefusal, RetryRefusal, Challenges.Apply, Challenges.HandOff;
  }

  ghost predicate AllApproved(st: State) {
    forall a :: a in st.submissions ==> HasApproved(st, a)
  }

  lemma ApplyKeepsApproved(cfg: Config, st: State, op: Op)
    requires AllApproved(st)
    ensures AllApproved(Apply(cfg, st, op))
  {
    SubmissionsGrow(cfg, st, op);
    hide Apply, HasApproved;
    forall a | a in Apply(cfg, st, op).submissions ensures HasApproved(Apply(cfg, st, op), a) {
      if a !in st.submissions {
        AttemptedHas(cfg, st, op, a);
      }
      ApprovedStays(cfg, st, op, a);
    }
  }

  /** Over any run, every submitted application has an APPROVED request. */
  lemma {:induction false} SubmittedIsApproved(cfg: Config, ops: seq<Op>)
    ensures AllApproved(Run(cfg, INITIAL, ops))
  {
    if ops != [] {
      hide Apply, AllApproved;
      SubmittedIsApproved(cfg, ops[..|ops| - 1]);
      ApplyKeepsApproved(cfg, Run(cfg, INITIAL, ops[..|ops| - 1]), ops[|ops| - 1]);
    } else {
      assert Run(cfg, INITIAL, ops) == INITIAL;
    }
  }

  lemma AttemptedHas(cfg: Config, st: State, op: Op, a: nat)
    requires Attempted(cfg, st, op) == Some(a)
    ensures HasApproved(st, a)
  {
    AttemptedIsApproved(cfg, st, op, a);
  }

  // ------------------------------------------------------------- reachable cases

  /** Every gate but the approval is open. */
  const OPEN := Gates(true, true, true, true)

  /** A configuration that allows the given number of attempts. */
  function Allowing(maxAttempts: int): Config {
    Config(true, 2, maxAttempts, 60)
  }

  /** One ready application whose submission has been approved. */
  const APPROVED_ROW := Approvals.Approval(SubmissionTarget(0), Approvals.Approved, Some(Approvals.Approve), Some(0), None)
  const ONE_APPROVED := INITIAL.(apps := [Application(Ready, [])],
                                 approvals := Approvals.Store([APPROVED_ROW], [Approvals.Decision(0, Approvals.Approve)]))

  const PREPARE: seq<Op> := [CreateOp(Ready), RequestOp(SubmissionTarget(0)), DecideOp(0, Approvals.Approve, None, 0, 0)]

  lemma RunSnoc(cfg: Config, st: State, ops: seq<Op>, op: Op)
    ensures Run(cfg, st, ops + [op]) == Apply(cfg, Run(cfg, st, ops), op)
  {
    hide Apply;
    assert (ops + [op])[..|ops|] == ops;
  }

  lemma Prepared(cfg: Config)
    ensures Run(cfg, INITIAL, PREPARE) == ONE_APPROVED
  {
    var created := INITIAL.(apps := [Application(Ready, [])]);
    var pending := Approvals.Approval(SubmissionTarget(0), Approvals.Pending, None, None, None);
    assert Apply(cfg, INITIAL, PREPARE[0]) == created;
    assert Apply(cfg, created, PREPARE[1]) == created.(approvals := Approvals.Store([pending], []));
    assert Apply(cfg, created.(approvals := Approvals.Store([pending], [])), PREPARE[2]) == ONE_APPROVED;
    hide Apply;
    assert PREPARE == (([] + [PREPARE[0]]) + [PREPARE[1]]) + [PREPARE[2]];
    RunSnoc(cfg, INITIAL, [], PREPARE[0]);
    RunSnoc(cfg, INITIAL, [] + [PREPARE[0]], PREPARE[1]);
    RunSnoc(cfg, INITIAL, ([] + [PREPARE[0]]) + [PREPARE[1]], PREPARE[2]);
  }

  lemma NothingRefused(cfg: Config, st: State)
    requires cfg.enabled && cfg.autonomy >= 2
    requires st.approvals == ONE_APPROVED.approvals && st.apps == [Application(Ready, [])]
    ensures ExecuteRefusal(cfg, st, 0, OPEN).None?
    ensures CheckApproval(st.approvals.rows, 0).None?
  {
    assert st.approvals.rows[..0] == [];
  }

  /** A stuck run is reachable: the only attempt allowed meets a challenge. */
  lemma StuckIsReachable()
    ensures Stuck(Run(Allowing(1), INITIAL, PREPARE + [ExecuteOp(0, OPEN, 0, ChallengeHit(None), 0, 0)]), 0)
  {
    var op := ExecuteOp(0, OPEN, 0, ChallengeHit(None), 0, 0);
    Prepared(Allowing(1));
    RunSnoc(Allowing(1), INITIAL, PREPARE, op);
    NothingRefused(Allowing(1), ONE_APPROVED);
    hide ExecuteRefusal, Run;
  }

  /** A withdrawn application can be submitted: its last run failed before it was withdrawn, and is retried after. */
  lemma WithdrawnIsSubmitted()
    ensures var cfg := Allowing(2);
            var ops := (PREPARE + [ExecuteOp(0, OPEN, 0, SubmitFailed(false), 0, 0)]) + [EditStatusOp(0, Withdrawn)];
            && |Run(cfg, INITIAL, ops).apps| == 1 && Run(cfg, INITIAL, ops).apps[0].status == Withdrawn
            && Run(cfg, INITIAL, ops + [RetryOp(0, 0, OPEN, SubmitAccepted, 0, 0)]).submissions == [0]
  {
    var cfg := Allowing(2);
    var execute, edit, retry := ExecuteOp(0, OPEN, 0, SubmitFailed(false), 0, 0), EditStatusOp(0, Withdrawn), RetryOp(0, 0, OPEN, SubmitAccepted, 0, 0);
    Prepared(cfg);
    RunSnoc(cfg, INITIAL, PREPARE, execute);
    RunSnoc(cfg, INITIAL, PREPARE + [execute], edit);
    RunSnoc(cfg, INITIAL, (PREPARE + [execute]) + [edit], retry);
    NothingRefused(cfg, ONE_APPROVED);
    hide Run, CheckApproval;
  }

  /**
   * A retry looks at neither the switch nor the autonomy level, nor at whether
   * the job's source still exists, allows automation and is enabled.
   */
  lemma RetryIgnoresSwitches(cfg: Config, off: Config, st: State, a: nat, k: nat, g: Gates, closed: Gates, outcome: SubmitOutcome, now: Time, token: nat)
    requires off.retryBase == cfg.retryBase && closed.jobFound == g.jobFound
    ensures Retry(off, st, a, k, closed, outcome, now, token) == Retry(cfg, st, a, k, g, outcome, now, token)
  {
    hide Attempt;
    if RetryRefusal(st, a, k, g).None? {
      AttemptIgnoresSwitches(cfg, off, WithRetriedRun(st, a, k), a, k, outcome, now, token);
    }
  }

  lemma AttemptIgnoresSwitches(cfg: Config, off: Config, st: State, a: nat, k: nat, outcome: SubmitOutcome, now: Time, token: nat)
    requires a < |st.apps| && k < |st.apps[a].runs| && off.retryBase == cfg.retryBase
    ensures Attempt(off, st, a, k, outcome, now, token) == Attempt(cfg, st, a, k, outcome, now, token)
  {
    hide Challenges.HandOff, AfterFailure;
  }

  /** Everything switched off: automation, autonomy and the job's source. */
  const OFF := Config(false, 0, 2, 60)
  const CLOSED := Gates(true, false, false, false)

  /** After a failure everything is switched off: a new execution is refused, and the retry submits. */
  lemma SwitchedOffIsSubmitted()
    ensures var st := Run(Allowing(2), INITIAL, PREPARE + [ExecuteOp(0, OPEN, 0, SubmitFailed(false), 0, 0)]);
            && Execute(OFF, st, 0, CLOSED, 0, SubmitAccepted, 0, 0).1 == Err(AutomationDisabled)
            && Retry(OFF, st, 0, 0, CLOSED, SubmitAccepted, 0, 0).0.submissions == [0]
  {
    var cfg := Allowing(2);
    var execute := ExecuteOp(0, OPEN, 0, SubmitFailed(false), 0, 0);
    var st := Run(cfg, INITIAL, PREPARE + [execute]);
    Prepared(cfg);
    RunSnoc(cfg, INITIAL, PREPARE, execute);
    NothingRefused(cfg, ONE_APPROVED);
    RetryIgnoresSwitches(cfg, OFF, st, 0, 0, OPEN, CLOSED, SubmitAccepted, 0, 0);
    hide Run, CheckApproval;
  }
}
