/**
 * Two things the outreach protocol does not promise, and exactly when it keeps
 * them all the same: that a delivered text was checked for grounding, and that
 * a retry waits for the time it was scheduled for.
 */
module OutreachLimits {
  import opened Prelude
  import opened Outreach
  import opened OutreachSafety
  import Approvals
  import Backoff

  // ------------------------------------------------------------------- grounding

  /**
   * The writer validates the text a message is created with, and no later one.
   * In every reachable store a message's text is the validated one exactly when
   * its last version says the same as its first; one never edited is validated.
   */
  lemma ValidatedExactly(cfg: Config, ops: seq<Op>, i: nat)
    requires i < |Run(cfg, INITIAL, ops).messages|
    ensures var m := Run(cfg, INITIAL, ops).messages[i];
            && m.versions != []
            && m.validated == m.versions[0].text
            && (m.text == m.validated <==> m.versions[|m.versions| - 1].text == m.versions[0].text)
            && (|m.versions| == 1 ==> m.text == m.validated)
  {
    RunKeepsVersions(cfg, ops);
    hide Run;
    assert VersionsOk(Run(cfg, INITIAL, ops).messages[i]);
  }

  /** A delivered text was validated exactly when the last version of its message says the same as the first. */
  lemma DeliveredWasValidatedExactly(cfg: Config, ops: seq<Op>, d: nat)
    requires d < |Run(cfg, INITIAL, ops).deliveries|
    ensures var st := Run(cfg, INITIAL, ops);
            var delivery := st.deliveries[d];
            && delivery.message < |st.messages|
            && var m := st.messages[delivery.message];
               && m.versions != []
               && (delivery.text == m.validated <==> m.versions[|m.versions| - 1].text == m.versions[0].text)
               && (|m.versions| == 1 ==> delivery.text == m.validated)
  {
    RunKeepsAll(cfg, ops);
    var st := Run(cfg, INITIAL, ops);
    assert Recorded(st, st.deliveries[d]);
    ValidatedExactly(cfg, ops, st.deliveries[d].message);
    hide Run;
  }

  // ------------------------------------------------------------- scheduled times

  /** A scheduled retry lies at most its delay ahead of the clock. */
  ghost predicate Scheduled(cfg: Config, clock: Time, m: Message) {
    forall k :: 0 <= k < |m.runs| && m.runs[k].nextRetryAt.Some? ==>
      m.runs[k].nextRetryAt.value <= clock + Backoff.Delay(cfg.retryBase, m.runs[k].attempts)
  }

  /** Retries are scheduled from the past, and only messages sent with enough autonomy have runs. */
  ghost predicate ScheduleOk(cfg: Config, st: State) {
    forall i :: 0 <= i < |st.messages| ==>
      && Scheduled(cfg, st.clock, st.messages[i])
      && (st.messages[i].runs != [] ==> cfg.autonomy >= 2)
  }

  lemma AttemptSchedules(cfg: Config, clock: Time, m: Message, k: nat, outcome: SendOutcome, now: Time)
    requires k < |m.runs| && Scheduled(cfg, clock, m) && clock <= now
    ensures Scheduled(cfg, now, AfterAttempt(cfg.retryBase, m, k, outcome, now))
    ensures AfterAttempt(cfg.retryBase, m, k, outcome, now).runs != []
  {
    hide Backoff.Delay;
  }

  lemma AttemptKeepsSchedule(cfg: Config, st: State, id: nat, m: Message, k: nat, outcome: SendOutcome, now: Time)
    requires ScheduleOk(cfg, st) && id < |st.messages| && k < |m.runs|
    requires Scheduled(cfg, st.clock, m) && cfg.autonomy >= 2 && st.clock <= now
    ensures ScheduleOk(cfg, Attempt(cfg, st.(messages := st.messages[id := m]), id, k, outcome, now))
  {
    AttemptSchedules(cfg, st.clock, m, k, outcome, now);
    hide AfterAttempt, Backoff.Delay;
  }

  lemma SendKeepsSchedule(cfg: Config, st: State, id: nat, contact: Option<Contact>, outcome: SendOutcome, w1: nat, w2: nat)
    requires ScheduleOk(cfg, st)
    ensures ScheduleOk(cfg, Send(cfg, st, id, contact, outcome, w1, w2).0)
  {
    var t := st.clock + w1;
    if SendRefusal(cfg, st, id, contact, t).None? {
      var m := st.messages[id];
      assert Scheduled(cfg, st.clock, WithNewRun(cfg, m));
      AttemptKeepsSchedule(cfg, st, id, WithNewRun(cfg, m), |m.runs|, outcome, t + w2);
    }
    hide ScheduleOk, Attempt;
  }

  lemma RetryKeepsSchedule(cfg: Config, st: State, id: nat, k: nat, contact: Option<Contact>, outcome: SendOutcome, w1: nat, w2: nat)
    requires ScheduleOk(cfg, st)
    ensures ScheduleOk(cfg, Retry(cfg, st, id, k, contact, outcome, w1, w2).0)
  {
    var t := st.clock + w1;
    if RetryRefusal(cfg, st, id, k, contact, t).None? {
      var m := WithRetriedRun(st.messages[id], k);
      assert Scheduled(cfg, st.clock, m);
      AttemptKeepsSchedule(cfg, st, id, m, k, outcome, t + w2);
    }
    hide ScheduleOk, Attempt;
  }

  lemma ApplyKeepsSchedule(cfg: Config, st: State, op: Op)
    requires ScheduleOk(cfg, st)
    ensures ScheduleOk(cfg, Apply(cfg, st, op))
  {
    match op
    case SendOp(id, contact, outcome, w1, w2) => SendKeepsSchedule(cfg, st, id, contact, outcome, w1, w2);
    case RetryOp(id, k, contact, outcome, w1, w2) => RetryKeepsSchedule(cfg, st, id, k, contact, outcome, w1, w2);
    case _ => hide Send, Retry, Backoff.Delay;
  }

  lemma {:induction false} RunKeepsSchedule(cfg: Config, ops: seq<Op>)
    ensures ScheduleOk(cfg, Run(cfg, INITIAL, ops))
  {
    if ops != [] {
      hide ScheduleOk, Apply;
      RunKeepsSchedule(cfg, ops[..|ops| - 1]);
      ApplyKeepsSchedule(cfg, Run(cfg, INITIAL, ops[..|ops| - 1]), ops[|ops| - 1]);
    } else {
      assert Run(cfg, INITIAL, ops) == INITIAL;
    }
  }

  /** After some operations, a retry is accepted `w` seconds later although it is scheduled for after that. */
  ghost predicate AcceptedEarly(cfg: Config, ops: seq<Op>, id: nat, k: nat, contact: Option<Contact>, w: nat) {
    var st := Run(cfg, INITIAL, ops);
    && id < |st.messages| && k < |st.messages[id].runs|
    && st.messages[id].runs[k].nextRetryAt.Some?
    && st.clock + w < st.messages[id].runs[k].nextRetryAt.value
    && RetryRefusal(cfg, st, id, k, contact, st.clock + w).None?
  }

  predicate AllowsEarlyRetries(cfg: Config) {
    cfg.retryBase >= 1 && cfg.maxAttempts >= 2 && cfg.autonomy >= 2 && cfg.dailyLimit >= 1
  }

  lemma DelaySign(base: int, used: int)
    requires base <= 0
    ensures Backoff.Delay(base, used) <= 0
  {
  }

  lemma EarlyNeeds(cfg: Config, ops: seq<Op>, id: nat, k: nat, contact: Option<Contact>, w: nat)
    requires AcceptedEarly(cfg, ops, id, k, contact, w)
    ensures AllowsEarlyRetries(cfg)
  {
    RunKeepsAll(cfg, ops);
    RunKeepsSchedule(cfg, ops);
    hide Run;
    var st := Run(cfg, INITIAL, ops);
    assert MessageOk(cfg, st.messages[id]) && RunOk(cfg, st.messages[id].runs[k]);
    if cfg.retryBase <= 0 {
      DelaySign(cfg.retryBase, st.messages[id].runs[k].attempts);
    }
    hide DeliveriesOk, DaysOk, CheckContact, HasDestination, Approvals.GetApproved, Backoff.Delay;
  }

  /**
   * Whether retries wait for their scheduled time is decided by the
   * configuration alone: some reachable store accepts one early exactly when
   * there is a delay, a second attempt, autonomy to send and room in a day.
   */
  lemma EarlyRetriesExactly(cfg: Config)
    ensures (exists ops: seq<Op>, id: nat, k: nat, contact: Option<Contact>, w: nat :: AcceptedEarly(cfg, ops, id, k, contact, w))
            <==> AllowsEarlyRetries(cfg)
  {
    forall ops: seq<Op>, id: nat, k: nat, contact: Option<Contact>, w: nat | AcceptedEarly(cfg, ops, id, k, contact, w)
      ensures AllowsEarlyRetries(cfg)
    {
      EarlyNeeds(cfg, ops, id, k, contact, w);
    }
    if AllowsEarlyRetries(cfg) {
      var text := Text("", "");
      EarlyRetryIsAccepted(cfg, text, text);
      hide AcceptedEarly;
      assert AcceptedEarly(cfg, Failing(text, text), 0, 0, REACHABLE, 0);
    }
  }

  // ------------------------------------------------------------- reachable cases

  const REACHABLE := Some(Contact(false, true, 100, "recruiter", ""))

  /** Draft one text, edit it to another, submit it, and approve it where that is asked for. */
  function Preparing(first: Text, last: Text): seq<Op> {
    [CreateDraftOp(REACHABLE, References(true, true), Email, first, true), UpdateDraftOp(0, true, last), SubmitOp(0, true),
     DecideOp(0, Approvals.Approve, None, 0, 0)]
  }

  /** The same, and then one attempt that fails but may be retried. */
  function Failing(first: Text, last: Text): seq<Op> {
    Preparing(first, last) + [SendOp(0, REACHABLE, NotDelivered(true), 0, 0)]
  }

  function Edited(first: Text, last: Text): Message {
    Message(Email, last, first, Draft, None, None, None, [Version(1, first), Version(2, last)], [])
  }

  function Request(status: Approvals.Status): Approvals.Approval {
    if status == Approvals.Approved
    then Approvals.Approval(MessageTarget(0), status, Some(Approvals.Approve), Some(0), None)
    else Approvals.Approval(MessageTarget(0), status, None, None, None)
  }

  /** The store after submission: a pending approval, or none where none is asked for. */
  function Submitted(cfg: Config, first: Text, last: Text): State {
    if cfg.approvalRequired then
      INITIAL.(approvals := Approvals.Store([Request(Approvals.Pending)], []), requested := map[0 := last],
               messages := [Edited(first, last).(status := PendingApproval, approvalId := Some(0))])
    else INITIAL.(messages := [Edited(first, last).(status := Approved)])
  }

  function Decided(cfg: Config, first: Text, last: Text): State {
    if cfg.approvalRequired then
      Submitted(cfg, first, last).(
        approvals := Approvals.Store([Request(Approvals.Approved)], [Approvals.Decision(0, Approvals.Approve)]))
    else Submitted(cfg, first, last)
  }

  lemma RunSnoc(cfg: Config, ops: seq<Op>, op: Op)
    ensures Run(cfg, INITIAL, ops + [op]) == Apply(cfg, Run(cfg, INITIAL, ops), op)
  {
    hide Apply;
    assert (ops + [op])[..|ops|] == ops;
  }

  lemma DraftAndEdit(cfg: Config, first: Text, last: Text)
    ensures Apply(cfg, Apply(cfg, INITIAL, Preparing(first, last)[0]), Preparing(first, last)[1])
            == INITIAL.(messages := [Edited(first, last)])
  {
    var draft := NewDraft(Email, first, None);
    var created := INITIAL.(messages := [draft]);
    assert Apply(cfg, INITIAL, Preparing(first, last)[0]) == created;
    NextVersionFollows([Version(1, first)]);
    hide NextVersionNumber;
    assert draft.versions + [Version(2, last)] == Edited(first, last).versions;
    assert created.messages[0 := Edited(first, last)] == [Edited(first, last)];
  }

  lemma SubmitAndDecide(cfg: Config, first: Text, last: Text)
    ensures Apply(cfg, INITIAL.(messages := [Edited(first, last)]), SubmitOp(0, true)) == Submitted(cfg, first, last)
    ensures Apply(cfg, Submitted(cfg, first, last), DecideOp(0, Approvals.Approve, None, 0, 0)) == Decided(cfg, first, last)
  {
  }

  lemma Prepared(cfg: Config, first: Text, last: Text)
    ensures Run(cfg, INITIAL, Preparing(first, last)) == Decided(cfg, first, last)
  {
    var ops := Preparing(first, last);
    DraftAndEdit(cfg, first, last);
    SubmitAndDecide(cfg, first, last);
    hide Apply;
    assert ops == ((([] + [ops[0]]) + [ops[1]]) + [ops[2]]) + [ops[3]];
    RunSnoc(cfg, [], ops[0]);
    RunSnoc(cfg, [] + [ops[0]], ops[1]);
    RunSnoc(cfg, ([] + [ops[0]]) + [ops[1]], ops[2]);
    RunSnoc(cfg, (([] + [ops[0]]) + [ops[1]]) + [ops[2]], ops[3]);
  }

  lemma ApprovedIsFound(cfg: Config, first: Text, last: Text)
    requires cfg.approvalRequired
    ensures Approvals.GetApproved(Decided(cfg, first, last).approvals.rows, MessageTarget(0)) == Some(0)
  {
  }

  lemma DecidedMayBeSent(cfg: Config, first: Text, last: Text)
    requires cfg.autonomy >= 2 && cfg.dailyLimit >= 1
    ensures SendRefusal(cfg, Decided(cfg, first, last), 0, REACHABLE, 0).None?
  {
    var st := Decided(cfg, first, last);
    CountIfNone(st.messages, SentSince(StartOfDay(0)));
    if cfg.approvalRequired {
      ApprovedIsFound(cfg, first, last);
    }
    hide Approvals.GetApproved, Approvals.GetOpen, CountIf;
  }

  /** A text the writer never validated is delivered: whatever approvals are asked for, an edited draft can be sent. */
  lemma UnvalidatedIsDelivered(cfg: Config, first: Text, last: Text)
    requires cfg.autonomy >= 2 && cfg.dailyLimit >= 1
    ensures var st := Run(cfg, INITIAL, Preparing(first, last) + [SendOp(0, REACHABLE, Delivered, 0, 0)]);
            && st.deliveries == [Delivery(0, last, 0)]
            && |st.messages| == 1 && st.messages[0].status == Sent && st.messages[0].validated == first
  {
    var op := SendOp(0, REACHABLE, Delivered, 0, 0);
    Prepared(cfg, first, last);
    RunSnoc(cfg, Preparing(first, last), op);
    DecidedMayBeSent(cfg, first, last);
    SendAnswers(cfg, Decided(cfg, first, last), 0, REACHABLE, Delivered, 0, 0);
    hide Run, Preparing, SendRefusal, Send, UnderDailyLimit;
  }

  /** The only attempt so far has failed and its retry is scheduled one delay after time 0. */
  lemma FailedAttempt(cfg: Config, first: Text, last: Text)
    requires AllowsEarlyRetries(cfg)
    ensures var st := Apply(cfg, Decided(cfg, first, last), SendOp(0, REACHABLE, NotDelivered(true), 0, 0));
            && st.clock == 0 && st.approvals == Decided(cfg, first, last).approvals
            && st.messages == [Decided(cfg, first, last).messages[0].(
                 status := Failed,
                 runs := [SendRun(RunFailed, 1, cfg.maxAttempts, Some(cfg.retryBase), None, 1, [1])])]
  {
    DecidedMayBeSent(cfg, first, last);
    assert Backoff.Pow2(0) == 1;
    var m := Decided(cfg, first, last).messages[0];
    var sent := WithNewRun(cfg, m);
    assert sent.runs == [NewRun(cfg)];
    assert AfterAttempt(cfg.retryBase, sent, 0, NotDelivered(true), 0).runs[0].scheduled == [1];
    assert AfterAttempt(cfg.retryBase, sent, 0, NotDelivered(true), 0).runs
           == [SendRun(RunFailed, 1, cfg.maxAttempts, Some(cfg.retryBase), None, 1, [1])];
    hide SendRefusal;
  }

  /** A first attempt fails at time 0, its retry is scheduled one delay later, and is accepted at time 0. */
  lemma EarlyRetryIsAccepted(cfg: Config, first: Text, last: Text)
    requires AllowsEarlyRetries(cfg)
    ensures AcceptedEarly(cfg, Failing(first, last), 0, 0, REACHABLE, 0)
  {
    Prepared(cfg, first, last);
    RunSnoc(cfg, Preparing(first, last), SendOp(0, REACHABLE, NotDelivered(true), 0, 0));
    FailedAttempt(cfg, first, last);
    if cfg.approvalRequired {
      ApprovedIsFound(cfg, first, last);
    }
    hide Run, Preparing, Apply, Approvals.GetApproved;
    var st := Run(cfg, INITIAL, Failing(first, last));
    CountIfNone(st.messages, SentSince(StartOfDay(0)));
    hide CountIf;
  }

  // -------------------------------------------------------------------- autonomy

  /** A retry does not look at the autonomy level, which a first send must meet. */
  lemma RetryIgnoresAutonomy(cfg: Config, st: State, id: nat, k: nat, contact: Option<Contact>, t: Time, autonomy: int)
    ensures RetryRefusal(cfg.(autonomy := autonomy), st, id, k, contact, t) == RetryRefusal(cfg, st, id, k, contact, t)
  {
  }

  /** A message whose first attempt failed is still delivered by a retry after all autonomy was taken away. */
  lemma RetriedWithoutAutonomy(cfg: Config, first: Text, last: Text)
    requires AllowsEarlyRetries(cfg)
    ensures var st := Run(cfg, INITIAL, Failing(first, last));
            var revoked := cfg.(autonomy := 0);
            && Send(revoked, st, 0, REACHABLE, Delivered, 0, 0).1 == Err(AutonomyTooLow)
            && Retry(revoked, st, 0, 0, REACHABLE, Delivered, 0, 0).0.deliveries == st.deliveries + [Delivery(0, last, st.clock)]
  {
    var st := Run(cfg, INITIAL, Failing(first, last));
    var revoked := cfg.(autonomy := 0);
    EarlyRetryIsAccepted(cfg, first, last);
    RetryIgnoresAutonomy(cfg, st, 0, 0, REACHABLE, st.clock, 0);
    Prepared(cfg, first, last);
    RunSnoc(cfg, Preparing(first, last), SendOp(0, REACHABLE, NotDelivered(true), 0, 0));
    FailedAttempt(cfg, first, last);
    hide Run, Apply, RetryRefusal, Retry;
    assert st.messages[0].text == last;
    RetryAnswers(revoked, st, 0, 0, REACHABLE, Delivered, 0, 0);
  }
}
