/**
 * What every run of the outreach protocol keeps: at most one delivery per
 * message, a bounded retry budget, the approved text, and the daily cap.
 */
module OutreachSafety {
  import opened Prelude
  import opened Outreach
  import Backoff
  import Approvals

  // ------------------------------------------------------- runs of one message

  /** A stored send run: finished, within budget, with every scheduled retry accounted for. */
  ghost predicate RunOk(cfg: Config, run: SendRun) {
    && run.status in {RunSent, RunFailed}
    && run.maxAttempts == cfg.maxAttempts
    && BudgetOk(run)
    && 1 <= run.calls <= Max(1, run.maxAttempts)
    && run.calls == run.attempts + (if run.status == RunSent then 1 else 0)
    && (run.nextRetryAt.Some? || run.status == RunSent ==> |run.scheduled| == run.attempts)
    && (run.nextRetryAt.Some? ==> run.status == RunFailed)
    && (run.status == RunFailed && run.nextRetryAt.None? ==> |run.scheduled| == run.attempts - 1)
  }

  /** Retries were scheduled after attempts 1, 2, ..., without gaps and below the budget. */
  ghost predicate BudgetOk(run: SendRun) {
    && run.scheduled == Backoff.UpTo(|run.scheduled|)
    && |run.scheduled| <= Max(0, run.maxAttempts - 1)
  }

  ghost predicate MessageOk(cfg: Config, m: Message) {
    && (forall k :: 0 <= k < |m.runs| ==> RunOk(cfg, m.runs[k]))
    && (forall k :: 0 <= k < |m.runs| - 1 ==> m.runs[k].status == RunFailed && m.runs[k].nextRetryAt.None?)
    && (m.status == Sent <==> m.runs != [] && m.runs[|m.runs| - 1].status == RunSent)
    && (m.status == Sent <==> m.sentAt.Some?)
    && (m.status == Failed ==> m.runs != [])
    && (m.status in {Draft, PendingApproval, Approved} ==> m.runs == [])
  }

  ghost predicate MessagesOk(cfg: Config, st: State) {
    forall i :: 0 <= i < |st.messages| ==> MessageOk(cfg, st.messages[i])
  }

  /** A run the sender is about to be called for. */
  ghost predicate RunReady(cfg: Config, run: SendRun) {
    && run.status == RunRunning
    && run.maxAttempts == cfg.maxAttempts
    && run.nextRetryAt.None?
    && BudgetOk(run)
    && run.calls == run.attempts == |run.scheduled|
  }

  /** A message in the sender's hands: unsent, its latest run ready, every earlier one failed for good. */
  ghost predicate MessageReady(cfg: Config, m: Message, k: nat) {
    && k == |m.runs| - 1 && RunReady(cfg, m.runs[k])
    && m.sentAt.None?
    && (forall j :: 0 <= j < k ==> RunOk(cfg, m.runs[j]) && m.runs[j].status == RunFailed && m.runs[j].nextRetryAt.None?)
  }

  lemma AttemptKeepsMessage(cfg: Config, m: Message, k: nat, outcome: SendOutcome, now: Time)
    requires MessageReady(cfg, m, k)
    ensures MessageOk(cfg, AfterAttempt(cfg.retryBase, m, k, outcome, now))
  {
    var m' := AfterAttempt(cfg.retryBase, m, k, outcome, now);
    var run := m.runs[k];
    assert run.scheduled + [run.attempts + 1] == Backoff.UpTo(|run.scheduled| + 1);
    assert RunOk(cfg, m'.runs[k]);
    assert forall j :: 0 <= j < k ==> m'.runs[j] == m.runs[j];
  }

  lemma AttemptKeepsMessages(cfg: Config, st: State, id: nat, m: Message, k: nat, outcome: SendOutcome, now: Time)
    requires MessagesOk(cfg, st) && id < |st.messages| && MessageReady(cfg, m, k)
    ensures MessagesOk(cfg, Attempt(cfg, st.(messages := st.messages[id := m]), id, k, outcome, now))
  {
    AttemptKeepsMessage(cfg, m, k, outcome, now);
    hide MessageOk, AfterAttempt;
  }

  /** A message that may be sent is ready for the sender once it has a new run. */
  lemma SendIsReady(cfg: Config, st: State, id: nat, contact: Option<Contact>, t: Time)
    requires MessagesOk(cfg, st) && SendRefusal(cfg, st, id, contact, t).None?
    ensures MessageReady(cfg, WithNewRun(cfg, st.messages[id]), |st.messages[id].runs|)
  {
    var m := st.messages[id];
    assert MessageOk(cfg, m);
    assert m.status in {PendingApproval, Approved, Failed};
    assert m.runs != [] ==> m.runs[|m.runs| - 1].nextRetryAt.None?;
    NewRunIsReady(cfg, m);
  }

  /** A message whose latest run, if any, failed for good is ready for a new run. */
  lemma NewRunIsReady(cfg: Config, m: Message)
    requires MessageOk(cfg, m) && m.status in {PendingApproval, Approved, Failed}
    requires m.runs != [] ==> m.runs[|m.runs| - 1].nextRetryAt.None?
    ensures MessageReady(cfg, WithNewRun(cfg, m), |m.runs|)
  {
    assert forall j :: 0 <= j < |m.runs| ==> RunOk(cfg, m.runs[j]);
  }

  /** Only the latest run can be retried, and it is ready once it is running again. */
  lemma RetryIsReady(cfg: Config, st: State, id: nat, k: nat, contact: Option<Contact>, t: Time)
    requires MessagesOk(cfg, st) && RetryRefusal(cfg, st, id, k, contact, t).None?
    ensures MessageReady(cfg, WithRetriedRun(st.messages[id], k), k)
  {
    assert MessageOk(cfg, st.messages[id]) && RunOk(cfg, st.messages[id].runs[k]);
  }

  lemma SendKeepsMessages(cfg: Config, st: State, id: nat, contact: Option<Contact>, outcome: SendOutcome, w1: nat, w2: nat)
    requires MessagesOk(cfg, st)
    ensures MessagesOk(cfg, Send(cfg, st, id, contact, outcome, w1, w2).0)
  {
    hide MessagesOk, MessageReady, Attempt, WithNewRun;
    var t := st.clock + w1;
    if SendRefusal(cfg, st, id, contact, t).None? {
      var m := st.messages[id];
      SendIsReady(cfg, st, id, contact, t);
      AttemptKeepsMessages(cfg, st, id, WithNewRun(cfg, m), |m.runs|, outcome, t + w2);
    }
  }

  lemma RetryKeepsMessages(cfg: Config, st: State, id: nat, k: nat, contact: Option<Contact>, outcome: SendOutcome, w1: nat, w2: nat)
    requires MessagesOk(cfg, st)
    ensures MessagesOk(cfg, Retry(cfg, st, id, k, contact, outcome, w1, w2).0)
  {
    hide MessagesOk, MessageReady, Attempt, WithRetriedRun;
    var t := st.clock + w1;
    if RetryRefusal(cfg, st, id, k, contact, t).None? {
      RetryIsReady(cfg, st, id, k, contact, t);
      AttemptKeepsMessages(cfg, st, id, WithRetriedRun(st.messages[id], k), k, outcome, t + w2);
    }
  }

  lemma ApplyKeepsMessages(cfg: Config, st: State, op: Op)
    requires MessagesOk(cfg, st)
    ensures MessagesOk(cfg, Apply(cfg, st, op))
  {
    hide SendRefusal, RetryRefusal, RunOk, Attempt, CheckContact;
    match op
    case SendOp(id, contact, outcome, w1, w2) => SendKeepsMessages(cfg, st, id, contact, outcome, w1, w2);
    case RetryOp(id, k, contact, outcome, w1, w2) => RetryKeepsMessages(cfg, st, id, k, contact, outcome, w1, w2);
    case _ =>
  }

  // -------------------------------------------------------------- one delivery

  /** The delivery log and the SENT messages are the same thing, one entry each. */
  ghost predicate DeliveriesOk(st: State) {
    && (forall d :: 0 <= d < |st.deliveries| ==> Recorded(st, st.deliveries[d]))
    && (forall d, e :: 0 <= d < e < |st.deliveries| ==> st.deliveries[d].message != st.deliveries[e].message)
    && (forall i :: 0 <= i < |st.messages| && st.messages[i].status == Sent ==>
          exists d :: 0 <= d < |st.deliveries| && st.deliveries[d].message == i)
  }

  ghost predicate Recorded(st: State, d: Delivery) {
    && d.message < |st.messages|
    && st.messages[d.message].status == Sent
    && st.messages[d.message].text == d.text
    && st.messages[d.message].sentAt == Some(d.at)
  }

  /** The message an operation works on, if it hands anything to the sender. */
  function Attempted(cfg: Config, st: State, op: Op): Option<nat> {
    match op
    case SendOp(id, contact, _, w1, _) =>
      if SendRefusal(cfg, st, id, contact, st.clock + w1).None? then Some(id) else None
    case RetryOp(id, k, contact, _, w1, _) =>
      if RetryRefusal(cfg, st, id, k, contact, st.clock + w1).None? then Some(id) else None
    case _ => None
  }

  /** A sent message is never touched again by any operation. */
  lemma SentIsFinal(cfg: Config, st: State, op: Op, i: nat)
    requires i < |st.messages| && st.messages[i].status == Sent && MessageOk(cfg, st.messages[i])
    ensures i < |Apply(cfg, st, op).messages| && Apply(cfg, st, op).messages[i] == st.messages[i]
    ensures Attempted(cfg, st, op) != Some(i)
  {
  }

  /** The state just before the sender is called for message `id`. */
  ghost predicate AtSender(cfg: Config, st: State, ready: State, id: nat, k: nat) {
    && id < |st.messages| && id < |ready.messages|
    && ready == st.(messages := st.messages[id := ready.messages[id]])
    && k < |ready.messages[id].runs|
    && ready.messages[id].text == st.messages[id].text
    && ready.messages[id].versions == st.messages[id].versions
    && ready.messages[id].validated == st.messages[id].validated
    && ready.messages[id].approvalId == st.messages[id].approvalId
    && ready.messages[id].sentAt == st.messages[id].sentAt
    && st.messages[id].status in {PendingApproval, Approved, Failed}
  }

  /** A step that calls the sender for message `id` stores its answer there and nowhere else. */
  ghost predicate Answered(st: State, st': State, id: nat, outcome: SendOutcome) {
    && id < |st.messages| == |st'.messages|
    && st'.approvals == st.approvals && st'.requested == st.requested
    && st.messages[id].status in {PendingApproval, Approved, Failed}
    && st'.messages == st.messages[id := st'.messages[id]]
    && st'.messages[id].text == st.messages[id].text
    && st'.messages[id].versions == st.messages[id].versions
    && st'.messages[id].validated == st.messages[id].validated
    && st'.messages[id].approvalId == st.messages[id].approvalId
    && (match outcome
        case Delivered =>
          && st'.deliveries == st.deliveries + [Delivery(id, st.messages[id].text, st'.clock)]
          && st'.messages[id].status == Sent && st'.messages[id].sentAt == Some(st'.clock)
        case NotDelivered(_) =>
          && st'.deliveries == st.deliveries
          && st'.messages[id].status == Failed && st'.messages[id].sentAt == st.messages[id].sentAt)
  }

  lemma AttemptAnswers(cfg: Config, st: State, ready: State, id: nat, k: nat, outcome: SendOutcome, now: Time)
    requires AtSender(cfg, st, ready, id, k)
    ensures Answered(st, Attempt(cfg, ready, id, k, outcome, now), id, outcome)
  {
  }

  lemma SendAnswers(cfg: Config, st: State, id: nat, contact: Option<Contact>, outcome: SendOutcome, w1: nat, w2: nat)
    requires SendRefusal(cfg, st, id, contact, st.clock + w1).None?
    ensures Answered(st, Send(cfg, st, id, contact, outcome, w1, w2).0, id, outcome)
    ensures Send(cfg, st, id, contact, outcome, w1, w2).0.clock == st.clock + w1 + w2
    ensures UnderDailyLimit(cfg, st.messages, st.clock + w1)
  {
    var ready := st.(messages := st.messages[id := WithNewRun(cfg, st.messages[id])]);
    AttemptAnswers(cfg, st, ready, id, |st.messages[id].runs|, outcome, st.clock + w1 + w2);
    hide Answered, UnderDailyLimit;
  }

  lemma RetryAnswers(cfg: Config, st: State, id: nat, k: nat, contact: Option<Contact>, outcome: SendOutcome, w1: nat, w2: nat)
    requires RetryRefusal(cfg, st, id, k, contact, st.clock + w1).None?
    ensures Answered(st, Retry(cfg, st, id, k, contact, outcome, w1, w2).0, id, outcome)
    ensures Retry(cfg, st, id, k, contact, outcome, w1, w2).0.clock == st.clock + w1 + w2
    ensures UnderDailyLimit(cfg, st.messages, st.clock + w1)
  {
    var ready := st.(messages := st.messages[id := WithRetriedRun(st.messages[id], k)]);
    AttemptAnswers(cfg, st, ready, id, k, outcome, st.clock + w1 + w2);
    hide Answered, UnderDailyLimit;
  }

  /** Both send and retry end in one answered call to the sender, at or after the time they checked. */
  lemma StepAnswers(cfg: Config, st: State, op: Op, id: nat)
    requires Attempted(cfg, st, op) == Some(id)
    ensures Answered(st, Apply(cfg, st, op), id, op.outcome)
    ensures Apply(cfg, st, op).clock == st.clock + op.w1 + op.w2
    ensures UnderDailyLimit(cfg, st.messages, st.clock + op.w1)
  {
    hide Answered, UnderDailyLimit, SendRefusal, RetryRefusal, Send, Retry;
    match op
    case SendOp(_, contact, outcome, w1, w2) => SendAnswers(cfg, st, id, contact, outcome, w1, w2);
    case RetryOp(_, k, contact, outcome, w1, w2) => RetryAnswers(cfg, st, id, k, contact, outcome, w1, w2);
  }

  /** A step that calls no sender: a new draft, or a change to one unsent message, or nothing. */
  ghost predicate Quiet(st: State, st': State) {
    && st'.deliveries == st.deliveries
    && st'.clock == st.clock
    && |st.messages| <= |st'.messages| <= |st.messages| + 1
    && (forall i :: 0 <= i < |st.messages| ==>
          && st'.messages[i].sentAt == st.messages[i].sentAt
          && (st.messages[i].status == Sent ==> st'.messages[i] == st.messages[i])
          && (st'.messages[i].status == Sent <==> st.messages[i].status == Sent))
    && (|st'.messages| > |st.messages| ==>
          st'.messages[|st.messages|].status == Draft && st'.messages[|st.messages|].sentAt.None?)
  }

  lemma StepQuiet(cfg: Config, st: State, op: Op)
    requires Attempted(cfg, st, op).None?
    ensures Quiet(st, Apply(cfg, st, op))
  {
  }

  lemma QuietKeepsDeliveries(st: State, st': State)
    requires DeliveriesOk(st) && Quiet(st, st')
    ensures DeliveriesOk(st')
  {
    forall d | 0 <= d < |st.deliveries| ensures Recorded(st', st.deliveries[d]) {
      assert Recorded(st, st.deliveries[d]);
    }
  }

  lemma AnswerKeepsDeliveries(st: State, st': State, id: nat, outcome: SendOutcome)
    requires DeliveriesOk(st) && Answered(st, st', id, outcome)
    ensures DeliveriesOk(st')
  {
    forall d | 0 <= d < |st.deliveries|
      ensures st.deliveries[d].message != id && Recorded(st', st.deliveries[d])
    {
      assert Recorded(st, st.deliveries[d]);
    }
    assert outcome.Delivered? ==> Recorded(st', st'.deliveries[|st.deliveries|]);
    forall i | 0 <= i < |st'.messages| && st'.messages[i].status == Sent
      ensures exists d :: 0 <= d < |st'.deliveries| && st'.deliveries[d].message == i
    {
      if i == id {
        assert st'.deliveries[|st.deliveries|].message == i;
      } else {
        assert st.messages[i].status == Sent;
        var d :| 0 <= d < |st.deliveries| && st.deliveries[d].message == i;
        assert st'.deliveries[d].message == i;
      }
    }
  }

  lemma ApplyKeepsDeliveries(cfg: Config, st: State, op: Op)
    requires DeliveriesOk(st)
    ensures DeliveriesOk(Apply(cfg, st, op))
  {
    match Attempted(cfg, st, op)
    case None =>
      StepQuiet(cfg, st, op);
      QuietKeepsDeliveries(st, Apply(cfg, st, op));
    case Some(id) =>
      StepAnswers(cfg, st, op, id);
      AnswerKeepsDeliveries(st, Apply(cfg, st, op), id, op.outcome);
  }

  // ----------------------------------------------------------------- daily cap

  predicate IsSentOn(m: Message, day: int) {
    m.sentAt.Some? && Day(m.sentAt.value) == day
  }

  function SentOn(day: int): Message -> bool {
    m => IsSentOn(m, day)
  }

  /** How many messages carry a sent time within a UTC day. */
  function CountSentOn(messages: seq<Message>, day: int): nat {
    CountIf(messages, SentOn(day))
  }

  ghost predicate DaysOk(cfg: Config, st: State) {
    && (forall i :: 0 <= i < |st.messages| && st.messages[i].sentAt.Some? ==> st.messages[i].sentAt.value <= st.clock)
    && (forall day :: CountSentOn(st.messages, day) <= Max(0, cfg.dailyLimit))
  }

  /** The cap query counts every message sent on the day it is asked about. */
  lemma CapQueryCoversDay(cfg: Config, st: State, t: Time)
    requires MessagesOk(cfg, st)
    ensures CountSentOn(st.messages, Day(t)) <= CountSentSince(st.messages, StartOfDay(t))
  {
    forall i | 0 <= i < |st.messages| && SentOn(Day(t))(st.messages[i])
      ensures SentSince(StartOfDay(t))(st.messages[i])
    {
      assert MessageOk(cfg, st.messages[i]);
    }
    CountIfImplies(st.messages, SentOn(Day(t)), SentSince(StartOfDay(t)));
  }

  lemma NothingSentLater(st: State, day: int)
    requires forall i :: 0 <= i < |st.messages| && st.messages[i].sentAt.Some? ==> st.messages[i].sentAt.value <= st.clock
    requires Day(st.clock) < day
    ensures CountSentOn(st.messages, day) == 0
  {
    CountIfNone(st.messages, SentOn(day));
  }

  lemma {:induction false} CountIfNone<T>(s: seq<T>, p: T -> bool)
    requires forall i :: 0 <= i < |s| ==> !p(s[i])
    ensures CountIf(s, p) == 0
  {
    if s != [] {
      assert forall i :: 0 <= i < |s| - 1 ==> s[..|s| - 1][i] == s[i];
      CountIfNone(s[..|s| - 1], p);
    }
  }

  /**
   * The cap is checked at t1 and the message stamped at t2 >= t1, possibly on
   * a later day; either way the day of t2 had room.
   */
  lemma RoomOnTheDayOfDelivery(cfg: Config, st: State, t1: Time, t2: Time)
    requires MessagesOk(cfg, st) && DaysOk(cfg, st)
    requires st.clock <= t1 <= t2
    requires UnderDailyLimit(cfg, st.messages, t1)
    ensures CountSentOn(st.messages, Day(t2)) < Max(0, cfg.dailyLimit)
  {
    CapQueryCoversDay(cfg, st, t1);
    if Day(t1) < Day(t2) {
      NothingSentLater(st, Day(t2));
    }
  }

  /** Changing one message moves each day's count by what that message contributes. */
  lemma DaysAfterUpdate(ms: seq<Message>, i: nat, m: Message, day: int)
    requires i < |ms|
    ensures CountSentOn(ms[i := m], day) + (if IsSentOn(ms[i], day) then 1 else 0)
            == CountSentOn(ms, day) + (if IsSentOn(m, day) then 1 else 0)
  {
    CountIfUpdate(ms, SentOn(day), i, m);
  }

  lemma AttemptKeepsDays(cfg: Config, st: State, op: Op, id: nat)
    requires MessagesOk(cfg, st) && DaysOk(cfg, st)
    requires Attempted(cfg, st, op) == Some(id)
    ensures DaysOk(cfg, Apply(cfg, st, op))
  {
    var st' := Apply(cfg, st, op);
    StepAnswers(cfg, st, op, id);
    assert MessageOk(cfg, st.messages[id]);
    RoomOnTheDayOfDelivery(cfg, st, st.clock + op.w1, st'.clock);
    assert st'.messages == st.messages[id := st'.messages[id]];
    forall day ensures CountSentOn(st'.messages, day) <= Max(0, cfg.dailyLimit) {
      DaysAfterUpdate(st.messages, id, st'.messages[id], day);
    }
  }

  /** A step that calls no sender leaves every sent time as it was. */
  lemma QuietKeepsDays(cfg: Config, st: State, op: Op)
    requires MessagesOk(cfg, st) && DaysOk(cfg, st)
    requires Attempted(cfg, st, op).None?
    ensures DaysOk(cfg, Apply(cfg, st, op))
  {
    var st' := Apply(cfg, st, op);
    StepQuiet(cfg, st, op);
    hide Apply, Attempted, MessagesOk;
    forall day ensures CountSentOn(st'.messages, day) == CountSentOn(st.messages, day) {
      SameDays(st, st', day);
    }
  }

  lemma SameDays(st: State, st': State, day: int)
    requires Quiet(st, st')
    ensures CountSentOn(st'.messages, day) == CountSentOn(st.messages, day)
  {
    var n := |st.messages|;
    assert forall i :: 0 <= i < n ==> st'.messages[..n][i] == st'.messages[i];
    CountIfSame(st.messages, st'.messages[..n], SentOn(day));
    if |st'.messages| > n {
      CountIfAppend(st'.messages[..n], SentOn(day), st'.messages[n]);
      assert st'.messages == st'.messages[..n] + [st'.messages[n]];
    } else {
      assert st'.messages == st'.messages[..n];
    }
  }

  lemma CountIfSame(s: seq<Message>, t: seq<Message>, p: Message -> bool)
    requires |s| == |t| && forall i :: 0 <= i < |s| ==> p(s[i]) == p(t[i])
    ensures CountIf(s, p) == CountIf(t, p)
  {
    if s != [] {
      var n := |s| - 1;
      assert forall i :: 0 <= i < n ==> s[..n][i] == s[i] && t[..n][i] == t[i];
      CountIfSame(s[..n], t[..n], p);
    }
  }

  // ------------------------------------------------------------------ versions

  /** Version rows are numbered 1..n; the first holds the validated text and the last one the current text. */
  ghost predicate VersionsOk(m: Message) {
    && m.versions != []
    && (forall k :: 0 <= k < |m.versions| ==> m.versions[k].number == k + 1)
    && m.versions[0].text == m.validated
    && m.versions[|m.versions| - 1].text == m.text
  }

  ghost predicate AllVersionsOk(st: State) {
    forall i :: 0 <= i < |st.messages| ==> VersionsOk(st.messages[i])
  }

  lemma {:induction false} NextVersionFollows(vs: seq<Version>)
    requires forall k :: 0 <= k < |vs| ==> vs[k].number == k + 1
    ensures NextVersionNumber(vs) == |vs| + 1
  {
    if vs != [] {
      var n := |vs| - 1;
      assert forall k :: 0 <= k < n ==> vs[..n][k] == vs[k];
      NextVersionFollows(vs[..n]);
    }
  }

  /** An edit, possible in DRAFT only, continues the numbering and leaves the validated text behind. */
  lemma UpdateKeepsVersions(st: State, id: nat, contactFound: bool, text: Text)
    requires AllVersionsOk(st)
    ensures AllVersionsOk(UpdateDraft(st, id, contactFound, text).0)
    ensures UpdateDraft(st, id, contactFound, text).1.Ok? ==>
              UpdateDraft(st, id, contactFound, text).0.messages[id].validated == st.messages[id].versions[0].text
  {
    if id < |st.messages| {
      assert VersionsOk(st.messages[id]);
      NextVersionFollows(st.messages[id].versions);
    }
  }

  lemma ApplyKeepsVersions(cfg: Config, st: State, op: Op)
    requires AllVersionsOk(st)
    ensures AllVersionsOk(Apply(cfg, st, op))
  {
    if Attempted(cfg, st, op).Some? {
      var id := Attempted(cfg, st, op).value;
      StepAnswers(cfg, st, op, id);
      assert VersionsOk(st.messages[id]);
      hide Apply, Attempted;
    } else if op.SendOp? || op.RetryOp? {
      RefusedChangesNothing(cfg, st, op);
    } else if op.UpdateDraftOp? {
      UpdateKeepsVersions(st, op.id, op.contactFound, op.text);
    } else {
      hide UpdateDraft;
    }
  }

  lemma {:induction false} RunKeepsVersions(cfg: Config, ops: seq<Op>)
    ensures AllVersionsOk(Run(cfg, INITIAL, ops))
  {
    if ops != [] {
      hide AllVersionsOk, Apply;
      RunKeepsVersions(cfg, ops[..|ops| - 1]);
      ApplyKeepsVersions(cfg, Run(cfg, INITIAL, ops[..|ops| - 1]), ops[|ops| - 1]);
    } else {
      assert Run(cfg, INITIAL, ops) == INITIAL;
    }
  }

  // ------------------------------------------------------------- approved text

  /** A message's approval was requested for exactly its present text. */
  ghost predicate ApprovalOk(st: State, i: nat)
    requires i < |st.messages|
  {
    var m := st.messages[i];
    && (m.status == Draft ==> m.approvalId.None?)
    && (m.status in {PendingApproval, Approved, Sent, Failed} ==> m.approvalId.Some?)
    && (m.approvalId.Some? ==>
          var a := m.approvalId.value;
          && a < |st.approvals.rows|
          && st.approvals.rows[a].target == MessageTarget(i)
          && a in st.requested && st.requested[a] == m.text
          && (m.status in {Approved, Sent, Failed} ==> st.approvals.rows[a].status == Approvals.Approved))
  }

  /** Every outreach approval belongs to the message that was submitted for it. */
  ghost predicate Owned(st: State, a: nat)
    requires a < |st.approvals.rows|
  {
    var target := st.approvals.rows[a].target;
    target.kind == Approvals.OutreachSend ==>
      && target.targetId < |st.messages|
      && st.messages[target.targetId].approvalId == Some(a)
  }

  ghost predicate TextOk(st: State) {
    && (forall i :: 0 <= i < |st.messages| ==> ApprovalOk(st, i))
    && (forall a :: 0 <= a < |st.approvals.rows| ==> Owned(st, a))
  }

  lemma NoApprovalForDraft(st: State, id: nat)
    requires TextOk(st) && id < |st.messages| && st.messages[id].status == Draft
    ensures forall a :: 0 <= a < |st.approvals.rows| ==> st.approvals.rows[a].target != MessageTarget(id)
  {
    assert ApprovalOk(st, id);
    forall a | 0 <= a < |st.approvals.rows| ensures st.approvals.rows[a].target != MessageTarget(id) {
      assert Owned(st, a);
    }
  }

  lemma SubmitKeepsText(cfg: Config, st: State, id: nat, contactFound: bool)
    requires cfg.approvalRequired && TextOk(st)
    ensures TextOk(SubmitForApproval(cfg, st, id, contactFound).0)
  {
    var st' := SubmitForApproval(cfg, st, id, contactFound).0;
    if id < |st.messages| && st.messages[id].status == Draft && st' != st {
      assert ApprovalOk(st, id);
      NoApprovalForDraft(st, id);
      var n := |st.approvals.rows|;
      assert st'.messages[id].approvalId == Some(n);
      forall i | 0 <= i < |st'.messages| ensures ApprovalOk(st', i) {
        assert ApprovalOk(st, i);
      }
      forall a | 0 <= a < |st'.approvals.rows| ensures Owned(st', a) {
        if a < n {
          assert Owned(st, a);
        }
      }
    }
  }

  lemma DecideKeepsText(st: State, a: nat, d: Approvals.DecisionType, until: Option<Time>, now: Time, wait: nat)
    requires TextOk(st)
    ensures TextOk(st.(approvals := Approvals.Decide(st.approvals, a, d, until, now, wait).0))
  {
    var st' := st.(approvals := Approvals.Decide(st.approvals, a, d, until, now, wait).0);
    forall i | 0 <= i < |st'.messages| ensures ApprovalOk(st', i) {
      assert ApprovalOk(st, i);
    }
    forall b | 0 <= b < |st'.approvals.rows| ensures Owned(st', b) {
      assert Owned(st, b);
    }
  }

  lemma RequestKeepsText(st: State, target: Approvals.Target)
    requires TextOk(st) && target.kind != Approvals.OutreachSend
    ensures TextOk(st.(approvals := Approvals.Request(st.approvals, target).0))
  {
    var st' := st.(approvals := Approvals.Request(st.approvals, target).0);
    forall i | 0 <= i < |st'.messages| ensures ApprovalOk(st', i) {
      assert ApprovalOk(st, i);
    }
    forall b | 0 <= b < |st'.approvals.rows| ensures Owned(st', b) {
      if b < |st.approvals.rows| {
        assert Owned(st, b);
      }
    }
  }

  /** Replacing message `id` by one with the same approval keeps the invariant. */
  lemma ReplaceKeepsText(st: State, st': State, id: nat)
    requires TextOk(st) && id < |st.messages|
    requires st'.approvals == st.approvals && st'.requested == st.requested
    requires id < |st'.messages| && st'.messages == st.messages[id := st'.messages[id]]
    requires ApprovalOk(st', id)
    requires st'.messages[id].approvalId == st.messages[id].approvalId
    ensures TextOk(st')
  {
    forall i | 0 <= i < |st'.messages| ensures ApprovalOk(st', i) {
      assert ApprovalOk(st, i);
    }
    forall b | 0 <= b < |st'.approvals.rows| ensures Owned(st', b) {
      assert Owned(st, b);
    }
  }

  /** A message that reaches the sender carries an approved approval. */
  lemma AttemptedIsApproved(cfg: Config, st: State, op: Op, id: nat)
    requires cfg.approvalRequired && TextOk(st)
    requires Attempted(cfg, st, op) == Some(id)
    ensures var a := st.messages[id].approvalId;
            a.Some? && a.value < |st.approvals.rows| && st.approvals.rows[a.value].status == Approvals.Approved
  {
    assert ApprovalOk(st, id);
    var k := Approvals.GetApproved(st.approvals.rows, MessageTarget(id)).value;
    assert Owned(st, k);
  }

  /** A new draft has no approval yet. */
  lemma NewDraftKeepsText(st: State, m: Message)
    requires TextOk(st) && m.status == Draft && m.approvalId.None?
    ensures TextOk(st.(messages := st.messages + [m]))
  {
    var st' := st.(messages := st.messages + [m]);
    forall i | 0 <= i < |st'.messages| ensures ApprovalOk(st', i) {
      if i < |st.messages| {
        assert ApprovalOk(st, i);
      }
    }
    forall b | 0 <= b < |st'.approvals.rows| ensures Owned(st', b) {
      assert Owned(st, b);
    }
  }

  lemma UpdateKeepsText(st: State, id: nat, contactFound: bool, text: Text)
    requires TextOk(st)
    ensures TextOk(UpdateDraft(st, id, contactFound, text).0)
  {
    if id < |st.messages| {
      assert ApprovalOk(st, id);
      ReplaceKeepsText(st, UpdateDraft(st, id, contactFound, text).0, id);
    }
  }

  lemma CancelKeepsText(st: State, id: nat)
    requires TextOk(st)
    ensures TextOk(Cancel(st, id).0)
  {
    if id < |st.messages| {
      assert ApprovalOk(st, id);
      ReplaceKeepsText(st, Cancel(st, id).0, id);
    }
  }

  lemma AttemptKeepsText(cfg: Config, st: State, op: Op, id: nat)
    requires cfg.approvalRequired && TextOk(st)
    requires Attempted(cfg, st, op) == Some(id)
    ensures TextOk(Apply(cfg, st, op))
  {
    StepAnswers(cfg, st, op, id);
    AttemptedIsApproved(cfg, st, op, id);
    assert ApprovalOk(st, id);
    ReplaceKeepsText(st, Apply(cfg, st, op), id);
  }

  lemma RefusedChangesNothing(cfg: Config, st: State, op: Op)
    requires Attempted(cfg, st, op).None? && (op.SendOp? || op.RetryOp?)
    ensures Apply(cfg, st, op) == st
  {
    hide SendRefusal, RetryRefusal;
  }

  lemma ApplyKeepsText(cfg: Config, st: State, op: Op)
    requires cfg.approvalRequired && TextOk(st)
    requires op.RequestOp? ==> op.target.kind != Approvals.OutreachSend
    ensures TextOk(Apply(cfg, st, op))
  {
    if Attempted(cfg, st, op).Some? {
      AttemptKeepsText(cfg, st, op, Attempted(cfg, st, op).value);
    } else if op.SendOp? || op.RetryOp? {
      RefusedChangesNothing(cfg, st, op);
    } else {
      hide TextOk, CheckContact, UpdateDraft, SubmitForApproval, Cancel, Attempted;
      match op
      case CreateDraftOp(_, _, channel, text, _) => NewDraftKeepsText(st, NewDraft(channel, text, None));
      case CreateFollowUpOp(_, parent, text, _) =>
        if parent < |st.messages| {
          NewDraftKeepsText(st, NewDraft(st.messages[parent].channel, text, Some(parent)));
        }
      case UpdateDraftOp(id, contactFound, text) => UpdateKeepsText(st, id, contactFound, text);
      case SubmitOp(id, contactFound) => SubmitKeepsText(cfg, st, id, contactFound);
      case CancelOp(id) => CancelKeepsText(st, id);
      case DecideOp(a, d, until, now, wait) => DecideKeepsText(st, a, d, until, now, wait);
      case RequestOp(target) => RequestKeepsText(st, target);
      case _ =>
    }
  }

  // ---------------------------------------------------------------- main results

  lemma {:induction false} RunKeepsAll(cfg: Config, ops: seq<Op>)
    ensures var st := Run(cfg, INITIAL, ops);
            MessagesOk(cfg, st) && DeliveriesOk(st) && DaysOk(cfg, st)
  {
    if ops != [] {
      var st := Run(cfg, INITIAL, ops[..|ops| - 1]);
      var op := ops[|ops| - 1];
      RunKeepsAll(cfg, ops[..|ops| - 1]);
      ApplyKeepsMessages(cfg, st, op);
      ApplyKeepsDeliveries(cfg, st, op);
      match Attempted(cfg, st, op)
      case None => QuietKeepsDays(cfg, st, op);
      case Some(id) => AttemptKeepsDays(cfg, st, op, id);
    }
  }

  lemma {:induction false} RunKeepsText(cfg: Config, ops: seq<Op>)
    requires cfg.approvalRequired && OnlySubmitRequests(ops)
    ensures TextOk(Run(cfg, INITIAL, ops))
  {
    if ops != [] {
      assert forall i :: 0 <= i < |ops| - 1 ==> ops[..|ops| - 1][i] == ops[i];
      RunKeepsText(cfg, ops[..|ops| - 1]);
      ApplyKeepsText(cfg, Run(cfg, INITIAL, ops[..|ops| - 1]), ops[|ops| - 1]);
    }
  }

  /**
   * A message is delivered at most once. All its runs but the latest have
   * failed for good, and it is SENT exactly when the latest run is.
   */
  lemma DeliveredAtMostOnce(cfg: Config, ops: seq<Op>)
    ensures var st := Run(cfg, INITIAL, ops);
            && (forall d, e :: 0 <= d < e < |st.deliveries| ==> st.deliveries[d].message != st.deliveries[e].message)
            && (forall i :: 0 <= i < |st.messages| ==>
                  && (st.messages[i].status == Sent <==>
                        exists d :: 0 <= d < |st.deliveries| && st.deliveries[d].message == i)
                  && (st.messages[i].status == Sent <==>
                        st.messages[i].runs != [] && st.messages[i].runs[|st.messages[i].runs| - 1].status == RunSent)
                  && (forall k :: 0 <= k < |st.messages[i].runs| - 1 ==>
                        st.messages[i].runs[k].status == RunFailed && st.messages[i].runs[k].nextRetryAt.None?))
  {
    RunKeepsAll(cfg, ops);
    var st := Run(cfg, INITIAL, ops);
    forall i | 0 <= i < |st.messages| ensures MessageOk(cfg, st.messages[i]) {
    }
    forall d | 0 <= d < |st.deliveries| ensures Recorded(st, st.deliveries[d]) {
    }
  }

  /**
   * What was delivered is what was approved: the delivered text is the text
   * the approval was requested for, that approval is APPROVED, and the text is
   * the one in the highest of the version rows 1..n.
   */
  lemma DeliveredTextWasApproved(cfg: Config, ops: seq<Op>, d: nat)
    requires cfg.approvalRequired && OnlySubmitRequests(ops)
    requires d < |Run(cfg, INITIAL, ops).deliveries|
    ensures var st := Run(cfg, INITIAL, ops);
            var delivery := st.deliveries[d];
            && delivery.message < |st.messages|
            && var m := st.messages[delivery.message];
               && VersionsOk(m)
               && m.text == delivery.text
               && m.approvalId.Some?
               && m.approvalId.value < |st.approvals.rows|
               && m.approvalId.value in st.requested
               && var a := m.approvalId.value;
                  && st.approvals.rows[a].target == MessageTarget(delivery.message)
                  && st.approvals.rows[a].status == Approvals.Approved
                  && st.requested[a] == delivery.text
  {
    RunKeepsAll(cfg, ops);
    RunKeepsText(cfg, ops);
    RunKeepsVersions(cfg, ops);
    var st := Run(cfg, INITIAL, ops);
    assert Recorded(st, st.deliveries[d]);
    assert ApprovalOk(st, st.deliveries[d].message);
  }

  /** On every UTC day at most the daily limit of messages carry a sent time in that day. */
  lemma DailyCapHolds(cfg: Config, ops: seq<Op>, day: int)
    ensures CountSentOn(Run(cfg, INITIAL, ops).messages, day) <= Max(0, cfg.dailyLimit)
  {
    RunKeepsAll(cfg, ops);
  }

  /**
   * The sender is called for one run at most max_attempts times (but at least
   * once, even under a budget below one); its retries were scheduled after
   * attempts 1, 2, ..., and their delays add up to less than a full doubling.
   */
  lemma RetryBudgetHolds(cfg: Config, ops: seq<Op>, i: nat, k: nat)
    requires i < |Run(cfg, INITIAL, ops).messages| && k < |Run(cfg, INITIAL, ops).messages[i].runs|
    ensures var run := Run(cfg, INITIAL, ops).messages[i].runs[k];
            && 1 <= run.calls <= Max(1, cfg.maxAttempts)
            && (run.calls <= cfg.maxAttempts <==> cfg.maxAttempts >= 1)
            && run.scheduled == Backoff.UpTo(|run.scheduled|)
            && Backoff.TotalDelay(cfg.retryBase, run.scheduled)
               == cfg.retryBase * (Backoff.Pow2(|run.scheduled|) - 1)
            && (cfg.retryBase >= 0 ==>
                  Backoff.TotalDelay(cfg.retryBase, run.scheduled)
                  <= cfg.retryBase * (Backoff.Pow2(Max(0, cfg.maxAttempts - 1)) - 1))
  {
    RunKeepsAll(cfg, ops);
    hide Run;
    var st := Run(cfg, INITIAL, ops);
    assert MessageOk(cfg, st.messages[i]);
    BudgetBoundsDelays(cfg, st.messages[i].runs[k]);
    hide MessagesOk, MessageOk, DeliveriesOk, DaysOk, Backoff.TotalDelay, Backoff.Pow2;
  }

  lemma BudgetBoundsDelays(cfg: Config, run: SendRun)
    requires RunOk(cfg, run)
    ensures Backoff.TotalDelay(cfg.retryBase, run.scheduled) == cfg.retryBase * (Backoff.Pow2(|run.scheduled|) - 1)
    ensures cfg.retryBase >= 0 ==>
              Backoff.TotalDelay(cfg.retryBase, run.scheduled)
              <= cfg.retryBase * (Backoff.Pow2(Max(0, cfg.maxAttempts - 1)) - 1)
  {
    hide Backoff.TotalDelay, Backoff.Pow2;
    Backoff.TotalDelayExact(cfg.retryBase, |run.scheduled|);
    if cfg.retryBase >= 0 {
      Backoff.TotalDelayBounded(cfg.retryBase, run.scheduled, Max(0, cfg.maxAttempts - 1));
    }
  }

  /** SENT is never left: no later run of operations changes a sent message. */
  lemma {:induction false} SentForever(cfg: Config, ops: seq<Op>, more: seq<Op>, i: nat)
    requires i < |Run(cfg, INITIAL, ops).messages| && Run(cfg, INITIAL, ops).messages[i].status == Sent
    ensures var st := Run(cfg, Run(cfg, INITIAL, ops), more);
            i < |st.messages| && st.messages[i] == Run(cfg, INITIAL, ops).messages[i] && MessagesOk(cfg, st)
  {
    RunKeepsAll(cfg, ops);
    if more != [] {
      SentForever(cfg, ops, more[..|more| - 1], i);
      var st := Run(cfg, Run(cfg, INITIAL, ops), more[..|more| - 1]);
      SentIsFinal(cfg, st, more[|more| - 1], i);
      ApplyKeepsMessages(cfg, st, more[|more| - 1]);
    }
  }

  /**
   * The scheduled retry time is never consulted: a retry is refused or
   * accepted for the same reason whatever time, past or future, was scheduled.
   */
  lemma RetryIgnoresScheduledTime(cfg: Config, st: State, id: nat, k: nat, contact: Option<Contact>, t: Time, other: Time)
    requires MessagesOk(cfg, st)
    requires id < |st.messages| && k < |st.messages[id].runs| && st.messages[id].runs[k].nextRetryAt.Some?
    ensures var m := st.messages[id];
            var m' := m.(runs := m.runs[k := m.runs[k].(nextRetryAt := Some(other))]);
            RetryRefusal(cfg, st.(messages := st.messages[id := m']), id, k, contact, t)
            == RetryRefusal(cfg, st, id, k, contact, t)
  {
    var m := st.messages[id];
    var m' := m.(runs := m.runs[k := m.runs[k].(nextRetryAt := Some(other))]);
    CountIfUpdate(st.messages, SentSince(StartOfDay(t)), id, m');
  }

  /** The k-th failed attempt of a run schedules a retry base * 2^(k-1) seconds later, exactly while k is below the budget. */
  lemma FailureSchedules(base: int, m: Message, k: nat, retryable: bool, now: Time)
    requires k < |m.runs|
    ensures var run := AfterAttempt(base, m, k, NotDelivered(retryable), now).runs[k];
            && run.attempts == m.runs[k].attempts + 1
            && (run.nextRetryAt.Some? <==> retryable && run.attempts < run.maxAttempts)
            && (run.nextRetryAt.Some? ==> run.nextRetryAt.value == now + base * Backoff.Pow2(run.attempts - 1))
  {
  }
}
