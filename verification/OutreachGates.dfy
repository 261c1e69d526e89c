/**
 * Who reaches the sender and what each operation leaves behind, in terms of the
 * fields of contacts, messages, approvals and the clock alone.
 */
module OutreachGates {
  import opened Prelude
  import opened Outreach
  import opened OutreachSafety
  import Approvals
  import Backoff

  // -------------------------------------------------------------------- contacts

  /** A contact that may be written to: found, not suppressed, verified, and at least 70 percent certain. */
  predicate Usable(contact: Option<Contact>) {
    contact.Some? && !contact.value.suppressed && contact.value.verified && contact.value.confidence >= 70
  }

  /** A contact with an address on the message's channel. */
  predicate Addressed(channel: Channel, contact: Option<Contact>) {
    && contact.Some?
    && (channel == Email ==> contact.value.email != "")
    && (channel == ProfessionalNetwork ==> contact.value.profileUrl != "")
  }

  predicate Approved(rows: seq<Approvals.Approval>, id: nat) {
    exists a :: 0 <= a < |rows| && rows[a].target == Approvals.Target(Approvals.OutreachSend, "outreach_message", id)
                && rows[a].status == Approvals.Approved
  }

  function SentFrom(day: int): Message -> bool {
    (m: Message) => m.status == Sent && m.sentAt.Some? && m.sentAt.value / 86400 >= day
  }

  /** Fewer than the daily limit of messages were sent on the UTC day of t, or later. */
  predicate RoomOn(cfg: Config, messages: seq<Message>, t: Time) {
    CountIf(messages, SentFrom(t / 86400)) < cfg.dailyLimit
  }

  lemma ApprovedIsFound(rows: seq<Approvals.Approval>, id: nat)
    ensures Approvals.GetApproved(rows, MessageTarget(id)).Some? <==> Approved(rows, id)
  {
    var found := Approvals.GetApproved(rows, MessageTarget(id));
    if found.Some? {
      assert rows[found.value].status == Approvals.Approved;
    }
  }

  lemma RoomIsCounted(cfg: Config, messages: seq<Message>, t: Time)
    ensures UnderDailyLimit(cfg, messages, t) <==> RoomOn(cfg, messages, t)
  {
    forall i | 0 <= i < |messages| ensures SentSince(StartOfDay(t))(messages[i]) == SentFrom(t / 86400)(messages[i]) {
    }
    CountIfSame(messages, messages, SentSince(StartOfDay(t)));
    CountIfAgree(messages, SentSince(StartOfDay(t)), SentFrom(t / 86400));
  }

  lemma CountIfAgree(s: seq<Message>, p: Message -> bool, q: Message -> bool)
    requires forall i :: 0 <= i < |s| ==> p(s[i]) == q(s[i])
    ensures CountIf(s, p) == CountIf(s, q)
  {
    CountIfImplies(s, p, q);
    CountIfImplies(s, q, p);
  }

  lemma UsableExactly(contact: Option<Contact>)
    ensures CheckContact(contact).None? <==> Usable(contact)
  {
  }

  // ----------------------------------------------------------------- who is sent to

  /** The latest run, if there is one, is neither active nor waiting for a retry. */
  predicate RestsFrom(m: Message) {
    m.runs != [] ==>
      var latest := m.runs[|m.runs| - 1];
      && latest.status != RunPending && latest.status != RunRunning
      && !(latest.status == RunFailed && latest.nextRetryAt.Some?)
  }

  /**
   * A send is accepted exactly when automation may send, the message exists and
   * waits for it, its contact is usable and addressed, it is approved as the
   * configuration asks, the day has room, and no earlier run is under way.
   */
  lemma SendAcceptedExactly(cfg: Config, st: State, id: nat, contact: Option<Contact>, outcome: SendOutcome, w1: nat, w2: nat)
    ensures Send(cfg, st, id, contact, outcome, w1, w2).1.Ok? <==>
            && cfg.autonomy >= 2
            && id < |st.messages|
            && Usable(contact) && Addressed(st.messages[id].channel, contact)
            && (if cfg.approvalRequired then
                  && st.messages[id].status in {PendingApproval, MessageStatus.Approved, Failed}
                  && Approved(st.approvals.rows, id)
                else st.messages[id].status in {MessageStatus.Approved, Failed})
            && RoomOn(cfg, st.messages, st.clock + w1)
            && RestsFrom(st.messages[id])
  {
    hide UnderDailyLimit, RoomOn, Approvals.GetApproved, Approvals.GetOpen, Approved, Attempt;
    ApprovedIsFound(st.approvals.rows, id);
    RoomIsCounted(cfg, st.messages, st.clock + w1);
  }

  /**
   * A retry is accepted exactly when the run failed with a retry scheduled and
   * an attempt left, its message is FAILED, the contact is usable and addressed,
   * the message is approved if that is asked for, and the day has room.
   */
  lemma RetryAcceptedExactly(cfg: Config, st: State, id: nat, k: nat, contact: Option<Contact>, outcome: SendOutcome, w1: nat, w2: nat)
    ensures Retry(cfg, st, id, k, contact, outcome, w1, w2).1.Ok? <==>
            && id < |st.messages| && k < |st.messages[id].runs|
            && st.messages[id].runs[k].status == RunFailed
            && st.messages[id].runs[k].nextRetryAt.Some?
            && st.messages[id].runs[k].attempts < st.messages[id].runs[k].maxAttempts
            && st.messages[id].status == Failed
            && Usable(contact) && Addressed(st.messages[id].channel, contact)
            && (cfg.approvalRequired ==> Approved(st.approvals.rows, id))
            && RoomOn(cfg, st.messages, st.clock + w1)
  {
    hide UnderDailyLimit, RoomOn, Approvals.GetApproved, Approved, Attempt;
    ApprovedIsFound(st.approvals.rows, id);
    RoomIsCounted(cfg, st.messages, st.clock + w1);
  }

  /** Whoever the sender is called for, by send or by retry, may be written to and has an address on the channel. */
  lemma OnlyUsableContactsReached(cfg: Config, st: State, op: Op, id: nat)
    requires Attempted(cfg, st, op) == Some(id)
    ensures op.SendOp? || op.RetryOp?
    ensures id < |st.messages|
    ensures Usable(op.contact) && Addressed(st.messages[id].channel, op.contact)
  {
    hide UnderDailyLimit, Approvals.GetApproved, Approvals.GetOpen;
  }

  /** Over any run: each step that delivered a message did so to a contact that was usable and addressed at that moment. */
  lemma DeliveredToUsableContacts(cfg: Config, ops: seq<Op>, n: nat)
    requires n < |ops|
    ensures var before, after := Run(cfg, INITIAL, ops[..n]), Run(cfg, INITIAL, ops[..n + 1]);
            after.deliveries != before.deliveries ==>
              && (ops[n].SendOp? || ops[n].RetryOp?)
              && ops[n].id < |before.messages|
              && Usable(ops[n].contact) && Addressed(before.messages[ops[n].id].channel, ops[n].contact)
              && after.deliveries == before.deliveries + [Delivery(ops[n].id, before.messages[ops[n].id].text, after.clock)]
  {
    var before := Run(cfg, INITIAL, ops[..n]);
    assert ops[..n + 1][..n] == ops[..n];
    hide Run, Apply, Attempted, Answered, Quiet;
    DeliveryStep(cfg, before, ops[n]);
  }

  lemma DeliveryStep(cfg: Config, st: State, op: Op)
    ensures var st' := Apply(cfg, st, op);
            st'.deliveries != st.deliveries ==>
              && (op.SendOp? || op.RetryOp?)
              && op.id < |st.messages|
              && Usable(op.contact) && Addressed(st.messages[op.id].channel, op.contact)
              && st'.deliveries == st.deliveries + [Delivery(op.id, st.messages[op.id].text, st'.clock)]
  {
    match Attempted(cfg, st, op)
    case None =>
      StepQuiet(cfg, st, op);
    case Some(id) =>
      OnlyUsableContactsReached(cfg, st, op, id);
      StepAnswers(cfg, st, op, id);
      assert op.id == id;
      hide Apply, Attempted, Usable, Addressed;
  }

  // --------------------------------------------------------- why a call is refused

  /** What a refusal of a send says is the case. */
  ghost predicate SendRefusedFor(e: Error, cfg: Config, st: State, id: nat, contact: Option<Contact>, t: Time) {
    match e
    case AutonomyTooLow => cfg.autonomy < 2
    case NotFound => id >= |st.messages| || contact.None?
    case ContactSuppressed => contact.Some? && contact.value.suppressed
    case ContactNotVerified => contact.Some? && (!contact.value.verified || contact.value.confidence < 70)
    case CannotSend =>
      id < |st.messages| && (st.messages[id].status.Draft? || st.messages[id].status.Sent? || st.messages[id].status.Cancelled?)
    case ApprovalStillPending =>
      && cfg.approvalRequired && !Approved(st.approvals.rows, id)
      && exists a :: 0 <= a < |st.approvals.rows| && st.approvals.rows[a].target == MessageTarget(id)
                     && st.approvals.rows[a].status in {Approvals.Pending, Approvals.Snoozed}
    case NoApprovedApproval =>
      && cfg.approvalRequired && !Approved(st.approvals.rows, id)
      && forall a :: 0 <= a < |st.approvals.rows| && st.approvals.rows[a].target == MessageTarget(id) ==>
           st.approvals.rows[a].status !in {Approvals.Pending, Approvals.Snoozed}
    case NeverApproved => !cfg.approvalRequired && id < |st.messages| && st.messages[id].status == PendingApproval
    case NoDestination => id < |st.messages| && !Addressed(st.messages[id].channel, contact)
    case DailyLimitReached => !RoomOn(cfg, st.messages, t)
    case RunStillActive =>
      && id < |st.messages| && st.messages[id].runs != []
      && st.messages[id].runs[|st.messages[id].runs| - 1].status in {RunPending, RunRunning}
    case RetryPending =>
      && id < |st.messages| && st.messages[id].runs != []
      && st.messages[id].runs[|st.messages[id].runs| - 1].nextRetryAt.Some?
    case StoreError(_) => !Approvals.OneOpenPerTarget(st.approvals.rows)
    case _ => false
  }

  lemma SendRefusalIsTrue(cfg: Config, st: State, id: nat, contact: Option<Contact>, outcome: SendOutcome, w1: nat, w2: nat)
    requires Send(cfg, st, id, contact, outcome, w1, w2).1.Err?
    ensures SendRefusedFor(Send(cfg, st, id, contact, outcome, w1, w2).1.error, cfg, st, id, contact, st.clock + w1)
    ensures Send(cfg, st, id, contact, outcome, w1, w2).0 == st
  {
    hide UnderDailyLimit, RoomOn, Approvals.GetApproved, Approvals.GetOpen, Approved, Attempt;
    ApprovedIsFound(st.approvals.rows, id);
    Approvals.OpenExactly(st.approvals.rows, MessageTarget(id));
    RoomIsCounted(cfg, st.messages, st.clock + w1);
  }

  /** What a refusal of a retry says is the case. */
  ghost predicate RetryRefusedFor(e: Error, cfg: Config, st: State, id: nat, k: nat, contact: Option<Contact>, t: Time) {
    if id >= |st.messages| || k >= |st.messages[id].runs| then e == NotFound
    else
      var m := st.messages[id];
      var run := m.runs[k];
      match e
      case NotFound => contact.None?
      case AlreadySent => run.status == RunSent
      case RunNotFailed => run.status in {RunPending, RunRunning, RunCancelled}
      case NotRetryable => run.nextRetryAt.None?
      case AttemptsExhausted => run.attempts >= run.maxAttempts
      case MessageNotFailed => m.status != Failed
      case ContactSuppressed => contact.Some? && contact.value.suppressed
      case ContactNotVerified => contact.Some? && (!contact.value.verified || contact.value.confidence < 70)
      case NoApprovedApproval => cfg.approvalRequired && !Approved(st.approvals.rows, id)
      case NoDestination => !Addressed(m.channel, contact)
      case DailyLimitReached => !RoomOn(cfg, st.messages, t)
      case _ => false
  }

  lemma RetryRefusalIsTrue(cfg: Config, st: State, id: nat, k: nat, contact: Option<Contact>, outcome: SendOutcome, w1: nat, w2: nat)
    requires Retry(cfg, st, id, k, contact, outcome, w1, w2).1.Err?
    ensures RetryRefusedFor(Retry(cfg, st, id, k, contact, outcome, w1, w2).1.error, cfg, st, id, k, contact, st.clock + w1)
    ensures Retry(cfg, st, id, k, contact, outcome, w1, w2).0 == st
  {
    hide UnderDailyLimit, RoomOn, Approvals.GetApproved, Approved, Attempt;
    ApprovedIsFound(st.approvals.rows, id);
    RoomIsCounted(cfg, st.messages, st.clock + w1);
  }

  // ------------------------------------------------------------ what a call leaves

  /** What one call of the sender makes of a running run. */
  ghost predicate RunAnswered(cfg: Config, before: SendRun, after: SendRun, outcome: SendOutcome, now: Time) {
    && after.maxAttempts == before.maxAttempts
    && after.calls == before.calls + 1
    && (outcome.Delivered? ==>
          after.status == RunSent && after.sentAt == Some(now)
          && after.attempts == before.attempts && after.scheduled == before.scheduled && after.nextRetryAt.None?)
    && (outcome.NotDelivered? ==>
          && after.status == RunFailed && after.sentAt == before.sentAt
          && after.attempts == before.attempts + 1
          && (if outcome.retryable && before.attempts + 1 < before.maxAttempts then
                && after.nextRetryAt == Some(now + cfg.retryBase * Backoff.Pow2(before.attempts))
                && after.scheduled == before.scheduled + [before.attempts + 1]
              else after.nextRetryAt.None? && after.scheduled == before.scheduled))
  }

  /** An accepted send adds one run, with the configured budget, and has the sender answer it. */
  lemma SendLeaves(cfg: Config, st: State, id: nat, contact: Option<Contact>, outcome: SendOutcome, w1: nat, w2: nat)
    requires Send(cfg, st, id, contact, outcome, w1, w2).1.Ok?
    ensures var (st', r) := Send(cfg, st, id, contact, outcome, w1, w2);
            && Answered(st, st', id, outcome)
            && st'.clock == st.clock + w1 + w2
            && r.value == |st.messages[id].runs|
            && st'.messages[id].runs[..r.value] == st.messages[id].runs
            && |st'.messages[id].runs| == r.value + 1
            && RunAnswered(cfg, SendRun(RunRunning, 0, cfg.maxAttempts, None, None, 0, []), st'.messages[id].runs[r.value],
                           outcome, st'.clock)
  {
    SendAnswers(cfg, st, id, contact, outcome, w1, w2);
    hide SendRefusal, Answered;
  }

  /** An accepted retry has the sender answer the run again and touches no other run. */
  lemma RetryLeaves(cfg: Config, st: State, id: nat, k: nat, contact: Option<Contact>, outcome: SendOutcome, w1: nat, w2: nat)
    requires Retry(cfg, st, id, k, contact, outcome, w1, w2).1.Ok?
    ensures var st' := Retry(cfg, st, id, k, contact, outcome, w1, w2).0;
            && Answered(st, st', id, outcome)
            && st'.clock == st.clock + w1 + w2
            && k < |st.messages[id].runs| == |st'.messages[id].runs|
            && st'.messages[id].runs == st.messages[id].runs[k := st'.messages[id].runs[k]]
            && RunAnswered(cfg, st.messages[id].runs[k], st'.messages[id].runs[k], outcome, st'.clock)
  {
    RetryAnswers(cfg, st, id, k, contact, outcome, w1, w2);
    hide UnderDailyLimit, Answered, CheckContact, HasDestination, Approvals.GetApproved;
  }

  /** A message as it is drafted: one version, no approval, no run. */
  predicate IsNewDraft(m: Message, channel: Channel, text: Text, parent: Option<nat>) {
    && m.channel == channel && m.text == text && m.validated == text && m.parent == parent
    && m.status == Draft && m.approvalId.None? && m.sentAt.None? && m.runs == []
    && |m.versions| == 1 && m.versions[0].number == 1 && m.versions[0].text == text
  }

  /** Only the messages changed, by one at the end. */
  predicate Drafted(st: State, st': State, channel: Channel, text: Text, parent: Option<nat>) {
    && st' == st.(messages := st'.messages)
    && |st'.messages| == |st.messages| + 1
    && st'.messages[..|st.messages|] == st.messages
    && IsNewDraft(st'.messages[|st.messages|], channel, text, parent)
  }

  /** A draft is stored exactly for a usable contact, references that exist and supported claims. */
  lemma DraftStoredExactly(st: State, contact: Option<Contact>, refs: References, channel: Channel, text: Text, grounded: bool)
    ensures var (st', r) := CreateDraft(st, contact, refs, channel, text, grounded);
            && (r.Ok? <==> Usable(contact) && refs.jobFound && refs.applicationFound && grounded)
            && (r.Ok? ==> r.value == |st.messages| && Drafted(st, st', channel, text, None))
            && (r.Err? ==> st' == st)
  {
  }

  /** A follow-up is stored exactly for a usable contact and supported claims after a sent message, on its channel. */
  lemma FollowUpStoredExactly(st: State, contact: Option<Contact>, parent: nat, text: Text, grounded: bool)
    ensures var (st', r) := CreateFollowUp(st, contact, parent, text, grounded);
            && (r.Ok? <==> parent < |st.messages| && st.messages[parent].status == Sent && Usable(contact) && grounded)
            && (r.Ok? ==> r.value == |st.messages| && Drafted(st, st', st.messages[parent].channel, text, Some(parent)))
            && (r.Err? ==> st' == st)
  {
  }

  /** An edit is stored exactly on a draft with a contact; it changes the text and adds the next version. */
  lemma EditStoredExactly(st: State, id: nat, contactFound: bool, text: Text)
    requires AllVersionsOk(st)
    ensures var (st', r) := UpdateDraft(st, id, contactFound, text);
            && (r.Ok? <==> id < |st.messages| && st.messages[id].status == Draft && contactFound)
            && (r.Ok? ==>
                  && st' == st.(messages := st.messages[id := st'.messages[id]])
                  && st'.messages[id] == st.messages[id].(text := text, versions := st'.messages[id].versions)
                  && st'.messages[id].versions == st.messages[id].versions + [Version(|st.messages[id].versions| + 1, text)])
            && (r.Err? ==> st' == st)
  {
    if id < |st.messages| {
      assert VersionsOk(st.messages[id]);
      NextVersionFollows(st.messages[id].versions);
    }
  }

  /**
   * Submission succeeds exactly on a draft, or on a message already pending or
   * approved, with a contact. A draft becomes pending with a new PENDING request
   * for its text, or with the request still open; or it becomes approved when no
   * approval is asked for. Nothing else changes.
   */
  lemma SubmittedExactly(cfg: Config, st: State, id: nat, contactFound: bool)
    requires Approvals.OneOpenPerTarget(st.approvals.rows)
    ensures var (st', r) := SubmitForApproval(cfg, st, id, contactFound);
            && (r.Ok? <==> id < |st.messages| && contactFound
                           && st.messages[id].status in {Draft, PendingApproval, MessageStatus.Approved})
            && (r.Ok? && st.messages[id].status == Draft && cfg.approvalRequired ==>
                  && r.value.Some?
                  && st'.messages == st.messages[id := st.messages[id].(status := PendingApproval, approvalId := r.value)]
                  && Requested(st, st', id, r.value.value)
                  && st'.deliveries == st.deliveries && st'.clock == st.clock)
            && (r.Ok? && st.messages[id].status == Draft && !cfg.approvalRequired ==>
                  r.value == None && st' == st.(messages := st.messages[id := st.messages[id].(status := MessageStatus.Approved)]))
            && (r.Err? || st.messages[id].status != Draft ==> st' == st)
  {
    Approvals.OpenExactly(st.approvals.rows, MessageTarget(id));
  }

  /** Request `a` is the one open for message `id`: found open, or added as PENDING with the message's text. */
  ghost predicate Requested(st: State, st': State, id: nat, a: nat)
    requires id < |st.messages|
  {
    if a < |st.approvals.rows| then
      && st.approvals.rows[a].target == MessageTarget(id)
      && st.approvals.rows[a].status in {Approvals.Pending, Approvals.Snoozed}
      && st'.approvals == st.approvals && st'.requested == st.requested
    else
      && a == |st.approvals.rows|
      && st'.approvals.rows == st.approvals.rows + [Approvals.Approval(MessageTarget(id), Approvals.Pending, None, None, None)]
      && st'.approvals.log == st.approvals.log
      && st'.requested == st.requested[a := st.messages[id].text]
      && (forall b :: 0 <= b < a && st.approvals.rows[b].target == MessageTarget(id) ==>
            st.approvals.rows[b].status !in {Approvals.Pending, Approvals.Snoozed})
  }

  /** Everything but SENT and CANCELLED can be cancelled, and only the status changes. */
  lemma CancelledExactly(st: State, id: nat)
    ensures var (st', r) := Cancel(st, id);
            && (r.Ok? <==> id < |st.messages| && st.messages[id].status in {Draft, PendingApproval, MessageStatus.Approved, Failed})
            && (r.Ok? ==> st' == st.(messages := st.messages[id := st.messages[id].(status := MessageStatus.Cancelled)]))
            && (r.Err? ==> st' == st)
  {
  }
}
