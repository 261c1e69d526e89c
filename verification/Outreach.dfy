/**
 * The outreach protocol of one candidate: draft, edit, approval, send, retry
 * and cancel, each as a step on the stored messages. A step that is refused
 * leaves the store as it was, because the database session rolls back.
 */
module Outreach {
  import opened Prelude
  import Backoff
  import Approvals

  datatype Channel = Email | ProfessionalNetwork

  datatype MessageStatus = Draft | PendingApproval | Approved | Sent | Failed | Cancelled

  datatype RunStatus = RunPending | RunRunning | RunSent | RunFailed | RunCancelled

  datatype Text = Text(subject: string, body: string)

  datatype Version = Version(number: nat, text: Text)

  /**
   * One send workflow. `calls` and `scheduled` are its history as the audit log
   * holds it: how often the sender was called, and after which attempts a retry
   * was scheduled.
   */
  datatype SendRun = SendRun(
    status: RunStatus,
    attempts: nat,
    maxAttempts: int,
    nextRetryAt: Option<Time>,
    sentAt: Option<Time>,
    calls: nat,
    scheduled: seq<nat>)

  /**
   * A message with its version rows and its runs, each oldest first. `validated`
   * is history: the text the writer checked for grounding.
   */
  datatype Message = Message(
    channel: Channel,
    text: Text,
    validated: Text,
    status: MessageStatus,
    approvalId: Option<nat>,
    sentAt: Option<Time>,
    parent: Option<nat>,
    versions: seq<Version>,
    runs: seq<SendRun>)

  datatype Config = Config(
    approvalRequired: bool,
    autonomy: int,
    dailyLimit: int,
    maxAttempts: int,
    retryBase: int)

  /** The recruiter contact as it stands when a call reads it; a call may also find none. */
  datatype Contact = Contact(
    suppressed: bool,
    verified: bool,
    confidence: int,
    email: string,
    profileUrl: string)

  /** Whether the job and the application a draft names were found; also true when it names none. */
  datatype References = References(jobFound: bool, applicationFound: bool)

  /** What the sender reports; it may answer anything. */
  datatype SendOutcome = Delivered | NotDelivered(retryable: bool)

  /** A message the sender accepted: the audit row "outreach.sent". */
  datatype Delivery = Delivery(message: nat, text: Text, at: Time)

  /**
   * The store. `requested` remembers the text each outreach approval was
   * requested for, and `clock` is the latest time any call has read.
   */
  datatype State = State(
    approvals: Approvals.Store,
    requested: map<nat, Text>,
    messages: seq<Message>,
    deliveries: seq<Delivery>,
    clock: Time)

  datatype Error =
    | NotFound
    | ContactSuppressed
    | ContactNotVerified
    | UnsupportedClaims
    | ParentNotSent
    | NotADraft
    | CannotSubmit
    | CannotCancel
    | AutonomyTooLow
    | CannotSend
    | ApprovalStillPending
    | NoApprovedApproval
    | NeverApproved
    | NoDestination
    | DailyLimitReached
    | RunStillActive
    | RetryPending
    | AlreadySent
    | RunNotFailed
    | NotRetryable
    | AttemptsExhausted
    | MessageNotFailed
    | StoreError(error: Approvals.Error)

  const INITIAL := State(Approvals.Store([], []), map[], [], [], 0)

  function MessageTarget(id: nat): Approvals.Target {
    Approvals.Target(Approvals.OutreachSend, "outreach_message", id)
  }

  // ------------------------------------------------------------------------ time

  const SECONDS_PER_DAY: int := 86400

  /** The UTC day a time falls in. */
  function Day(t: Time): int {
    t / SECONDS_PER_DAY
  }

  function StartOfDay(t: Time): Time {
    Day(t) * SECONDS_PER_DAY
  }

  predicate IsSentSince(m: Message, since: Time) {
    m.status == Sent && m.sentAt.Some? && m.sentAt.value >= since
  }

  function SentSince(since: Time): Message -> bool {
    m => IsSentSince(m, since)
  }

  /** The query behind the daily cap. */
  function CountSentSince(messages: seq<Message>, since: Time): nat {
    CountIf(messages, SentSince(since))
  }

  // ----------------------------------------------------------------- gate checks

  /** Why a contact, which may not have been found, cannot be used; None when it can. */
  function CheckContact(contact: Option<Contact>): Option<Error> {
    match contact
    case None => Some(NotFound)
    case Some(c) =>
      if c.suppressed then Some(ContactSuppressed)
      else if !c.verified || c.confidence < 70 then Some(ContactNotVerified)
      else None
  }

  predicate HasDestination(channel: Channel, contact: Option<Contact>) {
    && contact.Some?
    && match channel
       case Email => contact.value.email != ""
       case ProfessionalNetwork => contact.value.profileUrl != ""
  }

  predicate UnderDailyLimit(cfg: Config, messages: seq<Message>, now: Time) {
    CountSentSince(messages, StartOfDay(now)) < cfg.dailyLimit
  }

  /** The approval a send needs: the approved one, or the reason there is none. */
  function CheckSendApproval(rows: seq<Approvals.Approval>, id: nat): Option<Error> {
    if Approvals.GetApproved(rows, MessageTarget(id)).Some? then None
    else match Approvals.GetOpen(rows, MessageTarget(id))
      case Err(e) => Some(StoreError(e))
      case Ok(open) => Some(if open.Some? then ApprovalStillPending else NoApprovedApproval)
  }

  // -------------------------------------------------------------------- drafting

  function MaxVersion(vs: seq<Version>): nat {
    if vs == [] then 0 else Max(MaxVersion(vs[..|vs| - 1]), vs[|vs| - 1].number)
  }

  function NextVersionNumber(vs: seq<Version>): nat {
    MaxVersion(vs) + 1
  }

  function NewDraft(channel: Channel, text: Text, parent: Option<nat>): Message {
    Message(channel, text, text, Draft, None, None, parent, [Version(1, text)], [])
  }

  /** Store a draft. Its effective text, given or generated, and the grounding verdict on it come from the writer. */
  function CreateDraft(st: State, contact: Option<Contact>, refs: References, channel: Channel, text: Text, grounded: bool):
    (State, Result<nat, Error>)
  {
    if CheckContact(contact).Some? then (st, Err(CheckContact(contact).value))
    else if !refs.jobFound || !refs.applicationFound then (st, Err(NotFound))
    else if !grounded then (st, Err(UnsupportedClaims))
    else (st.(messages := st.messages + [NewDraft(channel, text, None)]), Ok(|st.messages|))
  }

  /** Store a follow-up to a sent message, on its channel. */
  function CreateFollowUp(st: State, contact: Option<Contact>, parent: nat, text: Text, grounded: bool): (State, Result<nat, Error>) {
    if parent >= |st.messages| then (st, Err(NotFound))
    else if st.messages[parent].status != Sent then (st, Err(ParentNotSent))
    else if CheckContact(contact).Some? then (st, Err(CheckContact(contact).value))
    else if !grounded then (st, Err(UnsupportedClaims))
    else
      (st.(messages := st.messages + [NewDraft(st.messages[parent].channel, text, Some(parent))]), Ok(|st.messages|))
  }

  function UpdateDraft(st: State, id: nat, contactFound: bool, text: Text): (State, Result<(), Error>) {
    if id >= |st.messages| then (st, Err(NotFound))
    else if st.messages[id].status != Draft then (st, Err(NotADraft))
    else if !contactFound then (st, Err(NotFound))
    else
      var m := st.messages[id];
      var m' := m.(text := text, versions := m.versions + [Version(NextVersionNumber(m.versions), text)]);
      (st.(messages := st.messages[id := m']), Ok(()))
  }

  // -------------------------------------------------------------------- approval

  function SubmitForApproval(cfg: Config, st: State, id: nat, contactFound: bool): (State, Result<Option<nat>, Error>) {
    if id >= |st.messages| || !contactFound then (st, Err(NotFound))
    else
      var m := st.messages[id];
      if m.status == Approved then
        (st, Ok(Approvals.GetApproved(st.approvals.rows, MessageTarget(id))))
      else if m.status == PendingApproval then
        match Approvals.GetOpen(st.approvals.rows, MessageTarget(id))
        case Err(e) => (st, Err(StoreError(e)))
        case Ok(open) => (st, Ok(open))
      else if m.status != Draft then (st, Err(CannotSubmit))
      else if cfg.approvalRequired then
        var (approvals, r) := Approvals.Request(st.approvals, MessageTarget(id));
        match r
        case Err(e) => (st, Err(StoreError(e)))
        case Ok(a) =>
          (st.(approvals := approvals,
               requested := if a < |st.approvals.rows| then st.requested else st.requested[a := m.text],
               messages := st.messages[id := m.(status := PendingApproval, approvalId := Some(a))]),
           Ok(Some(a)))
      else
        (st.(messages := st.messages[id := m.(status := Approved)]), Ok(None))
  }

  function Cancel(st: State, id: nat): (State, Result<(), Error>) {
    if id >= |st.messages| then (st, Err(NotFound))
    else if st.messages[id].status == Sent || st.messages[id].status == Cancelled then (st, Err(CannotCancel))
    else (st.(messages := st.messages[id := st.messages[id].(status := Cancelled)]), Ok(()))
  }

  // ------------------------------------------------------------------------ send

  /** The message after the sender has answered its k-th run. */
  function AfterAttempt(base: int, m: Message, k: nat, outcome: SendOutcome, now: Time): Message
    requires k < |m.runs|
  {
    var run := m.runs[k];
    match outcome
    case Delivered =>
      m.(status := Sent, sentAt := Some(now),
         runs := m.runs[k := run.(status := RunSent, sentAt := Some(now), calls := run.calls + 1)])
    case NotDelivered(retryable) =>
      var used := run.attempts + 1;
      var again := retryable && used < run.maxAttempts;
      m.(status := Failed,
         runs := m.runs[k := run.(
           status := RunFailed,
           attempts := used,
           nextRetryAt := if again then Some(now + Backoff.Delay(base, used)) else None,
           calls := run.calls + 1,
           scheduled := if again then run.scheduled + [used] else run.scheduled)])
  }

  /** Hand the k-th run of message `id` to the sender and store what it answers. */
  function Attempt(cfg: Config, st: State, id: nat, k: nat, outcome: SendOutcome, now: Time): State
    requires id < |st.messages| && k < |st.messages[id].runs|
  {
    var m := AfterAttempt(cfg.retryBase, st.messages[id], k, outcome, now);
    st.(messages := st.messages[id := m],
        deliveries := if outcome.Delivered? then st.deliveries + [Delivery(id, m.text, now)] else st.deliveries,
        clock := now)
  }

  /** Why a message may not be sent at time t; None when it may. */
  function SendRefusal(cfg: Config, st: State, id: nat, contact: Option<Contact>, t: Time): Option<Error> {
    if cfg.autonomy < 2 then Some(AutonomyTooLow)
    else if id >= |st.messages| then Some(NotFound)
    else if CheckContact(contact).Some? then CheckContact(contact)
    else
      var m := st.messages[id];
      if m.status !in {PendingApproval, Approved, Failed} then Some(CannotSend)
      else if cfg.approvalRequired && CheckSendApproval(st.approvals.rows, id).Some? then
        CheckSendApproval(st.approvals.rows, id)
      else if !cfg.approvalRequired && m.status == PendingApproval then Some(NeverApproved)
      else if !HasDestination(m.channel, contact) then Some(NoDestination)
      else if !UnderDailyLimit(cfg, st.messages, t) then Some(DailyLimitReached)
      else if m.runs == [] then None
      else
        var latest := m.runs[|m.runs| - 1];
        if latest.status in {RunPending, RunRunning} then Some(RunStillActive)
        else if latest.status == RunFailed && latest.nextRetryAt.Some? then Some(RetryPending)
        else None
  }

  function NewRun(cfg: Config): SendRun {
    SendRun(RunRunning, 0, cfg.maxAttempts, None, None, 0, [])
  }

  /** The message with a fresh run, approved if it was still pending. */
  function WithNewRun(cfg: Config, m: Message): Message {
    m.(status := if m.status == PendingApproval then Approved else m.status, runs := m.runs + [NewRun(cfg)])
  }

  /** The message with its k-th run running again. */
  function WithRetriedRun(m: Message, k: nat): Message
    requires k < |m.runs|
  {
    m.(runs := m.runs[k := m.runs[k].(status := RunRunning, nextRetryAt := None)])
  }

  /**
   * Start a run for a message. The clock is read `w1` seconds after the last
   * reading for the daily cap, and again `w2` seconds later, when the sender
   * has answered, for the timestamps.
   */
  function Send(cfg: Config, st: State, id: nat, contact: Option<Contact>, outcome: SendOutcome, w1: nat, w2: nat):
    (State, Result<nat, Error>)
  {
    var t := st.clock + w1;
    match SendRefusal(cfg, st, id, contact, t)
    case Some(e) => (st, Err(e))
    case None =>
      var m := st.messages[id];
      var ready := st.(messages := st.messages[id := WithNewRun(cfg, m)]);
      (Attempt(cfg, ready, id, |m.runs|, outcome, t + w2), Ok(|m.runs|))
  }

  /** Why the k-th run of a message may not be retried at time t; None when it may. */
  function RetryRefusal(cfg: Config, st: State, id: nat, k: nat, contact: Option<Contact>, t: Time): Option<Error> {
    if id >= |st.messages| || k >= |st.messages[id].runs| then Some(NotFound)
    else
      var m := st.messages[id];
      var run := m.runs[k];
      if run.status == RunSent then Some(AlreadySent)
      else if run.status != RunFailed then Some(RunNotFailed)
      else if run.nextRetryAt.None? then Some(NotRetryable)
      else if run.attempts >= run.maxAttempts then Some(AttemptsExhausted)
      else if m.status != Failed then Some(MessageNotFailed)
      else if CheckContact(contact).Some? then CheckContact(contact)
      else if cfg.approvalRequired && Approvals.GetApproved(st.approvals.rows, MessageTarget(id)).None? then
        Some(NoApprovedApproval)
      else if !HasDestination(m.channel, contact) then Some(NoDestination)
      else if !UnderDailyLimit(cfg, st.messages, t) then Some(DailyLimitReached)
      else None
  }

  function Retry(cfg: Config, st: State, id: nat, k: nat, contact: Option<Contact>, outcome: SendOutcome, w1: nat, w2: nat):
    (State, Result<(), Error>)
  {
    var t := st.clock + w1;
    match RetryRefusal(cfg, st, id, k, contact, t)
    case Some(e) => (st, Err(e))
    case None =>
      var ready := st.(messages := st.messages[id := WithRetriedRun(st.messages[id], k)]);
      (Attempt(cfg, ready, id, k, outcome, t + w2), Ok(()))
  }

  // ------------------------------------------------------------------ whole runs

  datatype Op =
    | CreateDraftOp(contact: Option<Contact>, refs: References, channel: Channel, text: Text, grounded: bool)
    | CreateFollowUpOp(contact: Option<Contact>, parent: nat, text: Text, grounded: bool)
    | UpdateDraftOp(id: nat, contactFound: bool, text: Text)
    | SubmitOp(id: nat, contactFound: bool)
    | CancelOp(id: nat)
    | SendOp(id: nat, contact: Option<Contact>, outcome: SendOutcome, w1: nat, w2: nat)
    | RetryOp(id: nat, k: nat, contact: Option<Contact>, outcome: SendOutcome, w1: nat, w2: nat)
    | DecideOp(approval: nat, decision: Approvals.DecisionType, until: Option<Time>, now: Time, wait: nat)
    | RequestOp(target: Approvals.Target)

  function Apply(cfg: Config, st: State, op: Op): State {
    match op
    case CreateDraftOp(contact, refs, channel, text, grounded) =>
      CreateDraft(st, contact, refs, channel, text, grounded).0
    case CreateFollowUpOp(contact, parent, text, grounded) => CreateFollowUp(st, contact, parent, text, grounded).0
    case UpdateDraftOp(id, contactFound, text) => UpdateDraft(st, id, contactFound, text).0
    case SubmitOp(id, contactFound) => SubmitForApproval(cfg, st, id, contactFound).0
    case CancelOp(id) => Cancel(st, id).0
    case SendOp(id, contact, outcome, w1, w2) => Send(cfg, st, id, contact, outcome, w1, w2).0
    case RetryOp(id, k, contact, outcome, w1, w2) => Retry(cfg, st, id, k, contact, outcome, w1, w2).0
    case DecideOp(a, d, until, now, wait) => st.(approvals := Approvals.Decide(st.approvals, a, d, until, now, wait).0)
    case RequestOp(target) => st.(approvals := Approvals.Request(st.approvals, target).0)
  }

  function Run(cfg: Config, st: State, ops: seq<Op>): State {
    if ops == [] then st else Apply(cfg, Run(cfg, st, ops[..|ops| - 1]), ops[|ops| - 1])
  }

  /** Only submit_for_approval requests outreach_send approvals; other kinds are requested freely. */
  ghost predicate OnlySubmitRequests(ops: seq<Op>) {
    forall i :: 0 <= i < |ops| && ops[i].RequestOp? ==> ops[i].target.kind != Approvals.OutreachSend
  }
}
