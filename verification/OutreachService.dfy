/** The outreach service of one candidate, changing its stored messages step by step. */
module OutreachServices {
  import opened Prelude
  import opened Outreach
  import Backoff
  import Approvals

  class OutreachService {
    const cfg: Config
    const approvals: Approvals.ApprovalService
    var requested: map<nat, Text>
    var messages: seq<Message>
    var deliveries: seq<Delivery>
    var clock: Time

    ghost function Contents(): State
      reads this, approvals
    {
      State(approvals.Contents(), requested, messages, deliveries, clock)
    }

    constructor (cfg: Config, approvals: Approvals.ApprovalService)
      requires approvals.Contents() == Approvals.Store([], [])
      ensures this.cfg == cfg && this.approvals == approvals
      ensures Contents() == INITIAL
    {
      this.cfg, this.approvals := cfg, approvals;
      requested, messages, deliveries, clock := map[], [], [], 0;
    }

    method CreateDraft(contact: Option<Contact>, refs: References, channel: Channel, text: Text, grounded: bool)
      returns (r: Result<nat, Error>)
      modifies this
      ensures (Contents(), r) == Outreach.CreateDraft(old(Contents()), contact, refs, channel, text, grounded)
    {
      var unusable := CheckContact(contact);
      if unusable.Some? {
        return Err(unusable.value);
      }
      if !refs.jobFound {
        return Err(NotFound);
      }
      if !refs.applicationFound {
        return Err(NotFound);
      }
      if !grounded {
        return Err(UnsupportedClaims);
      }
      r := Ok(|messages|);
      var message := Message(channel, text, text, Draft, None, None, None, [], []);
      message := message.(versions := [Version(1, text)]);
      messages := messages + [message];
    }

    method CreateFollowUp(contact: Option<Contact>, parent: nat, text: Text, grounded: bool) returns (r: Result<nat, Error>)
      modifies this
      ensures (Contents(), r) == Outreach.CreateFollowUp(old(Contents()), contact, parent, text, grounded)
    {
      if parent >= |messages| {
        return Err(NotFound);
      }
      if messages[parent].status != Sent {
        return Err(ParentNotSent);
      }
      var unusable := CheckContact(contact);
      if unusable.Some? {
        return Err(unusable.value);
      }
      if !grounded {
        return Err(UnsupportedClaims);
      }
      r := Ok(|messages|);
      var message := Message(messages[parent].channel, text, text, Draft, None, None, Some(parent), [], []);
      message := message.(versions := [Version(1, text)]);
      messages := messages + [message];
    }

    method UpdateDraft(id: nat, contactFound: bool, text: Text) returns (r: Result<(), Error>)
      modifies this
      ensures (Contents(), r) == Outreach.UpdateDraft(old(Contents()), id, contactFound, text)
    {
      if id >= |messages| {
        return Err(NotFound);
      }
      var message := messages[id];
      if message.status != Draft {
        return Err(NotADraft);
      }
      if !contactFound {
        return Err(NotFound);
      }
      var number := NextVersionNumber(message.versions);
      message := message.(versions := message.versions + [Version(number, text)]);
      message := message.(text := text);
      messages := messages[id := message];
      r := Ok(());
    }

    method SubmitForApproval(id: nat, contactFound: bool) returns (r: Result<Option<nat>, Error>)
      modifies this, approvals
      ensures (Contents(), r) == Outreach.SubmitForApproval(cfg, old(Contents()), id, contactFound)
    {
      if id >= |messages| {
        return Err(NotFound);
      }
      if !contactFound {
        return Err(NotFound);
      }
      var message := messages[id];
      if message.status == Approved {
        return Ok(Approvals.GetApproved(approvals.rows, MessageTarget(id)));
      }
      if message.status == PendingApproval {
        match Approvals.GetOpen(approvals.rows, MessageTarget(id)) {
          case Err(e) => return Err(StoreError(e));
          case Ok(open) => return Ok(open);
        }
      }
      if message.status != Draft {
        return Err(CannotSubmit);
      }
      if cfg.approvalRequired {
        var before := |approvals.rows|;
        var requestedRow := approvals.RequestApproval(MessageTarget(id));
        match requestedRow {
          case Err(e) => return Err(StoreError(e));
          case Ok(a) =>
            if a >= before {
              requested := requested[a := message.text];
            }
            messages := messages[id := message.(status := PendingApproval, approvalId := Some(a))];
            return Ok(Some(a));
        }
      }
      messages := messages[id := message.(status := Approved)];
      return Ok(None);
    }

    method Cancel(id: nat) returns (r: Result<(), Error>)
      modifies this
      ensures (Contents(), r) == Outreach.Cancel(old(Contents()), id)
    {
      if id >= |messages| {
        return Err(NotFound);
      }
      var message := messages[id];
      if message.status == Sent || message.status == Cancelled {
        return Err(CannotCancel);
      }
      messages := messages[id := message.(status := Cancelled)];
      r := Ok(());
    }

    /** Call the sender for the k-th run, which is running, and record its answer. */
    method CallSender(id: nat, k: nat, outcome: SendOutcome, now: Time)
      requires id < |messages| && k < |messages[id].runs|
      modifies this
      ensures Contents() == Attempt(cfg, old(Contents()), id, k, outcome, now)
    {
      var message := messages[id];
      var run := message.runs[k];
      run := run.(calls := run.calls + 1);
      clock := now;
      if outcome.Delivered? {
        run := run.(status := RunSent, sentAt := Some(now));
        messages := messages[id := message.(runs := message.runs[k := run])];
        messages := messages[id := messages[id].(status := Sent, sentAt := Some(now))];
        deliveries := deliveries + [Delivery(id, message.text, now)];
        return;
      }
      var used := run.attempts + 1;
      var exhausted := used >= run.maxAttempts;
      var nextRetryAt := None;
      if outcome.retryable && !exhausted {
        nextRetryAt := Some(now + Backoff.Delay(cfg.retryBase, used));
        run := run.(scheduled := run.scheduled + [used]);
      }
      run := run.(status := RunFailed, attempts := used, nextRetryAt := nextRetryAt);
      messages := messages[id := message.(runs := message.runs[k := run])];
      messages := messages[id := messages[id].(status := Failed)];
    }

    method Send(id: nat, contact: Option<Contact>, outcome: SendOutcome, w1: nat, w2: nat) returns (r: Result<nat, Error>)
      modifies this
      ensures (Contents(), r) == Outreach.Send(cfg, old(Contents()), id, contact, outcome, w1, w2)
    {
      hide CheckContact, CheckSendApproval, HasDestination, Attempt, CountSentSince;
      if cfg.autonomy < 2 {
        return Err(AutonomyTooLow);
      }
      if id >= |messages| {
        return Err(NotFound);
      }
      var unusable := CheckContact(contact);
      if unusable.Some? {
        return Err(unusable.value);
      }
      var message := messages[id];
      if message.status !in {PendingApproval, Approved, Failed} {
        return Err(CannotSend);
      }
      if cfg.approvalRequired {
        var missing := CheckSendApproval(approvals.rows, id);
        if missing.Some? {
          return Err(missing.value);
        }
      } else if message.status == PendingApproval {
        return Err(NeverApproved);
      }

      // The session is rolled back to this point when a later check raises.
      var savepoint := messages;
      if message.status == PendingApproval {
        message := message.(status := Approved);
        messages := messages[id := message];
      }
      if !HasDestination(message.channel, contact) {
        messages := savepoint;
        return Err(NoDestination);
      }
      SameCount(savepoint, messages, id, StartOfDay(clock + w1));
      if CountSentSince(messages, StartOfDay(clock + w1)) >= cfg.dailyLimit {
        messages := savepoint;
        return Err(DailyLimitReached);
      }
      if message.runs != [] {
        var latest := message.runs[|message.runs| - 1];
        if latest.status in {RunPending, RunRunning} {
          messages := savepoint;
          return Err(RunStillActive);
        }
        if latest.status == RunFailed && latest.nextRetryAt.Some? {
          messages := savepoint;
          return Err(RetryPending);
        }
      }
      var k := |message.runs|;
      messages := messages[id := message.(runs := message.runs + [NewRun(cfg)])];
      assert messages == savepoint[id := WithNewRun(cfg, savepoint[id])];
      CallSender(id, k, outcome, clock + w1 + w2);
      r := Ok(k);
    }

    method Retry(id: nat, k: nat, contact: Option<Contact>, outcome: SendOutcome, w1: nat, w2: nat)
      returns (r: Result<(), Error>)
      modifies this
      ensures (Contents(), r) == Outreach.Retry(cfg, old(Contents()), id, k, contact, outcome, w1, w2)
    {
      if id >= |messages| || k >= |messages[id].runs| {
        return Err(NotFound);
      }
      var message := messages[id];
      var run := message.runs[k];
      hide CheckContact, Approvals.GetApproved, HasDestination, Attempt, CountSentSince;
      if run.status == RunSent {
        return Err(AlreadySent);
      }
      if run.status != RunFailed {
        return Err(RunNotFailed);
      }
      if run.nextRetryAt.None? {
        return Err(NotRetryable);
      }
      if run.attempts >= run.maxAttempts {
        return Err(AttemptsExhausted);
      }
      if message.status != Failed {
        return Err(MessageNotFailed);
      }
      var unusable := CheckContact(contact);
      if unusable.Some? {
        return Err(unusable.value);
      }
      if cfg.approvalRequired && Approvals.GetApproved(approvals.rows, MessageTarget(id)).None? {
        return Err(NoApprovedApproval);
      }
      if !HasDestination(message.channel, contact) {
        return Err(NoDestination);
      }
      if CountSentSince(messages, StartOfDay(clock + w1)) >= cfg.dailyLimit {
        return Err(DailyLimitReached);
      }
      run := run.(status := RunRunning, nextRetryAt := None);
      messages := messages[id := message.(runs := message.runs[k := run])];
      CallSender(id, k, outcome, clock + w1 + w2);
      r := Ok(());
    }
  }

  /** Approving a message does not change how many messages have been sent. */
  lemma SameCount(before: seq<Message>, after: seq<Message>, id: nat, since: Time)
    requires id < |before| && before[id].status != Sent
    requires after == before || (after == before[id := before[id].(status := Approved)])
    ensures CountSentSince(after, since) == CountSentSince(before, since)
  {
    if after != before {
      CountIfUpdate(before, SentSince(since), id, after[id]);
    }
  }
}
