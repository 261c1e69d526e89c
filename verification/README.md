# Verified model of the career agent backend

This project models the stateful safety protocols of the backend and its
matching engine, and proves what they keep over whole runs: the outreach send
protocol with human approval, the coupled challenge, workflow and automation
state machines, the explainable scorer with its text scanner, the ingestion and
discovery writers over one job store, and the crawl rate limiter.

Check everything with `dafny verify dfyconfig.toml`.

## How it is organised

Each service has a specification, a class, exact statements about its
operations and a set of laws.

- The specification (`Outreach`, `Challenges`, `Automation`, `Ingestion`,
  `Discovery`, `Approvals`, `Workflows`, ...) is a `State` datatype and one
  function per operation that gives the new state and the value or error.
- The class (`OutreachServices.OutreachService`,
  `ChallengeServices.ChallengeService`, ...) holds the rows as mutable fields
  and performs the source's steps one after the other. Each method is proved to
  end in exactly the state, value and error its specification names.
- The exact statements (`OutreachGates`, `AutomationGates`, `ChallengeEffects`,
  `IngestionExactly`, `MatchingExactly`, and lemmas named `...Exactly`,
  `...IsTrue` and `...Leaves` elsewhere) say of each operation, in terms of the
  stored fields and without the specification's own guards and tables, when it is
  accepted, that the reason of a refusal is the case, and what it leaves behind.
- The laws (`OutreachSafety`, `ChallengeCoupling`, `AutomationSafety`,
  `IngestionReplay`, `Eligibility`, `JobWriters`, `MatchingLaws`, ...) are about
  the specification, for every finite sequence of operations with arbitrary
  arguments (`Run`), or for all inputs of a pure computation.

| Module | Models |
|---|---|
| `Approvals` | approval requests, decisions and the decision log |
| `Backoff` | exponential retry delays, shared by outreach and automation |
| `Outreach`, `OutreachGates`, `OutreachSafety`, `OutreachLimits`, `OutreachServices` | drafting, approval, sending and retrying messages |
| `Workflows` | the human-in-the-loop workflow |
| `AuthStates`, `AuthenticationServices` | provider authentication states and reports of them |
| `Challenges`, `ChallengeEffects`, `ChallengeCoupling`, `ChallengeServices` | challenges and the workflows they are linked to |
| `Automation`, `AutomationGates`, `AutomationSafety`, `AutomationServices` | automated application runs |
| `RateLimiter` | the crawl rate limiter |
| `JobStore`, `Dedup`, `Discovery` | stored jobs and companies, batched classification, storing postings |
| `Ingestion`, `IngestionExactly`, `IngestionReplay`, `IngestionServices`, `Eligibility` | evidence envelopes and the eligibility of their records |
| `JobWriters` | discovery and ingestion interleaved on one store |
| `Texts`, `SkillSections`, `ScoreWeights`, `Matching`, `MatchingExactly`, `MatchingLaws`, `Scorer` | the matching engine |

## Conventions

- A service call is one atomic step. A call that raises leaves the store as it
  was, because the session rolls back (`src/backend/api/deps.py` lines 113-123).
  The class methods write step by step and restore the saved fields on the paths
  that raise after a write.
- Ids are positions in the sequence of rows, so new ids are fresh and "latest"
  means last created.
- The sender, the submitter, the recruiter contact, the job and source lookups
  and the clock are arguments of an operation and may be anything. The
  outreach clock never goes backwards: an operation says how many seconds passed
  before its first reading and between its two readings.
- Fields that no row of the source has record history the properties speak of:
  `calls`, `scheduled`, `deliveries` and `submissions` are what the audit log
  holds, `requested` is the text at the moment an approval was requested, and
  `validated` the text the writer checked for grounding.
- The approval store takes requests and decisions from anyone. One property,
  `DeliveredTextWasApproved` with its invariant `TextOk`, needs
  `Outreach.OnlySubmitRequests`: approvals of kind `outreach_send` are requested
  by `submit_for_approval` alone, as in the source. Requests of the other kinds
  are free.
- Regular expressions, lower-casing, skill extraction, URL validation, schema
  validation, text normalization and digests are function-valued fields of
  `Ops`, `Env` and `Vocabulary`; the theorems hold for every choice of them. URL
  validation and normalization are partial. Ingestion's spaces, digits and
  decimals are spelled out for ASCII and are such fields beyond it.
- The ingestion identity, a hash over canonical JSON, is the record of its
  contents; equal identities mean equal contents. Its place in string order is
  an arbitrary function.
- Scores and weights are real numbers with round half to even at one decimal.

## Where the code and its description differ

The model follows the code. Each point has a lemma that states what holds.

- A retry never looks at the scheduled retry time (`RetryIgnoresScheduledTime`).
  Whether one can be accepted early is decided by the configuration alone: there
  is a reachable store that accepts one exactly when there is a positive delay,
  a second attempt, autonomy to send and room in a day (`EarlyRetriesExactly`).
- An automation retry looks neither at the scheduled time nor at the status of
  the application (`AutomationSafety.RetryIgnoresStatusAndTime`), so a withdrawn
  application can be submitted (`WithdrawnIsSubmitted`). Some retry is accepted
  exactly when the latest run has an attempt left and has failed, or is paused
  on a closed challenge (`RetryAcceptedExactly`).
- A retry looks at fewer gates than the first attempt. An automation retry checks
  neither the switch, nor the autonomy level, nor the job's source
  (`RetryIgnoresSwitches`), so it submits with everything switched off
  (`SwitchedOffIsSubmitted`). An outreach retry does not check the autonomy level
  (`RetryIgnoresAutonomy`, `RetriedWithoutAutonomy`).
- Automation schedules a retry after a failure the submitter called not
  retryable (`FailureSchedulesWhileBudgetLasts`); outreach does not
  (`OutreachSafety.FailureSchedules`).
- A configured budget below one still allows one call, so the number of calls is
  within the budget exactly when the budget is at least one (`RetryBudgetHolds`,
  twice).
- An automation run that meets a challenge on its last attempt is never
  continued (`StuckForever`, reached in `StuckIsReachable`); a paused run
  continues exactly when its challenge is closed and an attempt is left
  (`PausedContinuesExactly`).
- Escalation is described as idempotent, but raises on a challenge whose
  workflow is paused already. It succeeds exactly in the cases
  `EscalateSucceedsExactly` lists, and raises right after a challenge was opened
  for a human (`EscalateAfterOpenRaises`).
- Reporting a provider state is described as safe to repeat.
  `ReportRaisesExactly` says when a report raises, and `RepeatRaisesExactly` when
  a repeated one does: exactly when the state needs a human and the challenge
  left in flight is paused and not marked. `RepeatedCaptchaRaises` is a concrete
  case.
- A resume that finds the run expired or exhausted marks it and then raises, so
  the session undoes the mark. `Workflows.HumanInTheLoopService.ResumeRun`
  describes the object at the moment of the raise. In the store no challenge's
  workflow is ever FAILED, and one is TIMED_OUT exactly when its challenge is
  (`NoMarkIsStored`); `ExpiredStaysPaused` is a concrete case.
- A snooze has to end in the future, but the clock is read once for this check and
  again for the stamp of the decision, so a stored snooze can be over when it is
  stored (`SnoozeIsLaterExactly`, `SnoozeOverAtOnce`).
- One expired challenge keeps every other challenge of its provider from being
  superseded, and nothing changes (`SupersedeSucceedsExactly`).
- One transition out of a human-verification state contradicts the comment above
  the table: HUMAN_ACTION_REQUIRED to NOT_REQUIRED (`EscalationExits`).
- Eligibility decides only the newest 100 records: `NewestIsSuffix` says which,
  and `NothingOffThePage` that none is left out exactly when there are at most
  100.
- The compensation check blocks candidates who expect too little. Asking for
  less hurts the component, and turns a match into a non-match, exactly in the
  case `AskingForLessHurtsExactly` and `AskingForLessUnmatchesExactly` describe;
  `LowExpectationIsBlocked` is a concrete case.
- An edited draft is not validated for grounding again. A delivered text was
  validated exactly when the last version says the same as the first, so one
  version suffices (`DeliveredWasValidatedExactly`); `UnvalidatedIsDelivered`
  delivers any text in place of any validated one.
- One row can make the whole envelope raise, unless it was stored before: when
  its `verification_status` is a list or an object; when it is rejected and its
  index looks like a number but is none, such as "--5" or a 5 after a file
  separator; or when one of its texts cannot be normalized. An unreadable index
  raises even under a header that rejects every row. As far as the status, the
  index and the normalized texts are concerned, `RaisesExactly` says exactly when;
  `UnreadableIndexesRaise`, `ListStatusRaises` and `UnnormalizableTitleRaises`
  are concrete cases.
- Postings without a company domain never hit the company cache and create a
  company each (`CompanyAddedExactly`).

## Model

| member | source | states |
|---|---|---|
| `OutreachSafety.DeliveredAtMostOnce` | src/backend/services/outreach.py:502-667 | Over any run of all operations no message is delivered twice; it is SENT exactly when it was delivered and exactly when its latest run is SENT; every earlier run is FAILED with no retry scheduled |
| `OutreachSafety.DeliveredTextWasApproved` | src/backend/services/outreach.py:403-477 | With approval required, and `submit_for_approval` the only requester of outreach_send approvals, every delivered text is the text its approval was requested for, that approval belongs to the message and is APPROVED, and the text is in the highest of the version rows 1..n |
| `OutreachSafety.AttemptedIsApproved` | src/backend/services/outreach.py:521-545 | No message reaches the sender, by send or by retry, unless its own approval is APPROVED at that moment |
| `OutreachSafety.DailyCapHolds` | src/backend/services/outreach.py:780-790 | On every UTC day at most the daily limit of messages carry a sent time of that day, in every reachable store |
| `OutreachSafety.RoomOnTheDayOfDelivery` | src/backend/services/outreach.py:850-871 | The cap is checked at one clock reading and the message stamped at a later one, possibly the next day; the day of the stamp still has room |
| `OutreachSafety.CapQueryCoversDay` | src/backend/repositories/outreach.py:99-109 | The query behind the cap counts at least every message that carries a sent time of that day |
| `OutreachSafety.RetryBudgetHolds` | src/backend/services/outreach.py:885-926 | The sender is called at least once and at most max(1, max_attempts) times per run, retries follow attempts 1, 2, ... without gaps, and their delays sum to at most base * (2^(max_attempts-1) - 1) |
| `OutreachSafety.FailureSchedules` | src/backend/services/outreach.py:885-926 | A failed attempt schedules a retry base * 2^(k-1) seconds later, exactly when it was retryable and the budget lasts |
| `OutreachSafety.SentIsFinal` | src/backend/services/outreach.py:479-498 | No operation changes a sent message or hands it to the sender again |
| `OutreachSafety.SentForever` | src/backend/services/outreach.py:479-521 | After any run, however it continues, a sent message stays exactly as it is |
| `OutreachSafety.RetryIgnoresScheduledTime` | src/backend/services/outreach.py:612-667 | Whether and why a retry is refused does not depend on the time it was scheduled for |
| `OutreachLimits.EarlyRetriesExactly` | src/backend/services/outreach.py:612-667 | A reachable store that accepts a retry before its scheduled time exists exactly when base >= 1, max_attempts >= 2, autonomy >= 2 and the daily limit >= 1, with or without approvals |
| `OutreachLimits.EarlyRetryIsAccepted` | src/backend/services/outreach.py:612-667 | Under such a configuration a retry scheduled one delay ahead is accepted at once, after a concrete run |
| `OutreachLimits.RunKeepsSchedule` | src/backend/services/outreach.py:885-926 | A scheduled retry lies at most its delay ahead of the clock, and only messages sent with enough autonomy have runs |
| `OutreachLimits.ValidatedExactly` | src/backend/services/outreach.py:376-399 | In every reachable store the validated text is the first version, and a message's text is the validated one exactly when its last version says the same; one never edited is validated |
| `OutreachLimits.DeliveredWasValidatedExactly` | src/backend/services/outreach.py:376-399 | A delivered text was validated exactly when the last version of its message says the same as the first, in particular when there is one version |
| `OutreachLimits.UnvalidatedIsDelivered` | src/backend/services/outreach.py:360-399 | For any two texts, a run in which the first is validated and the second delivered, with or without approvals |
| `OutreachLimits.RetryIgnoresAutonomy` | src/backend/services/outreach.py:612-667 | Whether and why a retry is refused does not depend on the autonomy level |
| `OutreachLimits.RetriedWithoutAutonomy` | src/backend/services/outreach.py:612-667 | After a failed attempt the autonomy level is set to zero: a send is refused for it, and the retry delivers |
| `OutreachSafety.NextVersionFollows` | src/backend/repositories/outreach.py:136-141 | The highest stored number plus one continues a gapless numbering |
| `OutreachSafety.SubmitKeepsText` | src/backend/services/outreach.py:403-477 | Submission ties a fresh approval to the message and its present text and leaves every other message's approval alone |
| `OutreachSafety.UpdateKeepsText` | src/backend/services/outreach.py:360-399 | An edit, possible in DRAFT only, never parts a message from the text its approval was requested for |
| `OutreachSafety.UpdateKeepsVersions` | src/backend/services/outreach.py:376-399 | An edit's version row keeps the numbering gapless and holds the new text, and leaves the validated text in the first row |
| `OutreachSafety.RunKeepsVersions` | src/backend/services/outreach.py:371-390 | Under any configuration, every message has version rows 1..n, the first with the validated text and the last with the current one |
| `OutreachServices.OutreachService.CreateDraft` | src/backend/services/outreach.py:160-244 | Refused for a missing or unusable contact, a missing job or application, or unsupported claims, in this order; else one new DRAFT with version 1, nothing else changed |
| `OutreachServices.OutreachService.CreateFollowUp` | src/backend/services/outreach.py:246-315 | Refused unless the parent is SENT, the contact found and usable and the claims supported; else one new DRAFT on the parent's channel with version 1 |
| `OutreachServices.OutreachService.UpdateDraft` | src/backend/services/outreach.py:360-399 | Refused for a missing message, one that is no DRAFT, or a missing contact; else the edited text and its version row are stored together |
| `OutreachServices.OutreachService.SubmitForApproval` | src/backend/services/outreach.py:403-477 | Refused for a missing message or contact; replays return the existing approval; a draft becomes PENDING_APPROVAL with its approval, or APPROVED when none is needed |
| `OutreachServices.OutreachService.Cancel` | src/backend/services/outreach.py:479-498 | Everything but SENT and CANCELLED can be cancelled |
| `OutreachServices.OutreachService.Send` | src/backend/services/outreach.py:502-610 | The in-place steps, with rollback where a check raises after a write, end in the state and error of the specified send |
| `OutreachServices.OutreachService.Retry` | src/backend/services/outreach.py:612-667 | The in-place steps end in the state and error of the specified retry |
| `OutreachServices.OutreachService.CallSender` | src/backend/services/outreach.py:824-926 | The run and message after any answer of the sender, and the delivery it records |
| `OutreachGates.SendAcceptedExactly` | src/backend/services/outreach.py:502-610 | A send is accepted exactly with autonomy 2, a message that waits for it, a contact that is found, not suppressed, verified, at least 70 percent certain and addressed on the channel, the approval asked for, room in the day, and no run under way or waiting for a retry |
| `OutreachGates.RetryAcceptedExactly` | src/backend/services/outreach.py:612-667 | A retry is accepted exactly on a failed run with a retry scheduled and an attempt left, of a FAILED message, with a usable and addressed contact, the approval asked for, and room in the day |
| `OutreachGates.OnlyUsableContactsReached` | src/backend/services/outreach.py:140-144 | Whoever the sender is called for is found, not suppressed, verified, at least 70 percent certain, and has an address on the channel |
| `OutreachGates.DeliveredToUsableContacts` | src/backend/services/outreach.py:502-667 | Over any run, each step that delivered a message did so to such a contact, and delivered that one message with its text |
| `OutreachGates.SendRefusalIsTrue` | src/backend/services/outreach.py:502-610 | What a refused send names as its reason is the case, and nothing changes |
| `OutreachGates.RetryRefusalIsTrue` | src/backend/services/outreach.py:612-667 | What a refused retry names as its reason is the case, and nothing changes |
| `OutreachGates.SendLeaves` | src/backend/services/outreach.py:824-926 | An accepted send adds one run with the configured budget, answered once; the run, message, delivery and clock after each answer |
| `OutreachGates.RetryLeaves` | src/backend/services/outreach.py:824-926 | An accepted retry answers its run once more and touches no other run or message |
| `OutreachGates.DraftStoredExactly` | src/backend/services/outreach.py:160-244 | A draft is stored exactly for a usable contact, references that exist and supported claims; its fields, and that nothing else changes |
| `OutreachGates.FollowUpStoredExactly` | src/backend/services/outreach.py:246-315 | A follow-up is stored exactly after a sent message, for a usable contact and supported claims, on its channel |
| `OutreachGates.EditStoredExactly` | src/backend/services/outreach.py:360-399 | An edit is stored exactly on a draft with a contact; it changes the text and appends the next version |
| `OutreachGates.SubmittedExactly` | src/backend/services/outreach.py:403-477 | Submission succeeds exactly on a draft, pending or approved message with a contact; what a draft, its request and the remembered text become |
| `OutreachGates.CancelledExactly` | src/backend/services/outreach.py:479-498 | Exactly the messages neither SENT nor CANCELLED are cancelled, and only the status changes |
| `OutreachGates.RoomIsCounted` | src/backend/repositories/outreach.py:99-109 | The cap test compares the limit with the messages SENT on that UTC day or later |
| `Backoff.TotalDelayBounded` | src/backend/services/outreach.py:886-905 | The delays after any increasing choice of attempts up to n sum to at most base * (2^n - 1) |
| `Backoff.TotalDelayExact` | src/backend/services/outreach.py:886-905 | The delays after all attempts 1..n sum to exactly base * (2^n - 1) |
| `Approvals.EveryRunIsSound` | src/backend/services/approval.py:133-192 | Over any run, at most one open approval per kind and target; replaying an approval's log from PENDING gives its stored status; at most two decisions each; a snooze time is stored exactly on SNOOZED rows |
| `Approvals.RequestSound` | src/backend/services/approval.py:54-102 | A request keeps all of this and never fails on a sound store |
| `Approvals.DecideSound` | src/backend/services/approval.py:133-192 | A decision keeps all of this, accepted or refused |
| `Approvals.ReplayShape` | src/backend/services/approval.py:147-183 | A legal log is empty, one snooze, one settlement, or a snooze followed by a settlement |
| `Approvals.RequestedExactly` | src/backend/services/approval.py:54-102 | A request names the waiting approval of the target, or adds one PENDING row when there is none |
| `Approvals.DecidedExactly` | src/backend/services/approval.py:133-192 | A decision is accepted exactly on a waiting approval, a snooze only on a pending one and into the future; the row, the log and all other rows after it |
| `Approvals.DecisionRefusalIsTrue` | src/backend/services/approval.py:147-164 | What a refused decision names as its reason is the case |
| `Approvals.SnoozeIsLaterExactly` | src/backend/services/approval.py:157-176 | A snooze ends after the time it was checked at, and after the stamped time exactly when it outlasts the second clock reading |
| `Approvals.SnoozeOverAtOnce` | src/backend/services/approval.py:157-176 | A one-second snooze stamped a second after its check ends at the stamped time |
| `Approvals.OpenExactly` | src/backend/repositories/approval.py:39-54 | The query for an open approval answers none exactly when every row of the target is settled, and fails only with two open |
| `Approvals.SettledIsFinal` | src/backend/services/approval.py:147-155 | A settled approval never changes again |
| `Approvals.FirstOpen` | src/backend/repositories/approval.py:39-54 | The first open row of the target, or none when there is none |
| `Approvals.LatestApproved` | src/backend/repositories/approval.py:56-76 | An APPROVED row of the target that no other was decided after, or none when there is none |
| `Approvals.ApprovalService.RequestApproval` | src/backend/services/approval.py:54-102 | The open approval is returned, or one PENDING row is added |
| `Approvals.ApprovalService.DecideApproval` | src/backend/services/approval.py:133-192 | The row and log after each decision, and each refusal |
| `Workflows.BoundedChanges` | src/backend/services/human_in_loop.py:114-185 | However pause, resume and finish are called, a started run changes status at most 2 * max_attempts + 2 times, attempts never exceed the budget and RESUMED is never reached |
| `Workflows.BoundIsTight` | src/backend/services/human_in_loop.py:114-185 | Some sequence of calls reaches that bound |
| `Workflows.StepUsesPotential` | src/backend/services/human_in_loop.py:34-64 | Every change of status uses up part of what the run can still change, and only a resume of a paused run counts an attempt |
| `Workflows.TerminalIsAbsorbing` | src/backend/services/human_in_loop.py:34-52 | No sequence of calls changes a finished run |
| `Workflows.TransitionExactly` | src/backend/services/human_in_loop.py:34-64 | Which statuses each status may become, and that only the status changes |
| `Workflows.PauseExactly` | src/backend/services/human_in_loop.py:114-129 | Pausing changes a running run alone and is refused on a paused or resumed one |
| `Workflows.ResumeAcceptedExactly` | src/backend/services/human_in_loop.py:131-165 | A resume is accepted exactly on a running run, which it leaves, and on a paused one with its own token, in time and with an attempt left, which it sets running and charges |
| `Workflows.ResumeRefusalIsTrue` | src/backend/services/human_in_loop.py:131-165 | What a refused resume names as its reason is the case, and which mark it leaves on the run object |
| `Workflows.StartExactly` | src/backend/services/human_in_loop.py:84-112 | The fields of a new run |
| `Workflows.HumanInTheLoopService.StartRun` | src/backend/services/human_in_loop.py:84-112 | One RUNNING run is added, without expiry for an absent or zero lifetime |
| `Workflows.HumanInTheLoopService.ApplyAndUpdate` | src/backend/services/human_in_loop.py:207-211 | The status changes along the transition table or not at all |
| `Workflows.HumanInTheLoopService.PauseForHumanAction` | src/backend/services/human_in_loop.py:114-129 | Pausing a finished run does nothing, pausing a paused one raises |
| `Workflows.HumanInTheLoopService.ResumeRun` | src/backend/services/human_in_loop.py:131-165 | The run object and outcome of each resume path, including what is marked before a raise |
| `Workflows.HumanInTheLoopService.Finish` | src/backend/services/human_in_loop.py:167-185 | The four ways to end a run follow the transition table |
| `AuthStates.OnlyBlockedCannotAuthenticate` | src/backend/services/authentication_state.py:29-146 | ACCESS_BLOCKED is the one state that cannot become AUTHENTICATED directly |
| `AuthStates.EscalationExits` | src/backend/services/authentication_state.py:15-22 | The exits of the human-verification states are those the comment lists, with one exception |
| `AuthStates.AlwaysRecoverable` | src/backend/services/authentication_state.py:29-146 | From every state AUTHENTICATED is at most two transitions away |
| `AuthStates.MovesExactly` | src/backend/services/authentication_state.py:29-146 | The whole transition table, read by its targets |
| `AuthStates.AppliedExactly` | src/backend/services/authentication_provider.py:125-175 | A provider is moved exactly when it is known and stays or may move, and no other provider changes |
| `AuthStates.EscalationExactly` | src/backend/services/authentication_state.py:15-22 | Which states need a human |
| `AuthStates.AuthProviderService.Apply` | src/backend/services/authentication_provider.py:125-175 | A provider moves along the table, may repeat its state, and is otherwise left alone |
| `AuthStates.AuthProviderService.EnsureProvider` | src/backend/services/authentication_provider.py:181-206 | An unknown provider starts as NOT_CONFIGURED, a known one is kept |
| `ChallengeCoupling.RunKeepsCoupling` | src/backend/services/challenge.py:71-279 | Over any run: each challenge has its own workflow; in flight means RUNNING or PAUSED with no resume, PAUSED if a human is required; RESOLVED means COMPLETED, or RUNNING after exactly one resume; CANCELLED and TIMED_OUT mirror it; one challenge in flight per provider and type |
| `ChallengeCoupling.ResumedOnceAfterResolution` | src/backend/services/challenge.py:41-51 | A workflow is resumed at most once, and only when its challenge has been resolved |
| `ChallengeCoupling.ClosedIsFinal` | src/backend/services/challenge.py:138-257 | No operation changes a closed challenge |
| `ChallengeCoupling.EnsureOpenKeepsCoupling` | src/backend/services/challenge.py:85-136 | Opening gives an in-flight challenge of that provider and type and leaves all others alone |
| `ChallengeCoupling.EnsureOpenIsIdempotent` | src/backend/services/challenge.py:85-95 | Reporting the same challenge again changes nothing and names the same one |
| `ChallengeCoupling.EscalateSucceedsExactly` | src/backend/services/challenge.py:138-160 | Escalation succeeds exactly on a challenge already escalated, or in flight with a RUNNING workflow |
| `ChallengeCoupling.EscalateAfterOpenRaises` | src/backend/services/authentication.py:93-115 | In any state without such a challenge, opening one for a human and then escalating it raises and changes nothing |
| `ChallengeCoupling.ReportRaisesExactly` | src/backend/services/authentication.py:70-115 | A report raises, and changes nothing, exactly when the provider is unknown or may not move to the state, when a settled state meets a challenge that can no longer be finished, or when an already escalated provider's challenge would be new or is paused and unmarked |
| `ChallengeCoupling.RepeatRaisesExactly` | src/backend/services/authentication.py:76-115 | Repeating an accepted report raises exactly when the state needs a human and its challenge was left paused and unmarked |
| `ChallengeCoupling.RepeatedCaptchaRaises` | src/backend/services/authentication.py:106-113 | A CAPTCHA reported twice for a new provider: the first report opens a challenge, the second raises |
| `ChallengeCoupling.ReportKeepsCoupling` | src/backend/services/authentication.py:70-115 | A report keeps the coupling and leaves closed challenges as they were |
| `AuthenticationServices.AuthenticationService.ObserveState` | src/backend/services/authentication.py:70-115 | Provider state, challenges and workflows after a report, with rollback when the challenge service raises |
| `ChallengeCoupling.CompleteSucceedsExactly` | src/backend/services/challenge.py:179-217 | Completion succeeds exactly when the challenge is in flight, its provider known and not blocked, and its workflow running or resumable in time |
| `ChallengeCoupling.SupersedeClosesAll` | src/backend/services/challenge.py:259-279 | Superseding resolves exactly the provider's in-flight challenges and touches no other |
| `ChallengeCoupling.SupersedeSucceedsExactly` | src/backend/services/challenge.py:259-279 | Superseding succeeds exactly when every in-flight challenge of the provider has a running or still resumable workflow, and changes nothing otherwise |
| `ChallengeCoupling.NoMarkIsStored` | src/backend/services/human_in_loop.py:150-165 | Over any run no challenge's workflow is stored FAILED, and one is TIMED_OUT exactly when its challenge is |
| `ChallengeCoupling.ExpiredStaysPaused` | src/backend/services/challenge.py:179-217 | Completing an expired challenge raises, and its workflow stays paused although the resume marked it timed out |
| `ChallengeCoupling.HandOffKeepsCoupling` | src/backend/services/application_automation.py:432-473 | The hand-off leaves a challenge marked HUMAN_ACTION_REQUIRED, the coupling intact and closed challenges as they were |
| `ChallengeEffects.CompleteLeaves` | src/backend/services/challenge.py:179-217 | A completion resolves the challenge the way it was said to be, authenticates its provider and finishes its workflow, and changes nothing else; a refusal changes nothing |
| `ChallengeEffects.EscalateLeaves` | src/backend/services/challenge.py:138-160 | An escalation marks the challenge and pauses its running workflow, and changes nothing else; a refusal changes nothing |
| `ChallengeEffects.AcknowledgeLeaves` | src/backend/services/challenge.py:162-177 | Exactly the challenges in flight are acknowledged, and only the status changes |
| `ChallengeEffects.CloseLeaves` | src/backend/services/challenge.py:219-257 | Cancelling and timing out succeed exactly on a challenge in flight whose workflow is not over, and end both alike |
| `ChallengeEffects.EnsureOpenLeaves` | src/backend/services/challenge.py:71-136 | A challenge of this provider and type in flight is reused; otherwise the fields of the challenge and the workflow that are added |
| `ChallengeEffects.HandOffLeaves` | src/backend/services/application_automation.py:432-473 | The hand-off opens or reuses a challenge, for a day and two retries, and marks it |
| `ChallengeEffects.SupersedeLeaves` | src/backend/services/challenge.py:259-279 | Superseding finishes the workflows of the provider's challenges in flight and no other |
| `ChallengeEffects.ReportLeaves` | src/backend/services/authentication.py:70-115 | An accepted report moves its provider alone, supersedes, or opens and escalates the challenge of the state |
| `ChallengeEffects.TypesExactly` | src/backend/services/challenge_detection.py:212-225 | Which state is reported as which challenge |
| `ChallengeEffects.FinishExactly` | src/backend/services/challenge.py:41-51 | When a workflow can be finished, and what it then is |
| `Challenges.GetInFlight` | src/backend/repositories/challenge.py:43-54 | An in-flight challenge of the provider and type, or none when there is none |
| `ChallengeServices.ChallengeService.EnsureOpen` | src/backend/services/challenge.py:71-136 | The existing challenge is reused, or one challenge and one workflow are added |
| `ChallengeServices.ChallengeService.Escalate` | src/backend/services/challenge.py:138-160 | Challenge and workflow change together or, when the workflow refuses, not at all |
| `ChallengeServices.ChallengeService.Acknowledge` | src/backend/services/challenge.py:162-177 | Any in-flight challenge can be acknowledged, again and again |
| `ChallengeServices.ChallengeService.FinishWorkflowAfterResolution` | src/backend/services/challenge.py:41-51 | A running workflow completes, any other is resumed with its own token; a refused resume leaves the run as the resume marked it, and no other run changes |
| `ChallengeServices.ChallengeService.Complete` | src/backend/services/challenge.py:179-217 | Challenge, provider state and workflow change together or not at all |
| `ChallengeServices.ChallengeService.Close` | src/backend/services/challenge.py:219-257 | Cancelling and timing out end challenge and workflow alike or not at all |
| `ChallengeServices.ChallengeService.ResolveSuperseded` | src/backend/services/challenge.py:259-279 | The loop resolves the provider's in-flight challenges in order; a refusal undoes all of it |
| `ChallengeServices.ChallengeService.HandOff` | src/backend/services/application_automation.py:432-473 | A challenge for a human is opened or reused and marked HUMAN_ACTION_REQUIRED |
| `AutomationSafety.SubmittedAtMostOnce` | src/backend/services/application_automation.py:161-285 | Over any run of automation, challenge operations and status edits, an application is submitted at most once, by the last call of its latest run; every earlier run is an exhausted failure |
| `AutomationSafety.NoCallWhileChallenged` | src/backend/services/application_automation.py:386-473 | After a reported challenge the submitter is not called again for that run until the challenge is closed |
| `AutomationSafety.RetryBudgetHolds` | src/backend/services/application_automation.py:490-529 | The submitter is called at most max(1, max_attempts) times per run, and all delays ever scheduled sum to at most base * (2^(max_attempts-1) - 1) |
| `AutomationSafety.FailureSchedulesWhileBudgetLasts` | src/backend/services/application_automation.py:490-529 | A failure schedules a retry base * 2^(k-1) seconds later exactly while the budget lasts, retryable or not |
| `AutomationSafety.StuckForever` | src/backend/services/application_automation.py:161-255 | A run paused with its budget used up stays so for ever, and every execution and retry of its application is refused |
| `AutomationSafety.StuckIsReachable` | src/backend/services/application_automation.py:386-473 | One attempt allowed and a challenge met on it leave such a run |
| `AutomationSafety.RetryAcceptedExactly` | src/backend/services/application_automation.py:228-268 | With the job found and the approval in place, some retry is accepted exactly when the latest run has an attempt left and has failed, or is paused on a closed challenge; the application's status plays no part |
| `AutomationSafety.WithdrawnIsSubmitted` | src/backend/services/application_automation.py:228-285 | A concrete run in which an application is withdrawn and then submitted by a retry |
| `AutomationSafety.AttemptedIsApproved` | src/backend/services/application_automation.py:333-346 | The submitter is called only for an application with an APPROVED request and none open |
| `AutomationSafety.SubmittedIsApproved` | src/backend/services/application_automation.py:333-346 | Over any run, every submitted application has an APPROVED request |
| `AutomationSafety.PausedContinuesExactly` | src/backend/services/application_automation.py:228-262 | A paused run continues exactly when its challenge is closed and an attempt is left |
| `AutomationSafety.RetryIgnoresStatusAndTime` | src/backend/services/application_automation.py:228-285 | Whether a retry is refused depends neither on the application's status nor on the scheduled time |
| `AutomationSafety.RetryIgnoresSwitches` | src/backend/services/application_automation.py:228-285 | A retry has the same outcome whatever the switch, the autonomy level and the job's source say |
| `AutomationSafety.SwitchedOffIsSubmitted` | src/backend/services/application_automation.py:228-285 | After a failure everything is switched off: a new execution is refused, and the retry submits |
| `AutomationGates.ExecuteAcceptedExactly` | src/backend/services/application_automation.py:161-226 | A new execution is accepted exactly when switched on with autonomy 2, for an application that is open with no run under way, a job that exists, a source that exists, allows automation and is enabled, and an APPROVED request with none open |
| `AutomationGates.RetryAcceptedIff` | src/backend/services/application_automation.py:228-285 | A retry is accepted exactly on a run with an attempt left, failed with a retry scheduled or paused, no challenge in flight, a job that exists and an APPROVED request with none open |
| `AutomationGates.ExecuteRefusalIsTrue` | src/backend/services/application_automation.py:161-226 | What a refused execution names as its reason is the case, and nothing changes |
| `AutomationGates.RetryRefusalIsTrue` | src/backend/services/application_automation.py:228-285 | What a refused retry names as its reason is the case, and nothing changes |
| `AutomationGates.ExecuteLeaves` | src/backend/services/application_automation.py:357-529 | An accepted execution adds one run with the configured budget, answered once; the run, application, submissions and challenges after each answer |
| `AutomationGates.RetryLeaves` | src/backend/services/application_automation.py:357-529 | An accepted retry answers its run once more and touches no other run or application |
| `AutomationGates.PermittedExactly` | src/backend/services/application_automation.py:333-346 | The approval check passes exactly with an APPROVED request and none open |
| `AutomationServices.ApplicationAutomationService.Execute` | src/backend/services/application_automation.py:161-226 | The gates in order, then a new run and one call of the submitter, end in the specified state |
| `AutomationServices.ApplicationAutomationService.Retry` | src/backend/services/application_automation.py:228-285 | The refusals in order, then one call of the submitter, end in the specified state |
| `AutomationServices.ApplicationAutomationService.CallSubmitter` | src/backend/services/application_automation.py:357-529 | The run, application and challenges after any answer of the submitter |
| `RateLimiter.GrantsAreSpaced` | src/backend/services/discovery.py:328-346 | Any two grants to one origin are at least the later one's 60/rpm seconds apart |
| `RateLimiter.WindowBound` | src/backend/services/discovery.py:328-346 | At a constant rate any half-open minute holds fewer than rpm + 1 grants to one origin |
| `RateLimiter.WholeRateWindowBound` | src/backend/services/discovery.py:328-346 | At a constant whole-number rate any half-open minute holds at most rpm grants |
| `RateLimiter.GrantExactly` | src/backend/services/discovery.py:332-346 | A new or rested origin is granted at once, any other exactly one interval after its last grant |
| `RateLimiter.IntervalExactly` | src/backend/services/discovery.py:333-337 | The interval is a minute divided by the rate; a missing rate, or one below one, means ten a minute |
| `RateLimiter.CrawlRateLimiter.WaitFor` | src/backend/services/discovery.py:332-346 | The sleep and the remembered time are those of the specified grant |
| `JobStore.StrongestKeyWins` | src/backend/repositories/job.py:107-136 | The job found has the key reported, and the key reported is the strongest any stored job has: URL, then company and external id, then hash |
| `JobStore.NothingIdenticalIffNoClash` | src/backend/repositories/job.py:107-136 | The lookup finds nothing exactly when no stored job of the candidate shares a URL, a company and external id, or a hash |
| `JobStore.CreateKeepsUnique` | src/backend/repositories/job.py:107-136 | Storing a job the lookup does not know keeps all three keys unique |
| `JobStore.FindByDomainStable` | src/backend/repositories/company.py:14-19 | Later companies never change which one a domain finds |
| `JobStore.FindByDomainExactly` | src/backend/repositories/company.py:14-19 | The first company with a domain is found, and none for an absent, empty or unknown one |
| `JobStore.CreatedExactly` | src/backend/repositories/company.py:21-25 | A company is added exactly when none is found, under the name and domain given |
| `JobStore.Repository.GetOrCreateCompany` | src/backend/repositories/company.py:21-25 | The company of a domain is returned, or one is added |
| `Dedup.Classify` | src/backend/services/dedup.py:31-71 | For any store and batch, each posting is new exactly when the one-at-a-time lookup finds nothing, and otherwise carries the key that lookup matched by |
| `Dedup.IndexAgrees` | src/backend/repositories/job.py:42-86 | The batched index knows a key of a batched posting exactly when the single lookup finds it |
| `Dedup.PairAgrees` | src/backend/repositories/job.py:42-86 | The cross product the pair query fetches too much of never changes an answer |
| `Dedup.ResolvedExactly` | src/backend/services/dedup.py:74-80 | The company of a posting is the one resolved for its domain |
| `Discovery.CacheIsTransparent` | src/backend/services/discovery.py:266-281 | With the cache, a posting gets exactly the company a fresh lookup by its domain finds |
| `Discovery.CompanyAddedExactly` | src/backend/services/discovery.py:266-281 | A posting adds a company exactly when it names no domain, or one that no company has; an empty domain counts as known once the cache holds it |
| `Discovery.StoreAllKeeps` | src/backend/services/discovery.py:219-264 | Storing keeps the three keys unique and the cache right, and counts exactly the jobs added |
| `Discovery.StoreAllRepresents` | src/backend/services/discovery.py:219-264 | No open posting is lost: a job of the candidate has its URL, its hash, or its external id within its own company afterwards |
| `Discovery.CompanyOfIsFound` | src/backend/services/discovery.py:266-281 | The company a posting with a domain is stored or looked up under is the one its domain finds at the end of the run |
| `Discovery.StoreAllMakesUpNothing` | src/backend/services/discovery.py:219-264 | Every job added is made from one of the open postings |
| `Discovery.StoreAllCounts` | src/backend/services/discovery.py:219-264 | Every posting is skipped as closed, counted as a duplicate, or stored, and only one of these |
| `Discovery.StoreOneExactly` | src/backend/services/discovery.py:219-264 | A posting whose closing time has passed does nothing; any other is a duplicate exactly when a job shares a key under its company, and is stored with its keys otherwise |
| `Discovery.NameExactly` | src/backend/services/discovery.py:266-281 | The name a company is created under |
| `Discovery.DiscoveryService.StoreJobs` | src/backend/services/discovery.py:219-264 | The loop ends in the specified store and counters, and returns its own share of the counters |
| `Discovery.DiscoveryService.FindCompany` | src/backend/services/discovery.py:266-281 | Cache, company rows and result are the specified ones; jobs and counters are left alone |
| `IngestionReplay.ReplayIsIdempotent` | src/backend/services/gate4e_ingestion.py:124-142 | Replaying an accepted envelope, at once or later, with another generated_at, changes nothing, reports every row as a duplicate with its first status, job, key and reason, and creates no job |
| `IngestionReplay.IngestConcatenation` | src/backend/services/gate4e_ingestion.py:76-105 | Under any header, ingesting A ++ B equals ingesting A and then B in final store, outcomes and summed counters, and succeeds exactly when both do |
| `IngestionReplay.RaisesExactly` | src/backend/services/gate4e_ingestion.py:76-105 | As far as status, index and normalized texts are concerned, ingestion raises exactly when, under an accepted header, some row raises on its own or, under any other header, some row has an unreadable index; it then changes nothing |
| `IngestionReplay.RowsRaiseExactly` | src/backend/services/gate4e_ingestion.py:124-203 | The rows of an accepted envelope raise exactly when one not stored before has a list or object as its status, is defective with an unreadable index or a text that cannot be normalized, or is well formed with such a text |
| `IngestionReplay.UnreadableIndexesRaise` | src/backend/services/gate4e_ingestion.py:531-536 | A row without a status whose index is "--5", or a 5 after a file separator, raises under every header, unless it was stored before |
| `IngestionReplay.PlainIndexIsRead` | src/backend/services/gate4e_ingestion.py:531-536 | The index " -5" is read as minus five |
| `IngestionReplay.UnnormalizableTitleRaises` | src/backend/services/gate4e_ingestion.py:397-441 | A row with nothing but a title that cannot be normalized raises under an accepted header and is only rejected under any other |
| `IngestionReplay.ListStatusRaises` | src/backend/services/gate4e_ingestion.py:144-145 | A row whose status is a list raises under an accepted header and is only rejected under any other |
| `IngestionReplay.TallyAppend` | src/backend/services/gate4e_ingestion.py:493-508 | Counters add up over concatenated outcomes |
| `IngestionReplay.ProcessRowFiles` | src/backend/services/gate4e_ingestion.py:124-203 | A processed row is found again under its identity with what was reported, rows and jobs are only appended, and a job is added exactly when reported |
| `IngestionExactly.ReportCounts` | src/backend/services/gate4e_ingestion.py:76-105 | The report has one outcome for each row; each of its seven counters is the number of outcomes it is named after, and the first six add up to the rows |
| `IngestionExactly.TallyCounts` | src/backend/services/gate4e_ingestion.py:493-508 | The same for any list of outcomes |
| `IngestionExactly.HeaderAcceptedExactly` | src/backend/services/gate4e_ingestion.py:111-122 | Which headers are accepted, and what a rejection names |
| `IngestionExactly.RejectedHeaderLeaves` | src/backend/services/gate4e_ingestion.py:96-105 | Under any other header every row is rejected and nothing is stored |
| `IngestionExactly.StatusExactly` | src/backend/services/gate4e_ingestion.py:144-145 | How a raw status is read |
| `IngestionExactly.IndexExactly` | src/backend/services/gate4e_ingestion.py:531-536 | Dashes and digits are read as a number exactly with at most one dash and 4300 digits that are all decimals, and raise otherwise |
| `IngestionExactly.DefectExactly` | src/backend/services/gate4e_ingestion.py:144-180 | Which rows are well formed, and what a defect names |
| `IngestionExactly.UrlExactly` | src/backend/services/gate4e_ingestion.py:275-282 | When an official URL is absent, invalid or the validated one |
| `IngestionExactly.RejectionExactly` | src/backend/services/gate4e_ingestion.py:209-273 | Which evidence is rejected, and that every reason given is the case |
| `IngestionExactly.UpsertsExactly` | src/backend/services/gate4e_ingestion.py:209-273 | Accepted evidence is upserted under its validated URL, and no other evidence touches the store |
| `IngestionExactly.UpsertCreates` | src/backend/services/gate4e_ingestion.py:294-336 | An upsert creates a job exactly when none clashes, with the evidence's keys under its company, in state DISCOVERED |
| `IngestionExactly.DuplicateLeaves` | src/backend/services/gate4e_ingestion.py:130-142 | A row stored before is reported with its record, and nothing changes |
| `IngestionExactly.DefectiveLeaves` | src/backend/services/gate4e_ingestion.py:397-441 | The record and outcome of a defective row |
| `IngestionExactly.WellFormedLeaves` | src/backend/services/gate4e_ingestion.py:355-395 | The record and outcome of a well-formed row |
| `IngestionExactly.PrintsExactly` | src/backend/services/gate4e_ingestion.py:443-473 | For settled texts the digests are of title, location and description, and of company and title, in this order and in lower case |
| `IngestionServices.Gate4eIngestionService.UpsertJob` | src/backend/services/gate4e_ingestion.py:294-336 | The company and job rows after the upsert are the specified ones |
| `IngestionServices.Gate4eIngestionService.ClassifyEvidence` | src/backend/services/gate4e_ingestion.py:209-273 | The disposition, job and reason are the specified ones |
| `IngestionServices.Gate4eIngestionService.Process` | src/backend/services/gate4e_ingestion.py:124-203 | Stores and outcome after one row are the specified ones; a raise, by the status, the index or a text, leaves them unchanged |
| `IngestionServices.Gate4eIngestionService.IngestEnvelope` | src/backend/services/gate4e_ingestion.py:76-105 | The loop ends in the specified stores and report; a raise, also under a rejecting header, undoes the whole envelope |
| `Eligibility.DispositionExactly` | src/backend/services/gate4e_ingestion.py:209-273 | Each accepted and quarantined disposition holds exactly on the evidence named for it, and a job is linked exactly on acceptance |
| `Eligibility.UpsertPlaces` | src/backend/services/gate4e_ingestion.py:294-336 | The linked job belongs to the candidate and has the evidence's URL, its hash, or its external id within its own company, and all keys stay unique |
| `Eligibility.ProcessRowsKeep` | src/backend/services/gate4e_ingestion.py:355-441 | Every filed record carries the evidence its state promises, and the reported new jobs are the growth of the store |
| `Eligibility.FiledRecordsDecide` | src/backend/services/gate4e_eligibility.py:97-220 | On a filed record the defensive exclusions never occur; eligible means accepted as verified, or as partial with the opt-in |
| `Eligibility.DecidesExactly` | src/backend/services/gate4e_eligibility.py:97-220 | Every decision on any record, its code, eligibility and missing fields, read off state, identity fields, job and policy |
| `Eligibility.NothingMissing` | src/backend/services/gate4e_eligibility.py:223-230 | Nothing is missing exactly when every field asked for is present and not empty |
| `Eligibility.NewestSize` | src/backend/repositories/gate4e_ingestion.py:34-50 | A page holds the smaller of the limit and the number of the candidate's records, and only those |
| `Eligibility.NewestIsSuffix` | src/backend/repositories/gate4e_ingestion.py:34-50 | A page is exactly the candidate's records from some point of the history on |
| `Eligibility.NothingOffThePage` | src/backend/services/gate4e_eligibility.py:50-50 | Every record of a candidate is decided exactly when there are at most 100 |
| `Eligibility.SortsByIdentity` | src/backend/services/gate4e_eligibility.py:55-55 | Sorting orders the decisions by identity and loses none |
| `Eligibility.CountReasons` | src/backend/services/gate4e_eligibility.py:57-62 | The eligible count and each reason's count are right, and only reasons that occur are listed |
| `Eligibility.Evaluate` | src/backend/services/gate4e_eligibility.py:47-78 | The report holds each decision of the page once, ordered by identity, with the counts of the page |
| `JobWriters.EveryInterleavingIsUnique` | src/backend/services/discovery.py:219-264 | However discovery and ingestion interleave, no two jobs of a candidate share a key, and the new jobs reported add up to the size of the store |
| `JobWriters.ApplyKeeps` | src/backend/services/gate4e_ingestion.py:294-336 | Each call of either writer keeps this and reports exactly the growth of the store |
| `JobWriters.EligibilityInEveryReachableStore` | src/backend/services/gate4e_eligibility.py:97-220 | In every store both writers can reach, verified records are eligible, partial ones exactly with the opt-in, each with a job of the same candidate, and the three defensive exclusions never occur |
| `JobWriters.ReportsInEveryReachableStore` | src/backend/services/gate4e_eligibility.py:47-78 | Over any reachable store the counts of the three defensive reasons are zero, and opting in raises the eligible count by exactly the accepted partial records on the page |
| `SkillSections.Scan` | src/backend/services/matching.py:364-399 | The two lists are, in order, exactly the lines whose nearest preceding header and own wording put them there |
| `SkillSections.OneBucketOnly` | src/backend/services/matching.py:364-399 | No line lands in both lists |
| `SkillSections.OutsideSectionsNowhere` | src/backend/services/matching.py:364-399 | A line before the first header or under a skipped section lands in neither list |
| `SkillSections.KindExactly` | src/backend/services/matching.py:371-383 | When a line is blank, a heading or content |
| `SkillSections.HeaderExactly` | src/backend/services/matching.py:402-411 | Which lines are headings: at most four words, naming one of these parts |
| `SkillSections.BucketExactly` | src/backend/services/matching.py:382-393 | Which lines belong to the requirements and which to the wishes, by the words of their section and their own |
| `SkillSections.WishesExactly` | src/backend/services/matching.py:49-49 | The words of a section of wishes |
| `SkillSections.RequirementsExactly` | src/backend/services/matching.py:48-48 | The words of a section of requirements |
| `SkillSections.OthersExactly` | src/backend/services/matching.py:50-65 | The words of a skipped section |
| `SkillSections.ParseSkills` | src/backend/services/matching.py:364-399 | The skills are those of the listed lines, or of the whole text when no line is listed; an empty text leaves the job as it was |
| `SkillSections.ExtractFromLines` | src/backend/services/matching.py:413-417 | The skills of several lines are the union of theirs |
| `ScoreWeights.FromWeightsString` | src/backend/services/matching.py:246-258 | Any string gives the same ten weights, none negative, each set by its last readable setting or its default |
| `ScoreWeights.FindInside` | src/backend/services/matching.py:246-258 | A separator is found exactly when it occurs |
| `ScoreWeights.DefaultsAddUp` | src/backend/services/matching.py:218-245 | The ten defaults, which add up to 100 |
| `ScoreWeights.WrittenIsRead` | src/backend/services/matching.py:246-258 | A known name and a number around an equals sign are read back, a negative number as zero; anything else sets nothing |
| `ScoreWeights.WithoutEqualsNothing` | src/backend/services/matching.py:246-258 | A part without an equals sign sets nothing |
| `MatchingLaws.AddingASkillNeverHurts` | src/backend/services/matching.py:474-540 | Adding any skill never lowers the score, adds no blocker and never turns a match into a non-match, for any job, vocabulary and non-negative weights |
| `MatchingLaws.ComponentsNoWorse` | src/backend/services/matching.py:558-744 | Component by component, one more skill keeps the weight, never lowers the score and adds no blocker |
| `MatchingLaws.SkillComputationsAgree` | src/backend/services/matching.py:558-594 | Matched and missing partition the required skills, transferable are missing ones, blockers are missing minus transferable, and the component is (matched + transferable/2) / required |
| `MatchingLaws.ScoreInRange` | src/backend/services/matching.py:474-505 | The score lies between 0 and 100 |
| `MatchingLaws.ScoreBetween` | src/backend/services/matching.py:474-505 | The score lies between the least and the greatest component, as rounded percentages |
| `MatchingLaws.ComponentsInUnit` | src/backend/services/matching.py:544-813 | Each of the ten components lies between 0 and 1 |
| `MatchingLaws.ComponentWeights` | src/backend/services/matching.py:544-556 | No component carries a negative weight |
| `MatchingLaws.MatchIffNoRejection` | src/backend/services/matching.py:853-859 | A candidate matches exactly when there is no reason to reject |
| `MatchingExactly.MatchesExactly` | src/backend/services/matching.py:474-540 | A candidate matches exactly when the score reaches the threshold and none of the five reasons holds of profile and job |
| `MatchingExactly.ListedExactly` | src/backend/services/matching.py:474-540 | Each blocker is listed exactly when profile and job give it: a skill asked for that is missing without a related one, fewer than 60 percent of the years, pay below 60 percent of the middle, a clearance, a work authorization |
| `MatchingExactly.RejectionsExactly` | src/backend/services/matching.py:853-859 | The reasons to reject are the first four blockers and, under the threshold, the score |
| `MatchingExactly.ScoreExactly` | src/backend/services/matching.py:474-505 | The score is the weighted mean of the ten components as a percentage, to one decimal, and 0 without weight |
| `MatchingExactly.Round1Nearest` | src/backend/services/matching.py:479-479 | Rounding moves a number by at most half a tenth, to a tenth, a half to the even one |
| `MatchingExactly.MissingExactly` | src/backend/services/matching.py:558-594 | Which skills block |
| `MatchingExactly.ExperienceExactly` | src/backend/services/matching.py:638-673 | The experience component by region, and its blocker |
| `MatchingExactly.CompensationExactly` | src/backend/services/matching.py:792-813 | The compensation component by region, and its blocker |
| `MatchingExactly.RoleExactly` | src/backend/services/matching.py:596-610 | The role component by the words shared with the title |
| `MatchingExactly.SeniorityExactly` | src/backend/services/matching.py:612-636 | The seniority component by the steps between the levels |
| `MatchingExactly.RankExactly` | src/backend/services/matching.py:112-130 | The level of a text by the words it contains |
| `MatchingExactly.DomainExactly` | src/backend/services/matching.py:675-695 | The domain component by the words of the job and the candidate's experiences and skills |
| `MatchingExactly.IndustryExactly` | src/backend/services/matching.py:704-725 | The industry component by the industries wanted and excluded |
| `MatchingExactly.LeadershipExactly` | src/backend/services/matching.py:727-744 | The leadership component by what the job asks for and the candidate shows |
| `MatchingExactly.LocationExactly` | src/backend/services/matching.py:746-776 | The location component by remote work, city, country, and places wanted and excluded |
| `MatchingExactly.WorkModeExactly` | src/backend/services/matching.py:778-790 | The work mode component |
| `MatchingExactly.TelecommunicationsExactly` | src/backend/services/matching.py:97-110 | The words telecommunications is named by; the eight lemmas beside it state the other industries |
| `MatchingLaws.DedupKeepsElements` | src/backend/services/matching.py:474-540 | Removing repetitions keeps every blocker once |
| `MatchingLaws.RoundMonotone` | src/backend/services/matching.py:474-505 | Rounding half to even never turns an order around |
| `MatchingLaws.AskingForLessHurtsExactly` | src/backend/services/matching.py:792-813 | A smaller expectation scores lower, and adds a blocker, exactly when it alone falls below 60 percent of a disclosed positive middle |
| `MatchingLaws.AskingForLessUnmatchesExactly` | src/backend/services/matching.py:474-540 | For any candidate, job and non-negative weights, asking for less adds the pay blocker to the verdict, and turns a match into a non-match, exactly in that case; otherwise it never lowers the score |
| `MatchingLaws.PayBlockedExactly` | src/backend/services/matching.py:474-540 | The verdict lists the pay blocker exactly when the compensation component has it |
| `MatchingLaws.LowExpectationIsBlocked` | src/backend/services/matching.py:801-813 | Against 100 to 100, expecting 50 is blocked, 100 is fine and 200 only lowers the component |
| `Scorer.ScoreSkills` | src/backend/services/matching.py:558-594 | The loop computes the skill component the agreement is proved about |
| `Scorer.RemoveRepetitions` | src/backend/services/matching.py:474-540 | The loop keeps first occurrences in order |
| `Scorer.Score` | src/backend/services/matching.py:474-540 | The loops and the verdict are the evaluation the laws are about |

## Left out

- HTTP routes, dependency wiring, ownership checks, fetching, robots rules, the scheduler, storage, PDF and DOCX extraction, the frontend and migrations: plumbing around the protocols.
- Audit rows beyond the history fields named above, notifications, reason texts and metadata dictionaries.
- Message responses and the marking of contacts as suppressed: they touch none of the fields the outreach properties speak of; suppression itself is an arbitrary argument of every call.
- JSON text with unpaired surrogates, whose encoding raises: the strings here are sequences of Unicode scalar values.
- Values that a database column cannot hold, such as an index beyond its width.
- The lookup of the contact, the job, the source and the application an operation names: it answers found or not found, as an argument of the call.
- Limits of the runtime itself, such as recursion depth and memory.
- Exceptions thrown by a sender or submitter, and other calls interleaved inside one call: each call is one atomic step.
- Title, description and other descriptive columns of jobs and companies; only the keys, the owner and the status are stored.
- `mark_expired` and other status changes of stored jobs: they touch none of the three keys.
- Empty URLs and empty content hashes of stored jobs: both writers resolve them before storing, so the stored type excludes them.
- Parsing of salaries, years and work modes from job texts; the parsed values are arbitrary fields of a job, so a minimum above the maximum is covered.
- Strengths, gaps, recommendations and confidence of a match, `batch_evaluate` and the persisting of matches: they add no decision.
- Two skills with the same label: blockers carry labels and the key sets carry keys, so the agreement of the two is stated through the label function.
- Floating point rounding, infinities and not-a-number in rates and weights.
- The creation of the ingestion source row, which is one constant source here.
- Automation runs without a provider.
- `ApplicationPrepService.update_status` on a submitted application: it writes any status without a check, so a status edit is assumed not to touch submitted applications.
- Workflow calls that bypass the challenge service: the coupling does not hold under them; only `Workflows.BoundedChanges` covers them.
- Provider creation, update and deletion, session references, and the metadata and timestamps of provider states.
- Regular expressions, HTML unescaping, URL validation, token encryption, password hashing and identifiers: abstract functions or fresh positions.
