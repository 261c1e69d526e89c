/**
 * Challenges raised by external sites, each linked to a human-in-the-loop
 * workflow. Every operation is one transaction: when it raises, the store is
 * what it was before.
 */
module Challenges {
  import opened Prelude
  import Workflows
  import AuthStates

  datatype ChallengeType =
    | Captcha
    | Mfa
    | Otp
    | LoginRequired
    | SessionExpired
    | BotProtection
    | AccessDenied
    | RateLimit
    | UnknownHumanVerification

  datatype Status = Open | Acknowledged | HumanActionRequired | Resolved | Cancelled | TimedOut | Failed

  datatype Resolution = Human | Superseded | System | Unresolved

  /** A challenge row; its id is its position, its workflow's id the position of the run. */
  datatype Challenge = Challenge(
    provider: nat,
    kind: ChallengeType,
    status: Status,
    humanRequired: bool,
    workflow: Option<nat>,
    resolution: Option<Resolution>)

  datatype State = State(
    workflows: seq<Workflows.Run>,
    challenges: seq<Challenge>,
    auth: map<nat, AuthStates.AuthState>)

  const INITIAL := State([], [], map[])

  datatype Error =
    | NotFound
    | AlreadyClosed
    | WorkflowError(workflowError: Workflows.Error)
    | AuthError(authError: AuthStates.Error)

  predicate Terminal(status: Status) {
    status.Resolved? || status.Cancelled? || status.TimedOut? || status.Failed?
  }

  predicate InFlight(status: Status) {
    status.Open? || status.Acknowledged? || status.HumanActionRequired?
  }

  predicate SameSlot(c: Challenge, provider: nat, kind: ChallengeType) {
    c.provider == provider && c.kind == kind
  }

  /** The in-flight challenge of a provider and type, if there is one. */
  function GetInFlight(cs: seq<Challenge>, provider: nat, kind: ChallengeType): (r: Option<nat>)
    ensures r.Some? ==> r.value < |cs| && SameSlot(cs[r.value], provider, kind) && InFlight(cs[r.value].status)
    ensures r.None? ==> forall i :: 0 <= i < |cs| ==> !(SameSlot(cs[i], provider, kind) && InFlight(cs[i].status))
  {
    if cs == [] then None
    else
      var last := |cs| - 1;
      var earlier := GetInFlight(cs[..last], provider, kind);
      if earlier.Some? then earlier
      else if SameSlot(cs[last], provider, kind) && InFlight(cs[last].status) then Some(last)
      else None
  }

  /** How a challenge is opened: whether a human must act, its lifetime, its retries, the clock and a fresh token. */
  datatype Opening = Opening(humanRequired: bool, expiresIn: int, maxRetries: int, now: Time, token: nat)

  /** Reuse the in-flight challenge of this type, or record a new one with its own workflow. */
  function EnsureOpen(s: State, provider: nat, kind: ChallengeType, o: Opening): (State, nat) {
    match GetInFlight(s.challenges, provider, kind)
    case Some(c) => (s, c)
    case None =>
      var started := Workflows.Start(o.maxRetries + 1, Some(o.expiresIn), o.token, o.now);
      var run := if o.humanRequired then started.(status := Workflows.PausedHumanAction) else started;
      (s.(workflows := s.workflows + [run],
          challenges := s.challenges + [Challenge(provider, kind, Open, o.humanRequired, Some(|s.workflows|), None)]),
       |s.challenges|)
  }

  /** The workflow a challenge refers to; a dangling reference is a 404. */
  predicate WorkflowFound(s: State, c: Challenge) {
    c.workflow.Some? ==> c.workflow.value < |s.workflows|
  }

  /** Put a challenge back together with the outcome of its workflow's transition. */
  function WithWorkflow(s: State, id: nat, c: Challenge, step: Workflows.Run -> Result<Workflows.Run, Workflows.Error>):
    (State, Result<(), Error>)
    requires id < |s.challenges|
  {
    if c.workflow.None? then (s.(challenges := s.challenges[id := c]), Ok(()))
    else if !WorkflowFound(s, c) then (s, Err(NotFound))
    else match step(s.workflows[c.workflow.value])
      case Err(e) => (s, Err(WorkflowError(e)))
      case Ok(run) =>
        (s.(challenges := s.challenges[id := c], workflows := s.workflows[c.workflow.value := run]), Ok(()))
  }

  function Escalate(s: State, id: nat): (State, Result<(), Error>) {
    if id >= |s.challenges| then (s, Err(NotFound))
    else
      var c := s.challenges[id];
      if c.status == HumanActionRequired then (s, Ok(()))
      else if Terminal(c.status) then (s, Err(AlreadyClosed))
      else WithWorkflow(s, id, c.(status := HumanActionRequired), run => Workflows.Pause(run))
  }

  function Acknowledge(s: State, id: nat): (State, Result<(), Error>) {
    if id >= |s.challenges| then (s, Err(NotFound))
    else
      var c := s.challenges[id];
      if c.status == Acknowledged then (s, Ok(()))
      else if Terminal(c.status) then (s, Err(AlreadyClosed))
      else (s.(challenges := s.challenges[id := c.(status := Acknowledged)]), Ok(()))
  }

  /** Resume a paused workflow with its own token, or complete one that never paused. */
  function FinishWorkflow(run: Workflows.Run, now: Time): Result<Workflows.Run, Workflows.Error> {
    if run.status == Workflows.Running then Workflows.Transition(run, Workflows.Completed)
    else
      var (resumed, r) := Workflows.Resume(run, Some(run.token), now);
      match r
      case Ok(_) => Ok(resumed)
      case Err(e) => Err(e)
  }

  function Complete(s: State, id: nat, how: Resolution, now: Time): (State, Result<(), Error>) {
    if id >= |s.challenges| then (s, Err(NotFound))
    else
      var c := s.challenges[id];
      if Terminal(c.status) then (s, Err(AlreadyClosed))
      else match AuthStates.ApplyState(s.auth, c.provider, AuthStates.Authenticated)
        case Err(e) => (s, Err(AuthError(e)))
        case Ok(auth) =>
          var (s', r) := WithWorkflow(s, id, c.(status := Resolved, resolution := Some(how)), run => FinishWorkflow(run, now));
          if r.Ok? then (s'.(auth := auth), r) else (s, r)
  }

  function Cancel(s: State, id: nat): (State, Result<(), Error>) {
    Close(s, id, Cancelled, Workflows.Cancelled)
  }

  function TimeOut(s: State, id: nat): (State, Result<(), Error>) {
    Close(s, id, TimedOut, Workflows.TimedOut)
  }

  /** Close a challenge unresolved and end its workflow the same way. */
  function Close(s: State, id: nat, status: Status, target: Workflows.Status): (State, Result<(), Error>) {
    if id >= |s.challenges| then (s, Err(NotFound))
    else
      var c := s.challenges[id];
      if Terminal(c.status) then (s, Err(AlreadyClosed))
      else WithWorkflow(s, id, c.(status := status), run => Workflows.Transition(run, target))
  }

  /** Close one in-flight challenge of a newly authenticated provider. */
  function Supersede(s: State, id: nat, now: Time): (State, Result<(), Error>)
    requires id < |s.challenges|
  {
    WithWorkflow(s, id, s.challenges[id].(status := Resolved, resolution := Some(Superseded)),
                 run => FinishWorkflow(run, now))
  }

  /** Supersede the provider's in-flight challenges among the first n. */
  function SupersedeFirst(s: State, provider: nat, n: nat, now: Time): (r: (State, Result<(), Error>))
    requires n <= |s.challenges|
    ensures |r.0.challenges| == |s.challenges| && |r.0.workflows| == |s.workflows|
    ensures forall i :: n <= i < |s.challenges| ==> r.0.challenges[i] == s.challenges[i]
  {
    if n == 0 then (s, Ok(()))
    else
      var (s', r) := SupersedeFirst(s, provider, n - 1, now);
      if r.Err? then (s', r)
      else if s'.challenges[n - 1].provider == provider && InFlight(s'.challenges[n - 1].status) then
        Supersede(s', n - 1, now)
      else (s', r)
  }

  function ResolveSuperseded(s: State, provider: nat, now: Time): (State, Result<(), Error>) {
    var (s', r) := SupersedeFirst(s, provider, |s.challenges|, now);
    if r.Ok? then (s', r) else (s, r)
  }

  /** The automation hand-off: open a challenge for a human and mark it so directly. */
  function HandOff(s: State, provider: nat, kind: ChallengeType, now: Time, token: nat): (State, nat) {
    var (s', c) := EnsureOpen(s, provider, kind, Opening(true, 60 * 60 * 24, 2, now, token));
    (s'.(challenges := s'.challenges[c := s'.challenges[c].(status := HumanActionRequired)]), c)
  }

  /** The challenge a reported provider state is recorded as, if any. */
  function TypeFor(status: AuthStates.AuthState): Option<ChallengeType> {
    match status
    case CaptchaRequired => Some(Captcha)
    case MfaRequired => Some(Mfa)
    case AccessBlocked => Some(AccessDenied)
    case RateLimited => Some(RateLimit)
    case SessionExpired => Some(ChallengeType.SessionExpired)
    case AuthenticationRequired => Some(LoginRequired)
    case HumanActionRequired => Some(UnknownHumanVerification)
    case _ => None
  }

  predicate IsSettled(status: AuthStates.AuthState) {
    status.Authenticated? || status.NotRequired?
  }

  /**
   * Report a provider state: move the provider there, supersede its challenges
   * when it is settled, and otherwise open the challenge that belongs to the
   * state, escalating it when the provider needed a human before already.
   */
  function Report(s: State, provider: nat, status: AuthStates.AuthState, now: Time, token: nat): (State, Result<(), Error>) {
    if provider !in s.auth then (s, Err(NotFound))
    else match AuthStates.ApplyState(s.auth, provider, status)
      case Err(e) => (s, Err(AuthError(e)))
      case Ok(auth) =>
        var reported := s.(auth := auth);
        if IsSettled(status) then
          var (s', r) := ResolveSuperseded(reported, provider, now);
          if r.Ok? then (s', r) else (s, r)
        else match TypeFor(status)
          case None => (reported, Ok(()))
          case Some(kind) =>
            var (waiting, c) := EnsureOpen(reported, provider, kind, Opening(true, 60 * 60 * 24, 2, now, token));
            if !AuthStates.IsEscalation(s.auth[provider]) then (waiting, Ok(()))
            else
              var (s', r) := Escalate(waiting, c);
              if r.Ok? then (s', r) else (s, r)
  }

  function EnsureProvider(s: State, provider: nat): State {
    if provider in s.auth then s else s.(auth := s.auth[provider := AuthStates.NotConfigured])
  }

  datatype Op =
    | EnsureOpenOp(provider: nat, kind: ChallengeType, opening: Opening)
    | EscalateOp(id: nat)
    | AcknowledgeOp(id: nat)
    | CompleteOp(id: nat, how: Resolution, now: Time)
    | CancelOp(id: nat)
    | TimeOutOp(id: nat)
    | ResolveSupersededOp(provider: nat, now: Time)
    | HandOffOp(provider: nat, kind: ChallengeType, now: Time, token: nat)
    | ReportOp(provider: nat, status: AuthStates.AuthState, now: Time, token: nat)
    | EnsureProviderOp(provider: nat)

  function Apply(s: State, op: Op): State {
    match op
    case EnsureOpenOp(provider, kind, opening) => EnsureOpen(s, provider, kind, opening).0
    case EscalateOp(id) => Escalate(s, id).0
    case AcknowledgeOp(id) => Acknowledge(s, id).0
    case CompleteOp(id, how, now) => Complete(s, id, how, now).0
    case CancelOp(id) => Cancel(s, id).0
    case TimeOutOp(id) => TimeOut(s, id).0
    case ResolveSupersededOp(provider, now) => ResolveSuperseded(s, provider, now).0
    case HandOffOp(provider, kind, now, token) => HandOff(s, provider, kind, now, token).0
    case ReportOp(provider, status, now, token) => Report(s, provider, status, now, token).0
    case EnsureProviderOp(provider) => EnsureProvider(s, provider)
  }

  function Run(s: State, ops: seq<Op>): State {
    if ops == [] then s else Apply(Run(s, ops[..|ops| - 1]), ops[|ops| - 1])
  }
}
