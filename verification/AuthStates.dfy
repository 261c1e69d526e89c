/** Authentication states of a provider and the transitions allowed between them. */
module AuthStates {
  import opened Prelude

  datatype AuthState =
    | NotConfigured
    | NotRequired
    | Authenticated
    | SessionExpired
    | AuthenticationRequired
    | MfaRequired
    | CaptchaRequired
    | AccessBlocked
    | RateLimited
    | HumanActionRequired
    | ErrorState

  function Targets(current: AuthState): set<AuthState> {
    match current
    case NotConfigured =>
      {NotRequired, Authenticated, AuthenticationRequired, MfaRequired, CaptchaRequired,
       AccessBlocked, RateLimited, HumanActionRequired, ErrorState}
    case NotRequired =>
      {Authenticated, AuthenticationRequired, MfaRequired, CaptchaRequired, SessionExpired,
       AccessBlocked, RateLimited, HumanActionRequired, ErrorState}
    case Authenticated =>
      {NotRequired, SessionExpired, AuthenticationRequired, MfaRequired, CaptchaRequired,
       AccessBlocked, RateLimited, HumanActionRequired, ErrorState}
    case SessionExpired =>
      {Authenticated, AuthenticationRequired, MfaRequired, CaptchaRequired,
       AccessBlocked, RateLimited, HumanActionRequired, ErrorState}
    case AuthenticationRequired =>
      {NotRequired, Authenticated, SessionExpired, MfaRequired, CaptchaRequired,
       AccessBlocked, RateLimited, HumanActionRequired, ErrorState}
    case MfaRequired =>
      {Authenticated, SessionExpired, AuthenticationRequired, HumanActionRequired, ErrorState}
    case CaptchaRequired =>
      {Authenticated, SessionExpired, AuthenticationRequired, HumanActionRequired, ErrorState}
    case AccessBlocked =>
      {HumanActionRequired, ErrorState}
    case RateLimited =>
      {Authenticated, AuthenticationRequired, SessionExpired, HumanActionRequired, ErrorState}
    case HumanActionRequired =>
      {NotRequired, Authenticated, SessionExpired, AuthenticationRequired, ErrorState}
    case ErrorState =>
      {Authenticated, AuthenticationRequired, SessionExpired, HumanActionRequired, ErrorState}
  }

  predicate CanTransition(current: AuthState, target: AuthState) {
    target in Targets(current)
  }

  datatype Error = NotFound | IllegalTransition

  /** Move a provider to a state; asking for its present state only refreshes it. */
  function ApplyState(states: map<nat, AuthState>, provider: nat, target: AuthState): Result<map<nat, AuthState>, Error> {
    if provider !in states then Err(NotFound)
    else if states[provider] != target && !CanTransition(states[provider], target) then Err(IllegalTransition)
    else Ok(states[provider := target])
  }

  /**
   * The whole table, read by its targets: an error can always be reported, and a
   * human be asked for; a blocked provider can do nothing else; a check by a
   * human or a rate limit only follows an undisturbed or expired session.
   */
  lemma MovesExactly(current: AuthState, target: AuthState)
    ensures CanTransition(current, target) <==>
            match target
            case NotConfigured => false
            case NotRequired =>
              current.NotConfigured? || current.Authenticated? || current.AuthenticationRequired? || current.HumanActionRequired?
            case Authenticated => !current.Authenticated? && !current.AccessBlocked?
            case SessionExpired => !current.SessionExpired? && !current.AccessBlocked? && !current.NotConfigured?
            case AuthenticationRequired => !current.AuthenticationRequired? && !current.AccessBlocked?
            case HumanActionRequired => !current.HumanActionRequired?
            case ErrorState => true
            case _ =>
              || current.NotConfigured? || current.NotRequired? || current.Authenticated?
              || current.SessionExpired? || current.AuthenticationRequired?
  {
  }

  /** A provider is moved exactly when it is known and stays where it is or may move; no other provider changes. */
  lemma AppliedExactly(states: map<nat, AuthState>, provider: nat, target: AuthState)
    ensures var r := ApplyState(states, provider, target);
            && (r.Ok? <==> provider in states && (states[provider] == target || CanTransition(states[provider], target)))
            && (r.Ok? ==> r.value == states[provider := target])
            && (r.Err? ==> r.error == if provider in states then IllegalTransition else NotFound)
  {
  }

  lemma EscalationExactly(state: AuthState)
    ensures IsEscalation(state) <==> state.MfaRequired? || state.CaptchaRequired? || state.AccessBlocked? || state.HumanActionRequired?
  {
  }

  /** ACCESS_BLOCKED is the one state from which a provider cannot become AUTHENTICATED directly. */
  lemma OnlyBlockedCannotAuthenticate(current: AuthState)
    ensures current == Authenticated || CanTransition(current, Authenticated) <==> current != AccessBlocked
  {
  }

  predicate IsEscalation(state: AuthState) {
    state in {MfaRequired, CaptchaRequired, AccessBlocked, HumanActionRequired}
  }

  /**
   * A human-verification state is left only towards an explicit resolution, a
   * session problem, renewed authentication, a human request or an error. The
   * one exception to that rule is HUMAN_ACTION_REQUIRED to NOT_REQUIRED.
   */
  lemma EscalationExits(current: AuthState, target: AuthState)
    requires IsEscalation(current) && CanTransition(current, target)
    ensures target in {Authenticated, SessionExpired, AuthenticationRequired, HumanActionRequired, ErrorState}
            <==> !(current == HumanActionRequired && target == NotRequired)
  {
  }

  /** From every state a provider can be authenticated again in at most two transitions. */
  lemma AlwaysRecoverable(current: AuthState)
    ensures current == Authenticated || CanTransition(current, Authenticated)
            || exists via :: CanTransition(current, via) && CanTransition(via, Authenticated)
  {
    if current == AccessBlocked {
      assert CanTransition(current, HumanActionRequired) && CanTransition(HumanActionRequired, Authenticated);
    }
  }

  /** The provider states of one candidate. */
  class AuthProviderService {
    var states: map<nat, AuthState>

    constructor ()
      ensures states == map[]
    {
      states := map[];
    }

    method Apply(provider: nat, target: AuthState) returns (r: Result<(), Error>)
      modifies this
      ensures match ApplyState(old(states), provider, target)
              case Ok(next) => r == Ok(()) && states == next
              case Err(e) => r == Err(e) && states == old(states)
    {
      if provider !in states {
        return Err(NotFound);
      }
      var previous := states[provider];
      if previous != target && !CanTransition(previous, target) {
        return Err(IllegalTransition);
      }
      states := states[provider := target];
      r := Ok(());
    }

    /** A provider described for a site starts as NOT_CONFIGURED. */
    method EnsureProvider(provider: nat)
      modifies this
      ensures states == if provider in old(states) then old(states) else old(states)[provider := NotConfigured]
    {
      if provider !in states {
        states := states[provider := NotConfigured];
      }
    }
  }
}
