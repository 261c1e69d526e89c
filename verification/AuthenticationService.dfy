/** The authentication service, which turns reported provider states into challenges. */
module AuthenticationServices {
  import opened Prelude
  import opened Challenges
  import AuthStates
  import ChallengeServices

  class AuthenticationService {
    const challenges: ChallengeServices.ChallengeService

    constructor (challenges: ChallengeServices.ChallengeService)
      ensures this.challenges == challenges
    {
      this.challenges := challenges;
    }

    method ObserveState(provider: nat, status: AuthStates.AuthState, now: Time, token: nat) returns (r: Result<(), Error>)
      modifies challenges, challenges.workflows, challenges.providers
      ensures (challenges.Contents(), r) == Report(old(challenges.Contents()), provider, status, now, token)
    {
      hide AuthStates.Targets, ResolveSuperseded, EnsureOpen, Escalate;
      if provider !in challenges.providers.states {
        return Err(NotFound);
      }
      var wasEscalating := AuthStates.IsEscalation(challenges.providers.states[provider]);
      var savedChallenges, savedRuns := challenges.challenges, challenges.workflows.runs;
      var savedStates := challenges.providers.states;
      var applied := challenges.providers.Apply(provider, status);
      if applied.Err? {
        return Err(AuthError(applied.error));
      }
      if IsSettled(status) {
        r := challenges.ResolveSuperseded(provider, now);
      } else {
        var kind := TypeFor(status);
        if kind.None? {
          return Ok(());
        }
        var challenge := challenges.EnsureOpen(provider, kind.value, Opening(true, 60 * 60 * 24, 2, now, token));
        if !wasEscalating {
          return Ok(());
        }
        r := challenges.Escalate(challenge);
      }
      // The session is rolled back when the challenge service raises.
      if r.Err? {
        challenges.challenges, challenges.workflows.runs, challenges.providers.states := savedChallenges, savedRuns, savedStates;
      }
    }
  }
}
