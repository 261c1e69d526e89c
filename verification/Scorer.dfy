/** The scoring loops of the matching engine. */
module Scorer {
  import opened Prelude
  import opened Matching

  /** Walk the pool once, crediting each key and collecting the missing ones. */
  method ScoreSkills(v: Vocabulary, w: Weights, c: Profile, j: Job) returns (component: Component)
    ensures component == SkillsComponent(v, w, c, j)
  {
    var skills := CanonicalSkills(v, c);
    var pool := j.required;
    if j.required == [] {
      pool := j.preferred;
    }
    if pool == [] {
      return Component(w.skills, 1.0, []);
    }
    var missing: seq<string> := [];
    var sum := 0.0;
    for i := 0 to |pool|
      invariant sum == SumCredits(v, skills, pool[..i])
      invariant missing == MissingIn(v, skills, pool[..i])
    {
      assert pool[..i + 1][..i] == pool[..i];
      var key := pool[i];
      if key in skills {
        sum := sum + 1.0;
        continue;
      }
      var related := v.related(key);
      if exists r :: r in related && r in skills {
        sum := sum + 0.5;
        continue;
      }
      missing := missing + [key];
      sum := sum + 0.0;
    }
    assert pool[..|pool|] == pool;
    component := Component(w.skills, sum / |pool| as real, MissingBlockers(v, missing));
  }

  /** Remove repetitions, keeping first occurrences in order. */
  method RemoveRepetitions(bs: seq<Blocker>) returns (kept: seq<Blocker>)
    ensures kept == Dedup(bs)
  {
    kept := [];
    for i := 0 to |bs|
      invariant kept == Dedup(bs[..i])
    {
      assert bs[..i + 1][..i] == bs[..i];
      if bs[i] !in kept {
        kept := kept + [bs[i]];
      }
    }
    assert bs[..|bs|] == bs;
  }

  /** Score a candidate against a job: weigh the components, gather the blockers, give the verdict. */
  method Score(v: Vocabulary, w: Weights, threshold: real, c: Profile, j: Job) returns (out: MatchOutput)
    ensures out == Evaluate(v, w, threshold, c, j)
  {
    hide SkillsComponent, RoleComponent, SeniorityComponent, ExperienceComponent, DomainComponent, IndustryComponent,
      LeadershipComponent, LocationComponent, WorkModeComponent, CompensationComponent, Dedup, Round1, Points;
    var skills := ScoreSkills(v, w, c, j);
    var components := [
      skills, RoleComponent(v, w, c, j), SeniorityComponent(v, w, c, j), ExperienceComponent(w, c, j),
      DomainComponent(v, w, c, j), IndustryComponent(v, w, c, j), LeadershipComponent(v, w, c, j),
      LocationComponent(v, w, c, j), WorkModeComponent(v, w, c, j), CompensationComponent(w, c, j)];
    assert components == Components(v, w, c, j);
    hide Components;
    var totalWeight, weightedSum := 0.0, 0.0;
    var blockers: seq<Blocker> := [];
    for i := 0 to |components|
      invariant totalWeight == TotalWeight(components[..i])
      invariant weightedSum == WeightedSum(components[..i])
      invariant blockers == ComponentBlockers(components[..i])
    {
      assert components[..i + 1][..i] == components[..i];
      totalWeight := totalWeight + components[i].weight;
      weightedSum := weightedSum + Points(components[i]);
      blockers := blockers + components[i].blockers;
    }
    assert components[..|components|] == components;
    var score := 0.0;
    if totalWeight > 0.0 {
      score := weightedSum / totalWeight * 100.0;
    }
    score := Round1(score);
    if j.requiresClearance {
      blockers := blockers + [ClearanceRequired];
    }
    if j.requiresWorkAuth {
      blockers := blockers + [WorkAuthRequired];
    }
    assert blockers == AllBlockers(components, j);
    blockers := RemoveRepetitions(blockers);
    out := MatchOutput(score, score >= threshold && blockers == [], blockers, Rejections(blockers, score, threshold));
  }
}
