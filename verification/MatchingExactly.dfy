/** What the scorer decides, in terms of the profile and the job: each component, each blocker and the verdict. */
module MatchingExactly {
  import opened Prelude
  import opened Texts
  import opened Matching
  import opened MatchingLaws

  // ---------------------------------------------------------------------- skills

  /** The candidate has the skill of this key. */
  predicate Knows(v: Vocabulary, c: Profile, key: string) {
    exists s :: s in c.skills && v.canonical(s.name) == Some(key) && key != ""
  }

  /** The candidate has neither the skill nor one related to it. */
  predicate Lacks(v: Vocabulary, c: Profile, key: string) {
    !Knows(v, c, key) && forall r :: r in v.related(key) ==> !Knows(v, c, r)
  }

  lemma KnowsExactly(v: Vocabulary, c: Profile, key: string)
    ensures Knows(v, c, key) <==> key in CanonicalSkills(v, c)
  {
  }

  lemma LacksExactly(v: Vocabulary, c: Profile, key: string)
    ensures Lacks(v, c, key) <==> IsMissing(v, CanonicalSkills(v, c), key)
  {
    hide Knows, CanonicalSkills;
    KnowsExactly(v, c, key);
    forall r | r in v.related(key) ensures Knows(v, c, r) <==> r in CanonicalSkills(v, c) {
      KnowsExactly(v, c, r);
    }
  }

  /** A required skill, or a preferred one when none is required. */
  predicate Asked(j: Job, key: string) {
    if j.required == [] then key in j.preferred else key in j.required
  }

  lemma MissingExactly(v: Vocabulary, w: Weights, c: Profile, j: Job, b: Blocker)
    ensures b in SkillsComponent(v, w, c, j).blockers <==>
            exists key :: Asked(j, key) && Lacks(v, c, key) && b == MissingSkill(v.labelOf(key))
  {
    hide CanonicalSkills, MissingIn, MissingBlockers, SumCredits, Lacks, IsMissing;
    var missing := MissingIn(v, CanonicalSkills(v, c), Pool(j));
    MissingInIsFilter(v, CanonicalSkills(v, c), Pool(j));
    forall key ensures key in missing <==> Asked(j, key) && Lacks(v, c, key) {
      LacksExactly(v, c, key);
    }
    if Pool(j) == [] {
      assert forall key :: !Asked(j, key);
    } else {
      BlockersAreLabels(v, missing);
    }
  }

  // ------------------------------------------------------------------ experience

  /** Fewer than 60 percent of the years asked for. */
  predicate GapOf(c: Profile, j: Job, n: int) {
    j.minYears == Some(n) && c.years.Some? && c.years.value as real < 0.6 * n as real && c.years.value < n
  }

  /** Enough years, or none asked for, count fully; unknown years or at least 60 percent count 0.6; fewer block. */
  lemma ExperienceExactly(w: Weights, c: Profile, j: Job)
    ensures var x := ExperienceComponent(w, c, j);
            && (x.score == 1.0 <==> j.minYears.None? || (c.years.Some? && c.years.value >= j.minYears.value))
            && (x.score == 0.25 <==> j.minYears.Some? && GapOf(c, j, j.minYears.value))
            && (x.score == 1.0 || x.score == 0.6 || x.score == 0.25)
            && (forall b :: b in x.blockers <==> b.HardExperienceGap? && GapOf(c, j, b.years))
  {
  }

  // ---------------------------------------------------------------- compensation

  /** A disclosed range whose positive middle m the candidate's expectation stays under 60 percent of. */
  predicate PaysBelow(c: Profile, j: Job, m: real) {
    && j.salaryMin.Some? && j.salaryMax.Some? && c.expectedCompensation.Some?
    && m == (j.salaryMin.value + j.salaryMax.value) / 2.0
    && m > 0.0 && c.expectedCompensation.value as real < 0.6 * m
  }

  lemma RatioAbove(x: real, mid: real, bound: real)
    requires mid > 0.0
    ensures x / mid > bound <==> x > bound * mid
  {
    var q := x / mid;
    assert q * mid == x;
    assert (q - bound) * mid == x - bound * mid;
  }

  /** Pay that is unknown or not positive counts 0.8 or 0.7, within 60 to 140 percent of the middle 1.0, above 0.5, below 0.3 and blocks. */
  lemma CompensationExactly(w: Weights, c: Profile, j: Job)
    ensures var x := CompensationComponent(w, c, j);
            && (forall b :: b in x.blockers <==> b.CompensationBelow? && PaysBelow(c, j, b.mid))
            && x.score == (
                 if j.salaryMin.None? || j.salaryMax.None? then 0.8
                 else if c.expectedCompensation.None? then 0.7
                 else
                   var mid := (j.salaryMin.value + j.salaryMax.value) / 2.0;
                   var expected := c.expectedCompensation.value as real;
                   if mid <= 0.0 then 0.8
                   else if expected < 0.6 * mid then 0.3
                   else if expected > 1.4 * mid then 0.5
                   else 1.0)
  {
    if j.salaryMin.Some? && j.salaryMax.Some? && c.expectedCompensation.Some? {
      var mid := (j.salaryMin.value + j.salaryMax.value) / 2.0;
      if mid > 0.0 {
        RatioBelow(c.expectedCompensation.value as real, mid, 0.6);
        RatioAbove(c.expectedCompensation.value as real, mid, 1.4);
      }
    }
  }

  // -------------------------------------------------------------------- blockers

  lemma NineBlock(v: Vocabulary, w: Weights, c: Profile, j: Job, b: Blocker)
    ensures b in ComponentBlockers(Components(v, w, c, j)) <==>
            || b in SkillsComponent(v, w, c, j).blockers
            || b in ExperienceComponent(w, c, j).blockers
            || b in CompensationComponent(w, c, j).blockers
  {
    NoBlockers(v, w, c, j);
    hide SkillsComponent, RoleComponent, SeniorityComponent, ExperienceComponent, DomainComponent, IndustryComponent,
      LeadershipComponent, LocationComponent, WorkModeComponent, CompensationComponent;
    FromSome(Components(v, w, c, j), b);
    hide ComponentBlockers;
    var cs := Components(v, w, c, j);
    if b in SkillsComponent(v, w, c, j).blockers {
      assert b in cs[0].blockers;
    }
    if b in ExperienceComponent(w, c, j).blockers {
      assert b in cs[3].blockers;
    }
    if b in CompensationComponent(w, c, j).blockers {
      assert b in cs[9].blockers;
    }
  }

  lemma {:induction false} FromSome(cs: seq<Component>, b: Blocker)
    ensures b in ComponentBlockers(cs) <==> exists i :: 0 <= i < |cs| && b in cs[i].blockers
  {
    if cs != [] {
      var n := |cs| - 1;
      FromSome(cs[..n], b);
      assert forall i :: 0 <= i < n ==> cs[..n][i] == cs[i];
      if b in cs[n].blockers {
        assert b in ComponentBlockers(cs);
      }
    }
  }

  /** Each reason for a non-match is listed exactly when the profile and the job give it. */
  ghost predicate Blocks(v: Vocabulary, c: Profile, j: Job, b: Blocker) {
    match b
    case MissingSkill(name) => exists key :: Asked(j, key) && Lacks(v, c, key) && name == v.labelOf(key)
    case HardExperienceGap(n) => GapOf(c, j, n)
    case CompensationBelow(mid) => PaysBelow(c, j, mid)
    case ClearanceRequired => j.requiresClearance
    case WorkAuthRequired => j.requiresWorkAuth
  }

  lemma ListedExactly(v: Vocabulary, w: Weights, threshold: real, c: Profile, j: Job, b: Blocker)
    ensures b in Evaluate(v, w, threshold, c, j).blockers <==> Blocks(v, c, j, b)
  {
    var cs := Components(v, w, c, j);
    hide Components, ScoreOf, Dedup, ComponentBlockers, Rejections;
    assert Evaluate(v, w, threshold, c, j).blockers == Dedup(AllBlockers(cs, j));
    DedupKeepsElements(AllBlockers(cs, j));
    NineBlock(v, w, c, j, b);
    MissingExactly(v, w, c, j, b);
    ExperienceExactly(w, c, j);
    CompensationExactly(w, c, j);
    hide SkillsComponent, ExperienceComponent, CompensationComponent, Asked, Lacks, GapOf, PaysBelow, Evaluate;
  }

  /**
   * A candidate matches exactly when the score reaches the threshold, no asked
   * skill is missing without a related one, the experience is no hard gap, the
   * pay expected is not below the range, and neither a clearance nor a work
   * authorization is asked for.
   */
  lemma MatchesExactly(v: Vocabulary, w: Weights, threshold: real, c: Profile, j: Job)
    ensures var out := Evaluate(v, w, threshold, c, j);
            out.isMatch <==>
            && out.score >= threshold
            && (forall key :: Asked(j, key) ==> !Lacks(v, c, key))
            && (j.minYears.Some? ==> !GapOf(c, j, j.minYears.value))
            && (j.salaryMin.Some? && j.salaryMax.Some? ==> !PaysBelow(c, j, (j.salaryMin.value + j.salaryMax.value) / 2.0))
            && !j.requiresClearance && !j.requiresWorkAuth
  {
    var out := Evaluate(v, w, threshold, c, j);
    assert out.isMatch <==> out.score >= threshold && out.blockers == [] by {
      hide Components, Dedup, AllBlockers, ScoreOf, Rejections;
    }
    hide Evaluate, Asked, Lacks;
    forall b ensures b in out.blockers <==> Blocks(v, c, j, b) {
      ListedExactly(v, w, threshold, c, j, b);
    }
    if out.blockers == [] {
      NothingBlocks(v, c, j);
    } else {
      assert Blocks(v, c, j, out.blockers[0]);
      SomethingBlocks(v, c, j, out.blockers[0]);
    }
  }

  lemma NothingBlocks(v: Vocabulary, c: Profile, j: Job)
    requires forall b :: !Blocks(v, c, j, b)
    ensures forall key :: Asked(j, key) ==> !Lacks(v, c, key)
    ensures j.minYears.Some? ==> !GapOf(c, j, j.minYears.value)
    ensures j.salaryMin.Some? && j.salaryMax.Some? ==> !PaysBelow(c, j, (j.salaryMin.value + j.salaryMax.value) / 2.0)
    ensures !j.requiresClearance && !j.requiresWorkAuth
  {
    hide Asked, Lacks, GapOf, PaysBelow;
    forall key | Asked(j, key) ensures !Lacks(v, c, key) {
      assert !Blocks(v, c, j, MissingSkill(v.labelOf(key)));
    }
    assert j.minYears.Some? ==> !Blocks(v, c, j, HardExperienceGap(j.minYears.value));
    assert j.salaryMin.Some? && j.salaryMax.Some? ==>
        !Blocks(v, c, j, CompensationBelow((j.salaryMin.value + j.salaryMax.value) / 2.0));
    assert !Blocks(v, c, j, ClearanceRequired) && !Blocks(v, c, j, WorkAuthRequired);
  }

  lemma SomethingBlocks(v: Vocabulary, c: Profile, j: Job, b: Blocker)
    requires Blocks(v, c, j, b)
    ensures || (exists key :: Asked(j, key) && Lacks(v, c, key))
            || (j.minYears.Some? && GapOf(c, j, j.minYears.value))
            || (j.salaryMin.Some? && j.salaryMax.Some? && PaysBelow(c, j, (j.salaryMin.value + j.salaryMax.value) / 2.0))
            || j.requiresClearance || j.requiresWorkAuth
  {
    hide Asked, Lacks;
  }

  /** The reasons to reject are the first four blockers and, under the threshold, the score. */
  lemma RejectionsExactly(v: Vocabulary, w: Weights, threshold: real, c: Profile, j: Job)
    ensures var out := Evaluate(v, w, threshold, c, j);
            var shown := if |out.blockers| < 4 then |out.blockers| else 4;
            && |out.rejections| == shown + (if out.score < threshold then 1 else 0)
            && (forall i :: 0 <= i < shown ==> out.rejections[i] == Blocked(out.blockers[i]))
            && (out.score < threshold ==> out.rejections[shown] == BelowThreshold)
  {
    hide Components, Dedup, AllBlockers, ScoreOf;
  }

  // ----------------------------------------------------------------------- score

  /** The score is the weighted mean of the ten components as a percentage, to one decimal, and 0 without any weight. */
  lemma ScoreExactly(v: Vocabulary, w: Weights, threshold: real, c: Profile, j: Job)
    ensures var total := w.skills + w.role + w.seniority + w.experience + w.domain + w.industry + w.leadership
                         + w.location + w.workMode + w.compensation;
            var sum := Times(SkillsComponent(v, w, c, j).score, w.skills) + Times(RoleComponent(v, w, c, j).score, w.role)
                       + Times(SeniorityComponent(v, w, c, j).score, w.seniority)
                       + Times(ExperienceComponent(w, c, j).score, w.experience)
                       + Times(DomainComponent(v, w, c, j).score, w.domain)
                       + Times(IndustryComponent(v, w, c, j).score, w.industry)
                       + Times(LeadershipComponent(v, w, c, j).score, w.leadership)
                       + Times(LocationComponent(v, w, c, j).score, w.location)
                       + Times(WorkModeComponent(v, w, c, j).score, w.workMode)
                       + Times(CompensationComponent(w, c, j).score, w.compensation);
            Evaluate(v, w, threshold, c, j).score == if total > 0.0 then Round1(sum / total * 100.0) else 0.0
  {
    FirstWeights(v, w, c, j);
    LastWeights(v, w, c, j);
    Round1Ends();
    hide SkillsComponent, RoleComponent, SeniorityComponent, ExperienceComponent, DomainComponent, IndustryComponent,
      LeadershipComponent, LocationComponent, WorkModeComponent, CompensationComponent, Round1, Dedup, AllBlockers, Rejections;
    SumOfTen(Components(v, w, c, j));
    hide WeightedSum, TotalWeight, Times;
  }

  lemma SumOfTen(cs: seq<Component>)
    requires |cs| == 10
    ensures TotalWeight(cs) == cs[0].weight + cs[1].weight + cs[2].weight + cs[3].weight + cs[4].weight + cs[5].weight
                               + cs[6].weight + cs[7].weight + cs[8].weight + cs[9].weight
    ensures WeightedSum(cs) == Times(cs[0].score, cs[0].weight) + Times(cs[1].score, cs[1].weight)
                               + Times(cs[2].score, cs[2].weight) + Times(cs[3].score, cs[3].weight)
                               + Times(cs[4].score, cs[4].weight) + Times(cs[5].score, cs[5].weight)
                               + Times(cs[6].score, cs[6].weight) + Times(cs[7].score, cs[7].weight)
                               + Times(cs[8].score, cs[8].weight) + Times(cs[9].score, cs[9].weight)
  {
    SumOfFive(cs[..5]);
    MoreThanFive(cs);
  }

  lemma SumOfFive(cs: seq<Component>)
    requires |cs| == 5
    ensures TotalWeight(cs) == cs[0].weight + cs[1].weight + cs[2].weight + cs[3].weight + cs[4].weight
    ensures WeightedSum(cs) == Times(cs[0].score, cs[0].weight) + Times(cs[1].score, cs[1].weight)
                               + Times(cs[2].score, cs[2].weight) + Times(cs[3].score, cs[3].weight)
                               + Times(cs[4].score, cs[4].weight)
  {
    forall i | 0 <= i < 5 ensures Points(cs[i]) == Times(cs[i].score, cs[i].weight) {
    }
    hide Times, Points;
    Step(cs, 4);
    Step(cs, 3);
    Step(cs, 2);
    Step(cs, 1);
    Step(cs, 0);
    assert cs[..5] == cs;
  }

  lemma MoreThanFive(cs: seq<Component>)
    requires |cs| == 10
    ensures TotalWeight(cs) == TotalWeight(cs[..5]) + cs[5].weight + cs[6].weight + cs[7].weight + cs[8].weight + cs[9].weight
    ensures WeightedSum(cs) == WeightedSum(cs[..5]) + Times(cs[5].score, cs[5].weight) + Times(cs[6].score, cs[6].weight)
                               + Times(cs[7].score, cs[7].weight) + Times(cs[8].score, cs[8].weight)
                               + Times(cs[9].score, cs[9].weight)
  {
    forall i | 0 <= i < 10 ensures Points(cs[i]) == Times(cs[i].score, cs[i].weight) {
    }
    hide Times, Points;
    Step(cs, 9);
    Step(cs, 8);
    Step(cs, 7);
    Step(cs, 6);
    Step(cs, 5);
    assert cs[..10] == cs;
  }

  lemma Step(cs: seq<Component>, i: nat)
    requires i < |cs|
    ensures TotalWeight(cs[..i + 1]) == TotalWeight(cs[..i]) + cs[i].weight
    ensures WeightedSum(cs[..i + 1]) == WeightedSum(cs[..i]) + Points(cs[i])
    ensures i == 0 ==> TotalWeight(cs[..i]) == 0.0 && WeightedSum(cs[..i]) == 0.0
  {
    assert cs[..i + 1][..i] == cs[..i];
    hide Points;
  }

  /** Rounding to one decimal moves a number by at most half a tenth, to a tenth, and a half goes to the even one. */
  lemma Round1Nearest(x: real)
    ensures Round1(x) * 10.0 == RoundHalfEven(x * 10.0) as real
    ensures -0.05 <= Round1(x) - x <= 0.05
    ensures Round1(x) - x == 0.05 || x - Round1(x) == 0.05 ==> RoundHalfEven(x * 10.0) % 2 == 0
  {
  }

  // ------------------------------------------------------------------ text levels

  predicate Senior(t: string) {
    Contains(t, "senior") || Contains(t, "lead") || Contains(t, "staff") || Contains(t, "principal")
    || Contains(t, "architect") || Contains(t, "manager")
  }

  predicate Leads(t: string) {
    Contains(t, "director") || Contains(t, "head of") || Contains(t, "group manager") || Contains(t, "vp")
  }

  predicate Executive(t: string) {
    Contains(t, "executive") || Contains(t, "chief") || Contains(t, "cto") || Contains(t, "cfo") || Contains(t, "cio")
    || Contains(t, "cxo")
  }

  predicate Junior(t: string) {
    Contains(t, "junior") || Contains(t, "trainee") || Contains(t, "graduate") || Contains(t, "entry")
    || Contains(t, "associate")
  }

  /** The level of a text: the highest one it names, junior only when it names no higher one, and middle otherwise. */
  lemma RankExactly(v: Vocabulary, term: Option<string>)
    ensures term.None? || term.value == "" ==> Rank(v, term) == 1
    ensures term.Some? && term.value != "" ==>
              var t := v.lower(term.value);
              && (Rank(v, term) == 4 <==> Executive(t))
              && (Rank(v, term) == 3 <==> Leads(t) && !Executive(t))
              && (Rank(v, term) == 2 <==> Senior(t) && !Leads(t) && !Executive(t))
              && (Rank(v, term) == 0 <==> Junior(t) && !Senior(t) && !Leads(t) && !Executive(t))
  {
    if term.Some? && term.value != "" {
      LevelsExactly(v.lower(term.value));
    }
    hide ContainsAny, Executive, Leads, Senior, Junior;
  }

  lemma LevelsExactly(t: string)
    ensures ContainsAny(t, ["executive", "chief", "cto", "cfo", "cio", "cxo"]) <==> Executive(t)
    ensures ContainsAny(t, ["director", "head of", "group manager", "vp"]) <==> Leads(t)
    ensures ContainsAny(t, ["senior", "lead", "staff", "principal", "architect", "manager", "engineering manager"]) <==> Senior(t)
    ensures ContainsAny(t, ["junior", "trainee", "graduate", "entry", "associate"]) <==> Junior(t)
  {
    AnyOf6(t, "executive", "chief", "cto", "cfo", "cio", "cxo");
    AnyOf4(t, "director", "head of", "group manager", "vp");
    AnyOf7(t, "senior", "lead", "staff", "principal", "architect", "manager", "engineering manager");
    AnyOf5(t, "junior", "trainee", "graduate", "entry", "associate");
    hide ContainsAny, Contains;
    EngineeringManagerIsManager(t);
  }

  lemma EngineeringManagerIsManager(t: string)
    ensures Contains(t, "engineering manager") ==> Contains(t, "manager")
  {
    Longer(t, "engineering manager", "manager", 12);
    hide Contains;
  }

  /** Seniority counts fully at the same level, 0.75 one step up, 0.4 further up and 0.6 down. */
  lemma SeniorityExactly(v: Vocabulary, w: Weights, c: Profile, j: Job)
    ensures var mine := Rank(v, if c.seniority.Some? && c.seniority.value != "" then c.seniority else c.currentRole);
            var asked := Rank(v, Some(j.title));
            SeniorityComponent(v, w, c, j).score ==
            if asked == mine then 1.0 else if asked == mine + 1 then 0.75 else if asked > mine + 1 then 0.4 else 0.6
  {
    hide Rank;
  }

  /** Role counts 0.7 without words to compare, 0.25 without a shared word, and otherwise 0.55 plus 0.45 for the share of the title met. */
  lemma RoleExactly(v: Vocabulary, w: Weights, c: Profile, j: Job)
    ensures var mine := v.tokens(OrEmpty(c.targetRole) + " " + OrEmpty(c.currentRole));
            var title := v.tokens(j.title);
            && (mine == {} || title == {} ==> RoleComponent(v, w, c, j).score == 0.7)
            && (mine != {} && title != {} && mine !! title ==> RoleComponent(v, w, c, j).score == 0.25)
            && (mine * title != {} ==>
                  RoleComponent(v, w, c, j).score == 0.55 + 0.45 * (|mine * title| as real / |title| as real))
            && (mine != {} && title != {} && title <= mine ==> RoleComponent(v, w, c, j).score == 1.0)
  {
    var mine := v.tokens(OrEmpty(c.targetRole) + " " + OrEmpty(c.currentRole));
    var title := v.tokens(j.title);
    hide OrEmpty;
    if mine != {} && title != {} {
      SharedIsSome(mine, title);
      if title <= mine {
        assert mine * title == title;
      }
    }
  }

  lemma SharedIsSome(a: set<string>, b: set<string>)
    requires b != {}
    ensures |b| > 0 && |a * b| <= |b|
    ensures |a * b| as real / |b| as real <= 1.0
    ensures a !! b ==> |a * b| == 0
  {
    assert a * b <= b;
    Subsets(a * b, b);
    if a !! b {
      assert a * b == {};
    }
  }

  lemma Subsets(a: set<string>, b: set<string>)
    requires a <= b
    ensures |a| <= |b|
  {
    assert b == a + (b - a);
  }

  /** The text of a job the domain and the industries are looked for in. */
  function TextOf(v: Vocabulary, j: Job): string {
    v.lower(j.title + " " + (if j.location.Some? then j.location.value else "") + " "
            + (if j.description.Some? then j.description.value else ""))
  }

  predicate InTelecom(t: string) {
    Contains(t, "telecom") || Contains(t, "5g") || Contains(t, "4g") || Contains(t, "lte") || Contains(t, "volt")
    || Contains(t, "ims") || Contains(t, "core network") || Contains(t, "network function") || Contains(t, "bss")
    || Contains(t, "oss") || Contains(t, "billing") || Contains(t, "provisioning") || Contains(t, "charging")
    || Contains(t, "mediation") || Contains(t, "service assurance")
  }

  predicate InNetworks(t: string) {
    Contains(t, "telecom") || Contains(t, "oss") || Contains(t, "bss") || Contains(t, "billing")
    || Contains(t, "network") || Contains(t, "5g") || Contains(t, "lte")
  }

  predicate WorkedInTelecom(v: Vocabulary, c: Profile) {
    || (exists e :: e in c.experiences && InNetworks(v.lower(if e.domain.Some? then e.domain.value else "")))
    || (exists s :: s in c.skills && s.category.Some? && s.category.value != ""
                    && (v.lower(s.category.value) == "telecom" || v.lower(s.category.value) == "oss_bss"))
  }

  lemma {:induction false} CountIfSome<T>(s: seq<T>, p: T -> bool)
    ensures CountIf(s, p) > 0 <==> exists x :: x in s && p(x)
  {
    if s != [] {
      var n := |s| - 1;
      CountIfSome(s[..n], p);
      assert s == s[..n] + [s[n]];
    }
  }

  lemma WorkedExactly(v: Vocabulary, c: Profile)
    ensures WorkedInTelecom(v, c) <==> DomainCount(v, c) >= 1
  {
    hide Contains;
    CountIfSome(c.experiences, (e: Experience) => InDomain(v, e));
    CountIfSome(c.skills, (s: Skill) => IsDomainSkill(v, s));
    forall e: Experience ensures InDomain(v, e) == InNetworks(v.lower(if e.domain.Some? then e.domain.value else "")) {
    }
    hide InDomain, InNetworks, CountIf;
  }

  /** Domain counts 0.75 for a job that names none, 1.0 for a telecom job and a telecom candidate, 0.4 for any other candidate. */
  lemma DomainExactly(v: Vocabulary, w: Weights, c: Profile, j: Job)
    ensures DomainComponent(v, w, c, j).score ==
            if !InTelecom(TextOf(v, j)) then 0.75 else if WorkedInTelecom(v, c) then 1.0 else 0.4
  {
    WorkedExactly(v, c);
    JobTermsExactly(TextOf(v, j));
    hide Contains, ContainsAny, InTelecom, DomainCount, WorkedInTelecom;
  }

  lemma JobTermsExactly(t: string)
    ensures ContainsAny(t, JOB_DOMAIN_TERMS) <==> InTelecom(t)
  {
    var a, b := ["telecom", "5g", "4g", "lte", "volt", "ims", "core network"], ["network function", "bss", "oss", "billing"];
    var c := ["provisioning", "charging", "mediation", "service assurance"];
    assert JOB_DOMAIN_TERMS == a + b + c;
    AnyOfParts(t, a, b, c);
    AnyOf7(t, "telecom", "5g", "4g", "lte", "volt", "ims", "core network");
    AnyOf4(t, "network function", "bss", "oss", "billing");
    AnyOf4(t, "provisioning", "charging", "mediation", "service assurance");
    hide ContainsAny, Contains;
  }

  lemma TelecommunicationsExactly(v: Vocabulary, j: Job)
    ensures "telecommunications" in JobIndustries(v, j) <==>
              Contains(TextOf(v, j), "telecom") || Contains(TextOf(v, j), "5g")
              || Contains(TextOf(v, j), "lte") || Contains(TextOf(v, j), "wireless")
              || Contains(TextOf(v, j), "mobile network") || Contains(TextOf(v, j), "telco")
  {
    var terms := ["telecom", "5g", "lte", "wireless", "mobile network", "telco"];
    assert INDUSTRIES[0] == Industry("telecommunications", terms);
    Named(v, j, 0);
    hide Contains, ContainsAny, JobIndustries, TextOf;
    AnyOf6(TextOf(v, j), "telecom", "5g", "lte", "wireless", "mobile network", "telco");
  }

  lemma SupportSystemsExactly(v: Vocabulary, j: Job)
    ensures "bss_oss" in JobIndustries(v, j) <==>
              Contains(TextOf(v, j), "bss") || Contains(TextOf(v, j), "oss")
              || Contains(TextOf(v, j), "billing") || Contains(TextOf(v, j), "provisioning")
              || Contains(TextOf(v, j), "service assurance") || Contains(TextOf(v, j), "mediation")
              || Contains(TextOf(v, j), "charging")
  {
    var terms := ["bss", "oss", "billing", "provisioning", "service assurance", "mediation", "charging"];
    assert INDUSTRIES[1] == Industry("bss_oss", terms);
    Named(v, j, 1);
    hide Contains, ContainsAny, JobIndustries, TextOf;
    AnyOf7(TextOf(v, j), "bss", "oss", "billing", "provisioning", "service assurance", "mediation", "charging");
  }

  lemma FinanceExactly(v: Vocabulary, j: Job)
    ensures "banking_finance" in JobIndustries(v, j) <==>
              Contains(TextOf(v, j), "banking") || Contains(TextOf(v, j), "fintech")
              || Contains(TextOf(v, j), "payments") || Contains(TextOf(v, j), "financial services")
              || Contains(TextOf(v, j), "trading")
  {
    var terms := ["banking", "fintech", "payments", "financial services", "trading"];
    assert INDUSTRIES[2] == Industry("banking_finance", terms);
    Named(v, j, 2);
    hide Contains, ContainsAny, JobIndustries, TextOf;
    AnyOf5(TextOf(v, j), "banking", "fintech", "payments", "financial services", "trading");
  }

  lemma SoftwareExactly(v: Vocabulary, j: Job)
    ensures "saas_software" in JobIndustries(v, j) <==>
              Contains(TextOf(v, j), "saas") || Contains(TextOf(v, j), "software")
              || Contains(TextOf(v, j), "cloud platform") || Contains(TextOf(v, j), "b2b")
              || Contains(TextOf(v, j), "enterprise software")
  {
    var terms := ["saas", "software", "cloud platform", "b2b", "enterprise software"];
    assert INDUSTRIES[3] == Industry("saas_software", terms);
    Named(v, j, 3);
    hide Contains, ContainsAny, JobIndustries, TextOf;
    AnyOf5(TextOf(v, j), "saas", "software", "cloud platform", "b2b", "enterprise software");
  }

  lemma CommerceExactly(v: Vocabulary, j: Job)
    ensures "ecommerce_retail" in JobIndustries(v, j) <==>
              Contains(TextOf(v, j), "e-commerce") || Contains(TextOf(v, j), "ecommerce")
              || Contains(TextOf(v, j), "retail") || Contains(TextOf(v, j), "marketplace")
  {
    var terms := ["e-commerce", "ecommerce", "retail", "marketplace"];
    assert INDUSTRIES[4] == Industry("ecommerce_retail", terms);
    Named(v, j, 4);
    hide Contains, ContainsAny, JobIndustries, TextOf;
    AnyOf4(TextOf(v, j), "e-commerce", "ecommerce", "retail", "marketplace");
  }

  lemma HealthcareExactly(v: Vocabulary, j: Job)
    ensures "healthcare" in JobIndustries(v, j) <==>
              Contains(TextOf(v, j), "healthcare") || Contains(TextOf(v, j), "hospital")
              || Contains(TextOf(v, j), "health tech") || Contains(TextOf(v, j), "clinical")
  {
    var terms := ["healthcare", "hospital", "health tech", "clinical"];
    assert INDUSTRIES[5] == Industry("healthcare", terms);
    Named(v, j, 5);
    hide Contains, ContainsAny, JobIndustries, TextOf;
    AnyOf4(TextOf(v, j), "healthcare", "hospital", "health tech", "clinical");
  }

  lemma GamingExactly(v: Vocabulary, j: Job)
    ensures "gaming" in JobIndustries(v, j) <==>
              Contains(TextOf(v, j), "gaming") || Contains(TextOf(v, j), "game development")
  {
    var terms := ["gaming", "game development"];
    assert INDUSTRIES[6] == Industry("gaming", terms);
    Named(v, j, 6);
    hide Contains, ContainsAny, JobIndustries, TextOf;
    AnyOf2(TextOf(v, j), "gaming", "game development");
  }

  lemma ManufacturingExactly(v: Vocabulary, j: Job)
    ensures "manufacturing" in JobIndustries(v, j) <==>
              Contains(TextOf(v, j), "manufacturing") || Contains(TextOf(v, j), "industrial")
              || Contains(TextOf(v, j), "iot")
  {
    var terms := ["manufacturing", "industrial", "iot"];
    assert INDUSTRIES[7] == Industry("manufacturing", terms);
    Named(v, j, 7);
    hide Contains, ContainsAny, JobIndustries, TextOf;
    AnyOf3(TextOf(v, j), "manufacturing", "industrial", "iot");
  }

  lemma ConsultingExactly(v: Vocabulary, j: Job)
    ensures "consulting" in JobIndustries(v, j) <==>
              Contains(TextOf(v, j), "consulting") || Contains(TextOf(v, j), "services firm")
  {
    var terms := ["consulting", "services firm"];
    assert INDUSTRIES[8] == Industry("consulting", terms);
    Named(v, j, 8);
    hide Contains, ContainsAny, JobIndustries, TextOf;
    AnyOf2(TextOf(v, j), "consulting", "services firm");
  }

  lemma AnyOf2(t: string, a: string, b: string)
    ensures ContainsAny(t, [a, b]) <==> Contains(t, a) || Contains(t, b)
  {
    hide Contains;
  }

  lemma AnyOf3(t: string, a: string, b: string, c: string)
    ensures ContainsAny(t, [a, b, c]) <==> Contains(t, a) || Contains(t, b) || Contains(t, c)
  {
    hide Contains;
  }

  lemma AnyOf4(t: string, a: string, b: string, c: string, d: string)
    ensures ContainsAny(t, [a, b, c, d]) <==> Contains(t, a) || Contains(t, b) || Contains(t, c) || Contains(t, d)
  {
    hide Contains;
  }

  lemma AnyOf5(t: string, a: string, b: string, c: string, d: string, e: string)
    ensures ContainsAny(t, [a, b, c, d, e]) <==> Contains(t, a) || Contains(t, b) || Contains(t, c) || Contains(t, d) || Contains(t, e)
  {
    hide Contains;
  }

  lemma AnyOf6(t: string, a: string, b: string, c: string, d: string, e: string, f: string)
    ensures ContainsAny(t, [a, b, c, d, e, f]) <==> Contains(t, a) || Contains(t, b) || Contains(t, c) || Contains(t, d) || Contains(t, e) || Contains(t, f)
  {
    hide Contains;
  }

  lemma AnyOf7(t: string, a: string, b: string, c: string, d: string, e: string, f: string, g: string)
    ensures ContainsAny(t, [a, b, c, d, e, f, g]) <==> Contains(t, a) || Contains(t, b) || Contains(t, c) || Contains(t, d) || Contains(t, e) || Contains(t, f) || Contains(t, g)
  {
    hide Contains;
  }

  lemma Named(v: Vocabulary, j: Job, i: nat)
    requires i < |INDUSTRIES|
    ensures INDUSTRIES[i].name in JobIndustries(v, j) <==> ContainsAny(TextOf(v, j), INDUSTRIES[i].terms)
  {
    hide ContainsAny;
    assert forall k :: 0 <= k < |INDUSTRIES| && INDUSTRIES[k].name == INDUSTRIES[i].name ==> k == i;
    if INDUSTRIES[i].name in JobIndustries(v, j) {
      var x :| x in INDUSTRIES && ContainsAny(FullText(v, j), x.terms) && x.name == INDUSTRIES[i].name;
    }
    assert INDUSTRIES[i] in INDUSTRIES;
  }

  predicate Wants(v: Vocabulary, raw: seq<string>, name: string) {
    exists s :: s in raw && s != "" && v.lower(s) == name
  }

  /** Industry counts 0.7 when the job names none, 1.0 when a wanted one is named, 0.0 when only an excluded one is, and 0.6 otherwise. */
  lemma IndustryExactly(v: Vocabulary, w: Weights, c: Profile, j: Job)
    ensures var found := JobIndustries(v, j);
            var wanted := exists n :: n in found && Wants(v, c.preferences.industries, n);
            var excluded := exists n :: n in found && Wants(v, c.preferences.excludedIndustries, n);
            IndustryComponent(v, w, c, j).score ==
            if found == {} then 0.7 else if wanted then 1.0 else if excluded then 0.0 else 0.6
  {
    hide JobIndustries;
    MeetsExactly(v, JobIndustries(v, j), c.preferences.industries);
    MeetsExactly(v, JobIndustries(v, j), c.preferences.excludedIndustries);
    hide Preference, Wants;
  }

  lemma MeetsExactly(v: Vocabulary, found: set<string>, raw: seq<string>)
    ensures found * Preference(v, raw) != {} <==> exists n :: n in found && Wants(v, raw, n)
  {
    if exists n :: n in found && Wants(v, raw, n) {
      var n :| n in found && Wants(v, raw, n);
      assert n in found * Preference(v, raw);
    }
  }

  predicate AsksForLeadership(v: Vocabulary, j: Job) {
    var t := v.lower(j.title + " " + (if j.description.Some? then j.description.value else ""));
    Contains(t, "lead") || Contains(t, "leading") || Contains(t, "manage a team") || Contains(t, "people management")
    || Contains(t, "mentor") || Contains(t, "team lead") || Contains(t, "manager") || Contains(t, "people leadership")
  }

  /** Leadership counts fully unless the job asks for it and the candidate shows none: no lead role, no team above one, no such skill, no rank of a director. */
  lemma LeadershipExactly(v: Vocabulary, w: Weights, c: Profile, j: Job)
    ensures LeadershipComponent(v, w, c, j).score ==
            if AsksForLeadership(v, j)
               && (forall e :: e in c.experiences ==> !e.leads && (e.teamSize.Some? ==> e.teamSize.value <= 1))
               && (forall s :: s in c.skills ==> v.lower(s.name) != "people management" && v.lower(s.name) != "team leadership")
               && Rank(v, if c.seniority.Some? && c.seniority.value != "" then c.seniority else c.currentRole) < 3
            then 0.3 else 1.0
  {
    hide Contains, Rank;
  }

  predicate Mentions(v: Vocabulary, place: string, raw: seq<string>) {
    exists s :: s in raw && s != "" && Contains(place, v.lower(s))
  }

  lemma MentionsExactly(v: Vocabulary, place: string, raw: seq<string>)
    ensures MentionsAny(place, Preference(v, raw)) <==> Mentions(v, place, raw)
  {
    hide Contains;
    if Mentions(v, place, raw) {
      var s :| s in raw && s != "" && Contains(place, v.lower(s));
      assert v.lower(s) in Preference(v, raw);
    }
  }

  /** Location: remote work, then no place, then the candidate's city, country, wanted and excluded places, in this order. */
  lemma LocationExactly(v: Vocabulary, w: Weights, c: Profile, j: Job)
    ensures var place := v.lower(if j.location.Some? then j.location.value else "");
            var city, country := v.lower(c.city), v.lower(c.country);
            LocationComponent(v, w, c, j).score ==
            if "remote" in j.workModes then (if c.workMode == Some("onsite") then 0.5 else 1.0)
            else if place == "" then 0.8
            else if city != "" && Contains(place, city) then 1.0
            else if country != "" && Contains(place, country) then 0.7
            else if Mentions(v, place, c.preferences.locations) then 1.0
            else if Mentions(v, place, c.preferences.excludedLocations) then 0.0
            else 0.5
  {
    var place := v.lower(if j.location.Some? then j.location.value else "");
    MentionsExactly(v, place, c.preferences.locations);
    MentionsExactly(v, place, c.preferences.excludedLocations);
    hide Contains, MentionsAny, Mentions, Preference;
  }

  /** Work mode counts 0.8 when the job names none, 1.0 when it names the candidate's and 0.3 otherwise. */
  lemma WorkModeExactly(v: Vocabulary, w: Weights, c: Profile, j: Job)
    ensures WorkModeComponent(v, w, c, j).score ==
            if j.workModes == {} then 0.8
            else if v.lower(if c.workMode.Some? then c.workMode.value else "") in j.workModes then 1.0 else 0.3
  {
  }
}
