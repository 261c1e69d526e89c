/** Laws of the matching engine: bounds, agreement of its skill computations, and monotonicity in skills. */
module MatchingLaws {
  import opened Prelude
  import opened Texts
  import opened Matching

  // --------------------------------------------------------------------- rounding

  lemma RoundMonotone(x: real, y: real)
    requires x <= y
    ensures RoundHalfEven(x) <= RoundHalfEven(y)
  {
  }

  lemma Round1Monotone(x: real, y: real)
    requires x <= y
    ensures Round1(x) <= Round1(y)
  {
    RoundMonotone(x * 10.0, y * 10.0);
  }

  lemma Round1Ends()
    ensures Round1(0.0) == 0.0 && Round1(100.0) == 100.0
  {
  }

  // --------------------------------------------------------------- skill component

  function Selected(pool: seq<string>, p: string -> bool): set<string> {
    set k | k in pool && p(k)
  }

  lemma SelectedSnoc(pool: seq<string>, x: string, p: string -> bool)
    ensures Selected(pool + [x], p) == Selected(pool, p) + if p(x) then {x} else {}
  {
  }

  /** Counting the keys with a property and collecting them agree when no key repeats. */
  lemma {:induction false} CountIsCardinality(pool: seq<string>, p: string -> bool)
    requires Distinct(pool)
    ensures CountIf(pool, p) == |Selected(pool, p)|
  {
    if pool == [] {
      assert Selected(pool, p) == {};
    } else {
      var n := |pool| - 1;
      assert pool == pool[..n] + [pool[n]];
      CountIsCardinality(pool[..n], p);
      SelectedSnoc(pool[..n], pool[n], p);
      LastIsNew(pool);
      hide Distinct;
    }
  }

  lemma LastIsNew(pool: seq<string>)
    requires Distinct(pool) && pool != []
    ensures pool[|pool| - 1] !in pool[..|pool| - 1]
  {
  }

  function Has(skills: set<string>): string -> bool {
    k => k in skills
  }

  function Transfers(v: Vocabulary, skills: set<string>): string -> bool {
    k => IsTransferable(v, skills, k)
  }

  lemma {:induction false} SumCountsCredits(v: Vocabulary, skills: set<string>, pool: seq<string>)
    ensures SumCredits(v, skills, pool) ==
            CountIf(pool, Has(skills)) as real + CountIf(pool, Transfers(v, skills)) as real / 2.0
  {
    if pool != [] {
      SumCountsCredits(v, skills, pool[..|pool| - 1]);
    }
  }

  lemma {:induction false} MissingInIsFilter(v: Vocabulary, skills: set<string>, pool: seq<string>)
    ensures forall k :: k in MissingIn(v, skills, pool) <==> k in pool && IsMissing(v, skills, k)
  {
    if pool != [] {
      var n := |pool| - 1;
      MissingInIsFilter(v, skills, pool[..n]);
      assert pool == pool[..n] + [pool[n]];
    }
  }

  lemma SkillScoreCounts(v: Vocabulary, w: Weights, c: Profile, j: Job)
    requires j.required != [] && Distinct(j.required)
    ensures SkillsComponent(v, w, c, j).score
            == (|MatchedKeys(v, c, j)| as real + |TransferableKeys(v, c, j)| as real / 2.0) / |j.required| as real
  {
    var skills := CanonicalSkills(v, c);
    SumCountsCredits(v, skills, j.required);
    CountIsCardinality(j.required, Has(skills));
    CountIsCardinality(j.required, Transfers(v, skills));
    assert MatchedKeys(v, c, j) == Selected(j.required, Has(skills));
    assert TransferableKeys(v, c, j) == Selected(j.required, Transfers(v, skills));
  }

  lemma MissingIsUntransferable(v: Vocabulary, c: Profile, j: Job)
    requires j.required != []
    ensures forall k :: k in MissingIn(v, CanonicalSkills(v, c), Pool(j)) <==> k in MissingKeys(v, c, j) - TransferableKeys(v, c, j)
  {
    hide CanonicalSkills;
    MissingInIsFilter(v, CanonicalSkills(v, c), Pool(j));
  }

  /**
   * When a job lists required skills, the two separately coded computations
   * agree: matched and missing labels partition them, transferable ones are
   * missing ones, the blockers are exactly the missing but not transferable
   * keys, and the component scores (|matched| + |transferable| / 2) / |required|.
   */
  lemma SkillComputationsAgree(v: Vocabulary, w: Weights, c: Profile, j: Job)
    requires j.required != [] && Distinct(j.required)
    ensures var matched, missing, transferable := MatchedKeys(v, c, j), MissingKeys(v, c, j), TransferableKeys(v, c, j);
            && matched + missing == (set k | k in j.required) && matched !! missing
            && transferable <= missing
            && (forall b :: b in SkillsComponent(v, w, c, j).blockers <==>
                  exists k :: k in missing - transferable && b == MissingSkill(v.labelOf(k)))
            && SkillsComponent(v, w, c, j).score
               == (|matched| as real + |transferable| as real / 2.0) / |j.required| as real
  {
    hide CanonicalSkills, MissingIn, SumCredits, Distinct, MissingBlockers;
    SkillScoreCounts(v, w, c, j);
    MissingIsUntransferable(v, c, j);
    BlockersAreLabels(v, MissingIn(v, CanonicalSkills(v, c), Pool(j)));
  }

  lemma BlockersAreLabels(v: Vocabulary, keys: seq<string>)
    ensures forall b :: b in MissingBlockers(v, keys) <==> exists k :: k in keys && b == MissingSkill(v.labelOf(k))
  {
    var bs := MissingBlockers(v, keys);
    forall k | k in keys ensures MissingSkill(v.labelOf(k)) in bs {
      var i :| 0 <= i < |keys| && keys[i] == k;
      assert bs[i] == MissingSkill(v.labelOf(k));
    }
  }

  // ----------------------------------------------------------------------- bounds

  predicate InUnit(x: real) {
    0.0 <= x <= 1.0
  }

  lemma {:induction false} SumCreditsBounded(v: Vocabulary, skills: set<string>, pool: seq<string>)
    ensures 0.0 <= SumCredits(v, skills, pool) <= |pool| as real
  {
    if pool != [] {
      SumCreditsBounded(v, skills, pool[..|pool| - 1]);
    }
  }

  lemma QuotientInUnit(a: real, b: real)
    requires 0.0 <= a <= b && b > 0.0
    ensures InUnit(a / b)
  {
  }

  lemma SkillsInUnit(v: Vocabulary, w: Weights, c: Profile, j: Job)
    ensures InUnit(SkillsComponent(v, w, c, j).score)
  {
    if Pool(j) != [] {
      SumCreditsBounded(v, CanonicalSkills(v, c), Pool(j));
      QuotientInUnit(SumCredits(v, CanonicalSkills(v, c), Pool(j)), |Pool(j)| as real);
    }
  }

  lemma RoleInUnit(v: Vocabulary, w: Weights, c: Profile, j: Job)
    ensures InUnit(RoleComponent(v, w, c, j).score)
  {
    var target := v.tokens(OrEmpty(c.targetRole) + " " + OrEmpty(c.currentRole));
    var title := v.tokens(j.title);
    if target != {} && title != {} {
      assert 0.0 <= |target * title| as real / |title| as real;
    }
  }

  /** Every component lies between 0 and 1 and carries its configured weight. */
  lemma ComponentsInUnit(v: Vocabulary, w: Weights, c: Profile, j: Job)
    ensures forall i :: 0 <= i < 10 ==> InUnit(Components(v, w, c, j)[i].score)
  {
    hide ContainsAny, Rank, HasLeadership, DomainCount, JobIndustries, MentionsAny, Contains, Preference;
    SkillsInUnit(v, w, c, j);
    RoleInUnit(v, w, c, j);
    hide SkillsComponent, RoleComponent;
  }

  /** The weights a list of components carries are not negative and their scores lie between two bounds. */
  ghost predicate Weighted(cs: seq<Component>, lo: real, hi: real) {
    forall i :: 0 <= i < |cs| ==> cs[i].weight >= 0.0 && lo <= cs[i].score <= hi
  }

  function Times(a: real, b: real): real {
    a * b
  }

  lemma PointsBetween(c: Component, lo: real, hi: real)
    requires c.weight >= 0.0 && lo <= c.score <= hi
    ensures Times(lo, c.weight) <= Points(c) <= Times(hi, c.weight)
  {
    ScaleReal(lo, c.score, c.weight);
    ScaleReal(c.score, hi, c.weight);
  }

  lemma Distribute(a: real, t: real, x: real)
    ensures Times(a, t + x) == Times(a, t) + Times(a, x)
  {
  }

  lemma {:induction false} WeightedSumBetween(cs: seq<Component>, lo: real, hi: real)
    requires Weighted(cs, lo, hi)
    ensures TotalWeight(cs) >= 0.0
    ensures Times(lo, TotalWeight(cs)) <= WeightedSum(cs) <= Times(hi, TotalWeight(cs))
  {
    if cs != [] {
      hide Times, Points;
      var n := |cs| - 1;
      assert forall i :: 0 <= i < n ==> cs[..n][i] == cs[i];
      WeightedSumBetween(cs[..n], lo, hi);
      PointsBetween(cs[n], lo, hi);
      Distribute(lo, TotalWeight(cs[..n]), cs[n].weight);
      Distribute(hi, TotalWeight(cs[..n]), cs[n].weight);
    }
  }

  lemma MeanBetween(sum: real, total: real, lo: real, hi: real)
    requires total > 0.0 && Times(lo, total) <= sum <= Times(hi, total)
    ensures lo <= sum / total <= hi
  {
    var m := sum / total;
    assert m * total == sum;
    assert (m - lo) * total == m * total - lo * total;
    assert (hi - m) * total == hi * total - m * total;
    SignOf(m - lo, total);
    SignOf(hi - m, total);
  }

  lemma SignOf(x: real, t: real)
    requires t > 0.0 && x * t >= 0.0
    ensures x >= 0.0
  {
  }

  /** The score is a rounded weighted mean: it lies between the least and the greatest component, as percentages. */
  lemma ScoreBetween(cs: seq<Component>, lo: real, hi: real)
    requires Weighted(cs, lo, hi) && TotalWeight(cs) > 0.0
    ensures Round1(lo * 100.0) <= ScoreOf(cs) <= Round1(hi * 100.0)
  {
    WeightedSumBetween(cs, lo, hi);
    MeanBetween(WeightedSum(cs), TotalWeight(cs), lo, hi);
    var mean := WeightedSum(cs) / TotalWeight(cs);
    Round1Monotone(lo * 100.0, mean * 100.0);
    Round1Monotone(mean * 100.0, hi * 100.0);
  }

  lemma FirstWeights(v: Vocabulary, w: Weights, c: Profile, j: Job)
    ensures SkillsComponent(v, w, c, j).weight == w.skills
    ensures RoleComponent(v, w, c, j).weight == w.role
    ensures SeniorityComponent(v, w, c, j).weight == w.seniority
    ensures ExperienceComponent(w, c, j).weight == w.experience
    ensures DomainComponent(v, w, c, j).weight == w.domain
  {
    hide ContainsAny, Rank, DomainCount, CanonicalSkills, SumCredits, MissingIn, MissingBlockers;
  }

  lemma LastWeights(v: Vocabulary, w: Weights, c: Profile, j: Job)
    ensures IndustryComponent(v, w, c, j).weight == w.industry
    ensures LeadershipComponent(v, w, c, j).weight == w.leadership
    ensures LocationComponent(v, w, c, j).weight == w.location
    ensures WorkModeComponent(v, w, c, j).weight == w.workMode
    ensures CompensationComponent(w, c, j).weight == w.compensation
  {
    hide ContainsAny, HasLeadership, JobIndustries, MentionsAny, Contains, Preference;
  }

  lemma ComponentWeights(v: Vocabulary, w: Weights, c: Profile, j: Job)
    requires NonNegative(w)
    ensures forall i :: 0 <= i < 10 ==> Components(v, w, c, j)[i].weight >= 0.0
  {
    hide SkillsComponent, RoleComponent, SeniorityComponent, ExperienceComponent, DomainComponent, IndustryComponent,
      LeadershipComponent, LocationComponent, WorkModeComponent, CompensationComponent;
    FirstWeights(v, w, c, j);
    LastWeights(v, w, c, j);
  }

  /** For every candidate and job the score lies between 0 and 100. */
  lemma ScoreInRange(v: Vocabulary, w: Weights, threshold: real, c: Profile, j: Job)
    requires NonNegative(w)
    ensures 0.0 <= Evaluate(v, w, threshold, c, j).score <= 100.0
  {
    hide Components;
    var cs := Components(v, w, c, j);
    ComponentsInUnit(v, w, c, j);
    ComponentWeights(v, w, c, j);
    Round1Ends();
    if TotalWeight(cs) > 0.0 {
      ScoreBetween(cs, 0.0, 1.0);
    }
  }

  /** A candidate matches exactly when there is no reason to reject. */
  lemma MatchIffNoRejection(v: Vocabulary, w: Weights, threshold: real, c: Profile, j: Job)
    ensures Evaluate(v, w, threshold, c, j).isMatch <==> Evaluate(v, w, threshold, c, j).rejections == []
  {
    hide Components, AllBlockers, Dedup, ScoreOf;
  }

  // ---------------------------------------------------------------- monotonicity

  function WithSkill(c: Profile, s: Skill): Profile {
    c.(skills := c.skills + [s])
  }

  lemma CanonicalGrows(v: Vocabulary, c: Profile, s: Skill)
    ensures CanonicalSkills(v, c) <= CanonicalSkills(v, WithSkill(c, s))
  {
    assert forall x :: x in c.skills ==> x in WithSkill(c, s).skills;
  }

  lemma {:induction false} CreditsGrow(v: Vocabulary, skills: set<string>, skills': set<string>, pool: seq<string>)
    requires skills <= skills'
    ensures SumCredits(v, skills, pool) <= SumCredits(v, skills', pool)
    ensures forall k :: k in MissingIn(v, skills', pool) ==> k in MissingIn(v, skills, pool)
  {
    if pool != [] {
      CreditsGrow(v, skills, skills', pool[..|pool| - 1]);
    }
  }

  lemma QuotientGrows(a: real, b: real, n: real)
    requires a <= b && n > 0.0
    ensures a / n <= b / n
  {
  }

  lemma SkillsGrow(v: Vocabulary, w: Weights, c: Profile, s: Skill, j: Job)
    ensures SkillsComponent(v, w, c, j).score <= SkillsComponent(v, w, WithSkill(c, s), j).score
    ensures forall b :: b in SkillsComponent(v, w, WithSkill(c, s), j).blockers ==> b in SkillsComponent(v, w, c, j).blockers
  {
    var skills, skills' := CanonicalSkills(v, c), CanonicalSkills(v, WithSkill(c, s));
    var pool := Pool(j);
    CanonicalGrows(v, c, s);
    CreditsGrow(v, skills, skills', pool);
    BlockersAreLabels(v, MissingIn(v, skills, pool));
    BlockersAreLabels(v, MissingIn(v, skills', pool));
    if pool != [] {
      QuotientGrows(SumCredits(v, skills, pool), SumCredits(v, skills', pool), |pool| as real);
    }
  }

  lemma DomainGrows(v: Vocabulary, w: Weights, c: Profile, s: Skill, j: Job)
    ensures DomainComponent(v, w, c, j).score <= DomainComponent(v, w, WithSkill(c, s), j).score
    ensures DomainComponent(v, w, WithSkill(c, s), j).blockers == []
  {
    hide ContainsAny;
    CountIfAppend(c.skills, (s: Skill) => IsDomainSkill(v, s), s);
    assert DomainCount(v, c) <= DomainCount(v, WithSkill(c, s));
  }

  lemma LeadershipGrows(v: Vocabulary, w: Weights, c: Profile, s: Skill, j: Job)
    ensures LeadershipComponent(v, w, c, j).score <= LeadershipComponent(v, w, WithSkill(c, s), j).score
    ensures LeadershipComponent(v, w, WithSkill(c, s), j).blockers == []
  {
    hide ContainsAny, Rank;
    assert HasLeadership(v, c) ==> HasLeadership(v, WithSkill(c, s));
  }

  /** The seven components that do not look at skills. */
  lemma OthersStay(v: Vocabulary, w: Weights, c: Profile, s: Skill, j: Job)
    ensures var c' := WithSkill(c, s);
            && RoleComponent(v, w, c', j) == RoleComponent(v, w, c, j)
            && SeniorityComponent(v, w, c', j) == SeniorityComponent(v, w, c, j)
            && ExperienceComponent(w, c', j) == ExperienceComponent(w, c, j)
            && IndustryComponent(v, w, c', j) == IndustryComponent(v, w, c, j)
            && LocationComponent(v, w, c', j) == LocationComponent(v, w, c, j)
            && WorkModeComponent(v, w, c', j) == WorkModeComponent(v, w, c, j)
            && CompensationComponent(w, c', j) == CompensationComponent(w, c, j)
  {
    hide ContainsAny, Rank, Contains, MentionsAny, Preference, JobIndustries;
  }

  /** Component by component: same weight, no lower score, no new blocker. */
  ghost predicate NoWorse(cs: seq<Component>, cs': seq<Component>) {
    && |cs| == |cs'|
    && (forall i :: 0 <= i < |cs| ==> cs[i].weight == cs'[i].weight && cs[i].score <= cs'[i].score)
    && (forall i, b :: 0 <= i < |cs| && b in cs'[i].blockers ==> b in cs[i].blockers)
  }

  lemma ComponentsNoWorse(v: Vocabulary, w: Weights, c: Profile, s: Skill, j: Job)
    ensures NoWorse(Components(v, w, c, j), Components(v, w, WithSkill(c, s), j))
  {
    SkillsGrow(v, w, c, s, j);
    DomainGrows(v, w, c, s, j);
    LeadershipGrows(v, w, c, s, j);
    OthersStay(v, w, c, s, j);
    FirstWeights(v, w, c, j);
    FirstWeights(v, w, WithSkill(c, s), j);
    LastWeights(v, w, c, j);
    LastWeights(v, w, WithSkill(c, s), j);
    hide SkillsComponent, RoleComponent, SeniorityComponent, ExperienceComponent, DomainComponent, IndustryComponent,
      LeadershipComponent, LocationComponent, WorkModeComponent, CompensationComponent, WithSkill;
  }

  lemma {:induction false} SumsNoWorse(cs: seq<Component>, cs': seq<Component>)
    requires NoWorse(cs, cs')
    requires forall i :: 0 <= i < |cs| ==> cs[i].weight >= 0.0
    ensures TotalWeight(cs) == TotalWeight(cs') >= 0.0
    ensures WeightedSum(cs) <= WeightedSum(cs')
  {
    if cs != [] {
      var n := |cs| - 1;
      assert forall i :: 0 <= i < n ==> cs[..n][i] == cs[i] && cs'[..n][i] == cs'[i];
      SumsNoWorse(cs[..n], cs'[..n]);
      ScaleReal(cs[n].score, cs'[n].score, cs[n].weight);
      assert Points(cs[n]) <= Points(cs'[n]);
      hide Points;
    }
  }

  lemma {:induction false} BlockersNoWorse(cs: seq<Component>, cs': seq<Component>)
    requires NoWorse(cs, cs')
    ensures forall b :: b in ComponentBlockers(cs') ==> b in ComponentBlockers(cs)
  {
    if cs != [] {
      var n := |cs| - 1;
      assert forall i :: 0 <= i < n ==> cs[..n][i] == cs[i] && cs'[..n][i] == cs'[i];
      BlockersNoWorse(cs[..n], cs'[..n]);
    }
  }

  lemma ScoreNoWorse(cs: seq<Component>, cs': seq<Component>)
    requires NoWorse(cs, cs')
    requires forall i :: 0 <= i < |cs| ==> cs[i].weight >= 0.0
    ensures ScoreOf(cs) <= ScoreOf(cs')
  {
    hide NoWorse;
    SumsNoWorse(cs, cs');
    if TotalWeight(cs) > 0.0 {
      QuotientGrows(WeightedSum(cs), WeightedSum(cs'), TotalWeight(cs));
      Round1Monotone(WeightedSum(cs) / TotalWeight(cs) * 100.0, WeightedSum(cs') / TotalWeight(cs) * 100.0);
    }
  }

  lemma {:induction false} DedupKeepsElements(bs: seq<Blocker>)
    ensures forall b :: b in Dedup(bs) <==> b in bs
    ensures forall i, j :: 0 <= i < j < |Dedup(bs)| ==> Dedup(bs)[i] != Dedup(bs)[j]
  {
    if bs != [] {
      DedupKeepsElements(bs[..|bs| - 1]);
      assert bs == bs[..|bs| - 1] + [bs[|bs| - 1]];
    }
  }

  /**
   * Adding any skill to a profile never lowers the score, never adds a blocker
   * and never turns a match into a non-match, for any job, vocabulary and
   * non-negative weights.
   */
  lemma AddingASkillNeverHurts(v: Vocabulary, w: Weights, threshold: real, c: Profile, s: Skill, j: Job)
    requires NonNegative(w)
    ensures var before, after := Evaluate(v, w, threshold, c, j), Evaluate(v, w, threshold, WithSkill(c, s), j);
            && before.score <= after.score
            && (forall b :: b in after.blockers ==> b in before.blockers)
            && (before.isMatch ==> after.isMatch)
  {
    hide Components, NoWorse, ScoreOf;
    var cs, cs' := Components(v, w, c, j), Components(v, w, WithSkill(c, s), j);
    ComponentsNoWorse(v, w, c, s, j);
    ComponentWeights(v, w, c, j);
    ScoreNoWorse(cs, cs');
    BlockersNoWorse(cs, cs');
    DedupKeepsElements(AllBlockers(cs, j));
    DedupKeepsElements(AllBlockers(cs', j));
    NoBlockersLeft(Dedup(AllBlockers(cs, j)), Dedup(AllBlockers(cs', j)));
  }

  lemma NoBlockersLeft(before: seq<Blocker>, after: seq<Blocker>)
    requires forall b :: b in after ==> b in before
    ensures before == [] ==> after == []
  {
    if after != [] {
      assert after[0] in before;
    }
  }

  /**
   * The compensation branch is not monotone in the expectation: against a
   * disclosed range of 100 to 100, an expectation of 50 is blocked as "below
   * the expected range" while one of 200 only lowers the component.
   */
  lemma LowExpectationIsBlocked(w: Weights, c: Profile, j: Job)
    requires j.salaryMin == Some(100.0) && j.salaryMax == Some(100.0)
    ensures CompensationComponent(w, c.(expectedCompensation := Some(50)), j) == Component(w.compensation, 0.3, [CompensationBelow(100.0)])
    ensures CompensationComponent(w, c.(expectedCompensation := Some(100)), j) == Component(w.compensation, 1.0, [])
    ensures CompensationComponent(w, c.(expectedCompensation := Some(200)), j) == Component(w.compensation, 0.5, [])
  {
  }

  function WithExpectation(c: Profile, expected: int): Profile {
    c.(expectedCompensation := Some(expected))
  }

  /** The smaller expectation alone falls below 60 percent of a disclosed, positive middle of the range. */
  predicate Drops(j: Job, less: int, more: int) {
    && j.salaryMin.Some? && j.salaryMax.Some?
    && var mid := (j.salaryMin.value + j.salaryMax.value) / 2.0;
       mid > 0.0 && less as real < 0.6 * mid <= more as real
  }

  /** Asking for less makes the component worse, and adds its blocker, exactly when the expectation drops. */
  lemma AskingForLessHurtsExactly(w: Weights, c: Profile, j: Job, less: int, more: int)
    requires less <= more
    ensures var low := CompensationComponent(w, WithExpectation(c, less), j);
            var high := CompensationComponent(w, WithExpectation(c, more), j);
            && (low.score < high.score <==> Drops(j, less, more))
            && (low.blockers != [] && high.blockers == [] <==> Drops(j, less, more))
            && (low.blockers == [] ==> high.blockers == [])
            && (low.blockers != [] && high.blockers != [] ==> low.blockers == high.blockers)
  {
    if j.salaryMin.Some? && j.salaryMax.Some? {
      var mid := (j.salaryMin.value + j.salaryMax.value) / 2.0;
      if mid > 0.0 {
        RatioBelow(less as real, mid, 0.6);
        RatioBelow(more as real, mid, 0.6);
        QuotientGrows(less as real, more as real, mid);
      }
    }
  }

  /** The nine components that do not look at the expectation. */
  lemma OthersIgnoreExpectation(v: Vocabulary, w: Weights, c: Profile, j: Job, expected: int)
    ensures var c' := WithExpectation(c, expected);
            && SkillsComponent(v, w, c', j) == SkillsComponent(v, w, c, j)
            && RoleComponent(v, w, c', j) == RoleComponent(v, w, c, j)
            && SeniorityComponent(v, w, c', j) == SeniorityComponent(v, w, c, j)
            && ExperienceComponent(w, c', j) == ExperienceComponent(w, c, j)
            && DomainComponent(v, w, c', j) == DomainComponent(v, w, c, j)
            && IndustryComponent(v, w, c', j) == IndustryComponent(v, w, c, j)
            && LeadershipComponent(v, w, c', j) == LeadershipComponent(v, w, c, j)
            && LocationComponent(v, w, c', j) == LocationComponent(v, w, c, j)
            && WorkModeComponent(v, w, c', j) == WorkModeComponent(v, w, c, j)
  {
    hide ContainsAny, Rank, Contains, MentionsAny, Preference, JobIndustries, SumCredits, MissingIn, MissingBlockers;
    assert CanonicalSkills(v, WithExpectation(c, expected)) == CanonicalSkills(v, c);
    hide CanonicalSkills;
  }

  /** The components under two expectations differ in the last one only. */
  lemma OnlyCompensationDiffers(v: Vocabulary, w: Weights, c: Profile, j: Job, less: int, more: int)
    ensures var low, high := Components(v, w, WithExpectation(c, less), j), Components(v, w, WithExpectation(c, more), j);
            && low[..9] == high[..9]
            && low[9] == CompensationComponent(w, WithExpectation(c, less), j)
            && high[9] == CompensationComponent(w, WithExpectation(c, more), j)
            && low[9].weight == high[9].weight
  {
    OthersIgnoreExpectation(v, w, c, j, less);
    OthersIgnoreExpectation(v, w, c, j, more);
    LastWeights(v, w, WithExpectation(c, less), j);
    LastWeights(v, w, WithExpectation(c, more), j);
    hide SkillsComponent, RoleComponent, SeniorityComponent, ExperienceComponent, DomainComponent, IndustryComponent,
      LeadershipComponent, LocationComponent, WorkModeComponent, CompensationComponent, WithExpectation, ComponentBlockers;
  }

  /** Blockers none of which speaks of pay. */
  predicate NoPay(bs: seq<Blocker>) {
    forall b :: b in bs ==> !b.CompensationBelow?
  }

  lemma {:induction false} NoPayInAny(cs: seq<Component>)
    requires forall i :: 0 <= i < |cs| ==> NoPay(cs[i].blockers)
    ensures NoPay(ComponentBlockers(cs))
  {
    if cs != [] {
      var n := |cs| - 1;
      assert forall i :: 0 <= i < n ==> cs[..n][i] == cs[i];
      NoPayInAny(cs[..n]);
    }
  }

  /** Seven components never block. */
  lemma NoBlockers(v: Vocabulary, w: Weights, c: Profile, j: Job)
    ensures RoleComponent(v, w, c, j).blockers == [] && SeniorityComponent(v, w, c, j).blockers == []
    ensures DomainComponent(v, w, c, j).blockers == [] && IndustryComponent(v, w, c, j).blockers == []
    ensures LeadershipComponent(v, w, c, j).blockers == [] && LocationComponent(v, w, c, j).blockers == []
    ensures WorkModeComponent(v, w, c, j).blockers == []
  {
    hide ContainsAny, Rank, HasLeadership, DomainCount, JobIndustries, MentionsAny, Contains, Preference;
  }

  lemma SkillsNeverMentionPay(v: Vocabulary, w: Weights, c: Profile, j: Job)
    ensures NoPay(SkillsComponent(v, w, c, j).blockers)
  {
    BlockersAreLabels(v, MissingIn(v, CanonicalSkills(v, c), Pool(j)));
    hide CanonicalSkills, SumCredits, MissingIn, MissingBlockers;
  }

  lemma ExperienceNeverMentionsPay(w: Weights, c: Profile, j: Job)
    ensures NoPay(ExperienceComponent(w, c, j).blockers)
  {
  }

  lemma OthersNeverMentionPay(v: Vocabulary, w: Weights, c: Profile, j: Job)
    ensures NoPay(ComponentBlockers(Components(v, w, c, j)[..9]))
  {
    hide SkillsComponent, RoleComponent, SeniorityComponent, ExperienceComponent, DomainComponent, IndustryComponent,
      LeadershipComponent, LocationComponent, WorkModeComponent, CompensationComponent, NoPay, ComponentBlockers;
    NoBlockers(v, w, c, j);
    SkillsNeverMentionPay(v, w, c, j);
    ExperienceNeverMentionsPay(w, c, j);
    NothingHasNoPay();
    NoPayInAny(Components(v, w, c, j)[..9]);
  }

  lemma NothingHasNoPay()
    ensures NoPay([])
  {
  }

  lemma BlockersOfAll(cs: seq<Component>, j: Job)
    requires |cs| == 10
    ensures forall b :: b in AllBlockers(cs, j) <==>
              || b in ComponentBlockers(cs[..9]) || b in cs[9].blockers
              || (j.requiresClearance && b == ClearanceRequired) || (j.requiresWorkAuth && b == WorkAuthRequired)
  {
    assert ComponentBlockers(cs) == ComponentBlockers(cs[..9]) + cs[9].blockers;
  }

  lemma ScoreByLast(cs: seq<Component>, cs': seq<Component>)
    requires |cs| == |cs'| == 10 && cs[..9] == cs'[..9]
    requires cs[9].weight == cs'[9].weight && cs[9].score <= cs'[9].score
    requires forall i :: 0 <= i < 10 ==> cs[i].weight >= 0.0
    ensures ScoreOf(cs) <= ScoreOf(cs')
  {
    ScaleReal(cs[9].score, cs'[9].score, cs[9].weight);
    assert WeightedSum(cs) == WeightedSum(cs[..9]) + Points(cs[9]) && WeightedSum(cs') == WeightedSum(cs'[..9]) + Points(cs'[9]);
    assert TotalWeight(cs) == TotalWeight(cs');
    assert Points(cs[9]) <= Points(cs'[9]);
    hide WeightedSum, TotalWeight, Points, Round1;
    if TotalWeight(cs) > 0.0 {
      QuotientGrows(WeightedSum(cs), WeightedSum(cs'), TotalWeight(cs));
      Round1Monotone(WeightedSum(cs) / TotalWeight(cs) * 100.0, WeightedSum(cs') / TotalWeight(cs) * 100.0);
    }
  }

  /** Whether a verdict lists pay below the expected range. */
  predicate PayBlocked(out: MatchOutput) {
    exists b :: b in out.blockers && b.CompensationBelow?
  }

  lemma PayOnly(w: Weights, c: Profile, j: Job)
    ensures forall b :: b in CompensationComponent(w, c, j).blockers ==> b.CompensationBelow?
  {
  }

  /** The pay blocker of a verdict is the one of its last component. */
  lemma PayBlockedExactly(v: Vocabulary, w: Weights, threshold: real, c: Profile, j: Job)
    ensures PayBlocked(Evaluate(v, w, threshold, c, j)) <==> CompensationComponent(w, c, j).blockers != []
  {
    var cs := Components(v, w, c, j);
    var out := Evaluate(v, w, threshold, c, j);
    hide SkillsComponent, RoleComponent, SeniorityComponent, ExperienceComponent, DomainComponent, IndustryComponent,
      LeadershipComponent, LocationComponent, WorkModeComponent, CompensationComponent, ComponentBlockers, AllBlockers, Dedup, ScoreOf;
    assert cs[9] == CompensationComponent(w, c, j);
    assert out.blockers == Dedup(AllBlockers(cs, j));
    OthersNeverMentionPay(v, w, c, j);
    hide Components, Evaluate, Rejections;
    PayOnly(w, c, j);
    DedupKeepsElements(AllBlockers(cs, j));
    PayInAll(cs, j);
  }

  lemma PayInAll(cs: seq<Component>, j: Job)
    requires |cs| == 10 && NoPay(ComponentBlockers(cs[..9]))
    requires forall b :: b in cs[9].blockers ==> b.CompensationBelow?
    ensures (exists b :: b in AllBlockers(cs, j) && b.CompensationBelow?) <==> cs[9].blockers != []
  {
    BlockersOfAll(cs, j);
    hide ComponentBlockers, AllBlockers;
    if cs[9].blockers != [] {
      assert cs[9].blockers[0] in AllBlockers(cs, j);
    }
  }

  /**
   * For any candidate, job and non-negative weights, asking for less adds the pay
   * blocker to the verdict exactly when the expectation drops, and turns a match
   * into a non-match exactly then; otherwise it never lowers the score.
   */
  lemma AskingForLessUnmatchesExactly(v: Vocabulary, w: Weights, threshold: real, c: Profile, j: Job, less: int, more: int)
    requires NonNegative(w) && less <= more
    ensures var low := Evaluate(v, w, threshold, WithExpectation(c, less), j);
            var high := Evaluate(v, w, threshold, WithExpectation(c, more), j);
            && (PayBlocked(low) && !PayBlocked(high) <==> Drops(j, less, more))
            && (high.isMatch ==> (!low.isMatch <==> Drops(j, less, more)))
            && (!Drops(j, less, more) ==> low.score >= high.score)
  {
    AskingForLessHurtsExactly(w, c, j, less, more);
    PayBlockedExactly(v, w, threshold, WithExpectation(c, less), j);
    PayBlockedExactly(v, w, threshold, WithExpectation(c, more), j);
    OnlyCompensationDiffers(v, w, c, j, less, more);
    ComponentWeights(v, w, WithExpectation(c, less), j);
    ComponentWeights(v, w, WithExpectation(c, more), j);
    var low, high := Components(v, w, WithExpectation(c, less), j), Components(v, w, WithExpectation(c, more), j);
    hide Components, CompensationComponent, WithExpectation, Drops, ScoreOf, AllBlockers, Dedup, ComponentBlockers;
    if !Drops(j, less, more) {
      ScoreByLast(high, low);
      BlockersOfAll(low, j);
      BlockersOfAll(high, j);
      DedupKeepsElements(AllBlockers(low, j));
      DedupKeepsElements(AllBlockers(high, j));
      NoBlockersLeft(Dedup(AllBlockers(high, j)), Dedup(AllBlockers(low, j)));
    }
  }

  lemma RatioBelow(x: real, mid: real, bound: real)
    requires mid > 0.0
    ensures x / mid < bound <==> x < bound * mid
  {
    var q := x / mid;
    assert q * mid == x;
    assert (q - bound) * mid == x - bound * mid;
  }
}
