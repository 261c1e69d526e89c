/**
 * The explainable matching engine: ten weighted components give a score from 0
 * to 100, a list of blockers and a verdict. Arithmetic is over the reals.
 */
module Matching {
  import opened Prelude
  import opened Texts

  // ------------------------------------------------------------------ vocabulary

  /** The text and skill functions of other modules, as the scorer calls them. */
  datatype Vocabulary = Vocabulary(
    lower: string -> string,
    tokens: string -> set<string>,
    canonical: string -> Option<string>,
    related: string -> seq<string>,
    labelOf: string -> string)

  // --------------------------------------------------------------------- profiles

  datatype Skill = Skill(name: string, category: Option<string>)

  datatype Experience = Experience(domain: Option<string>, leads: bool, teamSize: Option<int>)

  datatype Preferences = Preferences(
    industries: seq<string>,
    excludedIndustries: seq<string>,
    locations: seq<string>,
    excludedLocations: seq<string>)

  datatype Profile = Profile(
    currentRole: Option<string>,
    targetRole: Option<string>,
    years: Option<int>,
    seniority: Option<string>,
    workMode: Option<string>,
    expectedCompensation: Option<int>,
    preferences: Preferences,
    city: string,
    country: string,
    skills: seq<Skill>,
    experiences: seq<Experience>)

  /** A parsed job; its skill sets are listed in sorted order, without repetition. */
  datatype Job = Job(
    title: string,
    location: Option<string>,
    description: Option<string>,
    minYears: Option<int>,
    salaryMin: Option<real>,
    salaryMax: Option<real>,
    required: seq<string>,
    preferred: seq<string>,
    workModes: set<string>,
    requiresClearance: bool,
    requiresWorkAuth: bool)

  predicate Distinct(s: seq<string>) {
    forall i, j :: 0 <= i < j < |s| ==> s[i] != s[j]
  }

  datatype Weights = Weights(
    skills: real,
    role: real,
    seniority: real,
    experience: real,
    domain: real,
    industry: real,
    leadership: real,
    location: real,
    workMode: real,
    compensation: real)

  predicate NonNegative(w: Weights) {
    && w.skills >= 0.0 && w.role >= 0.0 && w.seniority >= 0.0 && w.experience >= 0.0 && w.domain >= 0.0
    && w.industry >= 0.0 && w.leadership >= 0.0 && w.location >= 0.0 && w.workMode >= 0.0 && w.compensation >= 0.0
  }

  /** The canonical keys of a candidate's skills. */
  function CanonicalSkills(v: Vocabulary, c: Profile): set<string> {
    set s | s in c.skills && v.canonical(s.name).Some? && v.canonical(s.name).value != "" :: v.canonical(s.name).value
  }

  const DOMAIN_EXPERIENCE_TERMS: seq<string> := ["telecom", "oss", "bss", "billing", "network", "5g", "lte"]

  predicate InDomain(v: Vocabulary, e: Experience) {
    ContainsAny(v.lower(OrEmpty(e.domain)), DOMAIN_EXPERIENCE_TERMS)
  }

  predicate IsDomainSkill(v: Vocabulary, s: Skill) {
    s.category.Some? && s.category.value != "" && v.lower(s.category.value) in {"telecom", "oss_bss"}
  }

  function DomainCount(v: Vocabulary, c: Profile): nat {
    CountIf(c.experiences, (e: Experience) => InDomain(v, e)) + CountIf(c.skills, (s: Skill) => IsDomainSkill(v, s))
  }

  predicate HasLeadership(v: Vocabulary, c: Profile) {
    || (exists e :: e in c.experiences && e.leads)
    || (exists e :: e in c.experiences && e.teamSize.Some? && e.teamSize.value > 1)
    || (exists s :: s in c.skills && v.lower(s.name) in {"people management", "team leadership"})
    || Rank(v, FirstOf(c.seniority, c.currentRole)) >= 3
  }

  // -------------------------------------------------------------------- seniority

  /** The rank of a seniority text: junior 0, mid 1, senior 2, lead 3, executive 4. */
  function Rank(v: Vocabulary, term: Option<string>): (r: nat)
    ensures r <= 4
  {
    if term.None? || term.value == "" then 1
    else
      var text := v.lower(term.value);
      if ContainsAny(text, ["executive", "chief", "cto", "cfo", "cio", "cxo"]) then 4
      else if ContainsAny(text, ["director", "head of", "group manager", "vp"]) then 3
      else if ContainsAny(text, ["senior", "lead", "staff", "principal", "architect", "manager", "engineering manager"]) then 2
      else if ContainsAny(text, ["junior", "trainee", "graduate", "entry", "associate"]) then 0
      else 1
  }

  // ------------------------------------------------------------------- components

  datatype Blocker =
    | MissingSkill(skill: string)
    | HardExperienceGap(years: int)
    | CompensationBelow(mid: real)
    | ClearanceRequired
    | WorkAuthRequired

  datatype Component = Component(weight: real, score: real, blockers: seq<Blocker>)

  predicate IsTransferable(v: Vocabulary, skills: set<string>, key: string) {
    key !in skills && exists r :: r in v.related(key) && r in skills
  }

  predicate IsMissing(v: Vocabulary, skills: set<string>, key: string) {
    key !in skills && !IsTransferable(v, skills, key)
  }

  function Credit(v: Vocabulary, skills: set<string>, key: string): real {
    if key in skills then 1.0 else if IsTransferable(v, skills, key) then 0.5 else 0.0
  }

  function SumCredits(v: Vocabulary, skills: set<string>, pool: seq<string>): real {
    if pool == [] then 0.0 else SumCredits(v, skills, pool[..|pool| - 1]) + Credit(v, skills, pool[|pool| - 1])
  }

  /** The keys of a pool that have neither the skill nor a related one, in order. */
  function MissingIn(v: Vocabulary, skills: set<string>, pool: seq<string>): seq<string> {
    if pool == [] then []
    else
      var key := pool[|pool| - 1];
      MissingIn(v, skills, pool[..|pool| - 1]) + if IsMissing(v, skills, key) then [key] else []
  }

  function MissingBlockers(v: Vocabulary, keys: seq<string>): seq<Blocker> {
    seq(|keys|, i requires 0 <= i < |keys| => MissingSkill(v.labelOf(keys[i])))
  }

  /** The skills a job is matched on: the required ones, or the preferred ones when none is required. */
  function Pool(j: Job): seq<string> {
    if j.required != [] then j.required else j.preferred
  }

  function SkillsComponent(v: Vocabulary, w: Weights, c: Profile, j: Job): Component {
    var skills := CanonicalSkills(v, c);
    if Pool(j) == [] then Component(w.skills, 1.0, [])
    else Component(w.skills, SumCredits(v, skills, Pool(j)) / |Pool(j)| as real, MissingBlockers(v, MissingIn(v, skills, Pool(j))))
  }

  function MinReal(a: real, b: real): real {
    if a < b then a else b
  }

  function RoleComponent(v: Vocabulary, w: Weights, c: Profile, j: Job): Component {
    var target := v.tokens(OrEmpty(c.targetRole) + " " + OrEmpty(c.currentRole));
    var title := v.tokens(j.title);
    if target == {} || title == {} then Component(w.role, 0.7, [])
    else
      var coverage := |target * title| as real / |title| as real;
      var direct := if target * title != {} then 1.0 else 0.0;
      Component(w.role, MinReal(1.0, 0.25 + 0.45 * coverage + 0.30 * direct), [])
  }

  function SeniorityComponent(v: Vocabulary, w: Weights, c: Profile, j: Job): Component {
    var gap := Rank(v, Some(j.title)) - Rank(v, FirstOf(c.seniority, c.currentRole));
    Component(w.seniority, if gap == 0 then 1.0 else if gap == 1 then 0.75 else if gap >= 2 then 0.4 else 0.6, [])
  }

  function ExperienceComponent(w: Weights, c: Profile, j: Job): Component {
    if j.minYears.None? then Component(w.experience, 1.0, [])
    else if c.years.None? then Component(w.experience, 0.6, [])
    else if c.years.value >= j.minYears.value then Component(w.experience, 1.0, [])
    else if c.years.value as real >= j.minYears.value as real * 0.6 then Component(w.experience, 0.6, [])
    else Component(w.experience, 0.25, [HardExperienceGap(j.minYears.value)])
  }

  function FullText(v: Vocabulary, j: Job): string {
    v.lower(j.title + " " + OrEmpty(j.location) + " " + OrEmpty(j.description))
  }

  const JOB_DOMAIN_TERMS: seq<string> := [
    "telecom", "5g", "4g", "lte", "volt", "ims", "core network", "network function", "bss", "oss", "billing",
    "provisioning", "charging", "mediation", "service assurance"]

  function DomainComponent(v: Vocabulary, w: Weights, c: Profile, j: Job): Component {
    if !ContainsAny(FullText(v, j), JOB_DOMAIN_TERMS) then Component(w.domain, 0.75, [])
    else if DomainCount(v, c) >= 1 then Component(w.domain, 1.0, [])
    else Component(w.domain, 0.4, [])
  }

  /** The non-empty entries of a preference list, in lower case. */
  function Preference(v: Vocabulary, raw: seq<string>): set<string> {
    set s | s in raw && s != "" :: v.lower(s)
  }

  datatype Industry = Industry(name: string, terms: seq<string>)

  const INDUSTRIES: seq<Industry> := [
    Industry("telecommunications", ["telecom", "5g", "lte", "wireless", "mobile network", "telco"]),
    Industry("bss_oss", ["bss", "oss", "billing", "provisioning", "service assurance", "mediation", "charging"]),
    Industry("banking_finance", ["banking", "fintech", "payments", "financial services", "trading"]),
    Industry("saas_software", ["saas", "software", "cloud platform", "b2b", "enterprise software"]),
    Industry("ecommerce_retail", ["e-commerce", "ecommerce", "retail", "marketplace"]),
    Industry("healthcare", ["healthcare", "hospital", "health tech", "clinical"]),
    Industry("gaming", ["gaming", "game development"]),
    Industry("manufacturing", ["manufacturing", "industrial", "iot"]),
    Industry("consulting", ["consulting", "services firm"])]

  function JobIndustries(v: Vocabulary, j: Job): set<string> {
    set x | x in INDUSTRIES && ContainsAny(FullText(v, j), x.terms) :: x.name
  }

  function IndustryComponent(v: Vocabulary, w: Weights, c: Profile, j: Job): Component {
    var found := JobIndustries(v, j);
    if found == {} then Component(w.industry, 0.7, [])
    else if found * Preference(v, c.preferences.industries) != {} then Component(w.industry, 1.0, [])
    else if found * Preference(v, c.preferences.excludedIndustries) != {} then Component(w.industry, 0.0, [])
    else Component(w.industry, 0.6, [])
  }

  const LEADERSHIP_TERMS: seq<string> := [
    "lead", "leading", "manage a team", "people management", "mentor", "team lead", "manager", "people leadership"]

  function LeadershipComponent(v: Vocabulary, w: Weights, c: Profile, j: Job): Component {
    if !ContainsAny(v.lower(j.title + " " + OrEmpty(j.description)), LEADERSHIP_TERMS) then Component(w.leadership, 1.0, [])
    else if HasLeadership(v, c) then Component(w.leadership, 1.0, [])
    else Component(w.leadership, 0.3, [])
  }

  predicate MentionsAny(text: string, names: set<string>) {
    exists n :: n in names && Contains(text, n)
  }

  function LocationComponent(v: Vocabulary, w: Weights, c: Profile, j: Job): Component {
    var place := v.lower(OrEmpty(j.location));
    var city, country := v.lower(c.city), v.lower(c.country);
    if "remote" in j.workModes then Component(w.location, if c.workMode == Some("onsite") then 0.5 else 1.0, [])
    else if place == "" then Component(w.location, 0.8, [])
    else if city != "" && Contains(place, city) then Component(w.location, 1.0, [])
    else if country != "" && Contains(place, country) then Component(w.location, 0.7, [])
    else if MentionsAny(place, Preference(v, c.preferences.locations)) then Component(w.location, 1.0, [])
    else if MentionsAny(place, Preference(v, c.preferences.excludedLocations)) then Component(w.location, 0.0, [])
    else Component(w.location, 0.5, [])
  }

  function WorkModeComponent(v: Vocabulary, w: Weights, c: Profile, j: Job): Component {
    if j.workModes == {} then Component(w.workMode, 0.8, [])
    else if v.lower(OrEmpty(c.workMode)) in j.workModes then Component(w.workMode, 1.0, [])
    else Component(w.workMode, 0.3, [])
  }

  function CompensationComponent(w: Weights, c: Profile, j: Job): Component {
    if j.salaryMin.None? || j.salaryMax.None? then Component(w.compensation, 0.8, [])
    else if c.expectedCompensation.None? then Component(w.compensation, 0.7, [])
    else
      var mid := (j.salaryMin.value + j.salaryMax.value) / 2.0;
      if mid <= 0.0 then Component(w.compensation, 0.8, [])
      else
        var ratio := c.expectedCompensation.value as real / mid;
        if 0.6 <= ratio <= 1.4 then Component(w.compensation, 1.0, [])
        else if ratio > 1.4 then Component(w.compensation, 0.5, [])
        else Component(w.compensation, 0.3, [CompensationBelow(mid)])
  }

  function Components(v: Vocabulary, w: Weights, c: Profile, j: Job): (cs: seq<Component>)
    ensures |cs| == 10
  {
    [SkillsComponent(v, w, c, j), RoleComponent(v, w, c, j), SeniorityComponent(v, w, c, j), ExperienceComponent(w, c, j),
     DomainComponent(v, w, c, j), IndustryComponent(v, w, c, j), LeadershipComponent(v, w, c, j),
     LocationComponent(v, w, c, j), WorkModeComponent(v, w, c, j), CompensationComponent(w, c, j)]
  }

  // ---------------------------------------------------------------------- verdict

  /** Round half to even, to the nearest integer. */
  function RoundHalfEven(x: real): int {
    var f := x.Floor;
    var rest := x - f as real;
    if rest < 0.5 then f
    else if rest > 0.5 then f + 1
    else if f % 2 == 0 then f else f + 1
  }

  /** Round to one decimal. */
  function Round1(x: real): real {
    RoundHalfEven(x * 10.0) as real / 10.0
  }

  function TotalWeight(cs: seq<Component>): real {
    if cs == [] then 0.0 else TotalWeight(cs[..|cs| - 1]) + cs[|cs| - 1].weight
  }

  /** What a component adds to the weighted sum. */
  function Points(c: Component): real {
    c.score * c.weight
  }

  function WeightedSum(cs: seq<Component>): real {
    if cs == [] then 0.0 else WeightedSum(cs[..|cs| - 1]) + Points(cs[|cs| - 1])
  }

  function ScoreOf(cs: seq<Component>): real {
    Round1(if TotalWeight(cs) > 0.0 then WeightedSum(cs) / TotalWeight(cs) * 100.0 else 0.0)
  }

  function AllBlockers(cs: seq<Component>, j: Job): seq<Blocker> {
    ComponentBlockers(cs)
    + (if j.requiresClearance then [ClearanceRequired] else [])
    + (if j.requiresWorkAuth then [WorkAuthRequired] else [])
  }

  function ComponentBlockers(cs: seq<Component>): seq<Blocker> {
    if cs == [] then [] else ComponentBlockers(cs[..|cs| - 1]) + cs[|cs| - 1].blockers
  }

  /** A list without repetitions, each element where it first occurs. */
  function Dedup(bs: seq<Blocker>): seq<Blocker> {
    if bs == [] then []
    else
      var earlier := Dedup(bs[..|bs| - 1]);
      if bs[|bs| - 1] in earlier then earlier else earlier + [bs[|bs| - 1]]
  }

  datatype Rejection = Blocked(blocker: Blocker) | BelowThreshold

  function Rejections(blockers: seq<Blocker>, score: real, threshold: real): seq<Rejection> {
    var shown := if |blockers| <= 4 then blockers else blockers[..4];
    seq(|shown|, i requires 0 <= i < |shown| => Blocked(shown[i])) + if score < threshold then [BelowThreshold] else []
  }

  datatype MatchOutput = MatchOutput(score: real, isMatch: bool, blockers: seq<Blocker>, rejections: seq<Rejection>)

  function Evaluate(v: Vocabulary, w: Weights, threshold: real, c: Profile, j: Job): MatchOutput {
    var cs := Components(v, w, c, j);
    var blockers := Dedup(AllBlockers(cs, j));
    MatchOutput(ScoreOf(cs), ScoreOf(cs) >= threshold && blockers == [], blockers, Rejections(blockers, ScoreOf(cs), threshold))
  }

  // ----------------------------------------------------- separately coded label sets

  function MatchedKeys(v: Vocabulary, c: Profile, j: Job): set<string> {
    set k | k in Pool(j) && k in CanonicalSkills(v, c)
  }

  function MissingKeys(v: Vocabulary, c: Profile, j: Job): set<string> {
    set k | k in j.required && k !in CanonicalSkills(v, c)
  }

  function TransferableKeys(v: Vocabulary, c: Profile, j: Job): set<string> {
    set k | k in j.required && k !in CanonicalSkills(v, c) && exists r :: r in v.related(k) && r in CanonicalSkills(v, c)
  }
}
