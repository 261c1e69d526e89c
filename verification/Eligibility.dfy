/** Read-only eligibility decisions over the ingestion records of a candidate. */
module Eligibility {
  import opened Prelude
  import opened JobStore
  import opened Ingestion
  import IngestionReplay

  datatype ReasonCode =
    | EligibleVerified
    | EligiblePartialControlled
    | ExcludedPartialPolicyPending
    | ExcludedPartialNoUrl
    | ExcludedUnresolved
    | ExcludedRejected
    | ExcludedVerifiedIncomplete
    | ExcludedNoJob
    | ExcludedUnknownState

  datatype Field = OfficialUrl | OfficialId | OfficialDomain

  datatype Decision = Decision(record: Record, eligible: bool, code: ReasonCode, missing: seq<Field>)

  function FieldOf(r: Record, f: Field): Option<string> {
    match f
    case OfficialUrl => r.url
    case OfficialId => r.officialId
    case OfficialDomain => r.domain
  }

  /** Which of the fields are absent or empty, in the order asked. */
  function MissingFor(r: Record, fields: seq<Field>): seq<Field> {
    if fields == [] then []
    else (if IsEmpty(FieldOf(r, fields[0])) then [fields[0]] else []) + MissingFor(r, fields[1..])
  }

  function VerifiedDecision(r: Record): Decision {
    var missing := MissingFor(r, [OfficialUrl, OfficialId, OfficialDomain]);
    if missing != [] then Decision(r, false, ExcludedVerifiedIncomplete, missing)
    else if r.jobId.None? then Decision(r, false, ExcludedNoJob, [])
    else Decision(r, true, EligibleVerified, [])
  }

  function PartialDecision(env: Env, r: Record, allowPartial: bool): Decision {
    if IsBlank(env, r.url) then Decision(r, false, ExcludedPartialNoUrl, MissingFor(r, [OfficialUrl]))
    else if r.jobId.None? then Decision(r, false, ExcludedNoJob, [])
    else if !allowPartial then Decision(r, false, ExcludedPartialPolicyPending, [])
    else Decision(r, true, EligiblePartialControlled, [])
  }

  function Decide(env: Env, r: Record, allowPartial: bool): Decision {
    match r.processing
    case RejectedInvalid => Decision(r, false, ExcludedRejected, [])
    case QuarantinedUnresolved => Decision(r, false, ExcludedUnresolved, [])
    case QuarantinedPartialNoUrl => Decision(r, false, ExcludedPartialNoUrl, MissingFor(r, [OfficialUrl]))
    case AcceptedVerified => VerifiedDecision(r)
    case AcceptedPartial => PartialDecision(env, r, allowPartial)
  }

  /** Every decision, read off the record: its state, its identity fields, its job and the policy. */
  lemma DecidesExactly(env: Env, r: Record, allowPartial: bool)
    ensures var d := Decide(env, r, allowPartial);
            var complete := !IsEmpty(r.url) && !IsEmpty(r.officialId) && !IsEmpty(r.domain);
            var located := r.url.Some? && exists c :: c in r.url.value && !IsSpace(env, c);
            && d.record == r
            && (d.code == ExcludedRejected <==> r.processing.RejectedInvalid?)
            && (d.code == ExcludedUnresolved <==> r.processing.QuarantinedUnresolved?)
            && (d.code == ExcludedPartialNoUrl <==>
                  r.processing.QuarantinedPartialNoUrl? || (r.processing.AcceptedPartial? && !located))
            && (d.code == ExcludedVerifiedIncomplete <==> r.processing.AcceptedVerified? && !complete)
            && (d.code == ExcludedNoJob <==>
                  r.jobId.None? && ((r.processing.AcceptedVerified? && complete) || (r.processing.AcceptedPartial? && located)))
            && (d.code == EligibleVerified <==> r.processing.AcceptedVerified? && complete && r.jobId.Some?)
            && (d.code == ExcludedPartialPolicyPending <==>
                  r.processing.AcceptedPartial? && located && r.jobId.Some? && !allowPartial)
            && (d.code == EligiblePartialControlled <==>
                  r.processing.AcceptedPartial? && located && r.jobId.Some? && allowPartial)
            && (d.eligible <==> d.code == EligibleVerified || d.code == EligiblePartialControlled)
            && (forall f :: f in d.missing ==> IsEmpty(FieldOf(r, f)))
            && (d.code == ExcludedVerifiedIncomplete ==> forall f :: f in d.missing <==> IsEmpty(FieldOf(r, f)))
            && (d.code !in {ExcludedVerifiedIncomplete, ExcludedPartialNoUrl} ==> d.missing == [])
  {
    MissingExactly(r, [OfficialUrl, OfficialId, OfficialDomain]);
    MissingExactly(r, [OfficialUrl]);
    EveryField();
    NothingMissing(r, [OfficialUrl, OfficialId, OfficialDomain]);
    hide MissingFor;
    assert FieldOf(r, OfficialUrl) == r.url && FieldOf(r, OfficialId) == r.officialId && FieldOf(r, OfficialDomain) == r.domain;
    hide FieldOf;
  }

  lemma EveryField()
    ensures forall f: Field :: f in [OfficialUrl, OfficialId, OfficialDomain]
  {
    var fields := [OfficialUrl, OfficialId, OfficialDomain];
    assert fields[0] in fields && fields[1] in fields && fields[2] in fields;
    forall f: Field ensures f in fields {
      assert f.OfficialUrl? || f.OfficialId? || f.OfficialDomain?;
    }
  }

  lemma {:induction false} MissingExactly(r: Record, fields: seq<Field>)
    ensures forall f :: f in MissingFor(r, fields) <==> f in fields && IsEmpty(FieldOf(r, f))
  {
    if fields != [] {
      MissingExactly(r, fields[1..]);
      assert fields == [fields[0]] + fields[1..];
    }
  }

  // ----------------------------------------------------- what ingestion guarantees

  /** The evidence an accepted record always carries. */
  ghost predicate WellFiled(env: Env, jobs: seq<Job>, r: Record) {
    && (r.jobId.Some? ==> r.jobId.value < |jobs| && jobs[r.jobId.value].candidate == r.candidate)
    && (r.processing == AcceptedVerified ==>
          r.jobId.Some? && !IsBlank(env, r.url) && !IsEmpty(r.officialId) && !IsEmpty(r.domain))
    && (r.processing == AcceptedPartial ==> r.jobId.Some? && !IsBlank(env, r.url))
    && (r.processing !in {AcceptedVerified, AcceptedPartial} ==> r.jobId.None?)
    && (r.processing == AcceptedVerified <==> r.processing != RejectedInvalid && r.verification == Some(VerifiedEvidence))
  }

  ghost predicate AllWellFiled(env: Env, st: State) {
    forall i :: 0 <= i < |st.records| ==> WellFiled(env, st.store.jobs, st.records[i])
  }

  /** The disposition of validated evidence, read off its status, URL and identity fields. */
  lemma DispositionExactly(env: Env, s: Store, candidate: nat, e: Evidence, hash: Text)
    ensures var c := Classify(env, s, candidate, e, hash);
            var url := Ingestion.OfficialUrl(env, e);
            && (c.processing == AcceptedVerified <==>
                  e.status == Some(VerifiedEvidence) && url.GoodUrl? && !IsEmpty(e.jobId) && !IsEmpty(e.domain))
            && (c.processing == AcceptedPartial <==> e.status == Some(PartialEvidence) && url.GoodUrl?)
            && (c.processing == QuarantinedPartialNoUrl <==> e.status == Some(PartialEvidence) && url.NoUrl?)
            && (c.processing == QuarantinedUnresolved <==> e.status == Some(UnresolvedEvidence) && !url.BadUrl?)
            && (c.jobId.Some? <==> c.processing in {AcceptedVerified, AcceptedPartial})
            && (c.jobId.None? ==> c.store == s && !c.jobCreated)
  {
    hide UpsertJob;
  }

  /** The job an upsert names belongs to the candidate and shares the URL, the hash, or the company and external id. */
  lemma UpsertPlaces(s: Store, candidate: nat, e: Evidence, url: Text, hash: Text)
    requires Unique(s.jobs)
    ensures var (s', job, created) := UpsertJob(s, candidate, e, url, hash);
            var company := GetOrCreateByDomain(s.companies, if e.company.Some? then e.company.value else "None", e.domain).1;
            && Unique(s'.jobs) && s.jobs <= s'.jobs && s.companies <= s'.companies
            && job < |s'.jobs| && s'.jobs[job].candidate == candidate
            && (s'.jobs[job].url == url || s'.jobs[job].hash == hash
                || (e.jobId.Some? && s'.jobs[job].externalId == e.jobId && s'.jobs[job].company == company))
            && (created ==> |s'.jobs| == |s.jobs| + 1 && s'.jobs[job].status == Discovered)
            && (!created ==> s'.jobs == s.jobs)
  {
    var (companies, company) := GetOrCreateByDomain(s.companies, if e.company.Some? then e.company.value else "None", e.domain);
    var job := Job(candidate, company, GATE4E_SOURCE, e.jobId, url, hash, Discovered);
    if FindIdentical(s.jobs, QueryFor(job)).None? {
      CreateKeepsUnique(s.jobs, job);
    } else {
      StrongestKeyWins(s.jobs, QueryFor(job));
    }
  }

  /** Classification stores at most one new job and files what its disposition promises. */
  lemma ClassifyKeeps(env: Env, s: Store, candidate: nat, identity: Identity, e: Evidence, prints: Prints)
    requires Unique(s.jobs)
    ensures var c := Classify(env, s, candidate, e, prints.hash);
            && Grown(s, c.store, c.jobCreated)
            && WellFiled(env, c.store.jobs, ClassifiedRecord(candidate, identity, e, prints.key, c))
  {
    hide UpsertJob, Unique;
    var check := Ingestion.OfficialUrl(env, e);
    if check.GoodUrl? {
      UpsertPlaces(s, candidate, e, check.url, prints.hash);
    }
  }

  /** The store gained one job or none, and lost nothing. */
  ghost predicate Grown(s: Store, s': Store, created: bool) {
    && Unique(s'.jobs)
    && s.jobs <= s'.jobs && s.companies <= s'.companies
    && |s'.jobs| == |s.jobs| + (if created then 1 else 0)
  }

  lemma GrowthKeepsFiled(env: Env, st: State, st': State)
    requires AllWellFiled(env, st) && st.records <= st'.records && st.store.jobs <= st'.store.jobs
    requires forall i :: |st.records| <= i < |st'.records| ==> WellFiled(env, st'.store.jobs, st'.records[i])
    ensures AllWellFiled(env, st')
  {
    forall i | 0 <= i < |st'.records| ensures WellFiled(env, st'.store.jobs, st'.records[i]) {
      if i < |st.records| {
        assert WellFiled(env, st.store.jobs, st.records[i]);
      }
    }
  }

  lemma ProcessRowKeeps(env: Env, st: State, candidate: nat, header: Header, row: Row)
    requires AllWellFiled(env, st) && Unique(st.store.jobs)
    requires ProcessRow(env, st, candidate, header, row).Some?
    ensures var (st', out) := ProcessRow(env, st, candidate, header, row).value;
            && AllWellFiled(env, st') && Grown(st.store, st'.store, out.jobCreated)
            && (out.duplicate ==> st' == st && !out.jobCreated)
  {
    hide Classify, RawStatusOf, Unique, ReadIndex, Unnormalizable, PrintsOf;
    var (st', out) := ProcessRow(env, st, candidate, header, row).value;
    var identity := Identity(candidate, header, row);
    if FindRecord(st.records, candidate, identity).None? {
      if RowDefect(env, row).None? {
        var e := env.validate(row).value;
        ClassifyKeeps(env, st.store, candidate, identity, e, PrintsOf(env, e).value);
      }
      GrowthKeepsFiled(env, st, st');
    }
  }

  lemma {:induction false} ProcessRowsKeep(env: Env, st: State, candidate: nat, header: Header, rows: seq<Row>)
    requires AllWellFiled(env, st) && Unique(st.store.jobs)
    requires ProcessRows(env, st, candidate, header, rows).Some?
    ensures var (st', outs) := ProcessRows(env, st, candidate, header, rows).value;
            && AllWellFiled(env, st') && Unique(st'.store.jobs)
            && st.store.jobs <= st'.store.jobs && st.store.companies <= st'.store.companies
            && Tally(outs).jobsCreated == |st'.store.jobs| - |st.store.jobs|
  {
    if rows != [] {
      hide ProcessRow, AllWellFiled, Unique;
      var n := |rows| - 1;
      ProcessRowsKeep(env, st, candidate, header, rows[..n]);
      var (st1, outs1) := ProcessRows(env, st, candidate, header, rows[..n]).value;
      ProcessRowKeeps(env, st1, candidate, header, rows[n]);
      var (st2, outs2) := ProcessRows(env, st, candidate, header, rows).value;
      IngestionReplay.TallySnoc(outs1, outs2[n]);
      CountsJobs(Tally(outs1), outs2[n]);
    }
  }

  lemma CountsJobs(c: Counts, o: Outcome)
    requires o.duplicate ==> !o.jobCreated
    ensures Accumulate(c, o).jobsCreated == c.jobsCreated + if o.jobCreated then 1 else 0
  {
  }

  // ---------------------------------------------------------------- main results

  /** Nothing is missing exactly when every field asked about is present and not empty. */
  lemma {:induction false} NothingMissing(r: Record, fields: seq<Field>)
    ensures MissingFor(r, fields) == [] <==> forall f :: f in fields ==> !IsEmpty(FieldOf(r, f))
  {
    if fields != [] {
      NothingMissing(r, fields[1..]);
      assert fields == [fields[0]] + fields[1..];
    }
  }

  /**
   * On a record filed by ingestion the defensive exclusions never happen:
   * verified evidence is always eligible, and a partial record is decided by
   * the policy alone.
   */
  lemma FiledRecordsDecide(env: Env, jobs: seq<Job>, r: Record, allowPartial: bool)
    requires WellFiled(env, jobs, r)
    ensures Decide(env, r, allowPartial).code !in {ExcludedVerifiedIncomplete, ExcludedNoJob, ExcludedUnknownState}
    ensures r.processing == AcceptedVerified <==> Decide(env, r, allowPartial).code == EligibleVerified
    ensures Decide(env, r, allowPartial).eligible <==>
            r.processing == AcceptedVerified || (allowPartial && r.processing == AcceptedPartial)
    ensures Decide(env, r, allowPartial).eligible ==> r.jobId.Some? && r.jobId.value < |jobs|
    ensures r.processing != AcceptedPartial ==> Decide(env, r, true) == Decide(env, r, false)
  {
    NothingMissing(r, [OfficialUrl, OfficialId, OfficialDomain]);
  }

  /** The records of a candidate, newest first, at most `limit` of them. */
  function Newest(rs: seq<Record>, candidate: nat, limit: nat): seq<Record> {
    if rs == [] || limit == 0 then []
    else
      var last := |rs| - 1;
      if rs[last].candidate == candidate then [rs[last]] + Newest(rs[..last], candidate, limit - 1)
      else Newest(rs[..last], candidate, limit)
  }

  /** The page size the evaluation runs with. */
  const PAGE: nat := 100

  function OfCandidate(candidate: nat): Record -> bool {
    (r: Record) => r.candidate == candidate
  }

  /** The page holds the newest 100 records of the candidate, or all of them when there are fewer. */
  lemma {:induction false} NewestSize(rs: seq<Record>, candidate: nat, limit: nat)
    ensures |Newest(rs, candidate, limit)| ==
            if CountIf(rs, OfCandidate(candidate)) <= limit then CountIf(rs, OfCandidate(candidate)) else limit
    ensures forall r :: r in Newest(rs, candidate, limit) ==> r in rs && r.candidate == candidate
  {
    if rs != [] && limit > 0 {
      var last := |rs| - 1;
      NewestSize(rs[..last], candidate, if rs[last].candidate == candidate then limit - 1 else limit);
      forall r | r in Newest(rs, candidate, limit) ensures r in rs && r.candidate == candidate {
        assert r == rs[last] || r in rs[..last];
      }
    }
  }

  /** The page is exactly the candidate's records from some point of the history on: none on it is older than one off it. */
  lemma {:induction false} NewestIsSuffix(rs: seq<Record>, candidate: nat, limit: nat) returns (cut: nat)
    ensures cut <= |rs|
    ensures forall r :: r in Newest(rs, candidate, limit) <==> r in rs[cut..] && r.candidate == candidate
    ensures |Newest(rs, candidate, limit)| == CountIf(rs[cut..], OfCandidate(candidate))
    ensures cut > 0 ==> |Newest(rs, candidate, limit)| == limit
  {
    if rs == [] || limit == 0 {
      cut := |rs|;
    } else {
      var last := |rs| - 1;
      var mine := rs[last].candidate == candidate;
      cut := NewestIsSuffix(rs[..last], candidate, if mine then limit - 1 else limit);
      assert rs[cut..] == rs[..last][cut..] + [rs[last]];
      CountIfAppend(rs[..last][cut..], OfCandidate(candidate), rs[last]);
    }
  }

  /** No record of the candidate is left undecided exactly when there are at most as many as fit on the page. */
  lemma NothingOffThePage(rs: seq<Record>, candidate: nat)
    ensures |Newest(rs, candidate, PAGE)| == CountIf(rs, OfCandidate(candidate)) <==> CountIf(rs, OfCandidate(candidate)) <= 100
  {
    NewestSize(rs, candidate, PAGE);
  }

  // ----------------------------------------------------------------------- report

  /** The place of a record's identity hash in the order of strings. */
  type Order = Identity -> int

  function Place(d: Decision, order: Order): int {
    order(d.record.identity)
  }

  /** Insert a decision after all those that do not come later. */
  function InsertByIdentity(ds: seq<Decision>, d: Decision, order: Order): seq<Decision> {
    if ds == [] || Place(ds[|ds| - 1], order) <= Place(d, order) then ds + [d]
    else InsertByIdentity(ds[..|ds| - 1], d, order) + [ds[|ds| - 1]]
  }

  function SortByIdentity(ds: seq<Decision>, order: Order): seq<Decision> {
    if ds == [] then [] else InsertByIdentity(SortByIdentity(ds[..|ds| - 1], order), ds[|ds| - 1], order)
  }

  ghost predicate InOrder(ds: seq<Decision>, order: Order) {
    forall i, j :: 0 <= i < j < |ds| ==> Place(ds[i], order) <= Place(ds[j], order)
  }

  lemma InOrderSnoc(ds: seq<Decision>, d: Decision, order: Order)
    ensures InOrder(ds + [d], order) <==> InOrder(ds, order) && forall x :: x in ds ==> Place(x, order) <= Place(d, order)
  {
    hide Place;
    var all := ds + [d];
    if InOrder(all, order) {
      assert forall i :: 0 <= i < |ds| ==> ds[i] == all[i];
      forall x | x in ds ensures Place(x, order) <= Place(d, order) {
        var i :| 0 <= i < |ds| && ds[i] == x;
        assert Place(all[i], order) <= Place(all[|ds|], order);
      }
    }
  }

  lemma {:induction false} InsertKeepsOrder(ds: seq<Decision>, d: Decision, order: Order)
    requires InOrder(ds, order)
    ensures InOrder(InsertByIdentity(ds, d, order), order)
    ensures multiset(InsertByIdentity(ds, d, order)) == multiset(ds) + multiset{d}
  {
    hide InOrder, Place;
    if ds == [] {
      InOrderSnoc(ds, d, order);
    } else {
      var n := |ds| - 1;
      assert ds == ds[..n] + [ds[n]];
      InOrderSnoc(ds[..n], ds[n], order);
      if Place(ds[n], order) <= Place(d, order) {
        InOrderSnoc(ds, d, order);
      } else {
        var inserted := InsertByIdentity(ds[..n], d, order);
        InsertKeepsOrder(ds[..n], d, order);
        assert forall x :: x in inserted ==> x in multiset(ds[..n]) + multiset{d};
        InOrderSnoc(inserted, ds[n], order);
      }
    }
  }

  lemma {:induction false} SortsByIdentity(ds: seq<Decision>, order: Order)
    ensures InOrder(SortByIdentity(ds, order), order)
    ensures multiset(SortByIdentity(ds, order)) == multiset(ds)
  {
    if ds != [] {
      var n := |ds| - 1;
      assert ds == ds[..n] + [ds[n]];
      SortsByIdentity(ds[..n], order);
      InsertKeepsOrder(SortByIdentity(ds[..n], order), ds[n], order);
    }
  }

  function DecideAll(env: Env, page: seq<Record>, allowPartial: bool): seq<Decision> {
    seq(|page|, i requires 0 <= i < |page| => Decide(env, page[i], allowPartial))
  }

  function Codes(code: ReasonCode): Decision -> bool {
    (d: Decision) => d.code == code
  }

  function Eligibles(): Decision -> bool {
    (d: Decision) => d.eligible
  }

  datatype Evaluation = Evaluation(decisions: seq<Decision>, eligible: nat, excluded: nat, reasonCounts: map<ReasonCode, nat>)

  /** Count the eligible decisions and, for each reason that occurs, how often it does. */
  method CountReasons(ds: seq<Decision>) returns (eligible: nat, counts: map<ReasonCode, nat>)
    ensures eligible == CountIf(ds, Eligibles())
    ensures forall code :: code in counts <==> CountIf(ds, Codes(code)) > 0
    ensures forall code :: code in counts ==> counts[code] == CountIf(ds, Codes(code))
  {
    eligible, counts := 0, map[];
    for i := 0 to |ds|
      invariant eligible == CountIf(ds[..i], Eligibles())
      invariant forall code :: code in counts <==> CountIf(ds[..i], Codes(code)) > 0
      invariant forall code :: code in counts ==> counts[code] == CountIf(ds[..i], Codes(code))
    {
      var d := ds[i];
      assert ds[..i + 1] == ds[..i] + [d];
      CountIfAppend(ds[..i], Eligibles(), d);
      forall code ensures CountIf(ds[..i + 1], Codes(code)) == CountIf(ds[..i], Codes(code)) + if d.code == code then 1 else 0 {
        CountIfAppend(ds[..i], Codes(code), d);
      }
      if d.eligible {
        eligible := eligible + 1;
      }
      counts := counts[d.code := (if d.code in counts then counts[d.code] else 0) + 1];
    }
    assert ds[..|ds|] == ds;
  }

  /**
   * Decide every record of the page, in the order of their identities, and count
   * the decisions and their reasons. The counts are those of the page itself.
   */
  method Evaluate(env: Env, records: seq<Record>, candidate: nat, allowPartial: bool, order: Order) returns (report: Evaluation)
    ensures var decided := DecideAll(env, Newest(records, candidate, PAGE), allowPartial);
            && multiset(report.decisions) == multiset(decided)
            && report.eligible == CountIf(decided, Eligibles())
            && report.eligible + report.excluded == |decided|
            && (forall code :: code in report.reasonCounts <==> CountIf(decided, Codes(code)) > 0)
            && (forall code :: code in report.reasonCounts ==> report.reasonCounts[code] == CountIf(decided, Codes(code)))
    ensures InOrder(report.decisions, order)
  {
    hide DecideAll, Newest, SortByIdentity, InOrder, CountIf;
    var decided := DecideAll(env, Newest(records, candidate, PAGE), allowPartial);
    SortsByIdentity(decided, order);
    var decisions := SortByIdentity(decided, order);
    assert |decisions| == |multiset(decisions)| == |decided|;
    var eligible, counts := CountReasons(decisions);
    CountIfPermutation(decisions, decided, Eligibles());
    forall code ensures CountIf(decisions, Codes(code)) == CountIf(decided, Codes(code)) {
      CountIfPermutation(decisions, decided, Codes(code));
    }
    report := Evaluation(decisions, eligible, |decisions| - eligible, counts);
  }

  predicate IsPartial(r: Record) {
    r.processing == AcceptedPartial
  }

  lemma DecideAllSnoc(env: Env, page: seq<Record>, allowPartial: bool)
    requires page != []
    ensures var n := |page| - 1;
            var decided := DecideAll(env, page, allowPartial);
            && |decided| == |page|
            && decided[..n] == DecideAll(env, page[..n], allowPartial)
            && decided[n] == Decide(env, page[n], allowPartial)
  {
    hide Decide;
  }

  /** On a page of filed records no defensive reason is given. */
  lemma {:induction false} NoDefensiveReasons(env: Env, jobs: seq<Job>, page: seq<Record>, allowPartial: bool, code: ReasonCode)
    requires forall i :: 0 <= i < |page| ==> WellFiled(env, jobs, page[i])
    requires code in {ExcludedVerifiedIncomplete, ExcludedNoJob, ExcludedUnknownState}
    ensures CountIf(DecideAll(env, page, allowPartial), Codes(code)) == 0
  {
    if page != [] {
      var n := |page| - 1;
      assert forall i :: 0 <= i < n ==> page[..n][i] == page[i];
      NoDefensiveReasons(env, jobs, page[..n], allowPartial, code);
      FiledRecordsDecide(env, jobs, page[n], allowPartial);
      DecideAllSnoc(env, page, allowPartial);
      hide Decide, DecideAll, WellFiled;
    }
  }

  /** On a page of filed records opting in adds exactly the partial ones to the eligible. */
  lemma {:induction false} OptingInAddsPartials(env: Env, jobs: seq<Job>, page: seq<Record>)
    requires forall i :: 0 <= i < |page| ==> WellFiled(env, jobs, page[i])
    ensures CountIf(DecideAll(env, page, true), Eligibles())
            == CountIf(DecideAll(env, page, false), Eligibles()) + CountIf(page, IsPartial)
  {
    if page != [] {
      var n := |page| - 1;
      assert forall i :: 0 <= i < n ==> page[..n][i] == page[i];
      OptingInAddsPartials(env, jobs, page[..n]);
      FiledRecordsDecide(env, jobs, page[n], true);
      FiledRecordsDecide(env, jobs, page[n], false);
      DecideAllSnoc(env, page, true);
      DecideAllSnoc(env, page, false);
      hide Decide, DecideAll, WellFiled;
    }
  }
}
