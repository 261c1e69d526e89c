/** What ingestion reports and stores, in terms of the envelope's header and the rows' own fields. */
module IngestionExactly {
  import opened Prelude
  import opened JobStore
  import opened Ingestion
  import opened IngestionReplay
  import Texts

  // -------------------------------------------------------------------- counters

  function Fresh(processing: Processing): Outcome -> bool {
    (o: Outcome) => !o.duplicate && o.processing == processing
  }

  function Repeated(): Outcome -> bool {
    (o: Outcome) => o.duplicate
  }

  function Created(): Outcome -> bool {
    (o: Outcome) => !o.duplicate && o.jobCreated
  }

  /** Each counter is the number of outcomes it is named after, and the six dispositions add up to all of them. */
  ghost predicate Counted(c: Counts, outs: seq<Outcome>) {
    && c.verified == CountIf(outs, Fresh(AcceptedVerified))
    && c.partial == CountIf(outs, Fresh(AcceptedPartial))
    && c.noUrl == CountIf(outs, Fresh(QuarantinedPartialNoUrl))
    && c.unresolved == CountIf(outs, Fresh(QuarantinedUnresolved))
    && c.rejected == CountIf(outs, Fresh(RejectedInvalid))
    && c.duplicates == CountIf(outs, Repeated())
    && c.jobsCreated == CountIf(outs, Created())
    && c.verified + c.partial + c.noUrl + c.unresolved + c.rejected + c.duplicates == |outs|
  }

  lemma {:induction false} TallyCounts(outs: seq<Outcome>)
    ensures Counted(Tally(outs), outs)
  {
    if outs != [] {
      var n := |outs| - 1;
      TallyCounts(outs[..n]);
      var o := outs[n];
      assert o.processing.AcceptedVerified? || o.processing.AcceptedPartial? || o.processing.QuarantinedPartialNoUrl?
             || o.processing.QuarantinedUnresolved? || o.processing.RejectedInvalid?;
    }
  }

  /** The report of an ingestion counts its own outcomes, one for each row of the envelope. */
  lemma ReportCounts(env: Env, st: State, candidates: set<nat>, candidate: nat, e: Envelope)
    requires Ingest(env, st, candidates, candidate, e).1.Ok?
    ensures var report := Ingest(env, st, candidates, candidate, e).1.value;
            && |report.outcomes| == |e.rows|
            && Counted(report.counts, report.outcomes)
  {
    TallyCounts(Ingest(env, st, candidates, candidate, e).1.value.outcomes);
    hide Tally, ProcessRow, Counted, AnyUnreadable;
  }

  // ---------------------------------------------------------------------- header

  /** A header is accepted exactly with schema version 1 and a producer, its version and a time that are all there. */
  lemma HeaderAcceptedExactly(e: Envelope)
    ensures ValidateEnvelope(e).None? <==>
            && e.header.schemaVersion == Some(1)
            && e.header.producerId.Some? && e.header.producerId.value != ""
            && e.header.producerVersion.Some? && e.header.producerVersion.value != ""
            && e.generatedAt.Some? && e.generatedAt.value != ""
    ensures ValidateEnvelope(e).Some? ==>
              match ValidateEnvelope(e).value
              case MissingSchemaVersion => e.header.schemaVersion.None?
              case UnsupportedSchemaVersion => e.header.schemaVersion.Some? && e.header.schemaVersion.value != 1
              case MissingProducerId => e.header.producerId.None? || e.header.producerId.value == ""
              case MissingProducerVersion => e.header.producerVersion.None? || e.header.producerVersion.value == ""
              case MissingGeneratedAt => e.generatedAt.None? || e.generatedAt.value == ""
  {
  }

  /** Under a header that is not accepted every row is reported as rejected and nothing is stored. */
  lemma RejectedHeaderLeaves(env: Env, st: State, candidates: set<nat>, candidate: nat, e: Envelope)
    requires ValidateEnvelope(e).Some? && Ingest(env, st, candidates, candidate, e).1.Ok?
    ensures var (st', r) := Ingest(env, st, candidates, candidate, e);
            && st' == st
            && r.value.headerError == ValidateEnvelope(e)
            && forall i :: 0 <= i < |r.value.outcomes| ==>
                 var o := r.value.outcomes[i];
                 && o.processing == RejectedInvalid && !o.duplicate && !o.jobCreated
                 && o.identity.None? && o.jobId.None? && o.postingKey.None? && o.verification.None?
  {
    hide ReadIndex, Tally, AnyUnreadable, ValidateEnvelope;
  }

  // -------------------------------------------------------------------- one row

  /** A row of n dashes. */
  function Dashes(n: nat): (s: string)
    ensures |s| == n && forall i :: 0 <= i < n ==> s[i] == '-'
  {
    seq(n, i => '-')
  }

  lemma {:induction false} DashesDrop(n: nat, rest: string)
    requires rest != "" && rest[0] != '-'
    ensures WithoutDashes(Dashes(n) + rest) == rest
  {
    if n > 0 {
      assert (Dashes(n) + rest)[1..] == Dashes(n - 1) + rest;
      DashesDrop(n - 1, rest);
    } else {
      assert Dashes(n) + rest == rest;
    }
  }

  /**
   * How an index text of dashes and digits is read: as a number with at most one
   * dash and 4300 digits that are all decimals, and otherwise not at all.
   */
  lemma IndexExactly(env: Env, n: nat, digits: string)
    requires digits != "" && forall c :: c in digits ==> IsDigit(env, c) && !IsSpace(env, c)
    ensures ReadIndexText(env, Dashes(n) + digits) ==
            if n > 1 || |digits| > 4300 || exists c :: c in digits && !IsDecimal(env, c) then Unreadable
            else Index(if n == 1 then 0 - NumberOf(env, digits) else NumberOf(env, digits))
  {
    hide *;
    DashesStay(env, n, digits);
    DashesEnd(env, n, digits);
    ReadsDashed(env, Dashes(n) + digits, n, digits);
  }

  lemma DashesEnd(env: Env, n: nat, digits: string)
    requires digits != "" && forall c :: c in digits ==> IsDigit(env, c)
    ensures WithoutDashes(Dashes(n) + digits) == digits
  {
    assert digits[0] in digits;
    DashesDrop(n, digits);
    hide WithoutDashes;
  }

  /** What is read of a text that is dashes and then digits. */
  lemma ReadsDashed(env: Env, text: string, n: nat, digits: string)
    requires |text| == n + |digits| && digits != ""
    requires Texts.Strip(text, Spaces(env)) == text && WithoutDashes(text) == digits
    requires forall c :: c in digits ==> IsDigit(env, c)
    requires forall c :: c in text ==> !IsSeparator(c)
    ensures ReadIndexText(env, text) ==
            if n > 1 || |digits| > 4300 || exists c :: c in digits && !IsDecimal(env, c) then Unreadable
            else Index(if n == 1 then 0 - NumberOf(env, digits) else NumberOf(env, digits))
  {
    hide Texts.Strip, WithoutDashes, NumberOf, IsSpace, IsDigit, IsDecimal, IsSeparator, Spaces;
  }

  lemma DashesStay(env: Env, n: nat, digits: string)
    requires digits != "" && forall c :: c in digits ==> IsDigit(env, c) && !IsSpace(env, c)
    ensures Texts.Strip(Dashes(n) + digits, Spaces(env)) == Dashes(n) + digits
    ensures forall c :: c in Dashes(n) + digits ==> !IsSeparator(c)
  {
    var text := Dashes(n) + digits;
    assert !IsSpace(env, '-');
    forall i | 0 <= i < |text| ensures !IsSpace(env, text[i]) {
      if i >= n {
        assert text[i] == digits[i - n] && digits[i - n] in digits;
      }
    }
    assert forall c :: IsSeparator(c) ==> IsSpace(env, c);
    hide IsSpace, IsDigit, IsSeparator;
  }

  /** A text that does not come down to digits is no index. */
  lemma OtherTextsAreNoIndex(env: Env, text: string)
    requires text != "" && !IsSpace(env, text[0]) && !IsSpace(env, text[|text| - 1]) && text[0] != '-'
    requires exists c :: c in text && !IsDigit(env, c)
    ensures ReadIndexText(env, text) == NoIndex
  {
  }

  /** How a raw status is read: the three known texts, nothing or null, a list or object, or anything else. */
  lemma StatusExactly(row: Row)
    ensures var status := if "verification_status" in row then row["verification_status"] else JNull;
            && (RawStatusOf(row) == Known(VerifiedEvidence) <==> status == JString("VERIFIED"))
            && (RawStatusOf(row) == Known(PartialEvidence) <==> status == JString("PARTIAL"))
            && (RawStatusOf(row) == Known(UnresolvedEvidence) <==> status == JString("UNRESOLVED"))
            && (RawStatusOf(row) == Absent <==> status == JNull)
            && (RawStatusOf(row) == Unhashable <==> status.JArray? || status.JObject?)
  {
  }

  /** A text that is absent, empty or made of spaces. */
  predicate SaysNothing(env: Env, s: Option<string>) {
    s.None? || s.value == "" || forall c :: c in s.value ==> IsSpace(env, c)
  }

  /** A row is well formed exactly with a known status, evidence that fits the schema, a title and a company; otherwise the first want is named. */
  lemma DefectExactly(env: Env, row: Row)
    requires RawStatusOf(row) != Unhashable
    ensures RowDefect(env, row).None? <==>
            && RawStatusOf(row).Known?
            && env.validate(row).Ok?
            && !SaysNothing(env, env.validate(row).value.title)
            && !SaysNothing(env, env.validate(row).value.company)
    ensures RowDefect(env, row).Some? ==>
              match RowDefect(env, row).value
              case MissingStatus => RawStatusOf(row) == Absent
              case InvalidStatus => RawStatusOf(row) == NotKnown
              case Malformed(detail) => env.validate(row) == Err(detail)
              case MissingTitle => env.validate(row).Ok? && SaysNothing(env, env.validate(row).value.title)
              case MissingCompany => env.validate(row).Ok? && SaysNothing(env, env.validate(row).value.company)
              case _ => false
  {
  }

  /** An official URL is absent, invalid, or the one validation gives back. */
  lemma UrlExactly(env: Env, e: Evidence)
    ensures OfficialUrl(env, e) == NoUrl <==> SaysNothing(env, e.url)
    ensures OfficialUrl(env, e) == BadUrl <==> !SaysNothing(env, e.url) && env.validUrl(e.url.value).None?
    ensures forall url :: OfficialUrl(env, e) == GoodUrl(url) <==> !SaysNothing(env, e.url) && env.validUrl(e.url.value) == Some(url)
  {
  }

  /** A rejected row, and the reason it is stored and reported with. */
  lemma RejectionExactly(env: Env, s: Store, candidate: nat, e: Evidence, hash: Text)
    ensures var c := Classify(env, s, candidate, e, hash);
            var url := OfficialUrl(env, e);
            && (c.processing == RejectedInvalid <==>
                  || e.status.None? || url == BadUrl
                  || (e.status == Some(VerifiedEvidence)
                      && (url == NoUrl || e.jobId.None? || e.jobId.value == "" || e.domain.None? || e.domain.value == "")))
            && (match c.reason
                case MissingStatus => e.status.None?
                case InvalidUrl => url == BadUrl
                case VerifiedNeedsUrl => e.status == Some(VerifiedEvidence) && url == NoUrl
                case VerifiedNeedsJobId => e.status == Some(VerifiedEvidence) && (e.jobId.None? || e.jobId.value == "")
                case VerifiedNeedsDomain => e.status == Some(VerifiedEvidence) && (e.domain.None? || e.domain.value == "")
                case MappedVerified => c.processing == AcceptedVerified
                case MappedPartial => c.processing == AcceptedPartial
                case PartialWithoutUrl => c.processing == QuarantinedPartialNoUrl
                case Unresolved(detail) =>
                  && c.processing == QuarantinedUnresolved
                  && (e.statusReason.Some? && e.statusReason.value != "" ==> detail == e.statusReason.value)
                case _ => false)
  {
    hide OfficialUrl, UpsertJob;
    if e.status.Some? {
      assert e.status.value.VerifiedEvidence? || e.status.value.PartialEvidence? || e.status.value.UnresolvedEvidence?;
    }
  }

  /** Accepted evidence is upserted under its validated URL, and no other evidence touches the store. */
  lemma UpsertsExactly(env: Env, s: Store, candidate: nat, e: Evidence, hash: Text)
    ensures var c := Classify(env, s, candidate, e, hash);
            if c.processing.AcceptedVerified? || c.processing.AcceptedPartial? then
              && OfficialUrl(env, e).GoodUrl?
              && c.jobId.Some?
              && (c.store, c.jobId.value, c.jobCreated) == UpsertJob(s, candidate, e, OfficialUrl(env, e).url, hash)
            else c.store == s && c.jobId.None? && !c.jobCreated
  {
    hide OfficialUrl, UpsertJob;
  }

  /** An upsert that creates a job creates it with the evidence's own keys under its company, in state DISCOVERED. */
  lemma UpsertCreates(s: Store, candidate: nat, e: Evidence, url: Text, hash: Text)
    ensures var (s', job, created) := UpsertJob(s, candidate, e, url, hash);
            var (companies, company) := GetOrCreateByDomain(s.companies, if e.company.Some? then e.company.value else "None", e.domain);
            && s'.companies == companies
            && (created <==> forall i :: 0 <= i < |s.jobs| ==> !Clash(s.jobs[i], Job(candidate, company, 0, e.jobId, url, hash, Discovered)))
            && (created ==>
                  && job == |s.jobs| && s'.jobs[..job] == s.jobs && |s'.jobs| == job + 1
                  && s'.jobs[job].candidate == candidate && s'.jobs[job].company == company && s'.jobs[job].source == GATE4E_SOURCE
                  && s'.jobs[job].externalId == e.jobId && s'.jobs[job].url == url && s'.jobs[job].hash == hash
                  && s'.jobs[job].status == Discovered)
            && (!created ==> s'.jobs == s.jobs && job < |s.jobs|)
  {
    var (companies, company) := GetOrCreateByDomain(s.companies, if e.company.Some? then e.company.value else "None", e.domain);
    var job := Job(candidate, company, 0, e.jobId, url, hash, Discovered);
    NothingIdenticalIffNoClash(s.jobs, job);
    hide Clash, FindIdentical;
  }

  /** The record of an accepted or quarantined row carries the evidence; its outcome repeats the record. */
  predicate Repeats(o: Outcome, r: Record) {
    && o.alertIndex == r.alertIndex && o.verification == r.verification && o.processing == r.processing
    && o.identity == Some(r.identity) && o.postingKey == r.postingKey && o.jobId == r.jobId && o.reason == Some(r.reason)
  }

  /** A row stored before is reported with its record, and nothing changes. */
  lemma DuplicateLeaves(env: Env, st: State, candidate: nat, header: Header, row: Row, k: nat)
    requires k < |st.records| && FindRecord(st.records, candidate, Identity(candidate, header, row)) == Some(k)
    ensures ProcessRow(env, st, candidate, header, row).Some?
    ensures var (st', o) := ProcessRow(env, st, candidate, header, row).value;
            st' == st && Repeats(o, st.records[k]) && o.duplicate && !o.jobCreated
  {
    hide FindRecord;
  }

  /** A new row that is defective is stored once as rejected, with its raw texts and the defect, and reported so. */
  lemma DefectiveLeaves(env: Env, st: State, candidate: nat, header: Header, row: Row)
    requires FindRecord(st.records, candidate, Identity(candidate, header, row)).None?
    requires RawStatusOf(row) != Unhashable && RowDefect(env, row).Some?
    requires ProcessRow(env, st, candidate, header, row).Some?
    ensures var (st', o) := ProcessRow(env, st, candidate, header, row).value;
            && st'.store == st.store
            && |st'.records| == |st.records| + 1 && st'.records[..|st.records|] == st.records
            && var r := st'.records[|st.records|];
               && Repeats(o, r) && !o.duplicate && !o.jobCreated
               && r.candidate == candidate && r.identity == Identity(candidate, header, row)
               && r.processing == RejectedInvalid && r.verification.None? && r.jobId.None? && r.postingKey.None?
               && r.reason == RowDefect(env, row).value
               && r.url == TextOf(env, if "official_job_url" in row then Some(row["official_job_url"]) else None)
               && r.officialId == TextOf(env, if "official_job_id" in row then Some(row["official_job_id"]) else None)
               && r.domain == TextOf(env, if "official_domain" in row then Some(row["official_domain"]) else None)
               && (forall n :: r.alertIndex == Some(n) <==> ReadIndex(env, row) == Index(n))
  {
    hide FindRecord, RawStatusOf, RowDefect, ReadIndex, Unnormalizable, TextOf, Classify;
  }

  /** A new well-formed row is classified and stored once with its evidence, and reported so. */
  lemma WellFormedLeaves(env: Env, st: State, candidate: nat, header: Header, row: Row)
    requires FindRecord(st.records, candidate, Identity(candidate, header, row)).None?
    requires RawStatusOf(row) != Unhashable && RowDefect(env, row).None?
    requires ProcessRow(env, st, candidate, header, row).Some?
    ensures env.validate(row).Ok? && PrintsOf(env, env.validate(row).value).Some?
    ensures var (st', o) := ProcessRow(env, st, candidate, header, row).value;
            var e := env.validate(row).value;
            var prints := PrintsOf(env, e).value;
            var c := Classify(env, st.store, candidate, e, prints.hash);
            && st'.store == c.store
            && |st'.records| == |st.records| + 1 && st'.records[..|st.records|] == st.records
            && var r := st'.records[|st.records|];
               && Repeats(o, r) && !o.duplicate && o.jobCreated == c.jobCreated
               && r.candidate == candidate && r.identity == Identity(candidate, header, row)
               && r.processing == c.processing && r.reason == c.reason && r.jobId == c.jobId
               && r.verification == e.status && r.alertIndex == e.index && r.postingKey == prints.key
               && r.url == e.url && r.officialId == e.jobId && r.domain == e.domain
  {
    hide FindRecord, RawStatusOf, ReadIndex, Unnormalizable, PrintsOf, Classify;
  }

  // -------------------------------------------------------------------- digests

  /** The texts a fingerprint is made of, once normalizing changes nothing more. */
  predicate Settled(env: Env, s: string) {
    s == "" || env.normalize(s) == Some(s)
  }

  /** A text that is absent or, in lower case, one of the seven that say nothing. */
  predicate IsFalsey(env: Env, s: Option<string>) {
    s.None? || env.lower(s.value) in {"", "unknown", "n/a", "na", "null", "none", "-"}
  }

  /**
   * For settled texts the fingerprint digests title, location and description in
   * this order and in lower case, a location or description that says nothing
   * being left empty; the key digests company and title, and is absent without
   * either.
   */
  lemma PrintsExactly(env: Env, e: Evidence)
    requires e.title.Some? && e.company.Some?
    requires Settled(env, e.title.value) && Settled(env, e.company.value) && env.lower("") == ""
    requires e.location.Some? ==> Settled(env, e.location.value)
    requires e.description.Some? ==> Settled(env, e.description.value)
    ensures PrintsOf(env, e).Some?
    ensures var location := if IsFalsey(env, e.location) then "" else e.location.value;
            var description := if IsFalsey(env, e.description) then "" else e.description.value;
            && PrintsOf(env, e).value.hash
               == env.digest(env.lower(e.title.value) + "|" + env.lower(location) + "|" + env.lower(description))
            && (PrintsOf(env, e).value.key.Some? <==> env.lower(e.company.value) != "" && env.lower(e.title.value) != "")
            && (PrintsOf(env, e).value.key.Some? ==>
                  PrintsOf(env, e).value.key.value == env.keyDigest(env.lower(e.company.value) + "|" + env.lower(e.title.value)))
  {
    CleanSettled(env, e.location);
    CleanSettled(env, e.description);
    hide CleanOptional, IsFalsey;
  }

  lemma CleanSettled(env: Env, s: Option<string>)
    requires s.Some? ==> Settled(env, s.value)
    requires env.lower("") == ""
    ensures CleanOptional(env, s) == Some(if IsFalsey(env, s) then None else s)
  {
  }
}
