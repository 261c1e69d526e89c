/** The ingestion service, writing records and jobs row by row. */
module IngestionServices {
  import opened Prelude
  import opened JobStore
  import opened Ingestion
  import IngestionReplay

  class Gate4eIngestionService {
    const env: Env
    const repo: Repository
    var records: seq<Record>

    ghost function Contents(): State
      reads this, repo
    {
      State(repo.Contents(), records)
    }

    constructor (env: Env, repo: Repository)
      ensures this.env == env && this.repo == repo && records == []
    {
      this.env, this.repo, records := env, repo, [];
    }

    method UpsertJob(candidate: nat, e: Evidence, url: Text, hash: Text) returns (job: nat, created: bool)
      modifies repo
      ensures (repo.Contents(), job, created) == Ingestion.UpsertJob(old(repo.Contents()), candidate, e, url, hash)
    {
      var company := repo.GetOrCreateCompany(if e.company.Some? then e.company.value else "None", e.domain);
      var existing := FindIdentical(repo.jobs, Query(candidate, Some(url), Some(company), e.jobId, Some(hash)));
      if existing.Some? {
        return existing.value.job, false;
      }
      job := repo.CreateJob(Job(candidate, company, GATE4E_SOURCE, e.jobId, url, hash, Discovered));
      created := true;
    }

    method ClassifyEvidence(candidate: nat, e: Evidence, hash: Text)
      returns (processing: Processing, jobId: Option<nat>, jobCreated: bool, reason: Reason)
      modifies repo
      ensures Classified(repo.Contents(), processing, jobId, jobCreated, reason)
              == Classify(env, old(repo.Contents()), candidate, e, hash)
    {
      if e.status.None? {
        return RejectedInvalid, None, false, MissingStatus;
      }
      var check := OfficialUrl(env, e);
      if check.BadUrl? {
        return RejectedInvalid, None, false, InvalidUrl;
      }
      match e.status.value {
        case VerifiedEvidence =>
          if check.NoUrl? {
            return RejectedInvalid, None, false, VerifiedNeedsUrl;
          }
          if IsEmpty(e.jobId) {
            return RejectedInvalid, None, false, VerifiedNeedsJobId;
          }
          if IsEmpty(e.domain) {
            return RejectedInvalid, None, false, VerifiedNeedsDomain;
          }
          var job, created := UpsertJob(candidate, e, check.url, hash);
          return AcceptedVerified, Some(job), created, MappedVerified;
        case PartialEvidence =>
          if check.NoUrl? {
            return QuarantinedPartialNoUrl, None, false, PartialWithoutUrl;
          }
          var job, created := UpsertJob(candidate, e, check.url, hash);
          return AcceptedPartial, Some(job), created, MappedPartial;
        case UnresolvedEvidence =>
          return QuarantinedUnresolved, None, false, UnresolvedReason(e);
      }
    }

    /**
     * Process one row; no outcome when comparing its status, reading its index or
     * normalizing its texts raises. The digests are computed first, since a raise
     * undoes what was written before it.
     */
    method Process(candidate: nat, header: Header, row: Row) returns (out: Option<Outcome>)
      modifies this, repo
      ensures match ProcessRow(env, old(Contents()), candidate, header, row)
              case None => out.None? && Contents() == old(Contents())
              case Some((st, o)) => out == Some(o) && Contents() == st
    {
      hide Classify, PrintsOf, Unnormalizable, ReadIndex;
      var identity := Identity(candidate, header, row);
      var existing := FindRecord(records, candidate, identity);
      if existing.Some? {
        return Some(DuplicateOutcome(records[existing.value]));
      }
      var raw := RawStatusOf(row);
      if raw == Unhashable {
        return None;
      }
      var defect := RowDefect(env, row);
      if defect.Some? {
        if ReadIndex(env, row) == Unreadable || Unnormalizable(env, row) {
          return None;
        }
        records := records + [RejectedRecord(env, candidate, identity, defect.value)];
        return Some(RejectedOutcome(env, row, Some(identity), defect));
      }
      var e := env.validate(row).value;
      var prints := PrintsOf(env, e);
      if prints.None? {
        return None;
      }
      var processing, jobId, created, reason := ClassifyEvidence(candidate, e, prints.value.hash);
      var key := prints.value.key;
      records := records + [Record(candidate, identity, processing, e.status, e.index, key, e.url, e.jobId, e.domain, jobId, reason)];
      out := Some(Outcome(e.index, e.status, processing, Some(identity), key, jobId, Some(reason), false, created));
    }

    /** Ingest an envelope; when a row raises the session is rolled back. */
    method IngestEnvelope(candidates: set<nat>, candidate: nat, e: Envelope) returns (r: Result<Report, IngestError>)
      modifies this, repo
      ensures (Contents(), r) == Ingest(env, old(Contents()), candidates, candidate, e)
    {
      if candidate !in candidates {
        return Err(CandidateNotFound);
      }
      var headerError := ValidateEnvelope(e);
      var outcomes: seq<Outcome> := [];
      var counts := ZERO;
      var savedRecords, savedJobs, savedCompanies := records, repo.jobs, repo.companies;
      ghost var start := Contents();
      assert RejectAll(env, e.rows[..0]) == [] && !AnyUnreadable(env, e.rows[..0]);
      hide ProcessRow, ProcessRows, Accumulate, Tally, RejectAll, RejectedOutcome, ValidateEnvelope, ReadIndex, AnyUnreadable;
      for i := 0 to |e.rows|
        invariant headerError.Some? ==> outcomes == RejectAll(env, e.rows[..i]) && Contents() == start
        invariant headerError.Some? ==> !AnyUnreadable(env, e.rows[..i])
        invariant headerError.None? ==> ProcessRows(env, start, candidate, e.header, e.rows[..i]) == Some((Contents(), outcomes))
        invariant counts == Tally(outcomes)
      {
        OneMoreRow(env, start, candidate, e.header, e.rows, i);
        OneMoreReading(env, e.rows, i);
        var outcome: Outcome;
        if headerError.Some? {
          if ReadIndex(env, e.rows[i]) == Unreadable {
            return Err(CallRaised);
          }
          outcome := RejectedOutcome(env, e.rows[i], None, None);
        } else {
          var processed := Process(candidate, e.header, e.rows[i]);
          if processed.None? {
            RaisingStops(env, start, candidate, e.header, e.rows, i + 1);
            records, repo.jobs, repo.companies := savedRecords, savedJobs, savedCompanies;
            return Err(CallRaised);
          }
          outcome := processed.value;
        }
        IngestionReplay.TallySnoc(outcomes, outcome);
        outcomes := outcomes + [outcome];
        counts := Accumulate(counts, outcome);
      }
      assert e.rows[..|e.rows|] == e.rows;
      r := Ok(Report(headerError, outcomes, counts));
    }
  }

  /** What one more row adds to the outcomes of a prefix. */
  lemma OneMoreRow(env: Env, st: State, candidate: nat, header: Header, rows: seq<Row>, i: nat)
    requires i < |rows|
    ensures RejectAll(env, rows[..i + 1]) == RejectAll(env, rows[..i]) + [RejectedOutcome(env, rows[i], None, None)]
    ensures ProcessRows(env, st, candidate, header, rows[..i + 1]) ==
            match ProcessRows(env, st, candidate, header, rows[..i])
            case None => None
            case Some((st', outs)) =>
              match ProcessRow(env, st', candidate, header, rows[i])
              case None => None
              case Some((st'', out)) => Some((st'', outs + [out]))
  {
    hide ProcessRow;
    assert rows[..i + 1][..i] == rows[..i];
  }

  /** A prefix with an unreadable index has one in its last row or before, and makes the whole unreadable. */
  lemma OneMoreReading(env: Env, rows: seq<Row>, i: nat)
    requires i < |rows|
    ensures AnyUnreadable(env, rows[..i + 1]) <==> AnyUnreadable(env, rows[..i]) || ReadIndex(env, rows[i]) == Unreadable
    ensures AnyUnreadable(env, rows[..i + 1]) ==> AnyUnreadable(env, rows)
  {
    hide ReadIndex;
    assert rows[..i + 1] == rows[..i] + [rows[i]];
  }

  /** Once some prefix of the rows raises, the whole envelope does. */
  lemma RaisingStops(env: Env, st: State, candidate: nat, header: Header, rows: seq<Row>, m: nat)
    requires m <= |rows| && ProcessRows(env, st, candidate, header, rows[..m]).None?
    ensures ProcessRows(env, st, candidate, header, rows).None?
  {
    IngestionReplay.ProcessRowsAppend(env, st, candidate, header, rows[..m], rows[m..]);
    assert rows[..m] + rows[m..] == rows;
  }
}
