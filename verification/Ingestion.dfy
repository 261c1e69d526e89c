/**
 * Ingestion of a versioned evidence envelope: each producer row is classified,
 * persisted once under its identity, and possibly linked to a stored job.
 */
module Ingestion {
  import opened Prelude
  import opened JobStore
  import Texts

  datatype Json =
    | JNull
    | JBool(b: bool)
    | JInt(n: int)
    | JReal(x: real)
    | JString(s: string)
    | JArray(items: seq<Json>)
    | JObject(fields: map<string, Json>)

  /** One raw producer row. */
  type Row = map<string, Json>

  datatype Verification = VerifiedEvidence | PartialEvidence | UnresolvedEvidence

  datatype Processing =
    | AcceptedVerified
    | AcceptedPartial
    | QuarantinedPartialNoUrl
    | QuarantinedUnresolved
    | RejectedInvalid

  datatype Reason =
    | MissingStatus
    | InvalidStatus
    | Malformed(detail: string)
    | MissingTitle
    | MissingCompany
    | InvalidUrl
    | VerifiedNeedsUrl
    | VerifiedNeedsJobId
    | VerifiedNeedsDomain
    | MappedVerified
    | MappedPartial
    | PartialWithoutUrl
    | Unresolved(detail: string)

  /** A row that passed schema validation. */
  datatype Evidence = Evidence(
    index: Option<int>,
    title: Option<string>,
    company: Option<string>,
    location: Option<string>,
    description: Option<string>,
    domain: Option<string>,
    url: Option<string>,
    jobId: Option<string>,
    status: Option<Verification>,
    statusReason: Option<string>)

  /**
   * The text and schema functions of other modules, as ingestion calls them, and
   * the character classes beyond ASCII. A decimal is a digit that also has a
   * place value; a superscript, say, is a digit but no decimal. `normalize`
   * unescapes a text and joins its words by single spaces, or raises.
   */
  datatype Env = Env(
    otherSpace: char -> bool,
    otherDigit: char -> bool,
    otherDecimal: char -> bool,
    decimalValue: char -> nat,
    validate: Row -> Result<Evidence, string>,
    validUrl: string -> Option<Text>,
    normalize: string -> Option<string>,
    lower: string -> string,
    digest: string -> Text,
    keyDigest: string -> string,
    show: Json -> string)

  /** The parts of an envelope header that identify its producer. */
  datatype Header = Header(schemaVersion: Option<int>, producerId: Option<string>, producerVersion: Option<string>)

  datatype Envelope = Envelope(header: Header, generatedAt: Option<string>, rows: seq<Row>)

  /** What the canonical JSON hash of a row stands for; equal hashes mean equal contents. */
  datatype Identity = Identity(candidate: nat, header: Header, row: Row)

  /** One persisted row. */
  datatype Record = Record(
    candidate: nat,
    identity: Identity,
    processing: Processing,
    verification: Option<Verification>,
    alertIndex: Option<int>,
    postingKey: Option<string>,
    url: Option<string>,
    officialId: Option<string>,
    domain: Option<string>,
    jobId: Option<nat>,
    reason: Reason)

  datatype Outcome = Outcome(
    alertIndex: Option<int>,
    verification: Option<Verification>,
    processing: Processing,
    identity: Option<Identity>,
    postingKey: Option<string>,
    jobId: Option<nat>,
    reason: Option<Reason>,
    duplicate: bool,
    jobCreated: bool)

  datatype State = State(store: Store, records: seq<Record>)

  /** The source every job of an envelope is attributed to. */
  const GATE4E_SOURCE: nat := 0

  const SUPPORTED_SCHEMA_VERSIONS: set<int> := {1}

  function Lookup(row: Row, key: string): Option<Json> {
    if key in row then Some(row[key]) else None
  }

  predicate IsEmpty(s: Option<string>) {
    s.None? || s.value == ""
  }

  predicate IsBlank(env: Env, s: Option<string>) {
    IsEmpty(s) || forall c :: c in s.value ==> IsSpace(env, c)
  }

  // ------------------------------------------------------------------- characters

  const LAST_ASCII: char := '\U{7F}'

  /** The control characters between files, groups, records and units. */
  predicate IsSeparator(c: char) {
    '\U{1C}' <= c <= '\U{1F}'
  }

  predicate IsSpace(env: Env, c: char) {
    c == ' ' || '\t' <= c <= '\r' || IsSeparator(c) || (c > LAST_ASCII && env.otherSpace(c))
  }

  function Spaces(env: Env): char -> bool {
    c => IsSpace(env, c)
  }

  predicate IsDigit(env: Env, c: char) {
    '0' <= c <= '9' || (c > LAST_ASCII && env.otherDigit(c))
  }

  predicate IsDecimal(env: Env, c: char) {
    '0' <= c <= '9' || (c > LAST_ASCII && env.otherDigit(c) && env.otherDecimal(c))
  }

  function DecimalValue(env: Env, c: char): nat {
    if '0' <= c <= '9' then (c as int) - ('0' as int) else env.decimalValue(c)
  }

  /** The number a sequence of decimals stands for. */
  function NumberOf(env: Env, s: string): nat {
    if s == "" then 0 else 10 * NumberOf(env, s[..|s| - 1]) + DecimalValue(env, s[|s| - 1])
  }

  function WithoutDashes(s: string): string {
    if s != "" && s[0] == '-' then WithoutDashes(s[1..]) else s
  }

  // ------------------------------------------------------------ normalized texts

  const FALSEY_TEXT: set<string> := {"", "unknown", "n/a", "na", "null", "none", "-"}

  /** The normalized text, empty for an absent one; None when normalizing raises. */
  function NormalizeText(env: Env, v: Option<string>): Option<string> {
    if IsEmpty(v) then Some("") else env.normalize(v.value)
  }

  /** The normalized text, absent when it says nothing; None when normalizing raises. */
  function CleanOptional(env: Env, v: Option<string>): Option<Option<string>> {
    match NormalizeText(env, v)
    case None => None
    case Some(text) => Some(if env.lower(text) in FALSEY_TEXT then None else Some(text))
  }

  /** The fingerprint of a posting, which normalizes its texts a second time. */
  function ContentHash(env: Env, title: Option<string>, location: Option<string>, description: Option<string>): Option<Text> {
    match (NormalizeText(env, title), CleanOptional(env, location), CleanOptional(env, description))
    case (Some(t), Some(l), Some(d)) =>
      (match (NormalizeText(env, Some(t)), NormalizeText(env, l), NormalizeText(env, d))
       case (Some(t'), Some(l'), Some(d')) =>
         Some(env.digest(env.lower(t') + "|" + env.lower(l') + "|" + env.lower(d')))
       case _ => None)
    case _ => None
  }

  /** The key of a posting, which a posting without company or title does not have. */
  function PostingKey(env: Env, company: string, title: string): Option<string> {
    if env.lower(company) == "" || env.lower(title) == "" then None
    else Some(env.keyDigest(env.lower(company) + "|" + env.lower(title)))
  }

  /** The two digests every classified row is stored with. */
  datatype Prints = Prints(hash: Text, key: Option<string>)

  /** The digests of validated evidence; None when normalizing one of its texts raises. */
  function PrintsOf(env: Env, e: Evidence): Option<Prints> {
    match (NormalizeText(env, e.company), NormalizeText(env, e.title), ContentHash(env, e.title, e.location, e.description))
    case (Some(company), Some(title), Some(hash)) => Some(Prints(hash, PostingKey(env, company, title)))
    case _ => None
  }

  /** The text of a raw value. */
  function TextOf(env: Env, v: Option<Json>): Option<string> {
    match v
    case None => None
    case Some(JNull) => None
    case Some(JString(s)) => Some(s)
    case Some(json) => Some(env.show(json))
  }

  const NORMALIZED_FIELDS: seq<string> := ["company_name", "job_title", "job_location", "description"]

  /** A raw row with a text that cannot be normalized, so that storing it as rejected raises. */
  predicate Unnormalizable(env: Env, row: Row) {
    exists f :: f in NORMALIZED_FIELDS && NormalizeText(env, TextOf(env, Lookup(row, f))).None?
  }

  // ------------------------------------------------------------------- row index

  /** What reading the index of a raw row gives; an unreadable one raises. */
  datatype Reading = NoIndex | Index(value: int) | Unreadable

  /** The most digits a text may have to be converted to a number. */
  const MAX_DIGITS: nat := 4300

  /**
   * Dashes followed by digits, between spaces, are taken for a number, but the
   * conversion accepts only one dash, only decimals, not too many of them, and
   * around them none of the four separators the digit test also strips.
   */
  function ReadIndexText(env: Env, s: string): Reading {
    var text := Texts.Strip(s, Spaces(env));
    var digits := WithoutDashes(text);
    var dashes := |text| - |digits|;
    if digits == "" || exists c :: c in digits && !IsDigit(env, c) then NoIndex
    else if
      && dashes <= 1
      && |digits| <= MAX_DIGITS
      && (forall c :: c in digits ==> IsDecimal(env, c))
      && (forall c :: c in s ==> !IsSeparator(c))
    then
      Index(if dashes == 1 then 0 - NumberOf(env, digits) else NumberOf(env, digits))
    else Unreadable
  }

  function ReadIndex(env: Env, row: Row): Reading {
    match Lookup(row, "index")
    case Some(JInt(n)) => Index(n)
    case Some(JBool(b)) => Index(if b then 1 else 0)
    case Some(JString(s)) => ReadIndexText(env, s)
    case _ => NoIndex
  }

  function IndexOf(env: Env, row: Row): Option<int> {
    match ReadIndex(env, row)
    case Index(n) => Some(n)
    case _ => None
  }

  // -------------------------------------------------------------------- envelope

  datatype HeaderError = MissingSchemaVersion | UnsupportedSchemaVersion | MissingProducerId | MissingProducerVersion | MissingGeneratedAt

  function ValidateEnvelope(e: Envelope): Option<HeaderError> {
    if e.header.schemaVersion.None? then Some(MissingSchemaVersion)
    else if e.header.schemaVersion.value !in SUPPORTED_SCHEMA_VERSIONS then Some(UnsupportedSchemaVersion)
    else if IsEmpty(e.header.producerId) then Some(MissingProducerId)
    else if IsEmpty(e.header.producerVersion) then Some(MissingProducerVersion)
    else if IsEmpty(e.generatedAt) then Some(MissingGeneratedAt)
    else None
  }

  // --------------------------------------------------------------------- one row

  function FindRecord(rs: seq<Record>, candidate: nat, identity: Identity): (r: Option<nat>)
    ensures r.Some? ==> r.value < |rs| && rs[r.value].candidate == candidate && rs[r.value].identity == identity
    ensures r.None? ==> forall i :: 0 <= i < |rs| ==> !(rs[i].candidate == candidate && rs[i].identity == identity)
  {
    if rs == [] then None
    else
      var last := |rs| - 1;
      var earlier := FindRecord(rs[..last], candidate, identity);
      if earlier.Some? then earlier
      else if rs[last].candidate == candidate && rs[last].identity == identity then Some(last)
      else None
  }

  /** The raw verification status; a list or an object is not even comparable, and the call raises. */
  datatype RawStatus = Absent | Known(v: Verification) | NotKnown | Unhashable

  function RawStatusOf(row: Row): RawStatus {
    match Lookup(row, "verification_status")
    case None => Absent
    case Some(JNull) => Absent
    case Some(JString(s)) =>
      if s == "VERIFIED" then Known(VerifiedEvidence)
      else if s == "PARTIAL" then Known(PartialEvidence)
      else if s == "UNRESOLVED" then Known(UnresolvedEvidence)
      else NotKnown
    case Some(JArray(_)) => Unhashable
    case Some(JObject(_)) => Unhashable
    case Some(_) => NotKnown
  }

  datatype UrlCheck = NoUrl | BadUrl | GoodUrl(url: Text)

  function OfficialUrl(env: Env, e: Evidence): UrlCheck {
    if IsBlank(env, e.url) then NoUrl
    else match env.validUrl(e.url.value)
      case None => BadUrl
      case Some(url) => GoodUrl(url)
  }

  /** The job of a record: an identical stored one, or a new one in state DISCOVERED. */
  function UpsertJob(s: Store, candidate: nat, e: Evidence, url: Text, hash: Text): (Store, nat, bool) {
    var (companies, company) := GetOrCreateByDomain(s.companies, if e.company.Some? then e.company.value else "None", e.domain);
    var job := Job(candidate, company, GATE4E_SOURCE, e.jobId, url, hash, Discovered);
    match FindIdentical(s.jobs, QueryFor(job))
    case Some(found) => (s.(companies := companies), found.job, false)
    case None => (Store(s.jobs + [job], companies), |s.jobs|, true)
  }

  datatype Classified = Classified(store: Store, processing: Processing, jobId: Option<nat>, jobCreated: bool, reason: Reason)

  function Classify(env: Env, s: Store, candidate: nat, e: Evidence, hash: Text): Classified {
    if e.status.None? then Classified(s, RejectedInvalid, None, false, MissingStatus)
    else match OfficialUrl(env, e)
      case BadUrl => Classified(s, RejectedInvalid, None, false, InvalidUrl)
      case NoUrl =>
        (match e.status.value
         case VerifiedEvidence => Classified(s, RejectedInvalid, None, false, VerifiedNeedsUrl)
         case PartialEvidence => Classified(s, QuarantinedPartialNoUrl, None, false, PartialWithoutUrl)
         case UnresolvedEvidence => Classified(s, QuarantinedUnresolved, None, false, UnresolvedReason(e)))
      case GoodUrl(url) =>
        (match e.status.value
         case VerifiedEvidence =>
           if IsEmpty(e.jobId) then Classified(s, RejectedInvalid, None, false, VerifiedNeedsJobId)
           else if IsEmpty(e.domain) then Classified(s, RejectedInvalid, None, false, VerifiedNeedsDomain)
           else
             var (s', job, created) := UpsertJob(s, candidate, e, url, hash);
             Classified(s', AcceptedVerified, Some(job), created, MappedVerified)
         case PartialEvidence =>
           var (s', job, created) := UpsertJob(s, candidate, e, url, hash);
           Classified(s', AcceptedPartial, Some(job), created, MappedPartial)
         case UnresolvedEvidence => Classified(s, QuarantinedUnresolved, None, false, UnresolvedReason(e)))
  }

  function UnresolvedReason(e: Evidence): Reason {
    Unresolved(if IsEmpty(e.statusReason) then "UNRESOLVED producer verification status" else e.statusReason.value)
  }

  /** Why a row is rejected before it is classified; None when it is well formed. */
  function RowDefect(env: Env, row: Row): Option<Reason> {
    if RawStatusOf(row) == Absent then Some(MissingStatus)
    else if RawStatusOf(row) == NotKnown then Some(InvalidStatus)
    else match env.validate(row)
      case Err(detail) => Some(Malformed(detail))
      case Ok(e) =>
        if IsBlank(env, e.title) then Some(MissingTitle)
        else if IsBlank(env, e.company) then Some(MissingCompany)
        else None
  }

  function RejectedOutcome(env: Env, row: Row, identity: Option<Identity>, reason: Option<Reason>): Outcome {
    Outcome(IndexOf(env, row), None, RejectedInvalid, identity, None, None, reason, false, false)
  }

  function DuplicateOutcome(r: Record): Outcome {
    Outcome(r.alertIndex, r.verification, r.processing, Some(r.identity), r.postingKey, r.jobId, Some(r.reason), true, false)
  }

  function RejectedRecord(env: Env, candidate: nat, identity: Identity, reason: Reason): Record {
    Record(candidate, identity, RejectedInvalid, None,
           IndexOf(env, identity.row), None,
           TextOf(env, Lookup(identity.row, "official_job_url")),
           TextOf(env, Lookup(identity.row, "official_job_id")),
           TextOf(env, Lookup(identity.row, "official_domain")),
           None, reason)
  }

  function ClassifiedRecord(candidate: nat, identity: Identity, e: Evidence, key: Option<string>, c: Classified): Record {
    Record(candidate, identity, c.processing, e.status, e.index, key,
           e.url, e.jobId, e.domain, c.jobId, c.reason)
  }

  /** The outcome reported for a row that was stored just now. */
  function FreshOutcome(r: Record, jobCreated: bool): Outcome {
    DuplicateOutcome(r).(duplicate := false, jobCreated := jobCreated)
  }

  /** Process one row; None when the call raises, which undoes the whole envelope. */
  function ProcessRow(env: Env, st: State, candidate: nat, header: Header, row: Row): Option<(State, Outcome)> {
    var identity := Identity(candidate, header, row);
    match FindRecord(st.records, candidate, identity)
    case Some(k) => Some((st, DuplicateOutcome(st.records[k])))
    case None =>
      if RawStatusOf(row) == Unhashable then None
      else match RowDefect(env, row)
        case Some(reason) =>
          if ReadIndex(env, row) == Unreadable || Unnormalizable(env, row) then None
          else
            Some((st.(records := st.records + [RejectedRecord(env, candidate, identity, reason)]),
                  RejectedOutcome(env, row, Some(identity), Some(reason))))
        case None =>
          var e := env.validate(row).value;
          match PrintsOf(env, e)
          case None => None
          case Some(prints) =>
            var c := Classify(env, st.store, candidate, e, prints.hash);
            var record := ClassifiedRecord(candidate, identity, e, prints.key, c);
            Some((State(c.store, st.records + [record]), FreshOutcome(record, c.jobCreated)))
  }

  // ------------------------------------------------------------------ whole envelope

  function ProcessRows(env: Env, st: State, candidate: nat, header: Header, rows: seq<Row>): (r: Option<(State, seq<Outcome>)>)
    ensures r.Some? ==> |r.value.1| == |rows|
  {
    if rows == [] then Some((st, []))
    else match ProcessRows(env, st, candidate, header, rows[..|rows| - 1])
      case None => None
      case Some((st', outs)) =>
        match ProcessRow(env, st', candidate, header, rows[|rows| - 1])
        case None => None
        case Some((st'', out)) => Some((st'', outs + [out]))
  }

  /** The counters of an ingestion report. */
  datatype Counts = Counts(
    verified: nat,
    partial: nat,
    noUrl: nat,
    unresolved: nat,
    rejected: nat,
    duplicates: nat,
    jobsCreated: nat)

  const ZERO := Counts(0, 0, 0, 0, 0, 0, 0)

  function Accumulate(c: Counts, o: Outcome): Counts {
    if o.duplicate then c.(duplicates := c.duplicates + 1)
    else
      var c' := match o.processing
        case AcceptedVerified => c.(verified := c.verified + 1)
        case AcceptedPartial => c.(partial := c.partial + 1)
        case QuarantinedPartialNoUrl => c.(noUrl := c.noUrl + 1)
        case QuarantinedUnresolved => c.(unresolved := c.unresolved + 1)
        case RejectedInvalid => c.(rejected := c.rejected + 1);
      if o.jobCreated then c'.(jobsCreated := c'.jobsCreated + 1) else c'
  }

  function Tally(outs: seq<Outcome>): Counts {
    if outs == [] then ZERO else Accumulate(Tally(outs[..|outs| - 1]), outs[|outs| - 1])
  }

  datatype Report = Report(headerError: Option<HeaderError>, outcomes: seq<Outcome>, counts: Counts)

  datatype IngestError = CandidateNotFound | CallRaised

  predicate AnyUnreadable(env: Env, rows: seq<Row>) {
    exists row :: row in rows && ReadIndex(env, row) == Unreadable
  }

  function RejectAll(env: Env, rows: seq<Row>): seq<Outcome> {
    seq(|rows|, i requires 0 <= i < |rows| => RejectedOutcome(env, rows[i], None, None))
  }

  /** Ingest an envelope for a candidate. */
  function Ingest(env: Env, st: State, candidates: set<nat>, candidate: nat, e: Envelope): (State, Result<Report, IngestError>) {
    if candidate !in candidates then (st, Err(CandidateNotFound))
    else match ValidateEnvelope(e)
      case Some(err) =>
        if AnyUnreadable(env, e.rows) then (st, Err(CallRaised))
        else (st, Ok(Report(Some(err), RejectAll(env, e.rows), Tally(RejectAll(env, e.rows)))))
      case None =>
        match ProcessRows(env, st, candidate, e.header, e.rows)
        case None => (st, Err(CallRaised))
        case Some((st', outs)) => (st', Ok(Report(None, outs, Tally(outs))))
  }
}
