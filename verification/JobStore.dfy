/**
 * The shared job store: postings of every candidate, the companies they refer
 * to, and the lookups that keep a posting from being stored twice.
 */
module JobStore {
  import opened Prelude

  /** Stored URLs and fingerprints are never empty: both writers resolve them before storing. */
  type Text = s: string | s != "" witness "x"

  datatype JobStatus = Discovered | Verified | Expired | Rejected

  /** A job row; its id is its position. */
  datatype Job = Job(
    candidate: nat,
    company: nat,
    source: nat,
    externalId: Option<string>,
    url: Text,
    hash: Text,
    status: JobStatus)

  /** A company row; its id is its position. */
  datatype Company = Company(name: string, domain: Option<string>)

  datatype Store = Store(jobs: seq<Job>, companies: seq<Company>)

  // ------------------------------------------------------------------- companies

  /** The first company with a domain; an absent or empty domain finds none. */
  function FindByDomain(cs: seq<Company>, domain: Option<string>): (r: Option<nat>)
    ensures r.Some? ==> r.value < |cs| && domain.Some? && cs[r.value].domain == domain
  {
    if domain.None? || domain.value == "" || cs == [] then None
    else
      var last := |cs| - 1;
      var earlier := FindByDomain(cs[..last], domain);
      if earlier.Some? then earlier
      else if cs[last].domain == domain then Some(last)
      else None
  }

  function GetOrCreateByDomain(cs: seq<Company>, name: string, domain: Option<string>): (r: (seq<Company>, nat))
    ensures r.1 < |r.0| && cs <= r.0
  {
    match FindByDomain(cs, domain)
    case Some(c) => (cs, c)
    case None => (cs + [Company(name, domain)], |cs|)
  }

  /** The company found is the first with the domain; none is found for an absent or empty domain, or one no company has. */
  lemma {:induction false} FindByDomainExactly(cs: seq<Company>, domain: Option<string>)
    ensures FindByDomain(cs, domain).None? <==>
            domain.None? || domain.value == "" || forall i :: 0 <= i < |cs| ==> cs[i].domain != domain
    ensures FindByDomain(cs, domain).Some? ==>
              forall i :: 0 <= i < FindByDomain(cs, domain).value ==> cs[i].domain != domain
  {
    if cs != [] {
      var last := |cs| - 1;
      FindByDomainExactly(cs[..last], domain);
      assert forall i :: 0 <= i < last ==> cs[..last][i] == cs[i];
    }
  }

  /** A company is added exactly when none is found, under the name and domain given. */
  lemma CreatedExactly(cs: seq<Company>, name: string, domain: Option<string>)
    ensures var (cs', id) := GetOrCreateByDomain(cs, name, domain);
            if FindByDomain(cs, domain).Some? then cs' == cs && cs[id].domain == domain
            else id == |cs| && cs'[..id] == cs && |cs'| == id + 1 && cs'[id].name == name && cs'[id].domain == domain
  {
    hide FindByDomain;
  }

  lemma {:induction false} FindByDomainStable(cs: seq<Company>, cs': seq<Company>, domain: Option<string>)
    requires cs <= cs' && FindByDomain(cs, domain).Some?
    ensures FindByDomain(cs', domain) == FindByDomain(cs, domain)
  {
    if |cs| < |cs'| {
      FindByDomainStable(cs, cs'[..|cs'| - 1], domain);
    } else {
      assert cs == cs';
    }
  }

  // ------------------------------------------------------------------ job lookups

  /** The first job that satisfies a criterion. */
  function FirstWhere(jobs: seq<Job>, p: Job -> bool): (r: Option<nat>)
    ensures r.Some? ==> r.value < |jobs| && p(jobs[r.value])
    ensures forall i :: 0 <= i < (if r.Some? then r.value else |jobs|) ==> !p(jobs[i])
  {
    if jobs == [] then None
    else
      var last := |jobs| - 1;
      var earlier := FirstWhere(jobs[..last], p);
      if earlier.Some? then earlier else if p(jobs[last]) then Some(last) else None
  }

  datatype Key = UrlKey | CompanyExternalKey | ContentHashKey

  datatype Match = Match(job: nat, key: Key)

  predicate HasUrl(j: Job, candidate: nat, url: string) {
    j.candidate == candidate && j.url == url
  }

  predicate HasExternal(j: Job, candidate: nat, company: nat, externalId: string) {
    j.candidate == candidate && j.company == company && j.externalId == Some(externalId)
  }

  predicate HasHash(j: Job, candidate: nat, hash: string) {
    j.candidate == candidate && j.hash == hash
  }

  /** What a lookup is asked about; any key may be missing. */
  datatype Query = Query(
    candidate: nat,
    url: Option<string>,
    company: Option<nat>,
    externalId: Option<string>,
    hash: Option<string>)

  function ByUrl(jobs: seq<Job>, q: Query): Option<nat> {
    if q.url.Some? && q.url.value != "" then FirstWhere(jobs, j => HasUrl(j, q.candidate, q.url.value)) else None
  }

  function ByExternal(jobs: seq<Job>, q: Query): Option<nat> {
    if q.company.Some? && q.externalId.Some?
    then FirstWhere(jobs, j => HasExternal(j, q.candidate, q.company.value, q.externalId.value)) else None
  }

  function ByHash(jobs: seq<Job>, q: Query): Option<nat> {
    if q.hash.Some? && q.hash.value != "" then FirstWhere(jobs, j => HasHash(j, q.candidate, q.hash.value)) else None
  }

  /** The job matching by the strongest key: exact URL, then company and external id, then content hash. */
  function FindIdentical(jobs: seq<Job>, q: Query): (r: Option<Match>)
    ensures r.Some? ==> r.value.job < |jobs|
  {
    match ByUrl(jobs, q)
    case Some(j) => Some(Match(j, UrlKey))
    case None =>
      match ByExternal(jobs, q)
      case Some(j) => Some(Match(j, CompanyExternalKey))
      case None =>
        match ByHash(jobs, q)
        case Some(j) => Some(Match(j, ContentHashKey))
        case None => None
  }

  predicate KnowsUrl(jobs: seq<Job>, q: Query) {
    && q.url.Some? && q.url.value != ""
    && exists j :: j in jobs && HasUrl(j, q.candidate, q.url.value)
  }

  predicate KnowsExternal(jobs: seq<Job>, q: Query) {
    && q.company.Some? && q.externalId.Some?
    && exists j :: j in jobs && HasExternal(j, q.candidate, q.company.value, q.externalId.value)
  }

  predicate KnowsHash(jobs: seq<Job>, q: Query) {
    && q.hash.Some? && q.hash.value != ""
    && exists j :: j in jobs && HasHash(j, q.candidate, q.hash.value)
  }

  /** The job found has the key reported, and the key reported is the strongest one any stored job has. */
  lemma StrongestKeyWins(jobs: seq<Job>, q: Query)
    ensures var found := FindIdentical(jobs, q);
            && (found.Some? && found.value.key == UrlKey <==> KnowsUrl(jobs, q))
            && (found.Some? && found.value.key == CompanyExternalKey <==> !KnowsUrl(jobs, q) && KnowsExternal(jobs, q))
            && (found.Some? && found.value.key == ContentHashKey <==>
                  !KnowsUrl(jobs, q) && !KnowsExternal(jobs, q) && KnowsHash(jobs, q))
            && (found.Some? ==>
                  var j := jobs[found.value.job];
                  match found.value.key
                  case UrlKey => q.url.Some? && HasUrl(j, q.candidate, q.url.value)
                  case CompanyExternalKey =>
                    q.company.Some? && q.externalId.Some? && HasExternal(j, q.candidate, q.company.value, q.externalId.value)
                  case ContentHashKey => q.hash.Some? && HasHash(j, q.candidate, q.hash.value))
  {
    assert KnowsUrl(jobs, q) <==> ByUrl(jobs, q).Some? by {
      if KnowsUrl(jobs, q) {
        var i :| 0 <= i < |jobs| && HasUrl(jobs[i], q.candidate, q.url.value);
      }
    }
    assert KnowsExternal(jobs, q) <==> ByExternal(jobs, q).Some? by {
      if KnowsExternal(jobs, q) {
        var i :| 0 <= i < |jobs| && HasExternal(jobs[i], q.candidate, q.company.value, q.externalId.value);
      }
    }
    assert KnowsHash(jobs, q) <==> ByHash(jobs, q).Some? by {
      if KnowsHash(jobs, q) {
        var i :| 0 <= i < |jobs| && HasHash(jobs[i], q.candidate, q.hash.value);
      }
    }
  }

  // -------------------------------------------------------------------- uniqueness

  predicate Clash(a: Job, b: Job) {
    && a.candidate == b.candidate
    && (a.url == b.url
        || (a.company == b.company && a.externalId.Some? && a.externalId == b.externalId)
        || a.hash == b.hash)
  }

  /** No two jobs of one candidate share a URL, a company and external id, or a content hash. */
  ghost predicate Unique(jobs: seq<Job>) {
    forall i, j :: 0 <= i < j < |jobs| ==> !Clash(jobs[i], jobs[j])
  }

  function QueryFor(j: Job): Query {
    Query(j.candidate, Some(j.url), Some(j.company), j.externalId, Some(j.hash))
  }

  /** A lookup finds nothing exactly when no stored job clashes. */
  lemma NothingIdenticalIffNoClash(jobs: seq<Job>, j: Job)
    ensures FindIdentical(jobs, QueryFor(j)).None? <==> forall i :: 0 <= i < |jobs| ==> !Clash(jobs[i], j)
  {
    var q := QueryFor(j);
    if FindIdentical(jobs, q).None? {
      forall i | 0 <= i < |jobs| ensures !Clash(jobs[i], j) {
        var p := (x: Job) => HasUrl(x, q.candidate, q.url.value);
        assert !HasUrl(jobs[i], q.candidate, q.url.value);
        assert !HasHash(jobs[i], q.candidate, q.hash.value);
        assert q.externalId.Some? ==> !HasExternal(jobs[i], q.candidate, q.company.value, q.externalId.value);
      }
    } else {
      assert Clash(jobs[FindIdentical(jobs, q).value.job], j);
    }
  }

  /** Storing a job the lookup does not know keeps the store free of clashes. */
  lemma CreateKeepsUnique(jobs: seq<Job>, j: Job)
    requires Unique(jobs) && FindIdentical(jobs, QueryFor(j)).None?
    ensures Unique(jobs + [j])
  {
    NothingIdenticalIffNoClash(jobs, j);
  }

  /** The rows both writers share, changed in place. */
  class Repository {
    var jobs: seq<Job>
    var companies: seq<Company>

    ghost function Contents(): Store
      reads this
    {
      Store(jobs, companies)
    }

    constructor ()
      ensures Contents() == Store([], [])
    {
      jobs, companies := [], [];
    }

    method GetOrCreateCompany(name: string, domain: Option<string>) returns (id: nat)
      modifies this
      ensures (companies, id) == GetOrCreateByDomain(old(companies), name, domain)
      ensures jobs == old(jobs)
    {
      var existing := FindByDomain(companies, domain);
      if existing.Some? {
        return existing.value;
      }
      id := |companies|;
      companies := companies + [Company(name, domain)];
    }

    method CreateJob(j: Job) returns (id: nat)
      modifies this
      ensures id == |old(jobs)| && jobs == old(jobs) + [j] && companies == old(companies)
    {
      id := |jobs|;
      jobs := jobs + [j];
    }
  }
}
