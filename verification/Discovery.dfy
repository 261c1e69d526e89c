/** Discovery: storing the postings a source returned, with a per-run company cache. */
module Discovery {
  import opened Prelude
  import opened JobStore
  import opened Dedup

  /** A posting together with the time read when it is looked at. */
  datatype Fetched = Fetched(posting: Posting, now: Time)

  /** What one discovery run accumulates: the company cache and its counters. */
  datatype Progress = Progress(cache: map<string, nat>, newJobs: nat, duplicates: nat)

  function CompanyName(p: Posting): string {
    if p.companyName.Some? && p.companyName.value != "" then p.companyName.value
    else if p.companyDomain.Some? && p.companyDomain.value != "" then p.companyDomain.value
    else "Unknown Employer"
  }

  function CacheKey(p: Posting): string {
    if p.companyDomain.Some? then p.companyDomain.value else ""
  }

  /** The company of a posting: cached, found by its domain, or created. A posting without a domain is never cached. */
  function CompanyFor(cs: seq<Company>, cache: map<string, nat>, p: Posting): (seq<Company>, map<string, nat>, nat) {
    if p.companyDomain.Some? && p.companyDomain.value in cache then (cs, cache, cache[p.companyDomain.value])
    else
      var (cs', id) := GetOrCreateByDomain(cs, CompanyName(p), p.companyDomain);
      (cs', cache[CacheKey(p) := id], id)
  }

  function NewJob(candidate: nat, source: nat, company: nat, p: Posting): Job {
    Job(candidate, company, source, p.externalId, p.url, p.hash, Discovered)
  }

  predicate IsClosed(f: Fetched) {
    f.posting.closingAt.Some? && f.posting.closingAt.value < f.now
  }

  /** A posting without a closing time, or one that has not passed when it is looked at. */
  predicate IsOpen(f: Fetched) {
    f.posting.closingAt.None? || f.now <= f.posting.closingAt.value
  }

  /** Store one posting unless it has closed or is already known. */
  function StoreOne(s: Store, acc: Progress, candidate: nat, source: nat, f: Fetched): (Store, Progress) {
    if IsClosed(f) then (s, acc)
    else
      var (companies, cache, company) := CompanyFor(s.companies, acc.cache, f.posting);
      var job := NewJob(candidate, source, company, f.posting);
      if FindIdentical(s.jobs, QueryFor(job)).Some? then
        (s.(companies := companies), Progress(cache, acc.newJobs, acc.duplicates + 1))
      else
        (Store(s.jobs + [job], companies), Progress(cache, acc.newJobs + 1, acc.duplicates))
  }

  function StoreAll(s: Store, acc: Progress, candidate: nat, source: nat, fs: seq<Fetched>): (Store, Progress) {
    if fs == [] then (s, acc)
    else
      var (s', acc') := StoreAll(s, acc, candidate, source, fs[..|fs| - 1]);
      StoreOne(s', acc', candidate, source, fs[|fs| - 1])
  }

  // ------------------------------------------------------------- company cache

  /** Every cached domain names the company a fresh lookup by that domain would find. */
  ghost predicate Coherent(cs: seq<Company>, cache: map<string, nat>) {
    forall d :: d in cache && d != "" ==> FindByDomain(cs, Some(d)) == Some(cache[d])
  }

  lemma GrowthKeepsCoherent(cs: seq<Company>, cs': seq<Company>, cache: map<string, nat>)
    requires Coherent(cs, cache) && cs <= cs'
    ensures Coherent(cs', cache)
  {
    forall d | d in cache && d != "" ensures FindByDomain(cs', Some(d)) == Some(cache[d]) {
      FindByDomainStable(cs, cs', Some(d));
    }
  }

  /** A created company is the one later lookups of its domain find. */
  lemma GetOrCreateIsFound(cs: seq<Company>, name: string, domain: Option<string>)
    requires domain.Some? && domain.value != ""
    ensures var (cs', id) := GetOrCreateByDomain(cs, name, domain);
            FindByDomain(cs', domain) == Some(id)
  {
    var cs' := GetOrCreateByDomain(cs, name, domain).0;
    if FindByDomain(cs, domain).None? {
      assert cs'[..|cs|] == cs;
    }
  }

  /** The cache is transparent: the company of a posting is the one a lookup by its domain finds afterwards. */
  lemma CacheIsTransparent(cs: seq<Company>, cache: map<string, nat>, p: Posting)
    requires Coherent(cs, cache)
    ensures var (cs', cache', id) := CompanyFor(cs, cache, p);
            && cs <= cs' && Coherent(cs', cache')
            && (p.companyDomain.Some? && p.companyDomain.value != "" ==> FindByDomain(cs', p.companyDomain) == Some(id))
            && (FindByDomain(cs, p.companyDomain).Some? ==> cs' == cs && FindByDomain(cs, p.companyDomain) == Some(id))
  {
    if !(p.companyDomain.Some? && p.companyDomain.value in cache) {
      var (cs', id) := GetOrCreateByDomain(cs, CompanyName(p), p.companyDomain);
      GrowthKeepsCoherent(cs, cs', cache);
      if p.companyDomain.Some? && p.companyDomain.value != "" {
        GetOrCreateIsFound(cs, CompanyName(p), p.companyDomain);
      }
    }
  }

  /**
   * A posting adds a company exactly when it names no domain, or names one that
   * no company has and, should it be empty, that no posting of the run brought
   * into the cache. The company added is the posting's own.
   */
  lemma CompanyAddedExactly(cs: seq<Company>, cache: map<string, nat>, p: Posting)
    requires Coherent(cs, cache)
    ensures var (cs', cache', id) := CompanyFor(cs, cache, p);
            && (cs' != cs <==>
                  match p.companyDomain
                  case None => true
                  case Some(d) => if d == "" then "" !in cache else FindByDomain(cs, Some(d)).None?)
            && (cs' != cs ==> cs' == cs + [Company(CompanyName(p), p.companyDomain)] && id == |cs|)
  {
    assert cs + [Company(CompanyName(p), p.companyDomain)] != cs;
  }

  // -------------------------------------------------------------- storing a run

  lemma {:induction false} StoreAllKeeps(s: Store, acc: Progress, candidate: nat, source: nat, fs: seq<Fetched>)
    requires Unique(s.jobs) && Coherent(s.companies, acc.cache)
    ensures var (s', acc') := StoreAll(s, acc, candidate, source, fs);
            && Unique(s'.jobs) && Coherent(s'.companies, acc'.cache)
            && s.jobs <= s'.jobs && s.companies <= s'.companies
            && acc'.newJobs - acc.newJobs == |s'.jobs| - |s.jobs|
            && (forall i :: |s.jobs| <= i < |s'.jobs| ==> s'.jobs[i].candidate == candidate && s'.jobs[i].status == Discovered)
  {
    if fs != [] {
      StoreAllKeeps(s, acc, candidate, source, fs[..|fs| - 1]);
      var (s1, acc1) := StoreAll(s, acc, candidate, source, fs[..|fs| - 1]);
      var f := fs[|fs| - 1];
      if !IsClosed(f) {
        CacheIsTransparent(s1.companies, acc1.cache, f.posting);
        var job := NewJob(candidate, source, CompanyFor(s1.companies, acc1.cache, f.posting).2, f.posting);
        if FindIdentical(s1.jobs, QueryFor(job)).None? {
          CreateKeepsUnique(s1.jobs, job);
        }
      }
    }
  }

  /** A job of the candidate that shares the URL, the hash, or the company and external id of a posting. */
  predicate Represents(j: Job, candidate: nat, company: nat, p: Posting) {
    && j.candidate == candidate
    && (|| j.url == p.url
        || (j.company == company && p.externalId.Some? && j.externalId == p.externalId)
        || j.hash == p.hash)
  }

  ghost predicate Represented(jobs: seq<Job>, candidate: nat, company: nat, p: Posting) {
    exists i :: 0 <= i < |jobs| && Represents(jobs[i], candidate, company, p)
  }

  /** The company the k-th posting is stored or looked up under, when its turn comes. */
  function CompanyOf(s: Store, acc: Progress, candidate: nat, source: nat, fs: seq<Fetched>, k: nat): nat
    requires k < |fs|
  {
    var (s', acc') := StoreAll(s, acc, candidate, source, fs[..k]);
    CompanyFor(s'.companies, acc'.cache, fs[k].posting).2
  }

  /** That company is the one its domain finds from then on. */
  lemma {:induction false} CompanyOfIsFound(s: Store, acc: Progress, candidate: nat, source: nat, fs: seq<Fetched>, k: nat)
    requires Unique(s.jobs) && Coherent(s.companies, acc.cache)
    requires k < |fs| && IsOpen(fs[k])
    requires fs[k].posting.companyDomain.Some? && fs[k].posting.companyDomain.value != ""
    ensures FindByDomain(StoreAll(s, acc, candidate, source, fs).0.companies, fs[k].posting.companyDomain)
            == Some(CompanyOf(s, acc, candidate, source, fs, k))
  {
    var n := |fs| - 1;
    var domain := fs[k].posting.companyDomain;
    StoreAllKeeps(s, acc, candidate, source, fs[..n]);
    var (s1, acc1) := StoreAll(s, acc, candidate, source, fs[..n]);
    var s' := StoreOne(s1, acc1, candidate, source, fs[n]).0;
    CacheIsTransparent(s1.companies, acc1.cache, fs[n].posting);
    hide FindIdentical, FindByDomain;
    if k < n {
      assert fs[..n][..k] == fs[..k];
      CompanyOfIsFound(s, acc, candidate, source, fs[..n], k);
      assert s1.companies <= s'.companies;
      FindByDomainStable(s1.companies, s'.companies, domain);
    }
  }

  lemma StoreOneRepresents(s: Store, acc: Progress, candidate: nat, source: nat, f: Fetched)
    requires IsOpen(f)
    ensures Represented(StoreOne(s, acc, candidate, source, f).0.jobs, candidate,
                        CompanyFor(s.companies, acc.cache, f.posting).2, f.posting)
    ensures s.jobs <= StoreOne(s, acc, candidate, source, f).0.jobs
  {
    var s' := StoreOne(s, acc, candidate, source, f).0;
    var company := CompanyFor(s.companies, acc.cache, f.posting).2;
    var job := NewJob(candidate, source, company, f.posting);
    StrongestKeyWins(s.jobs, QueryFor(job));
    hide CompanyFor;
    match FindIdentical(s.jobs, QueryFor(job))
    case Some(found) => assert Represents(s'.jobs[found.job], candidate, company, f.posting);
    case None => assert Represents(s'.jobs[|s.jobs|], candidate, company, f.posting);
  }

  /**
   * No open posting is lost: afterwards a job of the candidate has its URL, its
   * hash, or its external id within its own company.
   */
  lemma {:induction false} StoreAllRepresents(s: Store, acc: Progress, candidate: nat, source: nat, fs: seq<Fetched>)
    ensures var s' := StoreAll(s, acc, candidate, source, fs).0;
            && s.jobs <= s'.jobs
            && forall k :: 0 <= k < |fs| && IsOpen(fs[k]) ==>
                 Represented(s'.jobs, candidate, CompanyOf(s, acc, candidate, source, fs, k), fs[k].posting)
  {
    if fs != [] {
      var n := |fs| - 1;
      StoreAllRepresents(s, acc, candidate, source, fs[..n]);
      var (s1, acc1) := StoreAll(s, acc, candidate, source, fs[..n]);
      var s' := StoreOne(s1, acc1, candidate, source, fs[n]).0;
      if IsOpen(fs[n]) {
        StoreOneRepresents(s1, acc1, candidate, source, fs[n]);
      }
      assert s1.jobs <= s'.jobs;
      hide StoreOne, Represented, IsOpen, CompanyFor;
      forall k | 0 <= k < n && IsOpen(fs[k])
        ensures Represented(s'.jobs, candidate, CompanyOf(s, acc, candidate, source, fs, k), fs[k].posting)
      {
        assert fs[..n][..k] == fs[..k] && fs[..n][k] == fs[k];
        var company := CompanyOf(s, acc, candidate, source, fs[..n], k);
        assert Represented(s1.jobs, candidate, company, fs[..n][k].posting);
        StaysRepresented(s1.jobs, s'.jobs, candidate, company, fs[k].posting);
      }
    }
  }

  lemma StaysRepresented(jobs: seq<Job>, jobs': seq<Job>, candidate: nat, company: nat, p: Posting)
    requires jobs <= jobs' && Represented(jobs, candidate, company, p)
    ensures Represented(jobs', candidate, company, p)
  {
    var i :| 0 <= i < |jobs| && Represents(jobs[i], candidate, company, p);
    assert Represents(jobs'[i], candidate, company, p);
  }

  /** A job with the keys of one of the open postings, newly discovered for the candidate at the source. */
  ghost predicate MadeFrom(j: Job, candidate: nat, source: nat, fs: seq<Fetched>) {
    && j.candidate == candidate && j.source == source && j.status == Discovered
    && exists k :: 0 <= k < |fs| && IsOpen(fs[k]) && Copies(j, fs[k].posting)
  }

  predicate Copies(j: Job, p: Posting) {
    j.url == p.url && j.hash == p.hash && j.externalId == p.externalId
  }

  lemma MadeFromMore(j: Job, candidate: nat, source: nat, fs: seq<Fetched>, n: nat)
    requires n <= |fs| && MadeFrom(j, candidate, source, fs[..n])
    ensures MadeFrom(j, candidate, source, fs)
  {
    var k :| 0 <= k < n && IsOpen(fs[..n][k]) && Copies(j, fs[..n][k].posting);
    assert fs[k] == fs[..n][k];
  }

  /** No job is made up: every job added comes from one of the open postings. */
  lemma {:induction false} StoreAllMakesUpNothing(s: Store, acc: Progress, candidate: nat, source: nat, fs: seq<Fetched>)
    ensures var s' := StoreAll(s, acc, candidate, source, fs).0;
            && s.jobs <= s'.jobs
            && forall i :: |s.jobs| <= i < |s'.jobs| ==> MadeFrom(s'.jobs[i], candidate, source, fs)
  {
    if fs != [] {
      hide FindIdentical, CompanyFor;
      var n := |fs| - 1;
      StoreAllMakesUpNothing(s, acc, candidate, source, fs[..n]);
      var s1 := StoreAll(s, acc, candidate, source, fs[..n]).0;
      var s' := StoreAll(s, acc, candidate, source, fs).0;
      forall i | |s.jobs| <= i < |s'.jobs| ensures MadeFrom(s'.jobs[i], candidate, source, fs) {
        if i < |s1.jobs| {
          MadeFromMore(s1.jobs[i], candidate, source, fs, n);
        } else {
          assert IsOpen(fs[n]) && Copies(s'.jobs[i], fs[n].posting);
        }
      }
    }
  }

  function Passed(): Fetched -> bool {
    (f: Fetched) => f.posting.closingAt.Some? && f.posting.closingAt.value < f.now
  }

  /** Every posting is accounted for: its closing time has passed, or it is reported as a duplicate, or stored. */
  lemma {:induction false} StoreAllCounts(s: Store, acc: Progress, candidate: nat, source: nat, fs: seq<Fetched>)
    ensures var (s', acc') := StoreAll(s, acc, candidate, source, fs);
            (acc'.newJobs - acc.newJobs) + (acc'.duplicates - acc.duplicates) + CountIf(fs, Passed()) == |fs|
  {
    if fs != [] {
      StoreAllCounts(s, acc, candidate, source, fs[..|fs| - 1]);
    }
  }

  /**
   * What one posting does: nothing once its closing time has passed; otherwise it
   * is counted as a duplicate exactly when a job of the candidate shares a key
   * with it under its company, and is stored and counted as new when none does.
   */
  lemma StoreOneExactly(s: Store, acc: Progress, candidate: nat, source: nat, f: Fetched)
    ensures var (s', acc') := StoreOne(s, acc, candidate, source, f);
            var company := CompanyFor(s.companies, acc.cache, f.posting).2;
            var known := exists i :: 0 <= i < |s.jobs| && Represents(s.jobs[i], candidate, company, f.posting);
            && (!IsOpen(f) ==> s' == s && acc' == acc)
            && (IsOpen(f) && known ==>
                  s'.jobs == s.jobs && acc'.newJobs == acc.newJobs && acc'.duplicates == acc.duplicates + 1)
            && (IsOpen(f) && !known ==>
                  && |s'.jobs| == |s.jobs| + 1 && s'.jobs[..|s.jobs|] == s.jobs
                  && Copies(s'.jobs[|s.jobs|], f.posting)
                  && s'.jobs[|s.jobs|].candidate == candidate && s'.jobs[|s.jobs|].company == company
                  && s'.jobs[|s.jobs|].source == source && s'.jobs[|s.jobs|].status == Discovered
                  && acc'.newJobs == acc.newJobs + 1 && acc'.duplicates == acc.duplicates)
  {
    var company := CompanyFor(s.companies, acc.cache, f.posting).2;
    var job := NewJob(candidate, source, company, f.posting);
    hide CompanyFor;
    NothingIdenticalIffNoClash(s.jobs, job);
    assert forall i :: 0 <= i < |s.jobs| ==> (Clash(s.jobs[i], job) <==> Represents(s.jobs[i], candidate, company, f.posting));
    hide Clash, Represents, FindIdentical;
  }

  /** The name a company is created under: the one given, else the domain, else a placeholder; never empty. */
  lemma NameExactly(p: Posting)
    ensures CompanyName(p) != ""
    ensures p.companyName.Some? && p.companyName.value != "" ==> CompanyName(p) == p.companyName.value
    ensures (p.companyName.None? || p.companyName.value == "") && p.companyDomain.Some? && p.companyDomain.value != "" ==>
              CompanyName(p) == p.companyDomain.value
    ensures (p.companyName.None? || p.companyName.value == "") && (p.companyDomain.None? || p.companyDomain.value == "") ==>
              CompanyName(p) == "Unknown Employer"
  {
  }

  // ---------------------------------------------------------------------- service

  class RunAccumulator {
    var companyIds: map<string, nat>
    var newJobs: nat
    var duplicates: nat

    ghost function Contents(): Progress
      reads this
    {
      Progress(companyIds, newJobs, duplicates)
    }

    constructor ()
      ensures Contents() == Progress(map[], 0, 0)
    {
      companyIds, newJobs, duplicates := map[], 0, 0;
    }
  }

  class DiscoveryService {
    const repo: Repository

    constructor (repo: Repository)
      ensures this.repo == repo
    {
      this.repo := repo;
    }

    method FindCompany(p: Posting, acc: RunAccumulator) returns (id: nat)
      modifies repo, acc
      ensures (repo.companies, acc.companyIds, id) == CompanyFor(old(repo.companies), old(acc.companyIds), p)
      ensures repo.jobs == old(repo.jobs) && acc.newJobs == old(acc.newJobs) && acc.duplicates == old(acc.duplicates)
    {
      if p.companyDomain.Some? && p.companyDomain.value in acc.companyIds {
        return acc.companyIds[p.companyDomain.value];
      }
      var found := FindByDomain(repo.companies, p.companyDomain);
      if found.Some? {
        id := found.value;
      } else {
        id := repo.GetOrCreateCompany(CompanyName(p), p.companyDomain);
      }
      acc.companyIds := acc.companyIds[CacheKey(p) := id];
    }

    /** Store the postings of one source; the counts returned are this call's share of the run's. */
    method StoreJobs(candidate: nat, source: nat, fs: seq<Fetched>, acc: RunAccumulator) returns (newCount: nat, dupCount: nat)
      modifies repo, acc
      ensures (repo.Contents(), acc.Contents())
              == StoreAll(old(repo.Contents()), old(acc.Contents()), candidate, source, fs)
      ensures newCount == acc.newJobs - old(acc.newJobs) && dupCount == acc.duplicates - old(acc.duplicates)
    {
      newCount, dupCount := 0, 0;
      for i := 0 to |fs|
        invariant (repo.Contents(), acc.Contents())
                  == StoreAll(old(repo.Contents()), old(acc.Contents()), candidate, source, fs[..i])
        invariant newCount == acc.newJobs - old(acc.newJobs) && dupCount == acc.duplicates - old(acc.duplicates)
      {
        assert fs[..i + 1][..i] == fs[..i];
        var f := fs[i];
        if f.posting.closingAt.Some? && f.posting.closingAt.value < f.now {
          continue;
        }
        var company := FindCompany(f.posting, acc);
        var existing := FindIdentical(repo.jobs, Query(candidate, Some(f.posting.url), Some(company), f.posting.externalId, Some(f.posting.hash)));
        if existing.Some? {
          dupCount := dupCount + 1;
          acc.duplicates := acc.duplicates + 1;
          continue;
        }
        var job := repo.CreateJob(Job(candidate, company, source, f.posting.externalId, f.posting.url, f.posting.hash, Discovered));
        newCount := newCount + 1;
        acc.newJobs := acc.newJobs + 1;
      }
      assert fs[..|fs|] == fs;
    }
  }
}
