/** Batched classification of postings against the stored jobs. */
module Dedup {
  import opened Prelude
  import opened JobStore

  /** A normalized posting as discovery receives it. */
  datatype Posting = Posting(
    url: Text,
    externalId: Option<string>,
    hash: Text,
    companyName: Option<string>,
    companyDomain: Option<string>,
    closingAt: Option<Time>)

  datatype Decision = Decision(posting: Posting, isNew: bool, key: Option<Key>)

  /** The company of a posting among those resolved upstream. */
  function ResolveCompany(p: Posting, companies: map<string, nat>): Option<nat> {
    if p.companyDomain.Some? && p.companyDomain.value != "" && p.companyDomain.value in companies
    then Some(companies[p.companyDomain.value]) else None
  }

  /** A posting's company is the one resolved for its domain, and none without a domain or without such a company. */
  lemma ResolvedExactly(p: Posting, companies: map<string, nat>, c: nat)
    ensures ResolveCompany(p, companies) == Some(c) <==>
            p.companyDomain.Some? && p.companyDomain.value != "" && p.companyDomain.value in companies
            && companies[p.companyDomain.value] == c
  {
  }

  datatype Existing = Existing(urls: set<string>, externals: set<(nat, string)>, hashes: set<string>)

  /**
   * The batched query. The pair lookup selects by company ids and external ids
   * separately, so it may also return pairs that no posting asked about.
   */
  function FindExisting(jobs: seq<Job>, candidate: nat, urls: set<string>, pairs: set<(nat, string)>, hashes: set<string>): Existing {
    var companyIds := set pair | pair in pairs :: pair.0;
    var externalIds := set pair | pair in pairs :: pair.1;
    Existing(
      set j | j in jobs && j.candidate == candidate && j.url in urls :: j.url,
      set j | j in jobs && j.candidate == candidate && j.company in companyIds
              && j.externalId.Some? && j.externalId.value in externalIds :: (j.company, j.externalId.value),
      set j | j in jobs && j.candidate == candidate && j.hash in hashes :: j.hash)
  }

  function PairsOf(ps: seq<Posting>, companies: map<string, nat>): set<(nat, string)> {
    set p | p in ps && ResolveCompany(p, companies).Some? && p.externalId.Some?
      :: (ResolveCompany(p, companies).value, p.externalId.value)
  }

  /** The batched query for a whole batch of postings. */
  function ExistingFor(jobs: seq<Job>, candidate: nat, ps: seq<Posting>, companies: map<string, nat>): Existing {
    FindExisting(jobs, candidate, set p | p in ps :: p.url, PairsOf(ps, companies), set p | p in ps :: p.hash)
  }

  /** The one-at-a-time lookup for a posting. */
  function LookupFor(jobs: seq<Job>, candidate: nat, p: Posting, companies: map<string, nat>): Option<Match> {
    FindIdentical(jobs, Query(candidate, Some(p.url), ResolveCompany(p, companies), p.externalId, Some(p.hash)))
  }

  /** Whether the batch index knows each key of a posting is exactly whether the single lookup would find it. */
  lemma IndexAgrees(jobs: seq<Job>, candidate: nat, ps: seq<Posting>, companies: map<string, nat>, p: Posting)
    requires p in ps
    ensures var e := ExistingFor(jobs, candidate, ps, companies);
            var q := Query(candidate, Some(p.url), ResolveCompany(p, companies), p.externalId, Some(p.hash));
            && (p.url in e.urls <==> ByUrl(jobs, q).Some?)
            && (p.hash in e.hashes <==> ByHash(jobs, q).Some?)
            && ((q.company.Some? && q.externalId.Some? && (q.company.value, q.externalId.value) in e.externals)
                <==> ByExternal(jobs, q).Some?)
  {
    var e := ExistingFor(jobs, candidate, ps, companies);
    var q := Query(candidate, Some(p.url), ResolveCompany(p, companies), p.externalId, Some(p.hash));
    if p.url in e.urls {
      var j :| j in jobs && j.candidate == candidate && j.url == p.url;
      var i :| 0 <= i < |jobs| && jobs[i] == j;
      assert HasUrl(jobs[i], candidate, p.url);
    }
    if p.hash in e.hashes {
      var j :| j in jobs && j.candidate == candidate && j.hash == p.hash;
      var i :| 0 <= i < |jobs| && jobs[i] == j;
      assert HasHash(jobs[i], candidate, p.hash);
    }
    if q.company.Some? && q.externalId.Some? {
      PairAgrees(jobs, candidate, ps, companies, p);
    }
  }

  lemma PairAgrees(jobs: seq<Job>, candidate: nat, ps: seq<Posting>, companies: map<string, nat>, p: Posting)
    requires p in ps && ResolveCompany(p, companies).Some? && p.externalId.Some?
    ensures var e := ExistingFor(jobs, candidate, ps, companies);
            var c, x := ResolveCompany(p, companies).value, p.externalId.value;
            (c, x) in e.externals <==> FirstWhere(jobs, j => HasExternal(j, candidate, c, x)).Some?
  {
    var e := ExistingFor(jobs, candidate, ps, companies);
    var c, x := ResolveCompany(p, companies).value, p.externalId.value;
    var found := FirstWhere(jobs, j => HasExternal(j, candidate, c, x));
    if (c, x) in e.externals {
      var j :| j in jobs && j.candidate == candidate && j.externalId.Some? && (j.company, j.externalId.value) == (c, x);
      var i :| 0 <= i < |jobs| && jobs[i] == j;
      assert HasExternal(jobs[i], candidate, c, x);
    }
    if found.Some? {
      var j := jobs[found.value];
      var pairs := PairsOf(ps, companies);
      assert (c, x) in pairs;
      assert c in (set pair | pair in pairs :: pair.0);
      assert x in (set pair | pair in pairs :: pair.1);
      assert j in jobs && (j.company, j.externalId.value) == (c, x);
    }
  }

  /**
   * Classify a batch of postings with one round of queries. For any store and
   * batch this agrees with looking each posting up on its own: new exactly
   * when that finds nothing, and otherwise with the key it matched by.
   */
  method Classify(jobs: seq<Job>, candidate: nat, ps: seq<Posting>, companies: map<string, nat>) returns (ds: seq<Decision>)
    ensures |ds| == |ps|
    ensures forall i :: 0 <= i < |ps| ==>
              var found := LookupFor(jobs, candidate, ps[i], companies);
              && ds[i].posting == ps[i]
              && (ds[i].isNew <==> found.None?)
              && ds[i].key == (if found.Some? then Some(found.value.key) else None)
  {
    ds := [];
    if ps == [] {
      return;
    }
    var existing := ExistingFor(jobs, candidate, ps, companies);
    for i := 0 to |ps|
      invariant |ds| == i
      invariant forall k :: 0 <= k < i ==>
                  var found := LookupFor(jobs, candidate, ps[k], companies);
                  && ds[k].posting == ps[k]
                  && (ds[k].isNew <==> found.None?)
                  && ds[k].key == (if found.Some? then Some(found.value.key) else None)
    {
      var posting := ps[i];
      IndexAgrees(jobs, candidate, ps, companies, posting);
      if posting.url in existing.urls {
        ds := ds + [Decision(posting, false, Some(UrlKey))];
        continue;
      }
      var resolved := ResolveCompany(posting, companies);
      if resolved.Some? && posting.externalId.Some? && (resolved.value, posting.externalId.value) in existing.externals {
        ds := ds + [Decision(posting, false, Some(CompanyExternalKey))];
        continue;
      }
      if posting.hash in existing.hashes {
        ds := ds + [Decision(posting, false, Some(ContentHashKey))];
        continue;
      }
      ds := ds + [Decision(posting, true, None)];
    }
  }
}
