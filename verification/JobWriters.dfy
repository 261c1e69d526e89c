/** Discovery and ingestion writing to the same job store, in any order. */
module JobWriters {
  import opened Prelude
  import opened JobStore
  import Ingestion
  import Discovery
  import Eligibility

  /** One call of either writer; discovery brings the progress of its own run. */
  datatype Op =
    | StoreJobsOp(candidate: nat, source: nat, fetched: seq<Discovery.Fetched>, run: nat)
    | IngestOp(candidates: set<nat>, candidate: nat, envelope: Ingestion.Envelope)

  /** The shared store and the progress of every discovery run under way. */
  datatype World = World(state: Ingestion.State, runs: map<nat, Discovery.Progress>)

  const INITIAL := World(Ingestion.State(Store([], []), []), map[])

  const FRESH_RUN := Discovery.Progress(map[], 0, 0)

  function ProgressOf(w: World, run: nat): Discovery.Progress {
    if run in w.runs then w.runs[run] else FRESH_RUN
  }

  /** The world after a call, and how many new jobs the call reports. */
  function Apply(env: Ingestion.Env, w: World, op: Op): (World, nat) {
    match op
    case StoreJobsOp(candidate, source, fetched, run) =>
      var acc := ProgressOf(w, run);
      var (store, acc') := Discovery.StoreAll(w.state.store, acc, candidate, source, fetched);
      (World(w.state.(store := store), w.runs[run := acc']), if acc'.newJobs >= acc.newJobs then acc'.newJobs - acc.newJobs else 0)
    case IngestOp(candidates, candidate, envelope) =>
      var (state, r) := Ingestion.Ingest(env, w.state, candidates, candidate, envelope);
      (w.(state := state), if r.Ok? then r.value.counts.jobsCreated else 0)
  }

  function Run(env: Ingestion.Env, ops: seq<Op>): World {
    if ops == [] then INITIAL else Apply(env, Run(env, ops[..|ops| - 1]), ops[|ops| - 1]).0
  }

  ghost predicate Inv(env: Ingestion.Env, w: World) {
    && Unique(w.state.store.jobs)
    && Eligibility.AllWellFiled(env, w.state)
    && (forall run :: run in w.runs ==> Discovery.Coherent(w.state.store.companies, w.runs[run].cache))
  }

  /** An ill-formed header rejects every row and counts no job. */
  lemma {:induction false} RejectedTally(outs: seq<Ingestion.Outcome>)
    requires forall i :: 0 <= i < |outs| ==> !outs[i].jobCreated
    ensures Ingestion.Tally(outs).jobsCreated == 0
  {
    if outs != [] {
      assert forall i :: 0 <= i < |outs| - 1 ==> outs[..|outs| - 1][i] == outs[i];
      RejectedTally(outs[..|outs| - 1]);
    }
  }

  lemma IngestKeeps(env: Ingestion.Env, st: Ingestion.State, candidates: set<nat>, candidate: nat, e: Ingestion.Envelope)
    requires Eligibility.AllWellFiled(env, st) && Unique(st.store.jobs)
    ensures var (st', r) := Ingestion.Ingest(env, st, candidates, candidate, e);
            && Eligibility.AllWellFiled(env, st') && Unique(st'.store.jobs)
            && st.store.jobs <= st'.store.jobs && st.store.companies <= st'.store.companies
            && (if r.Ok? then r.value.counts.jobsCreated else 0) == |st'.store.jobs| - |st.store.jobs|
  {
    hide Eligibility.AllWellFiled, Unique, Ingestion.ProcessRows, Ingestion.Tally;
    if candidate in candidates {
      if Ingestion.ValidateEnvelope(e).Some? {
        RejectedTally(Ingestion.RejectAll(env, e.rows));
      } else if Ingestion.ProcessRows(env, st, candidate, e.header, e.rows).Some? {
        Eligibility.ProcessRowsKeep(env, st, candidate, e.header, e.rows);
      }
    }
  }

  lemma StoreJobsKeeps(env: Ingestion.Env, w: World, candidate: nat, source: nat, fetched: seq<Discovery.Fetched>, run: nat)
    requires Inv(env, w)
    ensures var (w', reported) := Apply(env, w, StoreJobsOp(candidate, source, fetched, run));
            Inv(env, w') && reported == |w'.state.store.jobs| - |w.state.store.jobs|
  {
    var (w', _) := Apply(env, w, StoreJobsOp(candidate, source, fetched, run));
    var acc := ProgressOf(w, run);
    Discovery.StoreAllKeeps(w.state.store, acc, candidate, source, fetched);
    forall other | other in w.runs ensures Discovery.Coherent(w'.state.store.companies, w.runs[other].cache) {
      Discovery.GrowthKeepsCoherent(w.state.store.companies, w'.state.store.companies, w.runs[other].cache);
    }
    forall i | 0 <= i < |w'.state.records| ensures Eligibility.WellFiled(env, w'.state.store.jobs, w'.state.records[i]) {
      assert Eligibility.WellFiled(env, w.state.store.jobs, w.state.records[i]);
    }
  }

  /** Each call keeps the store free of clashes and reports exactly the jobs it added. */
  lemma ApplyKeeps(env: Ingestion.Env, w: World, op: Op)
    requires Inv(env, w)
    ensures var (w', reported) := Apply(env, w, op);
            Inv(env, w') && reported == |w'.state.store.jobs| - |w.state.store.jobs|
  {
    match op
    case StoreJobsOp(candidate, source, fetched, run) => StoreJobsKeeps(env, w, candidate, source, fetched, run);
    case IngestOp(candidates, candidate, envelope) =>
      IngestKeeps(env, w.state, candidates, candidate, envelope);
      var w' := Apply(env, w, op).0;
      forall run | run in w.runs ensures Discovery.Coherent(w'.state.store.companies, w.runs[run].cache) {
        Discovery.GrowthKeepsCoherent(w.state.store.companies, w'.state.store.companies, w.runs[run].cache);
      }
  }

  /** The new jobs reported by all calls of a run of both writers. */
  function Reported(env: Ingestion.Env, ops: seq<Op>): nat {
    if ops == [] then 0
    else Reported(env, ops[..|ops| - 1]) + Apply(env, Run(env, ops[..|ops| - 1]), ops[|ops| - 1]).1
  }

  /**
   * However discovery and ingestion are interleaved, no two jobs of one
   * candidate share a URL, a company and external id, or a content hash, and
   * the reported new jobs add up to the size of the store.
   */
  lemma {:induction false} EveryInterleavingIsUnique(env: Ingestion.Env, ops: seq<Op>)
    ensures Inv(env, Run(env, ops))
    ensures Reported(env, ops) == |Run(env, ops).state.store.jobs|
  {
    if ops != [] {
      EveryInterleavingIsUnique(env, ops[..|ops| - 1]);
      ApplyKeeps(env, Run(env, ops[..|ops| - 1]), ops[|ops| - 1]);
    }
  }

  /**
   * In every reachable store, a record is eligible exactly when it is accepted
   * as verified, or accepted as partial and the caller opted in; the
   * incomplete-identity, no-job and unknown-state exclusions never occur.
   */
  lemma EligibilityInEveryReachableStore(env: Ingestion.Env, ops: seq<Op>, r: Ingestion.Record, allowPartial: bool)
    requires r in Run(env, ops).state.records
    ensures var d := Eligibility.Decide(env, r, allowPartial);
            && d.code !in {Eligibility.ExcludedVerifiedIncomplete, Eligibility.ExcludedNoJob, Eligibility.ExcludedUnknownState}
            && (r.processing == Ingestion.AcceptedVerified <==> d.code == Eligibility.EligibleVerified)
            && (d.eligible <==> r.processing == Ingestion.AcceptedVerified || (allowPartial && r.processing == Ingestion.AcceptedPartial))
            && (d.eligible ==> r.jobId.Some? && r.jobId.value < |Run(env, ops).state.store.jobs|
                               && Run(env, ops).state.store.jobs[r.jobId.value].candidate == r.candidate)
  {
    EveryInterleavingIsUnique(env, ops);
    var st := Run(env, ops).state;
    var i :| 0 <= i < |st.records| && st.records[i] == r;
    assert Eligibility.WellFiled(env, st.store.jobs, st.records[i]);
    Eligibility.FiledRecordsDecide(env, st.store.jobs, r, allowPartial);
  }

  /**
   * The report over a reachable store never lists a defensive reason, and opting
   * in to partial records raises its eligible count by exactly the accepted
   * partial records on the page.
   */
  lemma ReportsInEveryReachableStore(env: Ingestion.Env, ops: seq<Op>, candidate: nat)
    ensures var page := Eligibility.Newest(Run(env, ops).state.records, candidate, Eligibility.PAGE);
            && (forall allowPartial, code ::
                  code in {Eligibility.ExcludedVerifiedIncomplete, Eligibility.ExcludedNoJob, Eligibility.ExcludedUnknownState} ==>
                    CountIf(Eligibility.DecideAll(env, page, allowPartial), Eligibility.Codes(code)) == 0)
            && CountIf(Eligibility.DecideAll(env, page, true), Eligibility.Eligibles())
               == CountIf(Eligibility.DecideAll(env, page, false), Eligibility.Eligibles()) + CountIf(page, Eligibility.IsPartial)
  {
    EveryInterleavingIsUnique(env, ops);
    var st := Run(env, ops).state;
    hide Run;
    var page := Eligibility.Newest(st.records, candidate, Eligibility.PAGE);
    Eligibility.NewestSize(st.records, candidate, Eligibility.PAGE);
    forall i | 0 <= i < |page| ensures Eligibility.WellFiled(env, st.store.jobs, page[i]) {
      assert page[i] in page;
      var k :| 0 <= k < |st.records| && st.records[k] == page[i];
      assert Eligibility.WellFiled(env, st.store.jobs, st.records[k]);
    }
    Eligibility.OptingInAddsPartials(env, st.store.jobs, page);
    forall allowPartial, code |
      code in {Eligibility.ExcludedVerifiedIncomplete, Eligibility.ExcludedNoJob, Eligibility.ExcludedUnknownState}
      ensures CountIf(Eligibility.DecideAll(env, page, allowPartial), Eligibility.Codes(code)) == 0
    {
      Eligibility.NoDefensiveReasons(env, st.store.jobs, page, allowPartial, code);
    }
  }
}
