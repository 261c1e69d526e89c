/** Replaying and concatenating envelopes. */
module IngestionReplay {
  import opened Prelude
  import opened JobStore
  import opened Ingestion
  import Texts

  // ----------------------------------------------------------------- append only

  lemma {:induction false} FindRecordStable(rs: seq<Record>, rs': seq<Record>, candidate: nat, identity: Identity)
    requires rs <= rs' && FindRecord(rs, candidate, identity).Some?
    ensures FindRecord(rs', candidate, identity) == FindRecord(rs, candidate, identity)
  {
    if |rs| < |rs'| {
      FindRecordStable(rs, rs'[..|rs'| - 1], candidate, identity);
    } else {
      assert rs == rs';
    }
  }

  /** What is known of a row once it has been processed: its record, and that the outcome reported it. */
  ghost predicate Filed(rs: seq<Record>, candidate: nat, header: Header, row: Row, out: Outcome) {
    var k := FindRecord(rs, candidate, Identity(candidate, header, row));
    && k.Some?
    && DuplicateOutcome(rs[k.value]) == out.(duplicate := true, jobCreated := false)
  }

  lemma ProcessRowFiles(env: Env, st: State, candidate: nat, header: Header, row: Row)
    requires ProcessRow(env, st, candidate, header, row).Some?
    ensures var (st', out) := ProcessRow(env, st, candidate, header, row).value;
            && st.records <= st'.records
            && st.store.jobs <= st'.store.jobs
            && Filed(st'.records, candidate, header, row, out)
            && |st'.store.jobs| == |st.store.jobs| + (if out.jobCreated then 1 else 0)
  {
    hide Classify, RawStatusOf, FindRecord, ReadIndex, Unnormalizable, PrintsOf;
    var (st', out) := ProcessRow(env, st, candidate, header, row).value;
    var identity := Identity(candidate, header, row);
    if FindRecord(st.records, candidate, identity).None? {
      NewRecordIsFound(st.records, st'.records[|st.records|]);
      if RowDefect(env, row).None? {
        var e := env.validate(row).value;
        ClassifyGrows(env, st.store, candidate, e, PrintsOf(env, e).value.hash);
      }
    }
  }

  /** Classification appends at most one job, and says so. */
  lemma ClassifyGrows(env: Env, s: Store, candidate: nat, e: Evidence, hash: Text)
    ensures var c := Classify(env, s, candidate, e, hash);
            s.jobs <= c.store.jobs && |c.store.jobs| == |s.jobs| + (if c.jobCreated then 1 else 0)
  {
    hide FindIdentical, FindByDomain;
  }

  /** A record filed under a new identity is the one found under it. */
  lemma NewRecordIsFound(rs: seq<Record>, r: Record)
    requires FindRecord(rs, r.candidate, r.identity).None?
    ensures FindRecord(rs + [r], r.candidate, r.identity) == Some(|rs|)
  {
    assert (rs + [r])[..|rs|] == rs;
  }

  lemma FiledStable(rs: seq<Record>, rs': seq<Record>, candidate: nat, header: Header, row: Row, out: Outcome)
    requires rs <= rs' && Filed(rs, candidate, header, row, out)
    ensures Filed(rs', candidate, header, row, out)
  {
    FindRecordStable(rs, rs', candidate, Identity(candidate, header, row));
  }

  /** What the last row adds to the rows before it. */
  lemma LastRow(env: Env, st: State, candidate: nat, header: Header, rows: seq<Row>)
    requires rows != []
    ensures ProcessRows(env, st, candidate, header, rows) ==
            match ProcessRows(env, st, candidate, header, rows[..|rows| - 1])
            case None => None
            case Some((st', outs)) =>
              match ProcessRow(env, st', candidate, header, rows[|rows| - 1])
              case None => None
              case Some((st'', out)) => Some((st'', outs + [out]))
  {
    hide ProcessRow;
  }

  lemma {:induction false} ProcessRowsFile(env: Env, st: State, candidate: nat, header: Header, rows: seq<Row>)
    requires ProcessRows(env, st, candidate, header, rows).Some?
    ensures var (st', outs) := ProcessRows(env, st, candidate, header, rows).value;
            && st.records <= st'.records
            && st.store.jobs <= st'.store.jobs
            && AllFiled(st'.records, candidate, header, rows, outs)
  {
    if rows != [] {
      LastRow(env, st, candidate, header, rows);
      hide ProcessRow, ProcessRows, Filed;
      var n := |rows| - 1;
      ProcessRowsFile(env, st, candidate, header, rows[..n]);
      var (st1, outs1) := ProcessRows(env, st, candidate, header, rows[..n]).value;
      ProcessRowFiles(env, st1, candidate, header, rows[n]);
      var (st', out) := ProcessRow(env, st1, candidate, header, rows[n]).value;
      AllFiledStable(st1.records, st'.records, candidate, header, rows[..n], outs1);
      AllFiledSnoc(st'.records, candidate, header, rows, outs1, out);
      hide AllFiled;
    }
  }

  /** Every row of a list has been filed with its outcome. */
  ghost predicate AllFiled(rs: seq<Record>, candidate: nat, header: Header, rows: seq<Row>, outs: seq<Outcome>) {
    |rows| == |outs| && forall i :: 0 <= i < |rows| ==> Filed(rs, candidate, header, rows[i], outs[i])
  }

  lemma AllFiledStable(rs: seq<Record>, rs': seq<Record>, candidate: nat, header: Header, rows: seq<Row>, outs: seq<Outcome>)
    requires rs <= rs' && AllFiled(rs, candidate, header, rows, outs)
    ensures AllFiled(rs', candidate, header, rows, outs)
  {
    hide Filed;
    forall i | 0 <= i < |rows| ensures Filed(rs', candidate, header, rows[i], outs[i]) {
      FiledStable(rs, rs', candidate, header, rows[i], outs[i]);
    }
  }

  lemma AllFiledSnoc(rs: seq<Record>, candidate: nat, header: Header, rows: seq<Row>, outs: seq<Outcome>, out: Outcome)
    requires rows != [] && AllFiled(rs, candidate, header, rows[..|rows| - 1], outs)
    requires Filed(rs, candidate, header, rows[|rows| - 1], out)
    ensures AllFiled(rs, candidate, header, rows, outs + [out])
  {
    hide Filed;
    var n := |rows| - 1;
    assert forall i :: 0 <= i < n ==> rows[..n][i] == rows[i];
  }

  // ----------------------------------------------------------------------- replay

  /** The outcomes of a replay: the same, but each a duplicate that creates nothing. */
  function AsDuplicates(outs: seq<Outcome>): seq<Outcome> {
    seq(|outs|, i requires 0 <= i < |outs| => outs[i].(duplicate := true, jobCreated := false))
  }

  lemma AllFiledPrefix(rs: seq<Record>, candidate: nat, header: Header, rows: seq<Row>, outs: seq<Outcome>)
    requires rows != [] && AllFiled(rs, candidate, header, rows, outs)
    ensures AllFiled(rs, candidate, header, rows[..|rows| - 1], outs[..|rows| - 1])
    ensures Filed(rs, candidate, header, rows[|rows| - 1], outs[|rows| - 1])
  {
    hide Filed;
  }

  lemma AsDuplicatesSnoc(outs: seq<Outcome>)
    requires outs != []
    ensures AsDuplicates(outs) == AsDuplicates(outs[..|outs| - 1]) + [outs[|outs| - 1].(duplicate := true, jobCreated := false)]
  {
  }

  lemma ReplayRow(env: Env, st: State, candidate: nat, header: Header, row: Row, out: Outcome)
    requires Filed(st.records, candidate, header, row, out)
    ensures ProcessRow(env, st, candidate, header, row) == Some((st, out.(duplicate := true, jobCreated := false)))
  {
  }

  lemma {:induction false} ReplayRows(env: Env, st: State, candidate: nat, header: Header, rows: seq<Row>, outs: seq<Outcome>)
    requires AllFiled(st.records, candidate, header, rows, outs)
    ensures ProcessRows(env, st, candidate, header, rows) == Some((st, AsDuplicates(outs)))
  {
    if rows == [] {
      assert outs == [] && AsDuplicates(outs) == [];
    } else {
      var n := |rows| - 1;
      AllFiledPrefix(st.records, candidate, header, rows, outs);
      LastRow(env, st, candidate, header, rows);
      hide ProcessRow, ProcessRows, Filed;
      ReplayRows(env, st, candidate, header, rows[..n], outs[..n]);
      ReplayRow(env, st, candidate, header, rows[n], outs[n]);
      AsDuplicatesSnoc(outs);
      hide AsDuplicates;
    }
  }

  /**
   * Replaying an accepted envelope changes nothing, at once or after anything
   * else was appended to the store, whatever the new generated_at: every row
   * is reported as a duplicate with the status, job, key and reason it got the
   * first time, and no job is created.
   */
  lemma ReplayIsIdempotent(env: Env, st: State, candidates: set<nat>, candidate: nat, e: Envelope, later: State, generatedAt: Option<string>)
    requires ValidateEnvelope(e).None? && !IsEmpty(generatedAt)
    requires Ingest(env, st, candidates, candidate, e).1.Ok?
    requires Ingest(env, st, candidates, candidate, e).0.records <= later.records
    ensures var first := Ingest(env, st, candidates, candidate, e).1.value;
            var (st', second) := Ingest(env, later, candidates, candidate, e.(generatedAt := generatedAt));
            && st' == later
            && second.Ok?
            && second.value.headerError.None?
            && second.value.outcomes == AsDuplicates(first.outcomes)
            && second.value.counts == ZERO.(duplicates := |e.rows|)
  {
    ProcessRowsFile(env, st, candidate, e.header, e.rows);
    var (st1, outs) := ProcessRows(env, st, candidate, e.header, e.rows).value;
    AllFiledStable(st1.records, later.records, candidate, e.header, e.rows, outs);
    ReplayRows(env, later, candidate, e.header, e.rows, outs);
    TallyDuplicates(AsDuplicates(outs));
  }

  lemma {:induction false} TallyDuplicates(outs: seq<Outcome>)
    requires forall i :: 0 <= i < |outs| ==> outs[i].duplicate
    ensures Tally(outs) == ZERO.(duplicates := |outs|)
  {
    if outs != [] {
      assert forall i :: 0 <= i < |outs| - 1 ==> outs[..|outs| - 1][i] == outs[i];
      TallyDuplicates(outs[..|outs| - 1]);
    }
  }

  // ----------------------------------------------------------------- composition

  function Plus(a: Counts, b: Counts): Counts {
    Counts(a.verified + b.verified, a.partial + b.partial, a.noUrl + b.noUrl, a.unresolved + b.unresolved,
           a.rejected + b.rejected, a.duplicates + b.duplicates, a.jobsCreated + b.jobsCreated)
  }

  lemma AccumulatePlus(a: Counts, b: Counts, o: Outcome)
    ensures Accumulate(Plus(a, b), o) == Plus(a, Accumulate(b, o))
  {
  }

  lemma TallySnoc(outs: seq<Outcome>, o: Outcome)
    ensures Tally(outs + [o]) == Accumulate(Tally(outs), o)
  {
    assert (outs + [o])[..|outs|] == outs;
  }

  lemma {:induction false} TallyAppend(a: seq<Outcome>, b: seq<Outcome>)
    ensures Tally(a + b) == Plus(Tally(a), Tally(b))
  {
    if b == [] {
      assert a + b == a;
    } else {
      hide Tally, Accumulate, Plus;
      var n := |b| - 1;
      assert a + b == (a + b[..n]) + [b[n]] && b == b[..n] + [b[n]];
      TallyAppend(a, b[..n]);
      TallySnoc(a + b[..n], b[n]);
      TallySnoc(b[..n], b[n]);
      AccumulatePlus(Tally(a), Tally(b[..n]), b[n]);
    }
  }

  lemma {:induction false} ProcessRowsAppend(env: Env, st: State, candidate: nat, header: Header, a: seq<Row>, b: seq<Row>)
    ensures ProcessRows(env, st, candidate, header, a + b) ==
            match ProcessRows(env, st, candidate, header, a)
            case None => None
            case Some((st1, outs1)) =>
              match ProcessRows(env, st1, candidate, header, b)
              case None => None
              case Some((st2, outs2)) => Some((st2, outs1 + outs2))
  {
    if b == [] {
      assert a + b == a;
      var first := ProcessRows(env, st, candidate, header, a);
      if first.Some? {
        assert first.value.1 + [] == first.value.1;
      }
    } else {
      var n := |b| - 1;
      assert (a + b)[..|a + b| - 1] == a + b[..n];
      ProcessRowsAppend(env, st, candidate, header, a, b[..n]);
      var first := ProcessRows(env, st, candidate, header, a);
      if first.Some? {
        var second := ProcessRows(env, first.value.0, candidate, header, b[..n]);
        if second.Some? {
          var third := ProcessRow(env, second.value.0, candidate, header, b[n]);
          if third.Some? {
            assert (first.value.1 + second.value.1) + [third.value.1] == first.value.1 + (second.value.1 + [third.value.1]);
          }
        }
      }
    }
  }

  lemma RejectAllAppend(env: Env, a: seq<Row>, b: seq<Row>)
    ensures RejectAll(env, a + b) == RejectAll(env, a) + RejectAll(env, b)
    ensures AnyUnreadable(env, a + b) <==> AnyUnreadable(env, a) || AnyUnreadable(env, b)
  {
    hide ReadIndex, RejectedOutcome;
    assert forall row :: row in a + b <==> row in a || row in b;
  }

  /** Under a header that is not accepted, both parts and the whole are rejected alike. */
  lemma RejectionConcatenation(env: Env, st: State, candidates: set<nat>, candidate: nat, e: Envelope, a: seq<Row>, b: seq<Row>)
    requires ValidateEnvelope(e).Some? && candidate in candidates
    ensures var (st1, r1) := Ingest(env, st, candidates, candidate, e.(rows := a));
            var (st2, r2) := Ingest(env, st1, candidates, candidate, e.(rows := b));
            var (st3, r3) := Ingest(env, st, candidates, candidate, e.(rows := a + b));
            && st1 == st2 == st3 == st
            && (r3.Ok? <==> r1.Ok? && r2.Ok?)
            && (r3.Ok? ==>
                  && r3.value.outcomes == r1.value.outcomes + r2.value.outcomes
                  && r3.value.counts == Plus(r1.value.counts, r2.value.counts))
  {
    RejectAllAppend(env, a, b);
    TallyAppend(RejectAll(env, a), RejectAll(env, b));
    hide AnyUnreadable, Tally, Plus, RejectAll, ProcessRows;
  }

  lemma AcceptedConcatenation(env: Env, st: State, candidates: set<nat>, candidate: nat, e: Envelope, a: seq<Row>, b: seq<Row>)
    requires ValidateEnvelope(e).None? && candidate in candidates
    ensures var (st1, r1) := Ingest(env, st, candidates, candidate, e.(rows := a));
            var (st2, r2) := Ingest(env, st1, candidates, candidate, e.(rows := b));
            var (st3, r3) := Ingest(env, st, candidates, candidate, e.(rows := a + b));
            && (r3.Ok? <==> r1.Ok? && r2.Ok?)
            && (r3.Ok? ==>
                  && st3 == st2
                  && r3.value.outcomes == r1.value.outcomes + r2.value.outcomes
                  && r3.value.counts == Plus(r1.value.counts, r2.value.counts))
  {
    ProcessRowsAppend(env, st, candidate, e.header, a, b);
    assert forall rows :: ValidateEnvelope(e.(rows := rows)).None?;
    hide ProcessRows, Tally, Plus, ValidateEnvelope;
    var first := ProcessRows(env, st, candidate, e.header, a);
    if first.Some? {
      var second := ProcessRows(env, first.value.0, candidate, e.header, b);
      if second.Some? {
        TallyAppend(first.value.1, second.value.1);
      }
    }
  }

  /**
   * Ingesting A ++ B is ingesting A and then B, under any header: same store,
   * outcomes in order, counters summed, and success exactly when both succeed.
   */
  lemma IngestConcatenation(env: Env, st: State, candidates: set<nat>, candidate: nat, e: Envelope, a: seq<Row>, b: seq<Row>)
    ensures var (st1, r1) := Ingest(env, st, candidates, candidate, e.(rows := a));
            var (st2, r2) := Ingest(env, st1, candidates, candidate, e.(rows := b));
            var (st3, r3) := Ingest(env, st, candidates, candidate, e.(rows := a + b));
            && (r3.Ok? <==> r1.Ok? && r2.Ok?)
            && (r3.Ok? ==>
                  && st3 == st2
                  && r3.value.outcomes == r1.value.outcomes + r2.value.outcomes
                  && r3.value.counts == Plus(r1.value.counts, r2.value.counts))
  {
    if candidate in candidates {
      if ValidateEnvelope(e).None? {
        AcceptedConcatenation(env, st, candidates, candidate, e, a, b);
      } else {
        RejectionConcatenation(env, st, candidates, candidate, e, a, b);
      }
      hide Ingest, Plus;
    }
  }

  /**
   * A row not stored before whose verification status is a list or an object;
   * or which is defective and has an index that looks like a number but is none,
   * or a text that cannot be normalized; or which is well formed and has a text
   * that cannot be normalized, once or, for the fingerprint, twice.
   */
  predicate Raises(env: Env, st: State, candidate: nat, header: Header, row: Row) {
    && FindRecord(st.records, candidate, Identity(candidate, header, row)).None?
    && (|| RawStatusOf(row) == Unhashable
        || (if RowDefect(env, row).Some? then ReadIndex(env, row) == Unreadable || Unnormalizable(env, row)
            else PrintsOf(env, env.validate(row).value).None?))
  }

  lemma RowRaisesExactly(env: Env, st: State, candidate: nat, header: Header, row: Row)
    ensures ProcessRow(env, st, candidate, header, row).None? <==> Raises(env, st, candidate, header, row)
  {
    hide Classify, RawStatusOf, ReadIndex, Unnormalizable, PrintsOf, FindRecord;
  }

  /** Processing a row that does not raise neither starts nor stops another row from raising. */
  lemma RaisingIsStable(env: Env, st: State, candidate: nat, header: Header, row: Row, other: Row)
    requires ProcessRow(env, st, candidate, header, row).Some?
    ensures var st' := ProcessRow(env, st, candidate, header, row).value.0;
            Raises(env, st', candidate, header, other) <==> Raises(env, st, candidate, header, other)
  {
    var st' := ProcessRow(env, st, candidate, header, row).value.0;
    var identity := Identity(candidate, header, other);
    ProcessRowFiles(env, st, candidate, header, row);
    if FindRecord(st.records, candidate, identity).Some? {
      FindRecordStable(st.records, st'.records, candidate, identity);
    } else if st'.records != st.records {
      assert st'.records[..|st.records|] == st.records;
    }
  }

  lemma {:induction false} RaisingStaysStable(env: Env, st: State, candidate: nat, header: Header, rows: seq<Row>, other: Row)
    requires ProcessRows(env, st, candidate, header, rows).Some?
    ensures Raises(env, ProcessRows(env, st, candidate, header, rows).value.0, candidate, header, other)
            <==> Raises(env, st, candidate, header, other)
  {
    if rows != [] {
      hide ProcessRow, Raises;
      var n := |rows| - 1;
      RaisingStaysStable(env, st, candidate, header, rows[..n], other);
      RaisingIsStable(env, ProcessRows(env, st, candidate, header, rows[..n]).value.0, candidate, header, rows[n], other);
    }
  }

  predicate SomeRaises(env: Env, st: State, candidate: nat, header: Header, rows: seq<Row>) {
    exists i :: 0 <= i < |rows| && Raises(env, st, candidate, header, rows[i])
  }

  lemma SomeRaisesSnoc(env: Env, st: State, candidate: nat, header: Header, rows: seq<Row>)
    requires rows != []
    ensures SomeRaises(env, st, candidate, header, rows) <==>
            SomeRaises(env, st, candidate, header, rows[..|rows| - 1]) || Raises(env, st, candidate, header, rows[|rows| - 1])
  {
    hide Raises;
    var n := |rows| - 1;
    if SomeRaises(env, st, candidate, header, rows[..n]) {
      var i :| 0 <= i < n && Raises(env, st, candidate, header, rows[..n][i]);
      assert Raises(env, st, candidate, header, rows[i]);
    }
    if SomeRaises(env, st, candidate, header, rows) {
      var i :| 0 <= i < |rows| && Raises(env, st, candidate, header, rows[i]);
      if i < n {
        assert Raises(env, st, candidate, header, rows[..n][i]);
      }
    }
  }

  /** An envelope's rows raise exactly when one of them does on its own. */
  lemma {:induction false} RowsRaiseExactly(env: Env, st: State, candidate: nat, header: Header, rows: seq<Row>)
    ensures ProcessRows(env, st, candidate, header, rows).None? <==> SomeRaises(env, st, candidate, header, rows)
  {
    if rows != [] {
      LastRow(env, st, candidate, header, rows);
      SomeRaisesSnoc(env, st, candidate, header, rows);
      hide ProcessRow, ProcessRows, Raises, SomeRaises;
      var n := |rows| - 1;
      var before := ProcessRows(env, st, candidate, header, rows[..n]);
      RowsRaiseExactly(env, st, candidate, header, rows[..n]);
      if before.Some? {
        RowRaisesExactly(env, before.value.0, candidate, header, rows[n]);
        RaisingStaysStable(env, st, candidate, header, rows[..n], rows[n]);
      }
    }
  }

  /**
   * Ingestion raises exactly when the candidate exists and, under a header it
   * accepts, some row raises on its own; under any other header, when some row
   * has an unreadable index. A call that raises changes nothing.
   */
  lemma RaisesExactly(env: Env, st: State, candidates: set<nat>, candidate: nat, e: Envelope)
    ensures Ingest(env, st, candidates, candidate, e).1 == Err(CallRaised) <==>
            && candidate in candidates
            && (if ValidateEnvelope(e).None? then SomeRaises(env, st, candidate, e.header, e.rows)
                else AnyUnreadable(env, e.rows))
    ensures Ingest(env, st, candidates, candidate, e).1.Err? ==> Ingest(env, st, candidates, candidate, e).0 == st
  {
    RowsRaiseExactly(env, st, candidate, e.header, e.rows);
    hide ProcessRows, SomeRaises, AnyUnreadable, ValidateEnvelope, RejectAll, Tally;
  }

  /** A row that has nothing but a text as its index. */
  function Indexed(text: string): Row {
    map["index" := JString(text)]
  }

  lemma DoubleDashIsUnreadable(env: Env)
    ensures ReadIndex(env, Indexed("--5")) == Unreadable
  {
    var p := Spaces(env);
    assert Texts.Strip("--5", p) == "--5";
    assert WithoutDashes("--5") == WithoutDashes("-5") == WithoutDashes("5") == "5" by {
      assert "--5"[1..] == "-5" && "-5"[1..] == "5";
    }
  }

  lemma SeparatorIsUnreadable(env: Env)
    ensures ReadIndex(env, Indexed("\U{1C}5")) == Unreadable
  {
    var p := Spaces(env);
    assert Texts.Strip("\U{1C}5", p) == Texts.Strip("5", p) == "5" by {
      assert "\U{1C}5"[1..] == "5";
    }
    assert WithoutDashes("5") == "5";
    assert "\U{1C}5"[0] in "\U{1C}5";
  }

  /** A text the digit test and the conversion agree on is read as the number it stands for. */
  lemma PlainIndexIsRead(env: Env)
    ensures ReadIndex(env, Indexed(" -5")) == Index(-5)
  {
    var p := Spaces(env);
    assert Texts.Strip(" -5", p) == Texts.Strip("-5", p) == "-5" by {
      assert " -5"[1..] == "-5";
    }
    assert WithoutDashes("-5") == WithoutDashes("5") == "5" by {
      assert "-5"[1..] == "5";
    }
    assert NumberOf(env, "5") == 10 * NumberOf(env, "") + 5 by {
      assert "5"[..0] == "";
    }
  }

  /** A row without a status and with an unreadable index raises under every header, unless it was stored before. */
  lemma UnreadableRaises(env: Env, st: State, candidate: nat, e: Envelope, text: string)
    requires e.rows == [Indexed(text)] && ReadIndex(env, Indexed(text)) == Unreadable
    requires FindRecord(st.records, candidate, Identity(candidate, e.header, Indexed(text))).None?
    ensures Ingest(env, st, {candidate}, candidate, e) == (st, Err(CallRaised))
  {
    var row := Indexed(text);
    assert e.rows[0] == row && Lookup(row, "verification_status") == None;
    hide ReadIndex, ValidateEnvelope, ProcessRows, FindRecord, Unnormalizable, PrintsOf;
    assert Raises(env, st, candidate, e.header, e.rows[0]);
    RaisesExactly(env, st, {candidate}, candidate, e);
  }

  /** "--5" and a 5 after a file separator are such indexes. */
  lemma UnreadableIndexesRaise(env: Env, st: State, candidate: nat, e: Envelope, text: string)
    requires text in {"--5", "\U{1C}5"} && e.rows == [Indexed(text)]
    requires FindRecord(st.records, candidate, Identity(candidate, e.header, Indexed(text))).None?
    ensures Ingest(env, st, {candidate}, candidate, e) == (st, Err(CallRaised))
  {
    DoubleDashIsUnreadable(env);
    SeparatorIsUnreadable(env);
    hide ReadIndex, Ingest, FindRecord;
    UnreadableRaises(env, st, candidate, e, text);
  }

  /** A row that has nothing but a title. */
  function Titled(title: string): Row {
    map["job_title" := JString(title)]
  }

  /** A title that cannot be normalized raises under an accepted header, and is only rejected under any other. */
  lemma UnnormalizableTitleRaises(env: Env, st: State, candidate: nat, e: Envelope, title: string)
    requires title != "" && env.normalize(title).None? && e.rows == [Titled(title)]
    requires FindRecord(st.records, candidate, Identity(candidate, e.header, Titled(title))).None?
    ensures Ingest(env, st, {candidate}, candidate, e).1 == Err(CallRaised) <==> ValidateEnvelope(e).None?
  {
    var row := Titled(title);
    assert e.rows[0] == row && Lookup(row, "verification_status") == None && ReadIndex(env, row) == NoIndex;
    assert NORMALIZED_FIELDS[1] == "job_title";
    assert Unnormalizable(env, row) by {
      assert "job_title" in NORMALIZED_FIELDS && NormalizeText(env, TextOf(env, Lookup(row, "job_title"))).None?;
    }
    hide ReadIndex, ValidateEnvelope, ProcessRows, FindRecord, Unnormalizable, PrintsOf;
    assert Raises(env, st, candidate, e.header, e.rows[0]);
    RaisesExactly(env, st, {candidate}, candidate, e);
  }

  const LIST_STATUS: Row := map["verification_status" := JArray([])]

  /** A row whose status is a list raises under an accepted header, and is only rejected under any other. */
  lemma ListStatusRaises(env: Env, st: State, candidate: nat, e: Envelope)
    requires e.rows == [LIST_STATUS]
    requires FindRecord(st.records, candidate, Identity(candidate, e.header, LIST_STATUS)).None?
    ensures Ingest(env, st, {candidate}, candidate, e).1 == Err(CallRaised) <==> ValidateEnvelope(e).None?
  {
    assert e.rows[0] == LIST_STATUS;
    assert RawStatusOf(LIST_STATUS) == Unhashable && ReadIndex(env, LIST_STATUS) == NoIndex;
    hide ReadIndex, ValidateEnvelope, ProcessRows, FindRecord, RawStatusOf;
    assert Raises(env, st, candidate, e.header, e.rows[0]);
    RaisesExactly(env, st, {candidate}, candidate, e);
  }
}
