/**
 * The upload script's conversation with the feature service, as a trace of
 * operations: for each layer one truncate, then one add per batch of at most
 * 2000 features `{"attributes": record}`, the add results ignored; after the
 * state-month layer, a snippet update. A replay function gives the service's
 * side: what a layer holds after the trace, given which features it stored.
 */
module Upload {
  import opened Base
  import opened Batching
  import opened Transform
  import opened Calendar
  import opened Aggregation
  import opened Reload

  datatype Layer = CountyLayer | StateMonthLayer

  /** A record as `to_dict('records')` gives it, from either table. */
  datatype Record = CountyRecord(countyRow: CleanRow) | StateMonthRecord(stateMonthRow: AggRow)

  /** The wire shape `{"attributes": record}`. */
  datatype Feature = Feature(attributes: Record)

  datatype Op =
    | Truncate(layer: Layer)
    | AddFeatures(layer: Layer, adds: seq<Feature>)
    | UpdateSnippet(snippet: string)

  const SnippetPrefix: string := "Measles cases aggregated by state and month. Last updated: "

  function Wrap(batch: seq<Record>): (fs: seq<Feature>)
    ensures |fs| == |batch|
  {
    seq(|batch|, i requires 0 <= i < |batch| => Feature(batch[i]))
  }

  function Unwrap(fs: seq<Feature>): (rs: seq<Record>)
    ensures |rs| == |fs|
  {
    seq(|fs|, i requires 0 <= i < |fs| => fs[i].attributes)
  }

  /** The operations one layer's update issues: a truncate, then one add per batch. */
  function LayerOps(layer: Layer, records: seq<Record>): (ops: seq<Op>)
    ensures |ops| == 1 + CeilDiv(|records|, BatchSize)
    ensures ops[0] == Truncate(layer)
    ensures forall j :: 1 <= j < |ops| ==>
      ops[j].AddFeatures? && ops[j].layer == layer && 0 < |ops[j].adds| <= BatchSize
  {
    var bs := Batches(records);
    [Truncate(layer)] + seq(|bs|, j requires 0 <= j < |bs| => AddFeatures(layer, Wrap(bs[j])))
  }

  /** The records carried by the adds of `ops`, in order. */
  function SentRecords(ops: seq<Op>): seq<Record>
    decreases |ops|
  {
    if |ops| == 0 then []
    else (if ops[0].AddFeatures? then Unwrap(ops[0].adds) else []) + SentRecords(ops[1..])
  }

  function CountyRecords(rows: seq<CleanRow>): seq<Record>
  {
    seq(|rows|, i requires 0 <= i < |rows| => CountyRecord(rows[i]))
  }

  function StateMonthRecords(agg: seq<AggRow>): seq<Record>
  {
    seq(|agg|, i requires 0 <= i < |agg| => StateMonthRecord(agg[i]))
  }

  /** The parsed `date` column joined to the cleaned rows. */
  function DatedRows(rows: seq<CleanRow>, dates: seq<TimestampDate>): (dated: seq<DatedRow>)
    requires |dates| == |rows|
    ensures |dated| == |rows|
  {
    seq(|rows|, i requires 0 <= i < |rows| => DatedRow(rows[i].state, dates[i], rows[i].cases))
  }

  /** What the script issued and, if it stopped early, why. */
  datatype Run = Run(ops: seq<Op>, failure: Option<AggError>)

  /** The operations issued once the aggregation has run: none if it raised, else the state-month layer's update and the snippet. */
  function AfterAggregation(agg: Result<seq<AggRow>, AggError>, snippetTime: string): (ops: seq<Op>)
    ensures agg.Err? ==> ops == []
    ensures agg.Ok? ==> |ops| > 0 && ops[|ops| - 1] == UpdateSnippet(SnippetPrefix + snippetTime)
    ensures forall j :: 0 <= j < |ops| ==> ops[j].UpdateSnippet? || ops[j].layer == StateMonthLayer
  {
    match agg
    case Err(_) => []
    case Ok(rows) => LayerOps(StateMonthLayer, StateMonthRecords(rows)) + [UpdateSnippet(SnippetPrefix + snippetTime)]
  }

  /**
   * The upload script from the point where the cleaned table has been read
   * back as `rows`, given the parsed dates, the time stamped on the aggregate
   * and the later time written into the snippet. The county layer is replaced
   * first, whatever follows; the run stops right after it exactly when a row
   * with a state is dated in September 1677, and otherwise ends with the
   * snippet update.
   */
  function ScriptOnTable(rows: seq<CleanRow>, dates: seq<TimestampDate>, now: string, snippetTime: string): (run: Run)
    requires |dates| == |rows|
    ensures run.failure.Some? <==>
      exists i :: 0 <= i < |rows| && rows[i].state.Some? && dates[i].year == 1677 && dates[i].month == 9
    ensures 1 + CeilDiv(|rows|, BatchSize) <= |run.ops|
    ensures run.ops[..1 + CeilDiv(|rows|, BatchSize)] == LayerOps(CountyLayer, CountyRecords(rows))
    ensures run.failure.Some? ==> run.ops == LayerOps(CountyLayer, CountyRecords(rows))
    ensures run.failure.None? ==> run.ops[|run.ops| - 1] == UpdateSnippet(SnippetPrefix + snippetTime)
  {
    var dated := DatedRows(rows, dates);
    var agg := Aggregate(dated, now);
    var countyOps := LayerOps(CountyLayer, CountyRecords(rows));
    AggregateFailsOnlyBeforeTimestampRange(dated, now);
    assert forall i :: 0 <= i < |rows| ==> dated[i].state == rows[i].state && dated[i].date == dates[i];
    assert (countyOps + AfterAggregation(agg, snippetTime))[..|countyOps|] == countyOps;
    Run(countyOps + AfterAggregation(agg, snippetTime), if agg.Err? then Some(agg.error) else None)
  }

  /**
   * The upload script with the identifier column read back as text: the
   * script then acts on the cleaned table exactly as it was written.
   */
  function UploadScript(cleaned: seq<CleanRow>, dates: seq<TimestampDate>, now: string, snippetTime: string): (run: Run)
    requires |dates| == |cleaned|
    ensures run == ScriptOnTable(cleaned, dates, now, snippetTime)
  {
    ScriptOnTable(ReloadRows(cleaned), dates, now, snippetTime)
  }

  /**
   * The upload script as written, reading the identifier column back with
   * pandas' inferred type. It stops in the same cases as `UploadScript` and
   * issues the same state-month operations; only the county records can differ.
   */
  function UploadScriptAsWritten(cleaned: seq<CleanRow>, dates: seq<TimestampDate>, now: string, snippetTime: string): (run: Run)
    requires |dates| == |cleaned|
    ensures run.failure == UploadScript(cleaned, dates, now, snippetTime).failure
    ensures |run.ops| == |UploadScript(cleaned, dates, now, snippetTime).ops|
    ensures run.ops[..1 + CeilDiv(|cleaned|, BatchSize)] == LayerOps(CountyLayer, CountyRecords(ReloadRowsAsWritten(cleaned)))
    ensures run.ops[1 + CeilDiv(|cleaned|, BatchSize)..] == UploadScript(cleaned, dates, now, snippetTime).ops[1 + CeilDiv(|cleaned|, BatchSize)..]
  {
    DatedRowsIgnoreIdentifiers(cleaned, dates);
    ScriptOnTable(ReloadRowsAsWritten(cleaned), dates, now, snippetTime)
  }

  /** The aggregation reads states, dates and cases only, so the identifier column's type does not reach it. */
  lemma DatedRowsIgnoreIdentifiers(cleaned: seq<CleanRow>, dates: seq<TimestampDate>)
    requires |dates| == |cleaned|
    ensures DatedRows(ReloadRowsAsWritten(cleaned), dates) == DatedRows(cleaned, dates)
  {
  }

  // ---------------------------------------------------------------------
  // The service's side
  // ---------------------------------------------------------------------

  /** The records whose flag says the service stored them; a record without a flag was not stored. */
  function Stored(rs: seq<Record>, flags: seq<bool>): (kept: seq<Record>)
    ensures |kept| <= |rs|
    ensures forall r :: r in kept ==> r in rs
    decreases |rs|
  {
    if |rs| == 0 then []
    else (if |flags| > 0 && flags[0] then [rs[0]] else []) + Stored(rs[1..], Rest(flags))
  }

  /** What is left of a list of results once the first is used; nothing is left of an empty one. */
  function Rest<T>(xs: seq<T>): seq<T>
  {
    if |xs| > 0 then xs[1..] else []
  }

  function First(results: seq<seq<bool>>): seq<bool>
  {
    if |results| > 0 then results[0] else []
  }

  /** One operation's effect on the contents of `layer`. */
  function Apply(store: seq<Record>, op: Op, layer: Layer, flags: seq<bool>): seq<Record>
  {
    match op
    case Truncate(l) => if l == layer then [] else store
    case AddFeatures(l, fs) => if l == layer then store + Stored(Unwrap(fs), flags) else store
    case UpdateSnippet(_) => store
  }

  /** The contents of `layer` after the service has applied `ops` in order; `results[j]` flags the features of the `j`-th operation it stored. */
  function Replay(store: seq<Record>, ops: seq<Op>, layer: Layer, results: seq<seq<bool>>): seq<Record>
    decreases |ops|
  {
    if |ops| == 0 then store
    else Replay(Apply(store, ops[0], layer, First(results)), ops[1..], layer, Rest(results))
  }

  /** The service stored every feature of every add in `ops`. */
  predicate AllStored(ops: seq<Op>, results: seq<seq<bool>>)
    decreases |ops|
  {
    |ops| == 0
    || (&& (ops[0].AddFeatures? ==>
             |results| > 0 && |ops[0].adds| <= |results[0]| && forall i :: 0 <= i < |ops[0].adds| ==> results[0][i])
        && AllStored(ops[1..], Rest(results)))
  }

  /** The results left for the operations after the first `n`. */
  function Drop(results: seq<seq<bool>>, n: nat): seq<seq<bool>>
  {
    if |results| >= n then results[n..] else []
  }

  // ---------------------------------------------------------------------
  // Properties of the trace
  // ---------------------------------------------------------------------

  lemma UnwrapWrap(batch: seq<Record>)
    ensures Unwrap(Wrap(batch)) == batch
  {
  }

  lemma {:induction false} SentRecordsConcat(a: seq<Op>, b: seq<Op>)
    ensures SentRecords(a + b) == SentRecords(a) + SentRecords(b)
    decreases |a|
  {
    if |a| == 0 {
      assert a + b == b;
    } else {
      assert (a + b)[1..] == a[1..] + b;
      SentRecordsConcat(a[1..], b);
    }
  }

  lemma {:induction false} SentRecordsOfBatches(layer: Layer, bs: seq<seq<Record>>)
    ensures SentRecords(seq(|bs|, j requires 0 <= j < |bs| => AddFeatures(layer, Wrap(bs[j])))) == Flatten(bs)
    decreases |bs|
  {
    var ops := seq(|bs|, j requires 0 <= j < |bs| => AddFeatures(layer, Wrap(bs[j])));
    if |bs| > 0 {
      SentRecordsOfBatches(layer, bs[1..]);
      assert ops[1..] == seq(|bs[1..]|, j requires 0 <= j < |bs[1..]| => AddFeatures(layer, Wrap(bs[1..][j])));
      UnwrapWrap(bs[0]);
    }
  }

  /** The adds of one layer's update carry every record exactly once, in order, each unmodified as the attributes of its feature. */
  lemma LayerOpsSendEachRecordOnce(layer: Layer, records: seq<Record>)
    ensures SentRecords(LayerOps(layer, records)) == records
  {
    var bs := Batches(records);
    var adds := seq(|bs|, j requires 0 <= j < |bs| => AddFeatures(layer, Wrap(bs[j])));
    assert LayerOps(layer, records) == [Truncate(layer)] + adds;
    SentRecordsConcat([Truncate(layer)], adds);
    assert SentRecords([Truncate(layer)]) == [] by {
      assert [Truncate(layer)][1..] == [];
    }
    SentRecordsOfBatches(layer, bs);
    BatchesFlatten(records);
  }

  /** The `j`-th add of a layer's update carries the `j`-th slice of 2000 records, wrapped feature by feature. */
  lemma LayerOpsAddBatches(layer: Layer, records: seq<Record>)
    ensures forall j :: 1 <= j < |LayerOps(layer, records)| ==>
      LayerOps(layer, records)[j] == AddFeatures(layer, Wrap(Batches(records)[j - 1]))
    ensures forall j, i :: 1 <= j < |LayerOps(layer, records)| && 0 <= i < |LayerOps(layer, records)[j].adds| ==>
      (j - 1) * BatchSize + i < |records| && LayerOps(layer, records)[j].adds[i] == Feature(records[(j - 1) * BatchSize + i])
  {
    var ops := LayerOps(layer, records);
    var bs := Batches(records);
    BatchesAreSlices(records);
    forall j, i | 1 <= j < |ops| && 0 <= i < |ops[j].adds|
      ensures (j - 1) * BatchSize + i < |records| && ops[j].adds[i] == Feature(records[(j - 1) * BatchSize + i])
    {
      var lo := (j - 1) * BatchSize;
      assert ops[j].adds == Wrap(bs[j - 1]);
      assert bs[j - 1] == records[lo..Min(lo + BatchSize, |records|)];
    }
  }

  /** With no records, the update is a truncate and no add. */
  lemma EmptyUpdateOnlyTruncates(layer: Layer)
    ensures LayerOps(layer, []) == [Truncate(layer)]
  {
  }

  /** Every truncate of a layer comes before every add to that layer. */
  ghost predicate TruncatesBeforeAdds(ops: seq<Op>)
  {
    forall t, j :: 0 <= t < |ops| && 0 <= j < |ops| && ops[t].Truncate? && ops[j].AddFeatures? && ops[t].layer == ops[j].layer ==> t < j
  }

  /** Every add to a layer follows some truncate of that layer. */
  ghost predicate AddsFollowTruncate(ops: seq<Op>)
  {
    forall j :: 0 <= j < |ops| && ops[j].AddFeatures? ==> exists t :: 0 <= t < j && ops[t] == Truncate(ops[j].layer)
  }

  lemma LayerOpsOrdered(layer: Layer, records: seq<Record>)
    ensures TruncatesBeforeAdds(LayerOps(layer, records))
    ensures AddsFollowTruncate(LayerOps(layer, records))
  {
    var ops := LayerOps(layer, records);
    forall j | 0 <= j < |ops| && ops[j].AddFeatures?
      ensures exists t :: 0 <= t < j && ops[t] == Truncate(ops[j].layer)
    {
      assert ops[0] == Truncate(ops[j].layer);
    }
  }

  lemma OrderedConcat(a: seq<Op>, b: seq<Op>, la: Layer, lb: Layer)
    requires la != lb
    requires forall j :: 0 <= j < |a| ==> a[j].UpdateSnippet? || a[j].layer == la
    requires forall j :: 0 <= j < |b| ==> b[j].UpdateSnippet? || b[j].layer == lb
    requires TruncatesBeforeAdds(a) && TruncatesBeforeAdds(b)
    requires AddsFollowTruncate(a) && AddsFollowTruncate(b)
    ensures TruncatesBeforeAdds(a + b)
    ensures AddsFollowTruncate(a + b)
  {
    var ab := a + b;
    forall t, j | 0 <= t < |ab| && 0 <= j < |ab| && ab[t].Truncate? && ab[j].AddFeatures? && ab[t].layer == ab[j].layer
      ensures t < j
    {
      if t < |a| && j < |a| {
        assert ab[t] == a[t] && ab[j] == a[j];
      } else if t >= |a| && j >= |a| {
        assert ab[t] == b[t - |a|] && ab[j] == b[j - |a|];
      }
    }
    forall j | 0 <= j < |ab| && ab[j].AddFeatures?
      ensures exists t :: 0 <= t < j && ab[t] == Truncate(ab[j].layer)
    {
      if j < |a| {
        assert ab[j] == a[j];
        var t :| 0 <= t < j && a[t] == Truncate(a[j].layer);
        assert ab[t] == a[t];
      } else {
        assert ab[j] == b[j - |a|];
        var t :| 0 <= t < j - |a| && b[t] == Truncate(b[j - |a|].layer);
        assert ab[t + |a|] == b[t];
      }
    }
  }

  lemma AfterAggregationOrdered(agg: Result<seq<AggRow>, AggError>, snippetTime: string)
    ensures TruncatesBeforeAdds(AfterAggregation(agg, snippetTime))
    ensures AddsFollowTruncate(AfterAggregation(agg, snippetTime))
    ensures forall j :: 0 <= j < |AfterAggregation(agg, snippetTime)| - 1 ==> !AfterAggregation(agg, snippetTime)[j].UpdateSnippet?
  {
    if agg.Ok? {
      var stateOps := LayerOps(StateMonthLayer, StateMonthRecords(agg.value));
      var snippet := [UpdateSnippet(SnippetPrefix + snippetTime)];
      LayerOpsOrdered(StateMonthLayer, StateMonthRecords(agg.value));
      OrderedConcat(stateOps, snippet, StateMonthLayer, CountyLayer);
      assert AfterAggregation(agg, snippetTime) == stateOps + snippet;
      assert forall j :: 0 <= j < |stateOps| ==> (stateOps + snippet)[j] == stateOps[j];
    }
  }

  /** Whatever table was read back, every truncate of a layer comes before every add to that layer, every add follows a truncate of its layer, and the snippet update comes last. */
  lemma ScriptTruncatesBeforeAdds(rows: seq<CleanRow>, dates: seq<TimestampDate>, now: string, snippetTime: string)
    requires |dates| == |rows|
    ensures TruncatesBeforeAdds(ScriptOnTable(rows, dates, now, snippetTime).ops)
    ensures AddsFollowTruncate(ScriptOnTable(rows, dates, now, snippetTime).ops)
    ensures var ops := ScriptOnTable(rows, dates, now, snippetTime).ops;
      forall j :: 0 <= j < |ops| - 1 ==> !ops[j].UpdateSnippet?
  {
    var countyOps := LayerOps(CountyLayer, CountyRecords(rows));
    var agg := Aggregate(DatedRows(rows, dates), now);
    var after := AfterAggregation(agg, snippetTime);
    var ops := countyOps + after;
    assert ScriptOnTable(rows, dates, now, snippetTime).ops == ops;
    LayerOpsOrdered(CountyLayer, CountyRecords(rows));
    AfterAggregationOrdered(agg, snippetTime);
    OrderedConcat(countyOps, after, CountyLayer, StateMonthLayer);
    forall j | 0 <= j < |ops| - 1
      ensures !ops[j].UpdateSnippet?
    {
      if j < |countyOps| {
        assert ops[j] == countyOps[j];
      } else {
        assert ops[j] == after[j - |countyOps|];
      }
    }
  }

  // ---------------------------------------------------------------------
  // Properties of the replay
  // ---------------------------------------------------------------------

  lemma {:induction false} StoredAll(rs: seq<Record>, flags: seq<bool>)
    requires |rs| <= |flags| && forall i :: 0 <= i < |rs| ==> flags[i]
    ensures Stored(rs, flags) == rs
    decreases |rs|
  {
    if |rs| > 0 {
      StoredAll(rs[1..], flags[1..]);
      assert rs == [rs[0]] + rs[1..];
    }
  }

  lemma ApplyStoredAdd(store: seq<Record>, op: Op, layer: Layer, flags: seq<bool>)
    requires op.AddFeatures? && op.layer == layer
    requires |op.adds| <= |flags| && forall i :: 0 <= i < |op.adds| ==> flags[i]
    ensures Apply(store, op, layer, flags) == store + Unwrap(op.adds)
  {
    StoredAll(Unwrap(op.adds), flags);
  }

  /** Replaying a fully stored add appends its records and leaves the rest of the trace to replay. */
  lemma ReplayStoredAdd(store: seq<Record>, ops: seq<Op>, layer: Layer, results: seq<seq<bool>>)
    requires |ops| > 0 && ops[0].AddFeatures? && ops[0].layer == layer
    requires AllStored(ops, results)
    ensures AllStored(ops[1..], Rest(results))
    ensures Replay(store, ops, layer, results) == Replay(store + Unwrap(ops[0].adds), ops[1..], layer, Rest(results))
  {
    assert |results| > 0 && First(results) == results[0];
    ApplyStoredAdd(store, ops[0], layer, First(results));
  }

  lemma ConcatAssoc<T>(a: seq<T>, b: seq<T>, c: seq<T>)
    ensures a + b + c == a + (b + c)
  {
  }

  lemma {:induction false} ReplayAdds(store: seq<Record>, ops: seq<Op>, layer: Layer, results: seq<seq<bool>>)
    requires forall j :: 0 <= j < |ops| ==> ops[j].AddFeatures? && ops[j].layer == layer
    requires AllStored(ops, results)
    ensures Replay(store, ops, layer, results) == store + SentRecords(ops)
    decreases |ops|
  {
    if |ops| == 0 {
      assert store + [] == store;
    } else {
      var sent := Unwrap(ops[0].adds);
      var tail := ops[1..];
      ReplayStoredAdd(store, ops, layer, results);
      assert forall j :: 0 <= j < |tail| ==> tail[j] == ops[j + 1];
      ReplayAdds(store + sent, tail, layer, Rest(results));
      assert SentRecords(ops) == sent + SentRecords(tail);
      ConcatAssoc(store, sent, SentRecords(tail));
    }
  }

  /** Whatever the layer held before, once the service has stored every feature the layer holds exactly the records, in order. */
  lemma UpdateReplacesContents(prior: seq<Record>, layer: Layer, records: seq<Record>, results: seq<seq<bool>>)
    requires AllStored(LayerOps(layer, records), results)
    ensures Replay(prior, LayerOps(layer, records), layer, results) == records
  {
    var ops := LayerOps(layer, records);
    ReplayAdds([], ops[1..], layer, Rest(results));
    LayerOpsSendEachRecordOnce(layer, records);
    assert ops == [ops[0]] + ops[1..];
    SentRecordsConcat([ops[0]], ops[1..]);
    assert SentRecords([ops[0]]) == [] by {
      assert [ops[0]][1..] == [];
    }
  }

  /** Operations on the other layer and snippet updates leave a layer's contents alone. */
  lemma {:induction false} ReplayOtherLayer(store: seq<Record>, ops: seq<Op>, layer: Layer, results: seq<seq<bool>>)
    requires forall j :: 0 <= j < |ops| ==> ops[j].UpdateSnippet? || ops[j].layer != layer
    ensures Replay(store, ops, layer, results) == store
    decreases |ops|
  {
    if |ops| > 0 {
      ReplayOtherLayer(store, ops[1..], layer, Rest(results));
    }
  }

  /** Whatever the add results, a layer only gains records that were sent; after a leading truncate it holds nothing else, and never more than was sent. */
  lemma {:induction false} ReplayOnlySent(store: seq<Record>, ops: seq<Op>, layer: Layer, results: seq<seq<bool>>)
    ensures forall r :: r in Replay(store, ops, layer, results) ==> r in store || r in SentRecords(ops)
    ensures |Replay(store, ops, layer, results)| <= |store| + |SentRecords(ops)|
    ensures (|ops| > 0 && ops[0] == Truncate(layer)) ==>
      (forall r :: r in Replay(store, ops, layer, results) ==> r in SentRecords(ops))
      && |Replay(store, ops, layer, results)| <= |SentRecords(ops)|
    decreases |ops|
  {
    if |ops| > 0 {
      var next := Apply(store, ops[0], layer, First(results));
      ReplayOnlySent(next, ops[1..], layer, Rest(results));
      assert ops == [ops[0]] + ops[1..];
      SentRecordsConcat([ops[0]], ops[1..]);
      assert [ops[0]][1..] == [];
    }
  }

  /** Whatever the service stored, after one layer's update the layer holds only records of this update, and no more of them than were sent. */
  lemma UpdateKeepsOnlyNewRecords(prior: seq<Record>, layer: Layer, records: seq<Record>, results: seq<seq<bool>>)
    ensures forall r :: r in Replay(prior, LayerOps(layer, records), layer, results) ==> r in records
    ensures |Replay(prior, LayerOps(layer, records), layer, results)| <= |records|
  {
    ReplayOnlySent(prior, LayerOps(layer, records), layer, results);
    LayerOpsSendEachRecordOnce(layer, records);
  }

  lemma {:induction false} DropRest(results: seq<seq<bool>>, n: nat)
    requires n > 0
    ensures Drop(Rest(results), n - 1) == Drop(results, n)
  {
  }

  lemma {:induction false} ReplayConcat(store: seq<Record>, a: seq<Op>, b: seq<Op>, layer: Layer, results: seq<seq<bool>>)
    ensures Replay(store, a + b, layer, results) == Replay(Replay(store, a, layer, results), b, layer, Drop(results, |a|))
    decreases |a|
  {
    if |a| == 0 {
      assert a + b == b;
    } else {
      assert (a + b)[0] == a[0];
      assert (a + b)[1..] == a[1..] + b;
      ReplayConcat(Apply(store, a[0], layer, First(results)), a[1..], b, layer, Rest(results));
      DropRest(results, |a|);
    }
  }

  lemma {:induction false} AllStoredSplit(a: seq<Op>, b: seq<Op>, results: seq<seq<bool>>)
    requires AllStored(a + b, results)
    ensures AllStored(a, results)
    ensures AllStored(b, Drop(results, |a|))
    decreases |a|
  {
    if |a| == 0 {
      assert a + b == b;
    } else {
      assert (a + b)[0] == a[0];
      assert (a + b)[1..] == a[1..] + b;
      AllStoredSplit(a[1..], b, Rest(results));
      DropRest(results, |a|);
    }
  }

  /** Replacing one layer and then touching only other layers leaves that layer holding exactly the records. */
  lemma ReplaceThenOthers(prior: seq<Record>, layer: Layer, records: seq<Record>, tail: seq<Op>, results: seq<seq<bool>>)
    requires AllStored(LayerOps(layer, records) + tail, results)
    requires forall j :: 0 <= j < |tail| ==> tail[j].UpdateSnippet? || tail[j].layer != layer
    ensures Replay(prior, LayerOps(layer, records) + tail, layer, results) == records
  {
    var ops := LayerOps(layer, records);
    AllStoredSplit(ops, tail, results);
    ReplayConcat(prior, ops, tail, layer, results);
    UpdateReplacesContents(prior, layer, records, results);
    ReplayOtherLayer(records, tail, layer, Drop(results, |ops|));
  }

  /** The script's trace for given county records and aggregation result, replayed with every feature stored. */
  lemma TraceReplacesBothLayers(
    county: seq<Record>, agg: Result<seq<AggRow>, AggError>, snippetTime: string,
    priorCounty: seq<Record>, priorStateMonth: seq<Record>, results: seq<seq<bool>>)
    requires AllStored(LayerOps(CountyLayer, county) + AfterAggregation(agg, snippetTime), results)
    ensures Replay(priorCounty, LayerOps(CountyLayer, county) + AfterAggregation(agg, snippetTime), CountyLayer, results) == county
    ensures agg.Ok? ==>
      Replay(priorStateMonth, LayerOps(CountyLayer, county) + AfterAggregation(agg, snippetTime), StateMonthLayer, results)
        == StateMonthRecords(agg.value)
    ensures agg.Err? ==>
      Replay(priorStateMonth, LayerOps(CountyLayer, county) + AfterAggregation(agg, snippetTime), StateMonthLayer, results) == priorStateMonth
  {
    var countyOps := LayerOps(CountyLayer, county);
    var after := AfterAggregation(agg, snippetTime);
    ReplaceThenOthers(priorCounty, CountyLayer, county, after, results);
    ReplayConcat(priorStateMonth, countyOps, after, StateMonthLayer, results);
    ReplayOtherLayer(priorStateMonth, countyOps, StateMonthLayer, results);
    AllStoredSplit(countyOps, after, results);
    if agg.Ok? {
      var snippet := [UpdateSnippet(SnippetPrefix + snippetTime)];
      assert after == LayerOps(StateMonthLayer, StateMonthRecords(agg.value)) + snippet;
      ReplaceThenOthers(priorStateMonth, StateMonthLayer, StateMonthRecords(agg.value), snippet, Drop(results, |countyOps|));
    }
  }

  /**
   * When the service stores every feature, the county layer ends up holding
   * exactly the table that was read back and the state-month layer exactly
   * the aggregate, whatever they held before; when the aggregation fails, the
   * county layer has already been replaced and the state-month layer keeps its
   * old contents.
   */
  lemma TableReplacesBothLayers(
    rows: seq<CleanRow>, dates: seq<TimestampDate>, now: string, snippetTime: string,
    priorCounty: seq<Record>, priorStateMonth: seq<Record>, results: seq<seq<bool>>)
    requires |dates| == |rows|
    requires AllStored(ScriptOnTable(rows, dates, now, snippetTime).ops, results)
    ensures Replay(priorCounty, ScriptOnTable(rows, dates, now, snippetTime).ops, CountyLayer, results) == CountyRecords(rows)
    ensures Aggregate(DatedRows(rows, dates), now).Ok? ==>
      Replay(priorStateMonth, ScriptOnTable(rows, dates, now, snippetTime).ops, StateMonthLayer, results)
        == StateMonthRecords(Aggregate(DatedRows(rows, dates), now).value)
    ensures Aggregate(DatedRows(rows, dates), now).Err? ==>
      Replay(priorStateMonth, ScriptOnTable(rows, dates, now, snippetTime).ops, StateMonthLayer, results) == priorStateMonth
  {
    var agg := Aggregate(DatedRows(rows, dates), now);
    assert ScriptOnTable(rows, dates, now, snippetTime).ops == LayerOps(CountyLayer, CountyRecords(rows)) + AfterAggregation(agg, snippetTime);
    TraceReplacesBothLayers(CountyRecords(rows), agg, snippetTime, priorCounty, priorStateMonth, results);
  }

  /**
   * With the identifier column read back as text, the county layer ends up
   * holding exactly the cleaned rows, identifiers included, and the
   * state-month layer the aggregate or, after a failed aggregation, its old
   * contents.
   */
  lemma ScriptReplacesBothLayers(
    cleaned: seq<CleanRow>, dates: seq<TimestampDate>, now: string, snippetTime: string,
    priorCounty: seq<Record>, priorStateMonth: seq<Record>, results: seq<seq<bool>>)
    requires |dates| == |cleaned|
    requires AllStored(UploadScript(cleaned, dates, now, snippetTime).ops, results)
    ensures Replay(priorCounty, UploadScript(cleaned, dates, now, snippetTime).ops, CountyLayer, results) == CountyRecords(cleaned)
    ensures Aggregate(DatedRows(cleaned, dates), now).Ok? ==>
      Replay(priorStateMonth, UploadScript(cleaned, dates, now, snippetTime).ops, StateMonthLayer, results)
        == StateMonthRecords(Aggregate(DatedRows(cleaned, dates), now).value)
    ensures Aggregate(DatedRows(cleaned, dates), now).Err? ==>
      Replay(priorStateMonth, UploadScript(cleaned, dates, now, snippetTime).ops, StateMonthLayer, results) == priorStateMonth
  {
    TableReplacesBothLayers(cleaned, dates, now, snippetTime, priorCounty, priorStateMonth, results);
  }

  /** As written, the county layer ends up holding the table as pandas typed it on reading it back. */
  lemma AsWrittenCountyLayer(
    cleaned: seq<CleanRow>, dates: seq<TimestampDate>, now: string, snippetTime: string,
    prior: seq<Record>, results: seq<seq<bool>>)
    requires |dates| == |cleaned|
    requires AllStored(UploadScriptAsWritten(cleaned, dates, now, snippetTime).ops, results)
    ensures Replay(prior, UploadScriptAsWritten(cleaned, dates, now, snippetTime).ops, CountyLayer, results)
      == CountyRecords(ReloadRowsAsWritten(cleaned))
  {
    var back := ReloadRowsAsWritten(cleaned);
    assert UploadScriptAsWritten(cleaned, dates, now, snippetTime) == ScriptOnTable(back, dates, now, snippetTime);
    TableReplacesBothLayers(back, dates, now, snippetTime, prior, prior, results);
  }

  /**
   * As written, a one-row table whose identifier is "01001" leaves the county
   * layer holding that row with identifier "1001", not the row that was cleaned.
   */
  lemma AsWrittenUploadChangesIdentifier(
    row: CleanRow, dates: seq<TimestampDate>, now: string, snippetTime: string, prior: seq<Record>, results: seq<seq<bool>>)
    requires row.locationId == "01001" && |dates| == 1
    requires AllStored(UploadScriptAsWritten([row], dates, now, snippetTime).ops, results)
    ensures Replay(prior, UploadScriptAsWritten([row], dates, now, snippetTime).ops, CountyLayer, results)
      == [CountyRecord(row.(locationId := "1001"))]
    ensures Replay(prior, UploadScriptAsWritten([row], dates, now, snippetTime).ops, CountyLayer, results)
      != CountyRecords([row])
  {
    var read := row.(locationId := "1001");
    AsWrittenCountyLayer([row], dates, now, snippetTime, prior, results);
    ReadOneIdAsWritten(row);
    assert CountyRecords([read]) == [CountyRecord(read)];
    assert CountyRecords([row])[0] == CountyRecord(row);
    assert |row.locationId| != |read.locationId|;
  }
}
