/**
 * Worked examples: one raw row through the transformer, two rows of one state
 * and month through the aggregation, and 4500 records through one layer's
 * update.
 */
module Scenarios {
  import opened Base
  import opened Text
  import opened Transform
  import opened Batching
  import opened Calendar
  import opened Order
  import opened Aggregation
  import opened Upload

  lemma MaricopaSplit()
    ensures SplitLocation("Maricopa, Arizona") == ("Maricopa", Some("Arizona"))
    ensures Pieces("Maricopa, Arizona") == 2
  {
    var name := "Maricopa, Arizona";
    assert OccursAt(name, Separator, 8);
    forall j: nat | OccursAt(name, Separator, j)
      ensures j == 8
    {
      assert name[j..j + 2][0] == name[j] == ',';
    }
    SplitAtSeparator(name, 8);
    assert name[..8] == "Maricopa";
    assert name[10..] == "Arizona";
    PiecesCountSeparators(name);
  }

  /** A text of upper-case letters is already stripped, so normalising the county only upper-cases it. */
  lemma StripLetters(s: string)
    requires |s| > 0 && forall k :: 0 <= k < |s| ==> IsUpper(s[k])
    ensures Strip(s) == s
  {
    StripUnique("", s, "");
    assert "" + s + "" == s;
  }

  lemma MaricopaCounty()
    ensures NormalizeCounty("Maricopa") == "MARICOPA"
  {
    assert Upper("Maricopa") == "MARICOPA";
    StripLetters("MARICOPA");
  }

  lemma TitleArizona()
    ensures TitleState("Arizona") == "Arizona"
  {
    assert Upper("Arizona") == "ARIZONA";
    StripLetters("ARIZONA");
    assert Title("ARIZONA") == "Arizona";
  }

  lemma ArizonaState()
    ensures NormalizeState("Arizona") == "Arizona"
  {
    TitleArizona();
    assert !Contains("Arizona", DcTitled);
    OverrideOnlyForDistrict("Arizona");
  }

  lemma MaricopaCleanRow()
    ensures CleanRowOf(RawRow("Maricopa, Arizona", "04013", "2025-03-01", "confirmed", 5))
      == CleanRow("MARICOPA", Some("Arizona"), "04013", "2025-03-01", "confirmed", 5)
  {
    MaricopaSplit();
    MaricopaCounty();
    ArizonaState();
  }

  /** "Maricopa, Arizona" becomes county "MARICOPA" and state "Arizona"; the other columns pass through, `value` as `cases`. */
  lemma MaricopaRow()
    ensures Transform.Transform([RawRow("Maricopa, Arizona", "04013", "2025-03-01", "confirmed", 5)])
      == Ok([CleanRow("MARICOPA", Some("Arizona"), "04013", "2025-03-01", "confirmed", 5)])
  {
    MaricopaSplit();
    MaricopaCleanRow();
    OneRowTable(RawRow("Maricopa, Arizona", "04013", "2025-03-01", "confirmed", 5));
  }

  lemma OneRowTable(row: RawRow)
    requires Pieces(row.locationName) == 2
    ensures Transform.Transform([row]) == Ok([CleanRowOf(row)])
  {
    var rows := [row];
    assert SplitWidth(rows) == 2 by {
      assert rows[1..] == [];
    }
    var res := Transform.Transform(rows);
    assert res.Ok?;
    assert |res.value| == 1;
    assert res.value[0] == CleanRowOf(row);
    assert res.value == [res.value[0]];
  }

  lemma ArizonaMarchSum()
    ensures var rows := [DatedRow(Some("Arizona"), Date(2025, 3, 1), 5), DatedRow(Some("Arizona"), Date(2025, 3, 8), 3)];
      && (forall i :: 0 <= i < |rows| ==> InGroup(rows[i], GroupKey("Arizona", "2025-03")))
      && GroupSum(rows, GroupKey("Arizona", "2025-03")) == 8
  {
    var rows := [DatedRow(Some("Arizona"), Date(2025, 3, 1), 5), DatedRow(Some("Arizona"), Date(2025, 3, 8), 3)];
    var k := GroupKey("Arizona", "2025-03");
    assert YearMonthText(2025, 3) == "2025-03";
    assert InGroup(rows[0], k) && InGroup(rows[1], k);
    assert rows[1..][1..] == [];
  }

  /** Two Arizona rows of March 2025, with 5 and 3 cases, aggregate to one row with 8 cases. */
  lemma TwoArizonaRowsSum(now: string)
    ensures var rows := [DatedRow(Some("Arizona"), Date(2025, 3, 1), 5), DatedRow(Some("Arizona"), Date(2025, 3, 8), 3)];
      Aggregate(rows, now) == Ok([AggRow("Arizona", "2025-03", 8, 2025, 3, "March", now)])
  {
    var rows := [DatedRow(Some("Arizona"), Date(2025, 3, 1), 5), DatedRow(Some("Arizona"), Date(2025, 3, 8), 3)];
    var k := GroupKey("Arizona", "2025-03");
    ArizonaMarchSum();
    AggregateFailsOnlyBeforeTimestampRange(rows, now);
    SingleGroup(rows, now, k);
    AggregateCalendarColumns(rows, now);
    var agg := Aggregate(rows, now).value;
    var r := agg[0];
    assert InGroup(rows[0], AggKey(r));
    assert r.year == 2025 && r.month == 3;
    assert r.monthName == "March";
    assert r == AggRow("Arizona", "2025-03", 8, 2025, 3, "March", now);
    assert agg == [r];
  }

  /** 4500 records are sent after one truncate in three adds of 2000, 2000 and 500 features. */
  lemma FortyFiveHundredRecords(layer: Layer, records: seq<Record>)
    requires |records| == 4500
    ensures var ops := LayerOps(layer, records);
      && |ops| == 4
      && ops[0] == Truncate(layer)
      && |ops[1].adds| == 2000 && |ops[2].adds| == 2000 && |ops[3].adds| == 500
  {
    var bs := Batches(records);
    BatchesAreSlices(records);
    LayerOpsAddBatches(layer, records);
    assert |bs| == 3;
    assert |bs[0]| == 2000;
    assert |bs[1]| == 2000;
    assert bs[2] == records[4000..4500];
  }
}
