/**
 * Reading the cleaned CSV back in the upload script. Without a column type,
 * pandas' CSV reader turns a `location_id` column whose every cell is an
 * unsigned run of decimal digits into integers; the fetch script deliberately
 * reads that column as text. `ReadIdsAsWritten` models the upload script's
 * read for such columns of unsigned digit runs (any other column is kept as
 * text, which is narrower than pandas' type inference); `ReadIds` is the read
 * with the column kept as text.
 */
module Reload {
  import opened Base
  import opened Calendar
  import opened Transform

  /** A typed CSV cell of the identifier column. */
  datatype Cell = Text(text: string) | Integer(value: nat)

  predicate IsDigits(s: string)
  {
    |s| > 0 && forall k :: 0 <= k < |s| ==> '0' <= s[k] <= '9'
  }

  /** No superfluous leading zero: the way Python prints a natural number. */
  predicate IsCanonical(s: string)
  {
    IsDigits(s) && (|s| == 1 || s[0] != '0')
  }

  /** `str(n)` */
  function DecimalText(n: nat): (s: string)
    ensures IsCanonical(s)
    decreases n
  {
    if n < 10 then [DigitChar(n)] else DecimalText(n / 10) + [DigitChar(n % 10)]
  }

  function Render(c: Cell): string
  {
    match c
    case Text(t) => t
    case Integer(n) => DecimalText(n)
  }

  /**
   * The upload script's read of a column of unsigned digit runs: it becomes
   * integers. Any other column stays text here, although pandas would also
   * read signed or decimal numbers as numbers.
   */
  function ReadIdsAsWritten(ids: seq<string>): (cells: seq<Cell>)
    ensures |cells| == |ids|
  {
    if forall i :: 0 <= i < |ids| ==> IsDigits(ids[i]) then
      seq(|ids|, i requires 0 <= i < |ids| => Integer(DigitsValue(ids[i]).value))
    else
      seq(|ids|, i requires 0 <= i < |ids| => Text(ids[i]))
  }

  /** The read with the identifier column typed as text, as the fetch script reads it. */
  function ReadIds(ids: seq<string>): (cells: seq<Cell>)
    ensures |cells| == |ids|
    ensures forall i :: 0 <= i < |ids| ==> Render(cells[i]) == ids[i]
  {
    seq(|ids|, i requires 0 <= i < |ids| => Text(ids[i]))
  }

  lemma {:induction false} DigitsValueOfDigits(s: string)
    requires IsDigits(s)
    ensures DigitsValue(s).Some? && DigitsValue(s).value >= 0
    ensures s[0] != '0' ==> DigitsValue(s).value >= 1
    ensures DigitsValue(s).value < 10 ==> (|s| == 1 || s[0] == '0')
    decreases |s|
  {
    if |s| > 1 {
      DigitsValueOfDigits(s[..|s| - 1]);
    } else {
      assert s[..0] == [];
    }
  }

  /** Printing the value of a digit run gives the run back exactly when it has no superfluous leading zero. */
  lemma {:induction false} DecimalTextOfDigits(s: string)
    requires IsDigits(s)
    ensures DecimalText(DigitsValue(s).value) == s <==> IsCanonical(s)
    decreases |s|
  {
    DigitsValueOfDigits(s);
    var n := DigitsValue(s).value;
    if IsCanonical(s) {
      if |s| > 1 {
        var init := s[..|s| - 1];
        assert init[0] == s[0];
        DigitsValueOfDigits(init);
        DecimalTextOfDigits(init);
        assert s == init + [s[|s| - 1]];
        assert n / 10 == DigitsValue(init).value;
      } else {
        assert s[..0] == [];
      }
    }
  }

  /** Within this read, every identifier survives exactly when some identifier is not an unsigned digit run or none has a superfluous leading zero. */
  lemma ReadIdsAsWrittenKeepsIff(ids: seq<string>)
    ensures (forall i :: 0 <= i < |ids| ==> Render(ReadIdsAsWritten(ids)[i]) == ids[i]) <==>
      (exists i :: 0 <= i < |ids| && !IsDigits(ids[i])) || (forall i :: 0 <= i < |ids| ==> IsCanonical(ids[i]))
  {
    if forall i :: 0 <= i < |ids| ==> IsDigits(ids[i]) {
      forall i | 0 <= i < |ids| {
        DecimalTextOfDigits(ids[i]);
      }
    }
  }

  /** A county identifier with a leading zero, such as "01001", reaches the layer as 1001. */
  lemma LeadingZeroLost()
    ensures ReadIdsAsWritten(["01001"]) == [Integer(1001)]
    ensures Render(ReadIdsAsWritten(["01001"])[0]) == "1001"
  {
    var s := "01001";
    assert IsDigits(s);
    assert s[..1][..0] == [];
    assert s[..2][..1] == s[..1];
    assert s[..3][..2] == s[..2];
    assert s[..4][..3] == s[..3];
    assert s[..5][..4] == s[..4];
    assert s[..5] == s;
    assert DigitsValue(s[..1]) == Some(0);
    assert DigitsValue(s[..2]) == Some(1);
    assert DigitsValue(s[..3]) == Some(10);
    assert DigitsValue(s[..4]) == Some(100);
    assert DigitsValue(s) == Some(1001);
    assert DecimalText(1001) == DecimalText(100) + ['1'];
    assert DecimalText(100) == DecimalText(10) + ['0'];
    assert DecimalText(10) == DecimalText(1) + ['0'];
  }

  /** The cleaned table as the upload script reads it back, identifiers typed as in `ReadIds`. */
  function ReloadRows(rows: seq<CleanRow>): (back: seq<CleanRow>)
    ensures back == rows
  {
    var ids := ReadIds(seq(|rows|, i requires 0 <= i < |rows| => rows[i].locationId));
    seq(|rows|, i requires 0 <= i < |rows| => rows[i].(locationId := Render(ids[i])))
  }

  /** The same read with the upload script's typing of the identifier column. */
  function ReloadRowsAsWritten(rows: seq<CleanRow>): (back: seq<CleanRow>)
    ensures |back| == |rows|
    ensures forall i :: 0 <= i < |rows| ==> back[i] == rows[i].(locationId := back[i].locationId)
  {
    var ids := ReadIdsAsWritten(seq(|rows|, i requires 0 <= i < |rows| => rows[i].locationId));
    seq(|rows|, i requires 0 <= i < |rows| => rows[i].(locationId := Render(ids[i])))
  }

  /** A one-row table whose identifier is "01001" does not survive the upload script's read. */
  lemma ReadOneIdAsWritten(row: CleanRow)
    requires row.locationId == "01001"
    ensures ReloadRowsAsWritten([row]) == [row.(locationId := "1001")]
  {
    assert seq(1, i requires 0 <= i < 1 => [row][i].locationId) == ["01001"];
    LeadingZeroLost();
  }

  /** The same for a concrete row of the cleaned table. */
  lemma ReloadAsWrittenChangesIdentifier()
    ensures var row := CleanRow("AUTAUGA", Some("Alabama"), "01001", "2025-03-01", "confirmed", 1);
      ReloadRowsAsWritten([row]) == [row.(locationId := "1001")]
  {
    ReadOneIdAsWritten(CleanRow("AUTAUGA", Some("Alabama"), "01001", "2025-03-01", "confirmed", 1));
  }
}
