/**
 * The transformer of the fetch script: every raw row's `location_name` is cut
 * on ", " into county and state, the county is upper-cased and trimmed, the
 * state is upper-cased, trimmed and title-cased with one override for the
 * federal district, `value` is renamed `cases`, and six columns are kept in a
 * fixed order.
 */
module Transform {
  import opened Base
  import opened Text

  const Separator: string := ", "

  /** What title-casing makes of the federal district's name ... */
  const DcTitled: string := "District Of Columbia"
  /** ... and the conventional spelling the override restores. */
  const DcConventional: string := "District of Columbia"

  /** The raw feed's columns that the transformer reads; `location_id` is read as text. */
  datatype RawRow = RawRow(
    locationName: string,
    locationId: string,
    date: string,
    outcomeType: string,
    value: int)

  /** The cleaned row, with its fields in the order of the written columns. */
  datatype CleanRow = CleanRow(
    county: string,
    state: Option<string>,
    locationId: string,
    date: string,
    outcomeType: string,
    cases: int)

  /** pandas refuses to assign a split frame whose width is not the two target columns. */
  datatype TransformError = ColumnCountMismatch(width: nat)

  // ---------------------------------------------------------------------
  // One location name
  // ---------------------------------------------------------------------

  function NormalizeCounty(county: string): string
  {
    Strip(Upper(county))
  }

  /** The state after upper-casing, trimming and title-casing, before the override. */
  function TitleState(state: string): string
  {
    Title(Strip(Upper(state)))
  }

  function NormalizeState(state: string): string
  {
    ReplaceAll(TitleState(state), DcTitled, DcConventional)
  }

  /** How many columns the split of one name produces. */
  function Pieces(name: string): nat
  {
    |Split(name, Separator)|
  }

  /** The split's first column and, when there is one, its second; a missing state is `None`. */
  function SplitLocation(name: string): (string, Option<string>)
  {
    var parts := Split(name, Separator);
    (parts[0], if |parts| >= 2 then Some(parts[1]) else None)
  }

  ghost predicate AtMostOneSeparator(name: string)
  {
    forall i: nat, j: nat :: OccursAt(name, Separator, i) && OccursAt(name, Separator, j) ==> i == j
  }

  /** Rename, normalise and project one row; `location_id`, `date` and `outcome_type` pass through. */
  function CleanRowOf(row: RawRow): (r: CleanRow)
    ensures r.cases == row.value
    ensures r.locationId == row.locationId
    ensures r.date == row.date
    ensures r.outcomeType == row.outcomeType
    ensures r.state.Some? <==> Contains(row.locationName, Separator)
  {
    SplitWithoutSeparator(row.locationName, Separator);
    var (county, state) := SplitLocation(row.locationName);
    CleanRow(
      NormalizeCounty(county),
      if state.Some? then Some(NormalizeState(state.value)) else None,
      row.locationId,
      row.date,
      row.outcomeType,
      row.value)
  }

  // ---------------------------------------------------------------------
  // The whole table
  // ---------------------------------------------------------------------

  /** The width of the frame `str.split(", ", expand=True)` builds: the most pieces of any row. */
  function SplitWidth(rows: seq<RawRow>): (w: nat)
    ensures forall i :: 0 <= i < |rows| ==> Pieces(rows[i].locationName) <= w
    ensures |rows| > 0 ==> exists i :: 0 <= i < |rows| && Pieces(rows[i].locationName) == w
    ensures |rows| == 0 ==> w == 0
  {
    if |rows| == 0 then 0
    else
      var w := SplitWidth(rows[1..]);
      assert forall i :: 1 <= i < |rows| ==> rows[1..][i - 1] == rows[i];
      if Pieces(rows[0].locationName) >= w then Pieces(rows[0].locationName) else w
  }

  /** The transformer: succeeds exactly when the widest split has two columns, and then keeps every row in order. */
  function Transform(rows: seq<RawRow>): (res: Result<seq<CleanRow>, TransformError>)
    ensures res.Ok? <==>
      && (exists i :: 0 <= i < |rows| && Pieces(rows[i].locationName) == 2)
      && (forall i :: 0 <= i < |rows| ==> Pieces(rows[i].locationName) <= 2)
    ensures res.Ok? ==> |res.value| == |rows|
    ensures res.Ok? ==> forall i :: 0 <= i < |rows| ==> res.value[i] == CleanRowOf(rows[i])
    ensures res.Err? ==> res.error.width != 2
  {
    var w := SplitWidth(rows);
    if w != 2 then Err(ColumnCountMismatch(w))
    else Ok(seq(|rows|, i requires 0 <= i < |rows| => CleanRowOf(rows[i])))
  }

  // ---------------------------------------------------------------------
  // Properties of the split
  // ---------------------------------------------------------------------

  /** Two occurrences of ", " never overlap. */
  lemma SeparatorOccurrencesApart(s: string, i: nat, j: nat)
    requires OccursAt(s, Separator, i) && OccursAt(s, Separator, j) && i < j
    ensures j >= i + |Separator|
  {
    assert s[i..i + 2][1] == ' ';
    assert s[j..j + 2][0] == ',';
  }

  lemma OccursAfter(s: string, pat: string, i: nat, k: nat)
    requires i <= k && OccursAt(s, pat, k)
    ensures OccursAt(s[i..], pat, k - i)
  {
    assert s[i..][k - i..k - i + |pat|] == s[k..k + |pat|];
  }

  /** A name splits into at most two columns exactly when ", " occurs in it at most once, and into one exactly when it does not occur. */
  lemma PiecesCountSeparators(name: string)
    ensures Pieces(name) == 1 <==> !Contains(name, Separator)
    ensures Pieces(name) <= 2 <==> AtMostOneSeparator(name)
  {
    SplitWithoutSeparator(name, Separator);
    match Find(name, Separator)
    case None =>
    case Some(i) =>
      var rest := name[i + |Separator|..];
      assert Split(name, Separator) == [name[..i]] + Split(rest, Separator);
      if Pieces(name) <= 2 {
        SplitWithoutSeparator(rest, Separator);
        forall a: nat, b: nat | OccursAt(name, Separator, a) && OccursAt(name, Separator, b)
          ensures a == b
        {
          if a != i {
            SeparatorOccurrencesApart(name, i, a);
            OccursAfter(name, Separator, i + |Separator|, a);
          }
          if b != i {
            SeparatorOccurrencesApart(name, i, b);
            OccursAfter(name, Separator, i + |Separator|, b);
          }
        }
      } else {
        SplitWithoutSeparator(rest, Separator);
        var j: nat :| j <= |rest| && OccursAt(rest, Separator, j);
        OccursInSuffix(name, Separator, i + |Separator|, j);
      }
  }

  /** The transformer succeeds exactly when some name holds ", " and no name holds it twice. */
  lemma TransformSucceedsIff(rows: seq<RawRow>)
    ensures Transform(rows).Ok? <==>
      && (exists i :: 0 <= i < |rows| && Contains(rows[i].locationName, Separator))
      && (forall i :: 0 <= i < |rows| ==> AtMostOneSeparator(rows[i].locationName))
  {
    forall i | 0 <= i < |rows| {
      PiecesCountSeparators(rows[i].locationName);
    }
  }

  /** With exactly one ", " the county is the text before it and the state the text after it. */
  lemma SplitAtSeparator(name: string, i: nat)
    requires OccursAt(name, Separator, i)
    requires forall j: nat :: OccursAt(name, Separator, j) ==> j == i
    ensures SplitLocation(name) == (name[..i], Some(name[i + |Separator|..]))
    ensures name[..i] + Separator + name[i + |Separator|..] == name
  {
    SplitAtOnlyOccurrence(name, Separator, i);
    assert name[i..i + |Separator|] == Separator;
  }

  /** Without ", " the whole name is the county and the state is missing. */
  lemma SplitWithoutState(name: string)
    requires !Contains(name, Separator)
    ensures SplitLocation(name) == (name, None)
  {
    SplitWithoutSeparator(name, Separator);
  }

  /** Whenever a state is present in a row the transformer accepts, county, ", " and state rebuild the name. */
  lemma SplitReconstructs(name: string)
    requires AtMostOneSeparator(name)
    requires SplitLocation(name).1.Some?
    ensures SplitLocation(name).0 + Separator + SplitLocation(name).1.value == name
  {
    PiecesCountSeparators(name);
    SplitTwoPieces(name, Separator);
  }

  // ---------------------------------------------------------------------
  // Properties of the normalisation
  // ---------------------------------------------------------------------

  /** The county is the trimmed, upper-cased raw county: no lower-case letter, no surrounding space, and normalising again changes nothing. */
  lemma CountyNormalForm(county: string)
    ensures NormalizeCounty(county) == Upper(Strip(county))
    ensures NoLower(NormalizeCounty(county))
    ensures IsStripped(NormalizeCounty(county))
    ensures NormalizeCounty(NormalizeCounty(county)) == NormalizeCounty(county)
  {
    var c := NormalizeCounty(county);
    StripUpperCommute(county);
    UpperFixesExactlyNoLower(Strip(county));
    UpperFixesExactlyNoLower(c);
    StripIdempotent(Upper(county));
  }

  /** Title-casing and the override change only letter case: the result's upper-case form is the trimmed, upper-cased input. */
  lemma StateKeepsLetters(state: string)
    ensures Upper(NormalizeState(state)) == Strip(Upper(state))
    ensures |NormalizeState(state)| == |Strip(Upper(state))|
  {
    var t := Strip(Upper(state));
    CountyNormalForm(state);
    UpperReplace(TitleState(state), DcTitled, DcConventional);
    UpperTitle(t);
    UpperFixesExactlyNoLower(t);
    ReplaceKeepsLength(TitleState(state), DcTitled, DcConventional);
  }

  lemma {:induction false} JoinLength(parts: seq<string>, a: string, b: string)
    requires |a| == |b|
    ensures |Join(parts, a)| == |Join(parts, b)|
    decreases |parts|
  {
    if |parts| > 1 {
      JoinLength(parts[1..], a, b);
    }
  }

  lemma ReplaceKeepsLength(s: string, pat: string, rep: string)
    requires |pat| > 0 && |pat| == |rep|
    ensures |ReplaceAll(s, pat, rep)| == |s|
  {
    JoinLength(Split(s, pat), rep, pat);
    JoinSplit(s, pat);
  }

  /** Normalising an already normalised state returns it unchanged. */
  lemma StateIdempotent(state: string)
    ensures NormalizeState(NormalizeState(state)) == NormalizeState(state)
  {
    var n := NormalizeState(state);
    var t := Strip(Upper(state));
    StateKeepsLetters(state);
    CountyNormalForm(state);
    StripIdempotent(Upper(state));
    assert Strip(Upper(n)) == t;
  }

  /** The override changes a state exactly when its title-cased form contains "District Of Columbia"; any other state is its plain title-cased form. */
  lemma OverrideOnlyForDistrict(state: string)
    ensures NormalizeState(state) != TitleState(state) <==> Contains(TitleState(state), DcTitled)
    ensures !Contains(TitleState(state), DcTitled) ==> NormalizeState(state) == TitleState(state)
  {
    ReplaceChangesIff(TitleState(state), DcTitled, DcConventional);
  }
}
