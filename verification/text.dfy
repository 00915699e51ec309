/**
 * The Python string operations the transformer applies to location names:
 * `upper`, `strip`, `title`, `split` on a literal separator, `join` and
 * `replace`. Case conversion is modelled for the ASCII letters only; every
 * other character is treated as uncased. Whitespace is exactly the set
 * Python's `str.isspace` accepts.
 */
module Text {
  import opened Base

  // ---------------------------------------------------------------------
  // Characters
  // ---------------------------------------------------------------------

  /** The characters `str.strip()` removes when called without arguments. */
  predicate IsSpace(c: char)
  {
    || ('\t' <= c <= '\r')
    || ('\U{1C}' <= c <= '\U{1F}')
    || c == ' '
    || c == '\U{85}'
    || c == '\U{A0}'
    || c == '\U{1680}'
    || ('\U{2000}' <= c <= '\U{200A}')
    || c == '\U{2028}'
    || c == '\U{2029}'
    || c == '\U{202F}'
    || c == '\U{205F}'
    || c == '\U{3000}'
  }

  predicate IsUpper(c: char) { 'A' <= c <= 'Z' }

  predicate IsLower(c: char) { 'a' <= c <= 'z' }

  /** A cased character in the sense of Python's title-casing. */
  predicate IsLetter(c: char) { IsUpper(c) || IsLower(c) }

  function UpperChar(c: char): (d: char)
    ensures !IsLower(d)
    ensures IsLetter(c) <==> IsLetter(d)
    ensures IsSpace(c) <==> IsSpace(d)
    ensures !IsLower(c) ==> d == c
  {
    if IsLower(c) then (c as int - 32) as char else c
  }

  function LowerChar(c: char): (d: char)
    ensures !IsUpper(d)
    ensures IsLetter(c) <==> IsLetter(d)
    ensures UpperChar(d) == UpperChar(c)
  {
    if IsUpper(c) then (c as int + 32) as char else c
  }

  /** `s.upper()` */
  function Upper(s: string): (r: string)
    ensures |r| == |s|
  {
    seq(|s|, i requires 0 <= i < |s| => UpperChar(s[i]))
  }

  predicate NoLower(s: string)
  {
    forall k :: 0 <= k < |s| ==> !IsLower(s[k])
  }

  lemma UpperConcat(a: string, b: string)
    ensures Upper(a + b) == Upper(a) + Upper(b)
  {
    assert forall k :: 0 <= k < |a + b| ==> Upper(a + b)[k] == (Upper(a) + Upper(b))[k];
  }

  /** Upper-casing leaves no lower-case letter and is the identity exactly on such strings. */
  lemma UpperFixesExactlyNoLower(s: string)
    ensures NoLower(Upper(s))
    ensures Upper(s) == s <==> NoLower(s)
  {
    if NoLower(s) {
      assert forall k :: 0 <= k < |s| ==> Upper(s)[k] == s[k];
    }
  }

  // ---------------------------------------------------------------------
  // strip
  // ---------------------------------------------------------------------

  predicate AllSpace(s: string)
  {
    forall k :: 0 <= k < |s| ==> IsSpace(s[k])
  }

  /** Neither starts nor ends with whitespace. */
  predicate IsStripped(s: string)
  {
    |s| == 0 || (!IsSpace(s[0]) && !IsSpace(s[|s| - 1]))
  }

  /** The first index from `i` on that does not hold whitespace, or the length if there is none. */
  function SkipSpace(s: string, i: nat): (n: nat)
    requires i <= |s|
    ensures i <= n <= |s|
    ensures forall k :: i <= k < n ==> IsSpace(s[k])
    ensures n < |s| ==> !IsSpace(s[n])
    decreases |s| - i
  {
    if i < |s| && IsSpace(s[i]) then SkipSpace(s, i + 1) else i
  }

  /** The last index up to `j` that is not preceded by whitespace, or zero if there is none. */
  function SkipSpaceBack(s: string, j: nat): (e: nat)
    requires j <= |s|
    ensures e <= j
    ensures forall k :: e <= k < j ==> IsSpace(s[k])
    ensures e > 0 ==> !IsSpace(s[e - 1])
    decreases j
  {
    if j > 0 && IsSpace(s[j - 1]) then SkipSpaceBack(s, j - 1) else j
  }

  /** How many characters `strip` removes on the left. */
  function LeadingSpace(s: string): (n: nat)
    ensures n <= |s|
    ensures forall k :: 0 <= k < n ==> IsSpace(s[k])
    ensures n < |s| ==> !IsSpace(s[n])
  {
    SkipSpace(s, 0)
  }

  /** Where the whitespace `strip` removes on the right begins. */
  function TextEnd(s: string): (e: nat)
    ensures e <= |s|
    ensures forall k :: e <= k < |s| ==> IsSpace(s[k])
    ensures e > 0 ==> !IsSpace(s[e - 1])
  {
    SkipSpaceBack(s, |s|)
  }

  /** `s.strip()` */
  function Strip(s: string): (r: string)
    ensures IsStripped(r)
    ensures |r| <= |s|
  {
    var a := LeadingSpace(s);
    if a == |s| then [] else s[a..TextEnd(s)]
  }

  lemma SliceThree(s: string, a: nat, b: nat)
    requires a <= b <= |s|
    ensures s == s[..a] + s[a..b] + s[b..]
  {
  }

  /** `strip` returns a contiguous slice of its input, starting after the leading whitespace. */
  lemma StripIsSlice(s: string)
    ensures LeadingSpace(s) + |Strip(s)| <= |s|
    ensures s == s[..LeadingSpace(s)] + Strip(s) + s[LeadingSpace(s) + |Strip(s)|..]
  {
    var a := LeadingSpace(s);
    if a == |s| {
      assert s[..a] == s;
    } else {
      SliceThree(s, a, TextEnd(s));
    }
  }

  /** What `strip` removes on either side is whitespace only. */
  lemma StripRemovesOnlySpace(s: string)
    ensures LeadingSpace(s) + |Strip(s)| <= |s|
    ensures AllSpace(s[..LeadingSpace(s)])
    ensures AllSpace(s[LeadingSpace(s) + |Strip(s)|..])
  {
  }

  /** The reference characterisation: whatever whitespace surrounds a stripped text, `strip` returns that text. */
  lemma StripUnique(p: string, r: string, q: string)
    requires AllSpace(p) && AllSpace(q) && IsStripped(r)
    ensures Strip(p + r + q) == r
  {
    var s := p + r + q;
    var a := LeadingSpace(s);
    if |r| == 0 {
      assert forall k :: 0 <= k < |s| ==> IsSpace(s[k]) by {
        assert s == p + q;
      }
    } else {
      assert s[|p|] == r[0];
      assert forall k :: 0 <= k < |p| ==> s[k] == p[k];
      assert a == |p|;
      var e := TextEnd(s);
      assert s[|p| + |r| - 1] == r[|r| - 1];
      assert forall k :: |p| + |r| <= k < |s| ==> s[k] == q[k - |p| - |r|];
      assert e == |p| + |r|;
      assert s[a..e] == r;
    }
  }

  lemma StripIdempotent(s: string)
    ensures Strip(Strip(s)) == Strip(s)
  {
    StripUnique([], Strip(s), []);
    assert [] + Strip(s) + [] == Strip(s);
  }

  lemma UpperSlice(s: string, a: nat, b: nat)
    requires a <= b <= |s|
    ensures Upper(s)[a..b] == Upper(s[a..b])
  {
    assert forall k :: 0 <= k < b - a ==> Upper(s)[a..b][k] == Upper(s[a..b])[k];
  }

  /** Upper-casing keeps every character's whitespace status, so `strip` cuts an upper-cased text where it cuts the original. */
  lemma UpperKeepsStripBounds(s: string)
    ensures LeadingSpace(Upper(s)) == LeadingSpace(s)
    ensures TextEnd(Upper(s)) == TextEnd(s)
  {
    assert forall k :: 0 <= k < |s| ==> (IsSpace(Upper(s)[k]) <==> IsSpace(s[k]));
  }

  /** Upper-casing and stripping commute, because neither changes what the other looks at. */
  lemma StripUpperCommute(s: string)
    ensures Strip(Upper(s)) == Upper(Strip(s))
  {
    UpperKeepsStripBounds(s);
    var a := LeadingSpace(s);
    if a < |s| {
      UpperSlice(s, a, TextEnd(s));
    }
  }

  // ---------------------------------------------------------------------
  // title
  // ---------------------------------------------------------------------

  /** `s.title()`: a letter is upper-cased when it starts the text or follows a non-letter, lower-cased otherwise. */
  function Title(s: string): (r: string)
    ensures |r| == |s|
    ensures forall i :: 0 <= i < |s| ==> UpperChar(r[i]) == UpperChar(s[i])
    ensures forall i :: 0 <= i < |s| && !IsLetter(s[i]) ==> r[i] == s[i]
    ensures forall i :: 0 <= i < |s| && IsLetter(s[i]) ==>
      (IsUpper(r[i]) <==> (i == 0 || !IsLetter(s[i - 1])))
  {
    seq(|s|, i requires 0 <= i < |s| =>
      if i > 0 && IsLetter(s[i - 1]) then LowerChar(s[i]) else UpperChar(s[i]))
  }

  lemma UpperTitle(s: string)
    ensures Upper(Title(s)) == Upper(s)
  {
  }

  // ---------------------------------------------------------------------
  // Searching, split, join, replace
  // ---------------------------------------------------------------------

  predicate OccursAt(s: string, pat: string, i: nat)
  {
    i + |pat| <= |s| && s[i..i + |pat|] == pat
  }

  ghost predicate Contains(s: string, pat: string)
  {
    exists i: nat :: i <= |s| && OccursAt(s, pat, i)
  }

  /** The leftmost occurrence of `pat` at or after `from`, as `s.find(pat, from)`. */
  function FindFrom(s: string, pat: string, from: nat): (r: Option<nat>)
    requires from <= |s|
    ensures r.Some? ==> from <= r.value && OccursAt(s, pat, r.value)
    ensures r.Some? ==> forall j: nat :: from <= j < r.value ==> !OccursAt(s, pat, j)
    ensures r.None? ==> forall j: nat :: from <= j ==> !OccursAt(s, pat, j)
    decreases |s| - from
  {
    if OccursAt(s, pat, from) then Some(from)
    else if from == |s| then None
    else FindFrom(s, pat, from + 1)
  }

  function Find(s: string, pat: string): (r: Option<nat>)
    ensures r.None? <==> !Contains(s, pat)
    ensures r.Some? ==> OccursAt(s, pat, r.value)
    ensures r.Some? ==> forall j: nat :: j < r.value ==> !OccursAt(s, pat, j)
  {
    FindFrom(s, pat, 0)
  }

  /** `s.split(sep)` for a non-empty literal separator: every occurrence, leftmost first, cuts the text. */
  function Split(s: string, sep: string): (parts: seq<string>)
    requires |sep| > 0
    ensures |parts| >= 1
    decreases |s|
  {
    match Find(s, sep)
    case None => [s]
    case Some(i) => [s[..i]] + Split(s[i + |sep|..], sep)
  }

  /** `sep.join(parts)` */
  function Join(parts: seq<string>, sep: string): string
  {
    if |parts| == 0 then []
    else if |parts| == 1 then parts[0]
    else parts[0] + sep + Join(parts[1..], sep)
  }

  /** `s.replace(pat, rep)`: every leftmost non-overlapping occurrence is replaced. */
  function ReplaceAll(s: string, pat: string, rep: string): string
    requires |pat| > 0
  {
    Join(Split(s, pat), rep)
  }

  lemma OccursInPrefix(s: string, pat: string, i: nat, j: nat)
    requires i <= |s| && OccursAt(s[..i], pat, j)
    ensures OccursAt(s, pat, j)
  {
    assert s[..i][j..j + |pat|] == s[j..j + |pat|];
  }

  lemma OccursInSuffix(s: string, pat: string, i: nat, j: nat)
    requires i <= |s| && OccursAt(s[i..], pat, j)
    ensures OccursAt(s, pat, i + j)
  {
    assert s[i..][j..j + |pat|] == s[i + j..i + j + |pat|];
  }

  /** One step of the split: the text before the leftmost separator, then the pieces of the rest. */
  lemma SplitStep(s: string, sep: string, i: nat)
    requires |sep| > 0 && Find(s, sep) == Some(i)
    ensures i + |sep| <= |s|
    ensures Split(s, sep) == [s[..i]] + Split(s[i + |sep|..], sep)
    ensures s == s[..i] + sep + s[i + |sep|..]
  {
    assert s[i..i + |sep|] == sep;
    SliceThree(s, i, i + |sep|);
  }

  lemma JoinStep(p: string, ps: seq<string>, sep: string)
    requires |ps| >= 1
    ensures Join([p] + ps, sep) == p + sep + Join(ps, sep)
  {
    assert ([p] + ps)[1..] == ps;
  }

  /** Joining the pieces of a split with the same separator gives back the text. */
  lemma {:induction false} JoinSplit(s: string, sep: string)
    requires |sep| > 0
    ensures Join(Split(s, sep), sep) == s
    decreases |s|
  {
    match Find(s, sep)
    case None =>
    case Some(i) =>
      var rest := s[i + |sep|..];
      SplitStep(s, sep, i);
      JoinSplit(rest, sep);
      JoinStep(s[..i], Split(rest, sep), sep);
  }

  /** No piece of a split contains the separator. */
  lemma {:induction false} SplitPiecesFree(s: string, sep: string)
    requires |sep| > 0
    ensures forall k :: 0 <= k < |Split(s, sep)| ==> !Contains(Split(s, sep)[k], sep)
    decreases |s|
  {
    match Find(s, sep)
    case None =>
    case Some(i) =>
      var rest := s[i + |sep|..];
      SplitPiecesFree(rest, sep);
      if Contains(s[..i], sep) {
        var j: nat :| OccursAt(s[..i], sep, j);
        OccursInPrefix(s, sep, i, j);
      }
      assert Split(s, sep) == [s[..i]] + Split(rest, sep);
  }

  /** A text without the separator splits into itself alone, and conversely. */
  lemma SplitWithoutSeparator(s: string, sep: string)
    requires |sep| > 0
    ensures |Split(s, sep)| == 1 <==> !Contains(s, sep)
    ensures !Contains(s, sep) ==> Split(s, sep) == [s]
  {
  }

  /** A text with exactly one occurrence of the separator splits into the text before it and the text after it. */
  lemma SplitAtOnlyOccurrence(s: string, sep: string, i: nat)
    requires |sep| > 0
    requires OccursAt(s, sep, i)
    requires forall j: nat :: OccursAt(s, sep, j) ==> j == i
    ensures Split(s, sep) == [s[..i], s[i + |sep|..]]
  {
    var rest := s[i + |sep|..];
    assert Contains(s, sep);
    var f := Find(s, sep);
    assert OccursAt(s, sep, f.value);
    SplitStep(s, sep, i);
    if Contains(rest, sep) {
      var j: nat :| j <= |rest| && OccursAt(rest, sep, j);
      OccursInSuffix(s, sep, i + |sep|, j);
    }
    SplitWithoutSeparator(rest, sep);
  }

  /** Each occurrence of the separator in the text means one more piece. */
  lemma SplitTwoPieces(s: string, sep: string)
    requires |sep| > 0
    requires |Split(s, sep)| == 2
    ensures Split(s, sep)[0] + sep + Split(s, sep)[1] == s
    ensures Contains(s, sep)
  {
    JoinSplit(s, sep);
  }

  function UpperAll(parts: seq<string>): (r: seq<string>)
    ensures |r| == |parts|
  {
    seq(|parts|, k requires 0 <= k < |parts| => Upper(parts[k]))
  }

  lemma {:induction false} UpperJoin(parts: seq<string>, sep: string)
    ensures Upper(Join(parts, sep)) == Join(UpperAll(parts), Upper(sep))
    decreases |parts|
  {
    if |parts| > 1 {
      UpperJoin(parts[1..], sep);
      assert UpperAll(parts)[1..] == UpperAll(parts[1..]);
      UpperConcat(parts[0], sep);
      UpperConcat(parts[0] + sep, Join(parts[1..], sep));
    }
  }

  /** Replacing by a text with the same upper-case form leaves the upper-case form unchanged. */
  lemma UpperReplace(s: string, pat: string, rep: string)
    requires |pat| > 0 && Upper(pat) == Upper(rep)
    ensures Upper(ReplaceAll(s, pat, rep)) == Upper(s)
  {
    var parts := Split(s, pat);
    UpperJoin(parts, rep);
    UpperJoin(parts, pat);
    JoinSplit(s, pat);
  }

  /** `replace` changes the text exactly when the pattern occurs in it (for a replacement of the same length that differs from the pattern). */
  lemma ReplaceChangesIff(s: string, pat: string, rep: string)
    requires |pat| > 0 && |rep| == |pat| && rep != pat
    ensures ReplaceAll(s, pat, rep) != s <==> Contains(s, pat)
  {
    if Contains(s, pat) {
      var i := Find(s, pat).value;
      var rest := s[i + |pat|..];
      var tail := Split(rest, pat);
      assert Split(s, pat) == [s[..i]] + tail;
      var r := ReplaceAll(s, pat, rep);
      assert r == s[..i] + rep + Join(tail, rep);
      assert r[i..i + |rep|] == rep;
      assert s[i..i + |pat|] == pat;
    } else {
      SplitWithoutSeparator(s, pat);
    }
  }
}
