/** Reviewing unreviewed edits: keeping them folds their new rows into the base, rejecting them puts
    their old rows back into the buffer, and a rejection can be taken back once. */
module Review {
  import opened Patches
  import opened Ropes
  import opened RowLifting
  import opened Splicing
  import opened Buffers
  import opened Undoing

  /** The rows of a request, both ends included, meet the rows of an edit or its boundaries. */
  predicate Touches(range: Range, rows: Range) {
    !(range.end < rows.start || range.start > rows.end)
  }

  /** That is, some row or boundary between rows is common to both. */
  lemma TouchesIs(range: Range, rows: Range)
    requires range.start <= range.end && rows.start <= rows.end
    ensures Touches(range, rows) <==> exists n: int :: InBoth(range, rows, n)
  {
    if Touches(range, rows) {
      assert InBoth(range, rows, if range.start >= rows.start then range.start else rows.start);
    }
  }

  predicate InBoth(range: Range, rows: Range, n: int) {
    range.start <= n <= range.end && rows.start <= n <= rows.end
  }

  // ------------------------------------------------------------------ keep

  /** The edits that keeping `range` accepts. */
  function Kept(p: seq<Edit>, range: Range): (picks: seq<bool>)
    ensures |picks| == |p| && forall k :: 0 <= k < |p| ==> picks[k] == Touches(range, p[k].now)
  {
    seq(|p|, k requires 0 <= k < |p| => Touches(range, p[k].now))
  }

  /** The loop of `keep_edits_in_range`: one pass over the edits that folds those in the range into
      the base and moves the others by the delta so far. */
  method KeepEdits(base: string, snapshot: string, edits: seq<Edit>, range: Range)
    returns (newBase: string, rest: seq<Edit>)
    requires Leads(edits, Rows(base), Rows(snapshot)) && Separated(edits)
    requires RealStarts(edits, Rows(base), Rows(snapshot))
    ensures Rows(newBase) == Pick(edits, Rows(base), Rows(snapshot), Kept(edits, range), 0)
    ensures rest == Remainder(edits, Kept(edits, range), 0)
  {
    hide *;
    ghost var picks := Kept(edits, range);
    ghost var pre: seq<Row>, i, j := [], 0, 0;
    var delta := 0;
    newBase, rest := base, [];
    KeptAt(edits, range);
    KeepLoopStarts(edits, picks, base, Rows(snapshot));
    for n := 0 to |edits|
      invariant KeepLoop(edits, picks, base, Rows(snapshot), n, newBase, rest, delta, pre, i, j)
    {
      var edit := edits[n];
      if range.end < edit.now.start || range.start > edit.now.end {
        ghost var pre' := Moved(pre, Rows(base), i, edit.was.end);
        KeepLoopSkips(edits, picks, base, Rows(snapshot), n, newBase, rest, delta, pre, i, j, pre');
        rest := rest + [edit.ShiftOld(delta)];
        pre := pre';
      } else {
        ghost var pre' := Grown(pre, Rows(base), i, edit.was.start, Rows(snapshot), edit.now);
        KeepLoopTakes(edits, picks, base, snapshot, n, newBase, rest, delta, pre, i, j, pre');
        newBase := ReplaceRows(newBase, edit.was.Shift(delta), RowText(snapshot, edit.now));
        delta := delta + edit.Delta();
        pre := pre';
      }
      i, j := edit.was.end, edit.now.end;
    }
    KeepLoopEnds(edits, picks, base, Rows(snapshot), |edits|, newBase, rest, delta, pre, i, j);
  }

  lemma KeptAt(p: seq<Edit>, range: Range)
    ensures |Kept(p, range)| == |p|
    ensures forall n :: 0 <= n < |p| ==>
              Kept(p, range)[n] == !(range.end < p[n].now.start || range.start > p[n].now.end)
  {
  }

  // ------------------------------------------------------------------ the scan that finds what to reject

  /** The ranges left after dropping, from the front, those that end before row `x`. */
  function DropEnded(ranges: seq<Range>, x: int): seq<Range> {
    if ranges != [] && ranges[0].end < x then DropEnded(ranges[1..], x) else ranges
  }

  /** What the scan decides, edit by edit: `rows` are the rows the edits occupy in the buffer, and
      the ranges are consumed along the way. */
  function Scan(rows: seq<Range>, ranges: seq<Range>): (picks: seq<bool>)
    ensures |picks| == |rows|
  {
    if rows == [] then []
    else
      var rest := DropEnded(ranges, rows[0].start);
      [rest != [] && rest[0].start <= rows[0].end] + Scan(rows[1..], rest)
  }

  /** Some range touches the rows. */
  predicate TouchedBySome(ranges: seq<Range>, rows: Range) {
    exists r :: r in ranges && Touches(r, rows)
  }

  function Search(rows: seq<Range>, ranges: seq<Range>): (picks: seq<bool>)
    ensures |picks| == |rows| && forall k :: 0 <= k < |rows| ==> picks[k] == TouchedBySome(ranges, rows[k])
  {
    seq(|rows|, k requires 0 <= k < |rows| => TouchedBySome(ranges, rows[k]))
  }

  /** Start rows never decrease. */
  ghost predicate SortedByStart(ranges: seq<Range>) {
    forall m, n :: 0 <= m < n < |ranges| ==> ranges[m].start <= ranges[n].start
  }

  /** The rows of edits: in order, none of them inverted. */
  ghost predicate Ascending(rows: seq<Range>) {
    SortedByStart(rows) && forall r :: r in rows ==> r.start <= r.end
  }

  lemma {:induction false} DropTwice(ranges: seq<Range>, x: int, y: int)
    requires x <= y
    ensures DropEnded(DropEnded(ranges, x), y) == DropEnded(ranges, y)
  {
    if ranges != [] && ranges[0].end < x {
      DropTwice(ranges[1..], x, y);
    }
  }

  /** Consuming ranges loses nothing: whatever the ranges are, each edit is decided by the first
      range of the whole request that does not end before it. */
  lemma {:induction false} ScanIsFirst(rows: seq<Range>, ranges: seq<Range>, k: int)
    requires Ascending(rows) && 0 <= k < |rows|
    ensures var rest := DropEnded(ranges, rows[k].start);
            Scan(rows, ranges)[k] <==> rest != [] && rest[0].start <= rows[k].end
  {
    if k > 0 {
      var rest := DropEnded(ranges, rows[0].start);
      ScanIsFirst(rows[1..], rest, k - 1);
      DropTwice(ranges, rows[0].start, rows[k].start);
    }
  }

  /** The first range that does not end before row `x` covers it, if any range does. */
  predicate FirstCovers(ranges: seq<Range>, x: int) {
    (exists r :: r in ranges && r.start <= x <= r.end) ==>
      var rest := DropEnded(ranges, x); rest != [] && rest[0].start <= x
  }

  lemma {:induction false} DroppedEnded(ranges: seq<Range>, x: int, r: Range)
    requires r in ranges
    ensures r.end < x || r in DropEnded(ranges, x)
  {
    if ranges[0].end < x && r.end >= x {
      assert r in ranges[1..];
      DroppedEnded(ranges[1..], x, r);
    }
  }

  lemma {:induction false} DropEndedFirst(ranges: seq<Range>, x: int)
    ensures var rest := DropEnded(ranges, x); rest != [] ==> rest[0] in ranges && rest[0].end >= x
  {
    if ranges != [] && ranges[0].end < x {
      DropEndedFirst(ranges[1..], x);
    }
  }

  /** Raising the row skips more ranges, but not one that starts above it. */
  lemma {:induction false} DropEndedStays(ranges: seq<Range>, x: int, y: int)
    requires x <= y
    requires var rest := DropEnded(ranges, x); rest != [] && rest[0].end >= y
    ensures DropEnded(ranges, y) == DropEnded(ranges, x)
  {
    if ranges[0].end < x {
      DropEndedStays(ranges[1..], x, y);
    }
  }

  /** The scan finds, for every patch, exactly the edits that some range touches, if and only if the
      request passes a check on its own: every row that some range covers is covered by the first
      range that does not end before it. */
  lemma ScanIsSearch(ranges: seq<Range>)
    requires forall r :: r in ranges ==> r.start <= r.end
    ensures (forall rows :: Ascending(rows) ==> Scan(rows, ranges) == Search(rows, ranges))
            <==> forall x: int :: FirstCovers(ranges, x)
  {
    if forall x: int :: FirstCovers(ranges, x) {
      forall rows | Ascending(rows)
        ensures Scan(rows, ranges) == Search(rows, ranges)
      {
        forall k | 0 <= k < |rows|
          ensures Scan(rows, ranges)[k] == Search(rows, ranges)[k]
        {
          ScanIsFirst(rows, ranges, k);
          SearchByFirst(ranges, rows[k]);
        }
      }
    }
    if forall rows :: Ascending(rows) ==> Scan(rows, ranges) == Search(rows, ranges) {
      forall x: int
        ensures FirstCovers(ranges, x)
      {
        var rows := [Range(x, x)];
        assert Ascending(rows);
        assert Scan(rows, ranges)[0] == Search(rows, ranges)[0];
      }
    }
  }

  lemma SearchByFirst(ranges: seq<Range>, rows: Range)
    requires forall r :: r in ranges ==> r.start <= r.end
    requires forall x: int :: FirstCovers(ranges, x)
    requires rows.start <= rows.end
    ensures var rest := DropEnded(ranges, rows.start);
            TouchedBySome(ranges, rows) <==> rest != [] && rest[0].start <= rows.end
  {
    var rest := DropEnded(ranges, rows.start);
    DropEndedFirst(ranges, rows.start);
    if TouchedBySome(ranges, rows) {
      var r :| r in ranges && Touches(r, rows);
      DroppedEnded(ranges, rows.start, r);
      var x := if r.start <= rows.start then rows.start else r.start;
      assert FirstCovers(ranges, x);
      if rest[0].start > rows.end {
        DropEndedStays(ranges, rows.start, x);
      }
    }
  }

  /** Ranges sorted by their start row pass the check. */
  lemma SortedCovers(ranges: seq<Range>, x: int)
    requires SortedByStart(ranges)
    ensures FirstCovers(ranges, x)
  {
    if r :| r in ranges && r.start <= x <= r.end {
      DroppedEnded(ranges, x, r);
      var rest := DropEnded(ranges, x);
      DropEndedSuffix(ranges, x);
      var n :| 0 <= n < |rest| && rest[n] == r;
      assert rest[0].start <= rest[n].start;
    }
  }

  lemma {:induction false} DropEndedSuffix(ranges: seq<Range>, x: int)
    requires SortedByStart(ranges)
    ensures SortedByStart(DropEnded(ranges, x))
  {
    if ranges != [] && ranges[0].end < x {
      DropEndedSuffix(ranges[1..], x);
    }
  }

  /** Out of order, a range can hide a later one: the second range touches the edit, and yet the
      edit is not rejected. */
  lemma UnsortedRangesMiss()
    ensures var (rows, ranges) := ([Range(0, 0)], [Range(10, 10), Range(0, 0)]);
            Search(rows, ranges) == [true] && Scan(rows, ranges) == [false]
  {
    var (rows, ranges) := ([Range(0, 0)], [Range(10, 10), Range(0, 0)]);
    assert Touches(ranges[1], rows[0]) && ranges[1] in ranges;
    assert TouchedBySome(ranges, rows[0]);
    assert Search(rows, ranges)[0];
  }

  // ------------------------------------------------------------------ reject

  /** Ranges of characters in order and in bounds, from offset `i` of a text of length `n` on: where
      the anchors around the new rows of the edits are found in the buffer. */
  ghost predicate InText(at: seq<Range>, n: int, i: int) {
    if at == [] then 0 <= i <= n
    else 0 <= i <= at[0].start <= at[0].end <= n && InText(at[1..], n, at[0].end)
  }

  function RowsAt(text: string, r: Range): Range {
    if 0 <= r.start <= r.end <= |text| then Range(PointAt(text, r.start).row, PointAt(text, r.end).row)
    else Range(0, 0)
  }

  function AllRowsAt(text: string, at: seq<Range>): (r: seq<Range>)
    ensures |r| == |at|
  {
    if at == [] then [] else [RowsAt(text, at[0])] + AllRowsAt(text, at[1..])
  }

  /** What rejecting the picked edits replaces: the characters found for each gets its old rows. */
  function Reverts(base: string, edits: seq<Edit>, at: seq<Range>, picks: seq<bool>): seq<Replacement>
    requires |edits| == |at| == |picks|
  {
    if edits == [] then []
    else (if picks[0] then [Replacement(at[0], RowText(base, edits[0].was))] else [])
         + Reverts(base, edits[1..], at[1..], picks[1..])
  }

  /** What is remembered for undoing: where the anchors were, and the text between them. */
  function Remembered(l: seq<Replacement>, text: string): (r: seq<Replacement>)
    ensures |r| == |l|
  {
    if l == [] then []
    else
      var at := l[0].at;
      [Replacement(at, if 0 <= at.start <= at.end <= |text| then text[at.start..at.end] else "")]
      + Remembered(l[1..], text)
  }

  lemma {:induction false} RevertsFit(base: string, edits: seq<Edit>, at: seq<Range>, picks: seq<bool>, n: int, i: int)
    requires |edits| == |at| == |picks| && InText(at, n, i)
    ensures Fits(Reverts(base, edits, at, picks), n, i)
  {
    if edits != [] {
      var l := Reverts(base, edits[1..], at[1..], picks[1..]);
      RevertsFit(base, edits[1..], at[1..], picks[1..], n, at[0].end);
      if picks[0] {
        var r := Replacement(at[0], RowText(base, edits[0].was));
        assert ([r] + l)[1..] == l;
      } else {
        FitsEarlier(l, n, at[0].end, i);
        assert [] + l == l;
      }
    }
  }

  /** The loop of `reject_edits_in_ranges` has looked at the first `n` edits; `rest` are the ranges
      not dropped yet. */
  ghost predicate Rejecting(text: string, base: string, edits: seq<Edit>, at: seq<Range>, picks: seq<bool>,
                            n: int, l: seq<Replacement>, undo: seq<Replacement>, rest: seq<Range>) {
    && 0 <= n <= |edits| == |at| == |picks|
    && InText(at, |text|, 0) && (forall r :: r in at ==> 0 <= r.start <= r.end <= |text|)
    && picks[n..] == Scan(AllRowsAt(text, at[n..]), rest)
    && undo == Remembered(l, text)
    && Reverts(base, edits, at, picks) == l + Reverts(base, edits[n..], at[n..], picks[n..])
  }

  lemma RejectingStarts(text: string, base: string, edits: seq<Edit>, at: seq<Range>, ranges: seq<Range>)
    requires |edits| == |at| && InText(at, |text|, 0)
    ensures var picks := Scan(AllRowsAt(text, at), ranges);
            Rejecting(text, base, edits, at, picks, 0, [], [], ranges)
  {
    var picks := Scan(AllRowsAt(text, at), ranges);
    AllInText(at, |text|, 0);
    AllOut(edits);
    AllOut(at);
    AllOut(picks);
  }

  lemma {:induction false} AllInText(at: seq<Range>, n: int, i: int)
    requires InText(at, n, i)
    ensures forall r :: r in at ==> 0 <= r.start <= r.end <= n
  {
    if at != [] {
      AllInText(at[1..], n, at[0].end);
      assert at == [at[0]] + at[1..];
    }
  }

  /** One edit is looked at: ranges that end before it are dropped, and the first one left decides. */
  lemma RejectingStep(text: string, base: string, edits: seq<Edit>, at: seq<Range>, picks: seq<bool>,
                      n: int, l: seq<Replacement>, undo: seq<Replacement>, rest: seq<Range>, rest': seq<Range>)
    requires Rejecting(text, base, edits, at, picks, n, l, undo, rest)
    requires 0 <= n < |edits| == |at| && rest' == DropEnded(rest, RowsAt(text, at[n]).start)
    ensures 0 <= at[n].start <= at[n].end <= |text|
    ensures var r := Replacement(at[n], RowText(base, edits[n].was));
            if rest' != [] && rest'[0].start <= RowsAt(text, at[n]).end then
              Rejecting(text, base, edits, at, picks, n + 1, l + [r],
                        undo + [Replacement(at[n], text[at[n].start..at[n].end])], rest')
            else Rejecting(text, base, edits, at, picks, n + 1, l, undo, rest')
  {
    hide InText, RowText, RowsAt;
    NextOf(edits, n);
    NextOf(at, n);
    NextOf(picks, n);
    assert at[n] in at;
    var r := Replacement(at[n], RowText(base, edits[n].was));
    assert AllRowsAt(text, at[n..])[0] == RowsAt(text, at[n]);
    assert AllRowsAt(text, at[n..])[1..] == AllRowsAt(text, at[n + 1..]);
    RejectingNext(picks, n, text, at, rest, rest');
    var more := Reverts(base, edits[n + 1..], at[n + 1..], picks[n + 1..]);
    assert l + ([] + more) == l + more;
    Assoc(l, [r], more);
    RememberMore(l, r, text);
  }

  lemma RejectingNext(picks: seq<bool>, n: int, text: string, at: seq<Range>, rest: seq<Range>, rest': seq<Range>)
    requires 0 <= n < |picks| == |at| && picks[n..] == Scan(AllRowsAt(text, at[n..]), rest)
    requires rest' == DropEnded(rest, RowsAt(text, at[n]).start)
    ensures picks[n] == (rest' != [] && rest'[0].start <= RowsAt(text, at[n]).end)
    ensures picks[n + 1..] == Scan(AllRowsAt(text, at[n + 1..]), rest')
  {
    hide RowsAt, DropEnded;
    NextOf(picks, n);
    NextOf(at, n);
    assert AllRowsAt(text, at[n..])[1..] == AllRowsAt(text, at[n + 1..]);
  }

  lemma {:induction false} RememberMore(l: seq<Replacement>, r: Replacement, text: string)
    requires 0 <= r.at.start <= r.at.end <= |text|
    ensures Remembered(l + [r], text) == Remembered(l, text) + [Replacement(r.at, text[r.at.start..r.at.end])]
  {
    if l == [] {
      assert [] + [r] == [r] && [r][1..] == [];
    } else {
      assert (l + [r])[1..] == l[1..] + [r];
      RememberMore(l[1..], r, text);
    }
  }

  lemma RejectingEnds(text: string, base: string, edits: seq<Edit>, at: seq<Range>, picks: seq<bool>,
                      l: seq<Replacement>, undo: seq<Replacement>, rest: seq<Range>)
    requires Rejecting(text, base, edits, at, picks, |edits|, l, undo, rest)
    ensures |edits| == |at| == |picks| && l == Reverts(base, edits, at, picks) && undo == Remembered(l, text)
    ensures Fits(l, |text|, 0)
  {
    AllOut(edits);
    RevertsFit(base, edits, at, picks, |text|, 0);
  }

  /** `reject_edits_in_ranges` for a modified buffer: decides edit by edit, remembers the text it is
      about to replace, and replaces all of it at once. */
  method RejectEdits(text: string, base: string, edits: seq<Edit>, at: seq<Range>, ranges: seq<Range>)
    returns (newText: string, undo: seq<Replacement>, edited: bool)
    requires |edits| == |at| && InText(at, |text|, 0)
    ensures edited == !AllTrivial(Reverts(base, edits, at, Scan(AllRowsAt(text, at), ranges)))
    ensures var l := Reverts(base, edits, at, Scan(AllRowsAt(text, at), ranges));
            Fits(l, |text|, 0) && newText == ApplyAll(l, text, 0) && undo == Remembered(l, text)
  {
    hide *;
    ghost var picks := Scan(AllRowsAt(text, at), ranges);
    var editsToRevert: seq<Replacement>, rest := [], ranges;
    undo := [];
    RejectingStarts(text, base, edits, at, ranges);
    for n := 0 to |edits|
      invariant Rejecting(text, base, edits, at, picks, n, editsToRevert, undo, rest)
    {
      var newRowRange := RowsAt(text, at[n]);
      ghost var before := rest;
      var revert := false;
      while rest != [] && !revert
        invariant DropEnded(before, newRowRange.start) == DropEnded(rest, newRowRange.start)
        invariant revert ==> rest != [] && rest[0].end >= newRowRange.start && rest[0].start <= newRowRange.end
        decreases |rest|, !revert
      {
        DropHead(rest, newRowRange.start);
        if rest[0].end < newRowRange.start {
          rest := rest[1..];
        } else if rest[0].start > newRowRange.end {
          break;
        } else {
          revert := true;
        }
      }
      DropHead(rest, newRowRange.start);
      RejectingStep(text, base, edits, at, picks, n, editsToRevert, undo, before, rest);
      if revert {
        undo := undo + [Replacement(at[n], text[at[n].start..at[n].end])];
        editsToRevert := editsToRevert + [Replacement(at[n], RowText(base, edits[n].was))];
      }
    }
    RejectingEnds(text, base, edits, at, picks, editsToRevert, undo, rest);
    FitsUpright(editsToRevert, |text|, 0);
    newText, edited := EditBuffer(text, editsToRevert);
  }

  lemma DropHead(ranges: seq<Range>, x: int)
    ensures ranges == [] ==> DropEnded(ranges, x) == []
    ensures ranges != [] ==> DropEnded(ranges, x) == if ranges[0].end < x then DropEnded(ranges[1..], x) else ranges
  {
  }

  // ------------------------------------------------------------------ rejecting when nothing is pending

  /** The characters of the rows `r`, clipped at the end of the text. */
  function CharsOf(s: string, r: Range): Range {
    Range(Offset(s, r.start), Offset(s, r.end))
  }

  /** Where the anchors of the edits are while the buffer holds the snapshot. */
  function AllCharsOf(p: seq<Edit>, s: string): (at: seq<Range>)
    ensures |at| == |p| && forall k :: 0 <= k < |p| ==> at[k] == CharsOf(s, p[k].now)
  {
    if p == [] then [] else [CharsOf(s, p[0].now)] + AllCharsOf(p[1..], s)
  }

  /** Distinct rows start at distinct characters. */
  lemma {:induction false} OffsetsApart(s: string, row: int, row': int)
    requires 0 <= row < row' && row' < |Rows(s)|
    ensures Offset(s, row) < Offset(s, row')
  {
    if row == 0 {
      assert s != "";
    } else {
      var d := if s[0] == '\n' then 1 else 0;
      OffsetsApart(s[1..], row - d, row' - d);
    }
  }

  lemma {:induction false} CharsInText(p: seq<Edit>, a: seq<Row>, s: string, i: int, j: int)
    requires Aligned(p, a, Rows(s), i, j)
    ensures InText(AllCharsOf(p, s), |s|, Offset(s, j))
  {
    hide Rows, Offset;
    if p != [] {
      HeadShape(p, a, Rows(s), i, j);
      CharsInText(p[1..], a, s, p[0].was.end, p[0].now.end);
      OffsetMonotonic(s, j, p[0].now.start);
      OffsetMonotonic(s, p[0].now.start, p[0].now.end);
      assert AllCharsOf(p, s)[1..] == AllCharsOf(p[1..], s);
    }
  }

  lemma RowOfOffset(s: string, row: int)
    requires 0 <= row <= |Rows(s)|
    ensures PointAt(s, Offset(s, row)).row == if row < |Rows(s)| then row else row - 1
  {
    hide Rows, Offset;
    if row < |Rows(s)| {
      AtOffset(s, row);
    } else {
      OffsetPastEnd(s, row);
      assert s[..|s|] == s;
    }
  }

  /** The rows that the scan compares with the request: those of the edit, clipped to real rows. */
  lemma RowsOfEdit(s: string, r: Range)
    requires 0 <= r.start <= r.end <= |Rows(s)| && r.start < |Rows(s)|
    ensures RowsAt(s, CharsOf(s, r)) == Range(r.start, if r.end < |Rows(s)| then r.end else r.end - 1)
  {
    hide Rows, Offset;
    OffsetMonotonic(s, r.start, r.end);
    RowOfOffset(s, r.start);
    RowOfOffset(s, r.end);
  }

  lemma {:induction false} RowsOfEdits(p: seq<Edit>, a: seq<Row>, s: string, i: int, j: int)
    requires Aligned(p, a, Rows(s), i, j) && RealStarts(p, a, Rows(s))
    ensures var (rows, n) := (AllRowsAt(s, AllCharsOf(p, s)), |Rows(s)|);
            forall k :: 0 <= k < |p| ==>
              rows[k] == Range(p[k].now.start, if p[k].now.end < n then p[k].now.end else p[k].now.end - 1)
  {
    hide *;
    AllRowsHead(p, s);
    if p != [] {
      HeadShape(p, a, Rows(s), i, j);
      RealHead(p, a, Rows(s));
      RowsOfEdit(s, p[0].now);
      RowsOfEdits(p[1..], a, s, p[0].was.end, p[0].now.end);
    }
  }

  lemma AllRowsHead(p: seq<Edit>, s: string)
    ensures p == [] ==> AllRowsAt(s, AllCharsOf(p, s)) == []
    ensures p != [] ==>
              AllRowsAt(s, AllCharsOf(p, s)) == [RowsAt(s, CharsOf(s, p[0].now))] + AllRowsAt(s, AllCharsOf(p[1..], s))
  {
    hide RowsAt;
    if p != [] {
      assert AllCharsOf(p, s)[1..] == AllCharsOf(p[1..], s);
    }
  }

  lemma RealHead<T>(p: seq<Edit>, a: seq<T>, b: seq<T>)
    requires p != [] && RealStarts(p, a, b)
    ensures p[0].was.start < |a| && p[0].now.start < |b| && RealStarts(p[1..], a, b)
  {
    assert p[0] in p;
  }

  /** The rows of the edits are in order, so the results about the scan hold of them. */
  lemma EditsAscend(p: seq<Edit>, a: seq<Row>, s: string)
    requires Leads(p, a, Rows(s)) && Separated(p) && RealStarts(p, a, Rows(s))
    ensures Ascending(AllRowsAt(s, AllCharsOf(p, s)))
  {
    RowsOfEdits(p, a, s, 0, 0);
    NewRanges(p, a, Rows(s));
    hide *;
    AscendingByRows(p, AllRowsAt(s, AllCharsOf(p, s)), |Rows(s)|);
  }

  lemma NewRanges<T>(p: seq<Edit>, a: seq<T>, b: seq<T>)
    requires Leads(p, a, b) && Separated(p) && RealStarts(p, a, b)
    ensures forall k :: 0 <= k < |p| ==> p[k].now.start <= p[k].now.end && p[k].now.start < |b|
    ensures forall m, n :: 0 <= m < n < |p| ==> p[m].now.end < p[n].now.start
  {
    forall k | 0 <= k < |p|
      ensures p[k].now.start <= p[k].now.end && p[k].now.start < |b|
    {
      AfterFrontier(p, a, b, 0, 0, k);
      assert p[k] in p;
    }
  }

  lemma AscendingByRows(p: seq<Edit>, rows: seq<Range>, n: int)
    requires |rows| == |p|
    requires forall k :: 0 <= k < |p| ==> p[k].now.start <= p[k].now.end && p[k].now.start < n
    requires forall l, m :: 0 <= l < m < |p| ==> p[l].now.end < p[m].now.start
    requires forall k :: 0 <= k < |p| ==>
               rows[k] == Range(p[k].now.start, if p[k].now.end < n then p[k].now.end else p[k].now.end - 1)
    ensures Ascending(rows)
  {
    forall l, m | 0 <= l < m < |rows|
      ensures rows[l].start <= rows[m].start
    {
      assert p[l].now.end < p[m].now.start;
    }
  }

  /** A single range within the buffer rejects the very edits that it would keep. */
  lemma RejectsWhatItKeeps(p: seq<Edit>, a: seq<Row>, s: string, range: Range)
    requires Leads(p, a, Rows(s)) && Separated(p) && RealStarts(p, a, Rows(s))
    requires range.start < |Rows(s)|
    ensures Scan(AllRowsAt(s, AllCharsOf(p, s)), [range]) == Kept(p, range)
  {
    hide *;
    var rows := AllRowsAt(s, AllCharsOf(p, s));
    EditsAscend(p, a, s);
    LeadsAligned(p, a, Rows(s));
    RowsOfEdits(p, a, s, 0, 0);
    NewRanges(p, a, Rows(s));
    KeptAt(p, range);
    forall k | 0 <= k < |p|
      ensures Scan(rows, [range])[k] == Kept(p, range)[k]
    {
      ScanIsFirst(rows, [range], k);
      DropOne(range, rows[k].start);
    }
  }

  lemma DropOne(range: Range, x: int)
    ensures DropEnded([range], x) == if range.end < x then [] else [range]
  {
    assert [range][1..] == [];
  }

  /** The text of a picked edit, or of one that stays. */
  function MiddleText(base: string, s: string, e: Edit, picked: bool): string {
    if picked then RowText(base, e.was) else RowText(s, e.now)
  }

  lemma RevertsHead(base: string, q: seq<Edit>, s: string, picks: seq<bool>, j: int)
    requires q != [] && |picks| == |q| && 0 <= j <= q[0].now.start <= q[0].now.end
    requires InText(AllCharsOf(q, s), |s|, Offset(s, j))
    ensures InText(AllCharsOf(q[1..], s), |s|, Offset(s, q[0].now.end))
    ensures var (l, l') := (Reverts(base, q, AllCharsOf(q, s), picks),
                            Reverts(base, q[1..], AllCharsOf(q[1..], s), picks[1..]));
            && Fits(l, |s|, Offset(s, j)) && Fits(l', |s|, Offset(s, q[0].now.end))
            && ApplyAll(l, s, Offset(s, j))
               == RowText(s, Range(j, q[0].now.start)) + MiddleText(base, s, q[0], picks[0])
                  + ApplyAll(l', s, Offset(s, q[0].now.end))
  {
    hide Offset, Fits;
    var e, at := q[0], AllCharsOf(q, s);
    assert at[1..] == AllCharsOf(q[1..], s) && at[0] == CharsOf(s, e.now);
    var l' := Reverts(base, q[1..], at[1..], picks[1..]);
    OffsetMonotonic(s, j, e.now.start);
    OffsetMonotonic(s, e.now.start, e.now.end);
    var x, y, z := Offset(s, j), Offset(s, e.now.start), Offset(s, e.now.end);
    RevertsFit(base, q[1..], at[1..], picks[1..], |s|, z);
    hide ApplyAll, RowsAt;
    if picks[0] {
      Cons(Replacement(at[0], RowText(base, e.was)), l', s, x);
    } else {
      assert [] + l' == l';
      SkipTo(l', s, x, z);
      SliceCat(s, x, y, z);
    }
  }

  /** The rows of three texts of which the first two end a row. */
  lemma RowsOfParts(x: string, y: string, z: string, u: seq<Row>, v: seq<Row>)
    requires Rows(x) == u + [""] && Rows(y) == v + [""]
    ensures Rows(x + y + z) == u + v + Rows(z)
  {
    hide Rows;
    RowsAfterBreak(x, u, y);
    Assoc(u, v, [""]);
    RowsAfterBreak(x + y, u + v, z);
  }

  lemma MiddleRows(base: string, s: string, e: Edit, picked: bool)
    requires EditsReal([e], Rows(base), Rows(s))
    requires 0 <= e.was.start <= e.was.end <= |Rows(base)| && 0 <= e.now.start <= e.now.end <= |Rows(s)|
    ensures var w := if picked then Rows(base)[e.was.start..e.was.end] else Rows(s)[e.now.start..e.now.end];
            Rows(MiddleText(base, s, e, picked)) == if e.now.end < |Rows(s)| then w + [""] else w
  {
    hide Rows, Offset;
    assert e in [e];
    SliceRows(base, e.was);
    SliceRows(s, e.now);
    OffsetMonotonic(base, e.was.start, e.was.end);
    OffsetMonotonic(s, e.now.start, e.now.end);
  }

  lemma LeadingRows(s: string, j: int, k: int)
    requires 0 <= j <= k < |Rows(s)|
    ensures Rows(RowText(s, Range(j, k))) == Rows(s)[j..k] + [""]
  {
    hide Rows, Offset;
    SliceRows(s, Range(j, k));
    OffsetMonotonic(s, j, k);
  }

  /** Rejecting edits when the buffer holds the snapshot, from row `j` of it on. */
  lemma {:induction false} RevertRows(base: string, s: string, q: seq<Edit>, picks: seq<bool>, i: int, j: int)
    requires Aligned(q, Rows(base), Rows(s), i, j) && InOrder(q) && EditsReal(q, Rows(base), Rows(s))
    requires |picks| == |q| && j < |Rows(s)|
    requires InText(AllCharsOf(q, s), |s|, Offset(s, j))
    ensures var l := Reverts(base, q, AllCharsOf(q, s), picks);
            Fits(l, |s|, Offset(s, j))
            && Rows(ApplyAll(l, s, Offset(s, j))) == Pick(Inverted(q), Rows(s), Rows(base), picks, j)
    decreases q
  {
    hide *;
    if q == [] {
      RevertsNothing(base, s, picks, i, j);
    } else {
      var e := q[0];
      RevertFacts(base, s, q, i, j);
      RevertsHead(base, q, s, picks, j);
      PickBackHead(q, Rows(base), Rows(s), picks, j);
      MiddleRows(base, s, e, picks[0]);
      LeadingRows(s, j, e.now.start);
      var l' := Reverts(base, q[1..], AllCharsOf(q[1..], s), picks[1..]);
      if e.now.end < |Rows(s)| {
        RevertRows(base, s, q[1..], picks[1..], e.was.end, e.now.end);
        RowsOfParts(RowText(s, Range(j, e.now.start)), MiddleText(base, s, e, picks[0]),
                    ApplyAll(l', s, Offset(s, e.now.end)), Rows(s)[j..e.now.start],
                    if picks[0] then Rows(base)[e.was.start..e.was.end] else Rows(s)[e.now.start..e.now.end]);
      } else {
        LastRevert(base, q, s, picks);
        LastRows(RowText(s, Range(j, e.now.start)), MiddleText(base, s, e, picks[0]), Rows(s)[j..e.now.start]);
      }
    }
  }

  lemma RevertsNothing(base: string, s: string, picks: seq<bool>, i: int, j: int)
    requires Aligned([], Rows(base), Rows(s), i, j) && j < |Rows(s)| && picks == []
    ensures Fits(Reverts(base, [], AllCharsOf([], s), picks), |s|, Offset(s, j))
    ensures Rows(ApplyAll(Reverts(base, [], AllCharsOf([], s), picks), s, Offset(s, j)))
            == Pick(Inverted([]), Rows(s), Rows(base), picks, j)
  {
    NothingMore(s, Offset(s, j));
    AtOffset(s, j);
  }

  lemma RevertFacts(base: string, s: string, q: seq<Edit>, i: int, j: int)
    requires q != [] && Aligned(q, Rows(base), Rows(s), i, j) && InOrder(q) && EditsReal(q, Rows(base), Rows(s))
    ensures 0 <= j <= q[0].now.start <= q[0].now.end <= |Rows(s)| && q[0].now.start < |Rows(s)|
    ensures 0 <= q[0].was.start <= q[0].was.end <= |Rows(base)|
    ensures EditsReal([q[0]], Rows(base), Rows(s))
    ensures Aligned(q[1..], Rows(base), Rows(s), q[0].was.end, q[0].now.end)
    ensures InOrder(q[1..]) && EditsReal(q[1..], Rows(base), Rows(s))
  {
    hide *;
    HeadShape(q, Rows(base), Rows(s), i, j);
    FirstReal(q, Rows(base), Rows(s));
    EditsRealTail(q, Rows(base), Rows(s));
    OrderHead(q);
  }

  lemma LastRows(x: string, y: string, u: seq<Row>)
    requires Rows(x) == u + [""]
    ensures Rows(x + y + "") == u + Rows(y) + []
  {
    hide Rows;
    RowsAfterBreak(x, u, y);
    NothingAdded(x + y, u + Rows(y));
  }

  lemma NothingAdded(s: string, rows: seq<Row>)
    ensures s + "" == s && rows + [] == rows
  {
  }

  /** An edit that reaches the end of the text is the last one. */
  lemma LastRevert(base: string, q: seq<Edit>, s: string, picks: seq<bool>)
    requires q != [] && InOrder(q) && EditsReal(q, Rows(base), Rows(s)) && |picks| == |q|
    requires q[0].now.end == |Rows(s)|
    ensures Reverts(base, q[1..], AllCharsOf(q[1..], s), picks[1..]) == []
    ensures Fits([], |s|, Offset(s, q[0].now.end)) && ApplyAll([], s, Offset(s, q[0].now.end)) == ""
    ensures Pick(Inverted(q[1..]), Rows(s), Rows(base), picks[1..], q[0].now.end) == []
  {
    hide Rows;
    if q[1..] != [] {
      assert q[1] in q;
    }
    OffsetPastEnd(s, q[0].now.end);
  }

  lemma PickBackHead(q: seq<Edit>, a: seq<Row>, b: seq<Row>, picks: seq<bool>, j: int)
    requires q != [] && |picks| == |q|
    requires 0 <= j <= q[0].now.start <= q[0].now.end <= |b| && 0 <= q[0].was.start <= q[0].was.end <= |a|
    ensures Pick(Inverted(q), b, a, picks, j)
            == b[j..q[0].now.start]
               + (if picks[0] then a[q[0].was.start..q[0].was.end] else b[q[0].now.start..q[0].now.end])
               + Pick(Inverted(q[1..]), b, a, picks[1..], q[0].now.end)
  {
    assert Inverted(q)[1..] == Inverted(q[1..]);
  }

  // ------------------------------------------------------------------ what keeping and rejecting mean together

  /** While the buffer holds the snapshot, rejecting the picked edits makes it `text`. */
  ghost predicate RejectingGives(base: string, s: string, p: seq<Edit>, picks: seq<bool>, text: string)
    requires |picks| == |p|
  {
    var l := Reverts(base, p, AllCharsOf(p, s), picks);
    Fits(l, |s|, 0) && ApplyAll(l, s, 0) == text
  }

  /** Rejecting, while nothing is pending, puts the old rows of the rejected edits back. */
  lemma RejectedRows(base: string, s: string, p: seq<Edit>, picks: seq<bool>)
    requires Leads(p, Rows(base), Rows(s)) && Separated(p) && RealStarts(p, Rows(base), Rows(s))
    requires |picks| == |p|
    ensures InText(AllCharsOf(p, s), |s|, 0)
    ensures var l := Reverts(base, p, AllCharsOf(p, s), picks);
            Fits(l, |s|, 0) && Rows(ApplyAll(l, s, 0)) == Pick(Inverted(p), Rows(s), Rows(base), picks, 0)
  {
    AlignedInOrder(p, Rows(base), Rows(s), 0, 0);
    EditsAreReal(p, Rows(base), Rows(s));
    CharsInText(p, Rows(base), s, 0, 0);
    EmptyOffset(s);
    hide *;
    RevertRows(base, s, p, picks, 0, 0);
  }

  lemma EmptyOffset(s: string)
    ensures Offset(s, 0) == 0
  {
  }

  lemma GivesByRows(base: string, s: string, p: seq<Edit>, picks: seq<bool>, text: string)
    requires |picks| == |p|
    requires var l := Reverts(base, p, AllCharsOf(p, s), picks);
             Fits(l, |s|, 0) && Rows(ApplyAll(l, s, 0)) == Rows(text)
    ensures RejectingGives(base, s, p, picks, text)
  {
    hide Rows, Reverts, ApplyAll;
    RowsInjective(ApplyAll(Reverts(base, p, AllCharsOf(p, s), picks), s, 0), text);
  }

  /** Keeping some edits makes the base the very text that the buffer gets when all the others are
      rejected, and what stays under review still leads from that base to the snapshot. */
  lemma KeepAndRejectMeet(base: string, s: string, p: seq<Edit>, picks: seq<bool>, newBase: string)
    requires Leads(p, Rows(base), Rows(s)) && Separated(p) && RealStarts(p, Rows(base), Rows(s))
    requires |picks| == |p|
    requires Rows(newBase) == Pick(p, Rows(base), Rows(s), picks, 0)
    ensures RejectingGives(base, s, p, Negated(picks), newBase)
    ensures Leads(Remainder(p, picks, 0), Rows(newBase), Rows(s))
  {
    hide *;
    LeadsAligned(p, Rows(base), Rows(s));
    RejectedRows(base, s, p, Negated(picks));
    PickInverted(p, Rows(base), Rows(s), picks, 0, 0);
    GivesByRows(base, s, p, Negated(picks), newBase);
    RemainderKeepsShape(p, Rows(base), Rows(s), picks);
  }

  /** Rejecting everything makes the buffer the base. */
  lemma RejectAllIsBase(base: string, s: string, p: seq<Edit>)
    requires Leads(p, Rows(base), Rows(s)) && Separated(p) && RealStarts(p, Rows(base), Rows(s))
    ensures RejectingGives(base, s, p, AllOf(|p|, true), base)
  {
    hide *;
    PickWhole(p, Rows(base), Rows(s));
    NegatedNone(|p|);
    KeepAndRejectMeet(base, s, p, AllOf(|p|, false), base);
  }

  lemma NegatedNone(n: nat)
    ensures Negated(AllOf(n, false)) == AllOf(n, true)
  {
  }

  // ------------------------------------------------------------------ the whole buffer

  /** The range of all rows of the buffer, which is what rejecting everything asks for. */
  function WholeRange(text: string): Range {
    Range(0, |Rows(text)| - 1)
  }

  /** It picks every edit, wherever the edits are in the buffer. */
  lemma {:induction false} WholeRangePicksAll(text: string, at: seq<Range>, i: int)
    requires InText(at, |text|, i)
    ensures Scan(AllRowsAt(text, at), [WholeRange(text)]) == AllOf(|at|, true)
    decreases at
  {
    hide Rows;
    if at != [] {
      FitsRows(text, at[0]);
      WholeRangePicksAll(text, at[1..], at[0].end);
      assert AllOf(|at|, true) == [true] + AllOf(|at[1..]|, true);
      assert AllRowsAt(text, at)[1..] == AllRowsAt(text, at[1..]);
    }
  }

  lemma FitsRows(text: string, r: Range)
    requires 0 <= r.start <= r.end <= |text|
    ensures 0 <= RowsAt(text, r).start <= |Rows(text)| - 1 && 0 <= RowsAt(text, r).end
  {
    hide Rows;
    RowGrows(text, r.start, |text|);
    assert text[..|text|] == text;
  }

  /** So rejecting the whole buffer, with nothing pending, turns it into the base. */
  lemma RejectWholeBuffer(base: string, s: string, p: seq<Edit>)
    requires Leads(p, Rows(base), Rows(s)) && Separated(p) && RealStarts(p, Rows(base), Rows(s))
    ensures RejectingGives(base, s, p, Scan(AllRowsAt(s, AllCharsOf(p, s)), [WholeRange(s)]), base)
  {
    hide *;
    RejectedRows(base, s, p, AllOf(|p|, true));
    WholeRangePicksAll(s, AllCharsOf(p, s), 0);
    RejectAllIsBase(base, s, p);
  }
}
