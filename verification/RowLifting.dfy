/** Lifting character edits to row edits.

    Buffers and diffs report character edits as pairs of points; the log works with rows.
    `PointToRowEdit` lifts one edit, and the loops that use it join edits whose rows meet. */
module RowLifting {
  import opened Patches
  import opened Ropes

  datatype Point = Point(row: int, column: int)
  datatype PointRange = PointRange(start: Point, end: Point)
  datatype PointEdit = PointEdit(was: PointRange, now: PointRange)

  // ------------------------------------------------------------------ points

  function PointAt(s: string, o: int): (p: Point)
    requires 0 <= o <= |s|
  {
    var rows := Rows(s[..o]);
    Point(|rows| - 1, |rows[|rows| - 1]|)
  }

  function MaxPoint(s: string): Point {
    PointAt(s, |s|)
  }

  function LineLen(s: string, row: int): int {
    if 0 <= row < |Rows(s)| then |Rows(s)[row]| else 0
  }

  /** `point_to_offset`, clipped at the end of the text. */
  function PointToOffset(s: string, p: Point): int {
    var o := Offset(s, p.row) + p.column;
    if 0 <= o <= |s| then o else |s|
  }

  lemma {:induction false} RowOffset(s: string, o: int)
    requires 0 <= o <= |s|
    ensures Offset(s, PointAt(s, o).row) + PointAt(s, o).column == o
  {
    hide Rows, Offset;
    if o == 0 {
      assert s[..0] == "";
      EmptyStart(s);
    } else {
      assert s[..o][1..] == s[1..][..o - 1];
      RowsOf(s[..o]);
      RowOffset(s[1..], o - 1);
      OffsetOf(s, PointAt(s, o).row);
      OffsetOf(s[1..], 0);
    }
  }

  lemma EmptyStart(s: string)
    ensures Rows("") == [""] && Offset(s, 0) == 0
  {
  }

  lemma OffsetOf(s: string, row: int)
    ensures row <= 0 ==> Offset(s, row) == 0
    ensures row > 0 && s != "" ==> Offset(s, row) == 1 + Offset(s[1..], if s[0] == '\n' then row - 1 else row)
  {
  }

  lemma PointRoundTrip(s: string, o: int)
    requires 0 <= o <= |s|
    ensures PointToOffset(s, PointAt(s, o)) == o
  {
    RowOffset(s, o);
  }

  lemma MeetShape(p: seq<Row>, q: seq<Row>)
    requires p != [] && q != []
    ensures |Meet(p, q)| == |p| + |q| - 1
    ensures Meet(p, q)[|p| - 1] == p[|p| - 1] + q[0]
  {
  }

  /** The row of a point, seen from the text before and after it. */
  lemma RowsAround(s: string, o: int)
    requires 0 <= o <= |s|
    ensures |Rows(s)| == PointAt(s, o).row + |Rows(s[o..])|
    ensures LineLen(s, PointAt(s, o).row) == PointAt(s, o).column + |Rows(s[o..])[0]|
  {
    hide Rows, Meet;
    assert s[..o] + s[o..] == s;
    RowsConcat(s[..o], s[o..]);
    MeetShape(Rows(s[..o]), Rows(s[o..]));
  }

  lemma RowCount(x: string, y: string)
    ensures |Rows(x + y)| == |Rows(x)| + |Rows(y)| - 1
  {
    RowsConcat(x, y);
  }

  lemma FirstRowEmpty(s: string)
    ensures Rows(s)[0] == "" <==> s == "" || s[0] == '\n'
    ensures |Rows(s)| == 1 && Rows(s)[0] == "" ==> s == ""
    ensures s != "" && s[0] == '\n' ==> |Rows(s)| > 1
  {
  }

  /** A point is at the end of its line exactly when a line feed or nothing follows. */
  lemma LineEnd(s: string, o: int)
    requires 0 <= o <= |s|
    ensures PointAt(s, o).column == LineLen(s, PointAt(s, o).row) <==> (o == |s| || s[o] == '\n')
    ensures PointAt(s, o) == MaxPoint(s) <==> o == |s|
  {
    hide Rows, LineLen;
    RowsAround(s, o);
    FirstRowEmpty(s[o..]);
    if PointAt(s, o) == MaxPoint(s) {
      RowOffset(s, o);
      RowOffset(s, |s|);
    }
  }

  // ------------------------------------------------------------------ lifting one edit

  /** `point_to_row_edit`. */
  function PointToRowEdit(e: PointEdit, oldText: string, newText: string): Edit {
    var x := PointToOffset(newText, e.now.start);
    if e.was.start.column == LineLen(oldText, e.was.start.row)
       && x < |newText| && newText[x] == '\n'
       && e.was.start != MaxPoint(oldText)
    then
      Edit(Range(e.was.start.row + 1, e.was.end.row + 1), Range(e.now.start.row + 1, e.now.end.row + 1))
    else if e.was.start.column == 0 && e.was.end.column == 0 && e.now.end.column == 0 then
      Edit(Range(e.was.start.row, e.was.end.row), Range(e.now.start.row, e.now.end.row))
    else
      Edit(Range(e.was.start.row, e.was.end.row + 1), Range(e.now.start.row, e.now.end.row + 1))
  }

  ghost predicate InBounds(c: Edit, s: string, t: string) {
    0 <= c.was.start <= c.was.end <= |s| && 0 <= c.now.start <= c.now.end <= |t|
  }

  /** A character edit as the buffer reports it. */
  function AtPoints(c: Edit, s: string, t: string): PointEdit
    requires InBounds(c, s, t)
  {
    PointEdit(PointRange(PointAt(s, c.was.start), PointAt(s, c.was.end)),
              PointRange(PointAt(t, c.now.start), PointAt(t, c.now.end)))
  }

  function Lift(c: Edit, s: string, t: string): Edit
    requires InBounds(c, s, t)
  {
    PointToRowEdit(AtPoints(c, s, t), s, t)
  }

  // ------------------------------------------------------------------ kept text keeps its rows

  /** A row boundary at the start of kept text: the row after the edited one, or the row that
      starts there on both sides. */
  ghost predicate EndsAt(oe: int, ne: int, x: string, x': string) {
    var p, p' := Rows(x), Rows(x');
    (oe == |p| && ne == |p'|) || (oe == |p| - 1 && ne == |p'| - 1 && p[|p| - 1] == "" && p'[|p'| - 1] == "")
  }

  /** A row boundary at the end of kept text: the row the edit starts in, or the next one when the
      line ends there on both sides. `k` is the kept text and `y`, `y'` what follows it. */
  ghost predicate StartsAt(os: int, ns: int, x: string, x': string, k: string, y: string, y': string) {
    var (o, n) := (|Rows(x)| + |Rows(k)| - 2, |Rows(x')| + |Rows(k)| - 2);
    (os == o && ns == n) || (os == o + 1 && ns == n + 1 && Rows(y)[0] == "" && Rows(y')[0] == "")
  }

  /** The rows of three texts put one after the other. */
  lemma RowsOfThree(x: string, k: string, y: string)
    ensures Rows(x + k + y) == Meet(Meet(Rows(x), Rows(k)), Rows(y))
  {
    RowsConcat(x, k);
    RowsConcat(x + k, y);
  }

  lemma MeetRow(p: seq<Row>, k: seq<Row>, q: seq<Row>, m: int)
    requires p != [] && k != [] && q != [] && 0 <= m < |k|
    ensures |Meet(Meet(p, k), q)| == |p| + |k| + |q| - 2
    ensures Meet(Meet(p, k), q)[|p| - 1 + m]
            == (if m == 0 then p[|p| - 1] else "") + k[m] + (if m == |k| - 1 then q[0] else "")
  {
    var pk := Meet(p, k);
    assert |pk| == |p| + |k| - 1;
    assert pk[|p| - 1 + m] == (if m == 0 then p[|p| - 1] else "") + k[m] by {
      if m > 0 {
        assert pk[|p| - 1 + m] == k[1..][m - 1];
        assert "" + k[m] == k[m];
      }
    }
    if m < |k| - 1 {
      assert Meet(pk, q)[|p| - 1 + m] == pk[..|pk| - 1][|p| - 1 + m];
      assert pk[|p| - 1 + m] + "" == pk[|p| - 1 + m];
    }
  }

  /** Rows between two boundaries of the same kept text are the same in both texts. */
  lemma KeptRows(x: string, x': string, k: string, y: string, y': string, oe: int, ne: int, os: int, ns: int)
    requires EndsAt(oe, ne, x, x') && StartsAt(os, ns, x, x', k, y, y')
    ensures os - oe == ns - ne >= -1
    ensures os <= |Rows(x + k + y)| && ns <= |Rows(x' + k + y')|
    ensures oe <= os ==> Rows(x + k + y)[oe..os] == Rows(x' + k + y')[ne..ns]
  {
    hide Rows;
    RowsOfThree(x, k, y);
    RowsOfThree(x', k, y');
    MeetRow(Rows(x), Rows(k), Rows(y), 0);
    MeetRow(Rows(x'), Rows(k), Rows(y'), 0);
    if oe <= os {
      KeptRowsEqual(Rows(x), Rows(x'), Rows(k), Rows(y), Rows(y'), oe, ne, os, ns);
    }
  }

  lemma KeptRowsEqual(p: seq<Row>, p': seq<Row>, k: seq<Row>, q: seq<Row>, q': seq<Row>, oe: int, ne: int, os: int,
                      ns: int)
    requires p != [] && p' != [] && k != [] && q != [] && q' != []
    requires (oe == |p| && ne == |p'|) || (oe == |p| - 1 && ne == |p'| - 1 && p[|p| - 1] == "" && p'[|p'| - 1] == "")
    requires var (o, n) := (|p| + |k| - 2, |p'| + |k| - 2);
             (os == o && ns == n) || (os == o + 1 && ns == n + 1 && q[0] == "" && q'[0] == "")
    requires oe <= os
    ensures os <= |Meet(Meet(p, k), q)| && ns <= |Meet(Meet(p', k), q')| && ne <= ns
    ensures Meet(Meet(p, k), q)[oe..os] == Meet(Meet(p', k), q')[ne..ns]
  {
    var a, b := Meet(Meet(p, k), q), Meet(Meet(p', k), q');
    assert |a| == |p| + |k| + |q| - 2 && |b| == |p'| + |k| + |q'| - 2;
    hide Meet;
    forall i | 0 <= i < os - oe
      ensures a[oe..os][i] == b[ne..ns][i]
    {
      var m := oe + i - (|p| - 1);
      MeetRow(p, k, q, m);
      MeetRow(p', k, q', m);
    }
  }

  // ------------------------------------------------------------------ the boundaries of a lifted edit

  ghost predicate NonEmpty(c: Edit) {
    c.was.start < c.was.end || c.now.start < c.now.end
  }

  /** The rows a lifted edit ends at are a boundary after the edit. */
  lemma LiftEnds(c: Edit, s: string, t: string)
    requires InBounds(c, s, t)
    ensures EndsAt(Lift(c, s, t).was.end, Lift(c, s, t).now.end, s[..c.was.end], t[..c.now.end])
  {
    hide Rows;
  }

  /** The rows a lifted edit starts at are a boundary before the edit and rows that exist. */
  lemma LiftStarts(c: Edit, s: string, t: string, x: string, x': string, k: string)
    requires InBounds(c, s, t)
    requires x + k == s[..c.was.start] && x' + k == t[..c.now.start]
    ensures StartsAt(Lift(c, s, t).was.start, Lift(c, s, t).now.start, x, x', k, s[c.was.start..], t[c.now.start..])
    ensures 0 <= Lift(c, s, t).was.start < |Rows(s)|
    ensures 0 <= Lift(c, s, t).now.start < |Rows(t)|
  {
    hide Rows, Offset, LineLen, MaxPoint, PointToOffset;
    RowCount(x, k);
    RowCount(x', k);
    RowsAround(s, c.was.start);
    RowsAround(t, c.now.start);
    LineEnd(s, c.was.start);
    PointRoundTrip(t, c.now.start);
    FirstRowEmpty(s[c.was.start..]);
    FirstRowEmpty(t[c.now.start..]);
  }

  lemma {:induction false} OneRow(k: string)
    requires |Rows(k)| == 1
    ensures Rows(k)[0] == k
  {
    if k != "" {
      OneRow(k[1..]);
      assert k == [k[0]] + k[1..];
    }
  }

  /** Kept text that ends at the start of a line, if it is not empty, holds a line feed. */
  lemma KeptBreak(x: string, k: string)
    requires k != "" && PointAt(x + k, |x + k|).column == 0
    ensures |Rows(k)| > 1
  {
    hide Rows, Meet;
    assert (x + k)[..|x + k|] == x + k;
    RowsConcat(x, k);
    MeetShape(Rows(x), Rows(k));
    if |Rows(k)| == 1 {
      OneRow(k);
    }
  }

  /** A lifted edit ends no earlier than it starts, and no earlier than a boundary strictly before
      the edit. */
  lemma LiftGrows(c: Edit, s: string, t: string, x: string, x': string, k: string, oe: int, ne: int)
    requires InBounds(c, s, t)
    requires x + k == s[..c.was.start] && x' + k == t[..c.now.start]
    requires EndsAt(oe, ne, x, x')
    ensures var e := Lift(c, s, t); e.was.start <= e.was.end && e.now.start <= e.now.end
    ensures k != "" ==> oe <= Lift(c, s, t).was.end && ne <= Lift(c, s, t).now.end
  {
    hide Rows, Offset, LineLen, MaxPoint, PointToOffset;
    RowCount(x, k);
    RowCount(x', k);
    RowGrows(s, c.was.start, c.was.end);
    RowGrows(t, c.now.start, c.now.end);
    if k != "" && PointAt(s, c.was.start).column == 0 {
      assert (x + k)[..|x + k|] == s[..c.was.start];
      KeptBreak(x, k);
    }
  }

  lemma RowGrows(s: string, o: int, o': int)
    requires 0 <= o <= o' <= |s|
    ensures PointAt(s, o).row <= PointAt(s, o').row
  {
    assert s[..o'] == s[..o] + s[o..o'];
    RowCount(s[..o], s[o..o']);
  }

  // ------------------------------------------------------------------ joining lifted edits

  /** The joining loop of `diff_snapshots`: an edit whose old rows reach the next one takes over its
      ends. */
  function CoalesceFrom(cur: Edit, rest: seq<Edit>): seq<Edit>
    decreases rest
  {
    if rest == [] then [cur]
    else if cur.was.end >= rest[0].was.start then CoalesceFrom(Extend(cur, rest[0]), rest[1..])
    else [cur] + CoalesceFrom(rest[0], rest[1..])
  }

  function Extend(cur: Edit, next: Edit): Edit {
    Edit(Range(cur.was.start, next.was.end), Range(cur.now.start, next.now.end))
  }

  function Coalesce(l: seq<Edit>): seq<Edit> {
    if l == [] then [] else CoalesceFrom(l[0], l[1..])
  }

  ghost predicate AllInBounds(cs: seq<Edit>, s: string, t: string) {
    forall c :: c in cs ==> InBounds(c, s, t)
  }

  function LiftAll(cs: seq<Edit>, s: string, t: string): (r: seq<Edit>)
    requires AllInBounds(cs, s, t)
    ensures |r| == |cs| && forall n :: 0 <= n < |cs| ==> r[n] == Lift(cs[n], s, t)
  {
    hide Lift;
    if cs == [] then [] else [Lift(cs[0], s, t)] + LiftAll(cs[1..], s, t)
  }

  /** What a row edit needs to know about the character edits joined into it: where it starts, and
      that it ends at a boundary of the text kept from offsets `i` and `j` on. */
  ghost predicate Open(cur: Edit, s: string, t: string, i: int, j: int) {
    && 0 <= i <= |s| && 0 <= j <= |t|
    && 0 <= cur.was.start <= cur.was.end && 0 <= cur.now.start <= cur.now.end
    && cur.was.start < |Rows(s)| && cur.now.start < |Rows(t)|
    && EndsAt(cur.was.end, cur.now.end, s[..i], t[..j])
  }

  /** The kept text up to the next character edit. */
  lemma KeptUpTo(s: string, t: string, i: int, j: int, i': int, j': int, oe: int, ne: int, os: int, ns: int)
    requires 0 <= i <= i' <= |s| && 0 <= j <= j' <= |t| && s[i..i'] == t[j..j']
    requires EndsAt(oe, ne, s[..i], t[..j])
    requires StartsAt(os, ns, s[..i], t[..j], s[i..i'], s[i'..], t[j'..])
    ensures os - oe == ns - ne >= -1 && os <= |Rows(s)| && ns <= |Rows(t)|
    ensures oe <= os ==> Rows(s)[oe..os] == Rows(t)[ne..ns]
  {
    hide Rows, EndsAt, StartsAt;
    var k := s[i..i'];
    assert s == s[..i] + k + s[i'..];
    assert t == t[..j] + k + t[j'..];
    KeptRows(s[..i], t[..j], k, s[i'..], t[j'..], oe, ne, os, ns);
  }

  /** One character edit after the text kept from `i` and `j` on. */
  lemma LiftNext(c: Edit, s: string, t: string, i: int, j: int, oe: int, ne: int)
    requires InBounds(c, s, t) && 0 <= i <= c.was.start && 0 <= j <= c.now.start
    requires s[i..c.was.start] == t[j..c.now.start]
    requires EndsAt(oe, ne, s[..i], t[..j])
    ensures var e := Lift(c, s, t);
            && Open(e, s, t, c.was.end, c.now.end)
            && e.was.start - oe == e.now.start - ne >= -1
            && (oe <= e.was.start ==> Rows(s)[oe..e.was.start] == Rows(t)[ne..e.now.start])
            && (i < c.was.start ==> oe <= e.was.end && ne <= e.now.end)
  {
    hide Rows, Lift, EndsAt, StartsAt;
    var k := s[i..c.was.start];
    assert s[..i] + k == s[..c.was.start];
    assert t[..j] + k == t[..c.now.start];
    var e := Lift(c, s, t);
    LiftEnds(c, s, t);
    LiftStarts(c, s, t, s[..i], t[..j], k);
    LiftGrows(c, s, t, s[..i], t[..j], k, oe, ne);
    KeptUpTo(s, t, i, j, c.was.start, c.now.start, oe, ne, e.was.start, e.now.start);
  }

  /** Nothing follows the kept text: both texts have the same rows to the end. */
  lemma LiftTail(s: string, t: string, i: int, j: int, oe: int, ne: int)
    requires 0 <= i <= |s| && 0 <= j <= |t| && s[i..] == t[j..]
    requires EndsAt(oe, ne, s[..i], t[..j])
    ensures oe <= |Rows(s)| && ne <= |Rows(t)| && Rows(s)[oe..] == Rows(t)[ne..]
  {
    LiftTailRows(s, t, i, j, oe, ne);
    hide *;
    ToEnd(Rows(s), oe);
    ToEnd(Rows(t), ne);
  }

  lemma LiftTailRows(s: string, t: string, i: int, j: int, oe: int, ne: int)
    requires 0 <= i <= |s| && 0 <= j <= |t| && s[i..] == t[j..]
    requires EndsAt(oe, ne, s[..i], t[..j])
    ensures 0 <= oe <= |Rows(s)| && 0 <= ne <= |Rows(t)|
    ensures Rows(s)[oe..|Rows(s)|] == Rows(t)[ne..|Rows(t)|]
  {
    EndStarts(s, t, i, j);
    assert 0 <= oe <= |Rows(s[..i])| && 0 <= ne <= |Rows(t[..j])|;
    hide Rows, EndsAt, StartsAt;
    RestOf(s, i);
    RestOf(t, j);
    KeptUpTo(s, t, i, j, |s|, |t|, oe, ne, |Rows(s)|, |Rows(t)|);
  }

  /** The end of both texts is a boundary. */
  lemma EndStarts(s: string, t: string, i: int, j: int)
    requires 0 <= i <= |s| && 0 <= j <= |t| && s[i..] == t[j..]
    ensures StartsAt(|Rows(s)|, |Rows(t)|, s[..i], t[..j], s[i..|s|], s[|s|..], t[|t|..])
  {
    hide Rows;
    EmptyStart(s);
    assert s[|s|..] == "" && t[|t|..] == "";
    RestOf(s, i);
    RestOf(t, j);
  }

  lemma RestOf(s: string, i: int)
    requires 0 <= i <= |s|
    ensures s[i..|s|] == s[i..] && |Rows(s)| == |Rows(s[..i])| + |Rows(s[i..])| - 1
  {
    assert s[..i] + s[i..] == s;
    RowCount(s[..i], s[i..]);
  }

  /** `r` is a proper row patch from the edit `cur` on. */
  ghost predicate RowPatchFrom(r: seq<Edit>, s: string, t: string, cur: Edit) {
    && r != [] && r[0].was.start == cur.was.start && r[0].now.start == cur.now.start
    && Aligned(r, Rows(s), Rows(t), cur.was.start, cur.now.start)
    && InOrder(r)
    && RealStarts(r, Rows(s), Rows(t))
  }

  lemma LastEdit(cur: Edit, s: string, t: string, i: int, j: int)
    requires Open(cur, s, t, i, j) && s[i..] == t[j..]
    ensures RowPatchFrom([cur], s, t, cur)
  {
    LiftTail(s, t, i, j, cur.was.end, cur.now.end);
    var a, b := Rows(s), Rows(t);
    hide Rows, EndsAt;
    assert Aligned([], a, b, cur.was.end, cur.now.end);
    Prepend(cur, [], a, b, cur.was.start, cur.now.start);
    assert [cur] + [] == [cur];
    assert InOrder([cur]) by {
      assert [cur][1..] == [];
      assert InOrder([cur][1..]);
    }
    assert RealStarts([cur], a, b);
  }

  lemma ConsEdit(cur: Edit, r: seq<Edit>, s: string, t: string, i: int, j: int, next: Edit)
    requires Open(cur, s, t, i, j) && RowPatchFrom(r, s, t, next)
    requires cur.was.end < next.was.start && next.was.start - cur.was.end == next.now.start - cur.now.end
    requires next.was.start <= |Rows(s)| && next.now.start <= |Rows(t)|
    requires Rows(s)[cur.was.end..next.was.start] == Rows(t)[cur.now.end..next.now.start]
    ensures RowPatchFrom([cur] + r, s, t, cur)
  {
    hide Rows, EndsAt, Aligned, InOrder;
    var a, b := Rows(s), Rows(t);
    Widen(r, a, b, cur.was.end, cur.now.end, next.was.start, next.now.start);
    Prepend(cur, r, a, b, cur.was.start, cur.now.start);
    ConsInOrder(cur, r);
  }

  lemma ConsInOrder(e: Edit, r: seq<Edit>)
    requires r != [] && InOrder(r) && e.was.start <= e.was.end && e.now.start <= e.now.end
    requires e.was.end < r[0].was.start && e.now.end < r[0].now.start
    ensures InOrder([e] + r)
  {
    assert ([e] + r)[1..] == r;
  }

  lemma {:induction false} LiftFrom(cs: seq<Edit>, s: string, t: string, i: int, j: int, cur: Edit)
    requires Aligned(cs, s, t, i, j) && InOrder(cs) && AllInBounds(cs, s, t)
    requires cs != [] ==> i < cs[0].was.start
    requires Open(cur, s, t, i, j)
    ensures RowPatchFrom(CoalesceFrom(cur, LiftAll(cs, s, t)), s, t, cur)
    decreases cs
  {
    hide Rows, EndsAt, Lift, RowPatchFrom;
    if cs == [] {
      LastEdit(cur, s, t, i, j);
    } else {
      var c := cs[0];
      var e := Lift(c, s, t);
      LiftNext(c, s, t, i, j, cur.was.end, cur.now.end);
      var rest := LiftAll(cs[1..], s, t);
      assert LiftAll(cs, s, t)[0] == e && LiftAll(cs, s, t)[1..] == rest;
      if cs[1..] != [] {
        assert cs[1..][0] == cs[1];
      }
      hide Aligned;
      if cur.was.end >= e.was.start {
        LiftFrom(cs[1..], s, t, c.was.end, c.now.end, Extend(cur, e));
        SameStart(CoalesceFrom(Extend(cur, e), rest), s, t, Extend(cur, e), cur);
      } else {
        LiftFrom(cs[1..], s, t, c.was.end, c.now.end, e);
        ConsEdit(cur, CoalesceFrom(e, rest), s, t, i, j, e);
      }
    }
  }

  lemma SameStart(r: seq<Edit>, s: string, t: string, e: Edit, e': Edit)
    requires RowPatchFrom(r, s, t, e)
    requires e.was.start == e'.was.start && e.now.start == e'.now.start
    ensures RowPatchFrom(r, s, t, e')
  {
  }

  /** Lifting is sound: for any two texts and any separated character edits between them, lifting
      every edit and joining the results gives a separated row patch between the rows of the two
      texts whose edits all start at real rows. */
  lemma LiftLeads(cs: seq<Edit>, s: string, t: string)
    requires Leads(cs, s, t) && Separated(cs)
    ensures AllInBounds(cs, s, t)
    ensures var p := Coalesce(LiftAll(cs, s, t));
            Leads(p, Rows(s), Rows(t)) && Separated(p) && RealStarts(p, Rows(s), Rows(t))
  {
    forall c | c in cs
      ensures InBounds(c, s, t)
    {
      var n :| 0 <= n < |cs| && cs[n] == c;
      AfterFrontier(cs, s, t, 0, 0, n);
    }
    AlignedInOrder(cs, s, t, 0, 0);
    if cs == [] {
      assert s == s[0..] == t[0..] == t;
    } else {
      LiftFirst(cs, s, t);
    }
  }

  lemma LiftFirst(cs: seq<Edit>, s: string, t: string)
    requires cs != [] && Aligned(cs, s, t, 0, 0) && InOrder(cs) && AllInBounds(cs, s, t)
    ensures var p := Coalesce(LiftAll(cs, s, t));
            Leads(p, Rows(s), Rows(t)) && Separated(p) && RealStarts(p, Rows(s), Rows(t))
  {
    var c := cs[0];
    assert s[..0] == "" && t[..0] == "";
    EmptyStart(s);
    assert EndsAt(0, 0, s[..0], t[..0]);
    assert c in cs;
    hide Rows, EndsAt, Lift;
    var e := Lift(c, s, t);
    LiftNext(c, s, t, 0, 0, 0, 0);
    if cs[1..] != [] {
      assert cs[1..][0] == cs[1];
    }
    LiftFrom(cs[1..], s, t, c.was.end, c.now.end, e);
    var l := LiftAll(cs, s, t);
    assert l[0] == e && l[1..] == LiftAll(cs[1..], s, t);
    var p := CoalesceFrom(e, l[1..]);
    hide Aligned;
    Widen(p, Rows(s), Rows(t), 0, 0, e.was.start, e.now.start);
    InOrderSeparated(p);
  }

  // ------------------------------------------------------------------ the two loops

  function RowEdits(es: seq<PointEdit>, s: string, t: string): (r: seq<Edit>)
    ensures |r| == |es| && forall n :: 0 <= n < |es| ==> r[n] == PointToRowEdit(es[n], s, t)
  {
    seq(|es|, n requires 0 <= n < |es| => PointToRowEdit(es[n], s, t))
  }

  /** The edits between two texts, as points: what `edits_since` and the hunks of a diff report. */
  function AllAtPoints(cs: seq<Edit>, s: string, t: string): (r: seq<PointEdit>)
    requires AllInBounds(cs, s, t)
    ensures |r| == |cs| && forall n :: 0 <= n < |cs| ==> r[n] == AtPoints(cs[n], s, t)
  {
    seq(|cs|, n requires 0 <= n < |cs| => AtPoints(cs[n], s, t))
  }

  lemma RowEditsLift(cs: seq<Edit>, s: string, t: string)
    requires AllInBounds(cs, s, t)
    ensures RowEdits(AllAtPoints(cs, s, t), s, t) == LiftAll(cs, s, t)
  {
  }

  lemma CoalesceAt(l: seq<Edit>, n: int, cur: Edit)
    requires 0 <= n <= |l|
    ensures n < |l| ==> Coalesce(l[n..]) == CoalesceFrom(l[n], l[n + 1..])
    ensures n < |l| && cur.was.end >= l[n].was.start ==>
            CoalesceFrom(cur, l[n..]) == CoalesceFrom(Extend(cur, l[n]), l[n + 1..])
    ensures n == |l| || cur.was.end < l[n].was.start ==> CoalesceFrom(cur, l[n..]) == [cur] + Coalesce(l[n..])
  {
    if n < |l| {
      assert l[n..][0] == l[n] && l[n..][1..] == l[n + 1..];
    }
  }

  /** The loops of `diff_snapshots` have made `done` of the first `n` lifted edits. */
  ghost predicate Joined(l: seq<Edit>, n: int, done: seq<Edit>) {
    0 <= n <= |l| && Coalesce(l) == done + Coalesce(l[n..])
  }

  /** The same while `cur` may still grow. */
  ghost predicate Joining(l: seq<Edit>, n: int, done: seq<Edit>, cur: Edit) {
    0 <= n <= |l| && Coalesce(l) == done + CoalesceFrom(cur, l[n..])
  }

  lemma JoinedSteps(l: seq<Edit>, n: int, done: seq<Edit>)
    ensures Joined(l, 0, [])
    ensures Joined(l, n, done) && n == |l| ==> done == Coalesce(l)
    ensures Joined(l, n, done) && n < |l| ==> Joining(l, n + 1, done, l[n])
  {
    AllOut(l);
    if 0 <= n < |l| {
      CoalesceAt(l, n, l[n]);
    }
  }

  lemma JoiningSteps(l: seq<Edit>, n: int, done: seq<Edit>, cur: Edit)
    requires Joining(l, n, done, cur)
    ensures n < |l| && cur.was.end >= l[n].was.start ==> Joining(l, n + 1, done, Extend(cur, l[n]))
    ensures n == |l| || cur.was.end < l[n].was.start ==> Joined(l, n, done + [cur])
  {
    hide Coalesce, CoalesceFrom;
    CoalesceAt(l, n, cur);
    Assoc(done, [cur], Coalesce(l[n..]));
  }

  lemma LiftedAt(es: seq<PointEdit>, s: string, t: string, n: int)
    requires 0 <= n < |es|
    ensures |RowEdits(es, s, t)| == |es| && RowEdits(es, s, t)[n] == PointToRowEdit(es[n], s, t)
  {
  }

  /** `diff_snapshots`: lifts the edits one by one and joins those whose rows meet. */
  method DiffSnapshots(edits: seq<PointEdit>, oldText: string, newText: string) returns (rowEdits: seq<Edit>)
    ensures rowEdits == Coalesce(RowEdits(edits, oldText, newText))
  {
    hide *;
    ghost var l := RowEdits(edits, oldText, newText);
    rowEdits := [];
    var n := 0;
    JoinedSteps(l, n, rowEdits);
    while n < |edits|
      invariant 0 <= n <= |edits| && Joined(l, n, rowEdits)
    {
      var edit := PointToRowEdit(edits[n], oldText, newText);
      LiftedAt(edits, oldText, newText, n);
      JoinedSteps(l, n, rowEdits);
      n := n + 1;
      while n < |edits|
        invariant 0 <= n <= |edits| && Joining(l, n, rowEdits, edit)
      {
        var next := PointToRowEdit(edits[n], oldText, newText);
        LiftedAt(edits, oldText, newText, n);
        JoiningSteps(l, n, rowEdits, edit);
        if edit.was.end >= next.was.start {
          edit := Extend(edit, next);
          n := n + 1;
        } else {
          break;
        }
      }
      JoiningSteps(l, n, rowEdits, edit);
      rowEdits := rowEdits + [edit];
    }
    JoinedSteps(l, n, rowEdits);
  }

  /** `Patch::push`. */
  function Push(p: seq<Edit>, e: Edit): seq<Edit> {
    if e.IsEmpty() then p
    else if p != [] && p[|p| - 1].was.end >= e.was.start then p[..|p| - 1] + [Extend(p[|p| - 1], e)]
    else p + [e]
  }

  /** The loop of `update_diff` that collects the hunks of a diff into a patch. */
  method CollectHunks(hunks: seq<PointEdit>, base: string, text: string) returns (p: seq<Edit>)
    requires forall e :: e in RowEdits(hunks, base, text) ==> !e.IsEmpty()
    ensures p == Coalesce(RowEdits(hunks, base, text))
  {
    ghost var l := RowEdits(hunks, base, text);
    p := [];
    for n := 0 to |hunks|
      invariant p == [] <==> n == 0
      invariant p != [] ==> Coalesce(l) == p[..|p| - 1] + CoalesceFrom(p[|p| - 1], l[n..])
    {
      var e := PointToRowEdit(hunks[n], base, text);
      assert l[n] == e && l[n] in l;
      assert n == 0 ==> l[n..] == l;
      assert l[n..][0] == e && l[n..][1..] == l[n + 1..];
      p := Push(p, e);
    }
  }

  /** Lifting a character edit that changes something gives a row edit that changes something. */
  lemma LiftNonEmpty(c: Edit, s: string, t: string)
    requires InBounds(c, s, t) && NonEmpty(c)
    ensures !Lift(c, s, t).IsEmpty()
  {
    hide Rows, Offset, LineLen, MaxPoint, PointToOffset;
    RowGrows(s, c.was.start, c.was.end);
    RowGrows(t, c.now.start, c.now.end);
    LineEnd(s, c.was.start);
    PointRoundTrip(t, c.now.start);
    SameRowColumn(s, c.was.start, c.was.end);
    SameRowColumn(t, c.now.start, c.now.end);
  }

  /** Between two points of the same row there is no line feed, and only the column grows. */
  lemma SameRowColumn(s: string, o: int, o': int)
    requires 0 <= o <= o' <= |s|
    ensures PointAt(s, o).row == PointAt(s, o').row ==> PointAt(s, o').column == PointAt(s, o).column + (o' - o)
    ensures PointAt(s, o).row == PointAt(s, o').row && o < o' ==> s[o] != '\n'
  {
    var k := s[o..o'];
    assert s[..o'] == s[..o] + k;
    RowsConcat(s[..o], k);
    MeetShape(Rows(s[..o]), Rows(k));
    if |Rows(k)| == 1 {
      OneRow(k);
      FirstRowEmpty(k);
    }
  }
}
