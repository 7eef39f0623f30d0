/** What the log makes of a rejection.

    A rejection edits the buffer, and the log learns of it as of any user edit: the replaced
    characters are lifted to rows and joined, and what conflicts with no unreviewed edit is carried
    over to the base. Normally each lifted edit conflicts with the edit it rejects. Next to blank rows
    it can slip past that edit; this module says exactly when, and what that does to the base. */
module Rejections {
  import opened Patches
  import opened Ropes
  import opened Rebase
  import opened RowLifting
  import opened NonConflicting
  import opened Splicing
  import opened Buffers
  import opened Review

  // ------------------------------------------------------------------ one lifted rejection

  /** The end of some rows: the start of the next row, or the end of the text. */
  function EndPoint(rows: seq<Row>, row: int): Point {
    if row < |rows| || rows == [] then Point(row, 0) else Point(|rows| - 1, |rows[|rows| - 1]|)
  }

  /** Both sides of the edit start with a blank row that is not the last one. */
  predicate Shifted(u: Edit, a: seq<Row>, b: seq<Row>) {
    && 0 <= u.was.start < |a| - 1 && 0 <= u.now.start < |b| - 1
    && a[u.was.start] == "" && b[u.now.start] == ""
  }

  /** The rejection slips past the edit it rejects: next to a blank row it is taken for an insertion
      further down, or, at a blank last row, for one further up. */
  predicate Slips(u: Edit, a: seq<Row>, b: seq<Row>) {
    if u.now.start < |b| - 1 then u.now.end <= u.now.start + 1 && Shifted(u, a, b)
    else u.now.end == |b| && a != [] && b != [] && b[|b| - 1] == "" && a[|a| - 1] == ""
  }

  /** The row edit that is made of replacing the new rows of `v` in `b` by its old rows in `t`. */
  function LiftedRejection(v: Edit, t: seq<Row>, b: seq<Row>): Edit {
    var (oe, ne) := (EndPoint(b, v.now.end), EndPoint(t, v.was.end));
    if Shifted(v, t, b) then
      Edit(Range(v.now.start + 1, oe.row + 1), Range(v.was.start + 1, ne.row + 1))
    else if oe.column == 0 && ne.column == 0 then
      Edit(Range(v.now.start, oe.row), Range(v.was.start, ne.row))
    else
      Edit(Range(v.now.start, oe.row + 1), Range(v.was.start, ne.row + 1))
  }

  /** An edit in bounds that starts at real rows and reaches both ends or neither. */
  ghost predicate RealEdit(v: Edit, t: seq<Row>, b: seq<Row>) {
    && 0 <= v.was.start <= v.was.end <= |t| && v.was.start < |t|
    && 0 <= v.now.start <= v.now.end <= |b| && v.now.start < |b|
    && (v.was.end == |t| <==> v.now.end == |b|)
  }

  /** The shape of a lifted rejection. */
  lemma LiftedShape(v: Edit, t: seq<Row>, b: seq<Row>)
    requires RealEdit(v, t, b)
    ensures var e := LiftedRejection(v, t, b);
            && v.now.start <= e.was.start <= e.was.end <= v.now.end + 1
            && v.was.start <= e.now.start <= e.now.end <= |t|
            && (e.was.end == v.now.end + 1 ==> Shifted(v, t, b) && v.now.end < |b|)
            && (Shifted(v, t, b) && v.now.end < |b| ==>
                  e == Edit(Range(v.now.start + 1, v.now.end + 1), Range(v.was.start + 1, v.was.end + 1)))
            && (!Shifted(v, t, b) ==> e.was.start == v.now.start && e.now.start == v.was.start)
            && (Shifted(v, t, b) ==> e.was.start == v.now.start + 1)
            && (Slips(v, t, b) ==>
                  if v.now.start < |b| - 1 then v.now.end < |b| && Shifted(v, t, b)
                  else e == Edit(Range(v.now.start, v.now.start), Range(v.was.start, v.was.end - 1))
                       && v.now.end == |b| && v.now.start == |b| - 1)
  {
  }

  /** It conflicts with the edit it rejects unless it slips past it. */
  lemma ConflictUnlessSlips(v: Edit, t: seq<Row>, b: seq<Row>)
    requires RealEdit(v, t, b)
    ensures var e := LiftedRejection(v, t, b);
            && (Conflict(e, v) <==> !Slips(v, t, b))
            && (Slips(v, t, b) ==>
                if v.now.start < |b| - 1 then After(e, v) && !Before(e, v) else Before(e, v) && !After(e, v))
  {
  }

  // ------------------------------------------------------------------ a patch and what is kept of it

  /** From frontier `i`, `j` on, `p` leads from `a` to `b`, and `t` is what remains when the edits not
      in `kept` are rejected; `d` is the distance from base rows to rows of `t`. */
  ghost predicate Facing(p: seq<Edit>, kept: seq<bool>, a: seq<Row>, b: seq<Row>, t: seq<Row>, i: int, j: int, d: int) {
    && Aligned(p, a, b, i, j) && InOrder(p) && RealStarts(p, a, b) && |kept| == |p|
    && 0 <= i + d <= |t| && t[i + d..] == Pick(p, a, b, kept, i)
  }

  lemma FacingStarts(p: seq<Edit>, kept: seq<bool>, a: seq<Row>, b: seq<Row>)
    requires Leads(p, a, b) && Separated(p) && RealStarts(p, a, b) && |kept| == |p|
    ensures Facing(p, kept, a, b, Pick(p, a, b, kept, 0), 0, 0, 0)
  {
    AlignedInOrder(p, a, b, 0, 0);
    AllOut(Pick(p, a, b, kept, 0));
    hide Aligned, InOrder, Pick;
  }

  lemma FacingTail(p: seq<Edit>, kept: seq<bool>, a: seq<Row>, b: seq<Row>, t: seq<Row>, i: int, j: int, d: int)
    requires Facing(p, kept, a, b, t, i, j, d) && p != []
    ensures Facing(p[1..], kept[1..], a, b, t, p[0].was.end, p[0].now.end, if kept[0] then d + p[0].Delta() else d)
  {
    HeadShape(p, a, b, i, j);
    if kept[0] {
      PickedStep(p, a, b, kept, i, j, t, d);
    } else {
      KeptStep(p, a, b, kept, i, j, t, d);
    }
    hide Aligned, Pick;
  }

  /** A chosen text continues at least up to the first row of its first edit. */
  lemma {:induction false} PickReaches(p: seq<Edit>, kept: seq<bool>, a: seq<Row>, b: seq<Row>, i: int, j: int)
    requires Aligned(p, a, b, i, j) && InOrder(p) && RealStarts(p, a, b) && |kept| == |p| && p != []
    ensures p[0].was.start - i < |Pick(p, a, b, kept, i)|
  {
    HeadShape(p, a, b, i, j);
    assert p[0] in p;
    if |p| > 1 {
      HeadShape(p[1..], a, b, p[0].was.end, p[0].now.end);
      assert p[1..][0] == p[1];
      assert |Pick(p[1..], a, b, kept[1..], p[0].was.end)| > 0;
    } else {
      assert |a[p[0].was.end..]| == |b[p[0].now.end..]|;
    }
  }

  /** What follows an edit in the chosen text: as much, up to two rows, as in the base, and the same
      first row. */
  lemma FollowedAlike(p: seq<Edit>, kept: seq<bool>, a: seq<Row>, b: seq<Row>, i: int, j: int)
    requires Aligned(p, a, b, i, j) && InOrder(p) && RealStarts(p, a, b) && |kept| == |p|
    requires p != [] ==> i < p[0].was.start
    ensures var r := Pick(p, a, b, kept, i);
            && (|r| > 1 <==> |a| - i > 1) && (r == [] <==> i == |a|) && (i < |a| ==> r != [] && r[0] == a[i])
  {
    if p != [] {
      HeadShape(p, a, b, i, j);
      PickReaches(p, kept, a, b, i, j);
      assert p[0] in p;
    }
  }

  /** The first edit, when it is rejected, seen in the base and in the text after the rejection. */
  lemma RejectedHead(p: seq<Edit>, kept: seq<bool>, a: seq<Row>, b: seq<Row>, t: seq<Row>, i: int, j: int, d: int)
    requires Facing(p, kept, a, b, t, i, j, d) && p != [] && !kept[0]
    ensures var (u, v) := (p[0], p[0].ShiftOld(d));
            && RealEdit(u, a, b) && RealEdit(v, t, b)
            && t[v.was.start..v.was.end] == a[u.was.start..u.was.end]
            && (u.was.end < |a| ==> t[v.was.end] == a[u.was.end])
            && (Shifted(v, t, b) <==> Shifted(u, a, b)) && (Slips(v, t, b) <==> Slips(u, a, b))
  {
    var u, v := p[0], p[0].ShiftOld(d);
    var rest := Pick(p[1..], a, b, kept[1..], u.was.end);
    RejectedRest(p, kept, a, b, t, i, j, d);
    hide Facing, Pick, Aligned, InOrder, RealStarts;
    assert v.now == u.now && v.was.start == u.was.start + d && v.was.end == u.was.end + d;
    SameFirstRow(u, a, t, d, rest);
    SameSlips(u, a, b, t, d);
  }

  lemma RejectedRest(p: seq<Edit>, kept: seq<bool>, a: seq<Row>, b: seq<Row>, t: seq<Row>, i: int, j: int, d: int)
    requires Facing(p, kept, a, b, t, i, j, d) && p != [] && !kept[0]
    ensures var (u, rest) := (p[0], Pick(p[1..], a, b, kept[1..], p[0].was.end));
            && RealEdit(u, a, b) && 0 <= u.was.start + d <= u.was.end + d <= |t|
            && t[u.was.start + d..u.was.end + d] == a[u.was.start..u.was.end] && t[u.was.end + d..] == rest
            && (|rest| > 1 <==> |a| - u.was.end > 1) && (rest == [] <==> u.was.end == |a|)
            && (u.was.end < |a| ==> rest != [] && rest[0] == a[u.was.end])
  {
    var u := p[0];
    assert u in p;
    HeadShape(p, a, b, i, j);
    EndsTogether(p, a, b, i, j, u);
    KeptRowsStay(p, kept, a, b, t, i, j, d);
    if |p| > 1 {
      assert p[1..][0] == p[1];
    }
    FollowedAlike(p[1..], kept[1..], a, b, u.was.end, u.now.end);
  }

  lemma KeptRowsStay(p: seq<Edit>, kept: seq<bool>, a: seq<Row>, b: seq<Row>, t: seq<Row>, i: int, j: int, d: int)
    requires Facing(p, kept, a, b, t, i, j, d) && p != [] && !kept[0]
    ensures var u := p[0];
            && 0 <= u.was.start <= u.was.end <= |a| && 0 <= u.was.start + d <= u.was.end + d <= |t|
            && t[u.was.start + d..u.was.end + d] == a[u.was.start..u.was.end]
            && t[u.was.end + d..] == Pick(p[1..], a, b, kept[1..], u.was.end)
  {
    var u := p[0];
    HeadShape(p, a, b, i, j);
    KeptStep(p, a, b, kept, i, j, t, d);
    var x, y, z := a[i..u.was.start], a[u.was.start..u.was.end], Pick(p[1..], a, b, kept[1..], u.was.end);
    assert t[i + d..] == x + y + z;
    hide Facing, Pick, Aligned, InOrder, RealStarts;
    Assoc(x, y, z);
    Unconcat(t, i + d, x, y + z);
    Unconcat(t, u.was.start + d, y, z);
  }

  lemma SameFirstRow(u: Edit, a: seq<Row>, t: seq<Row>, d: int, rest: seq<Row>)
    requires 0 <= u.was.start <= u.was.end <= |a| && u.was.start < |a|
    requires 0 <= u.was.start + d <= u.was.end + d <= |t|
    requires t[u.was.start + d..u.was.end + d] == a[u.was.start..u.was.end] && t[u.was.end + d..] == rest
    requires |rest| > 1 <==> |a| - u.was.end > 1
    requires rest == [] <==> u.was.end == |a|
    requires u.was.end < |a| ==> rest != [] && rest[0] == a[u.was.end]
    ensures u.was.start + d < |t| && t[u.was.start + d] == a[u.was.start]
    ensures u.was.start + d < |t| - 1 <==> u.was.start < |a| - 1
    ensures u.was.end + d == |t| <==> u.was.end == |a|
    ensures u.was.end < |a| ==> t[u.was.end + d] == a[u.was.end]
    ensures u.was.end == |a| ==> t[|t| - 1] == a[|a| - 1]
  {
    assert |rest| == |t| - (u.was.end + d);
    if u.was.start < u.was.end {
      assert t[u.was.start + d] == t[u.was.start + d..u.was.end + d][0] == a[u.was.start..u.was.end][0];
      var n := u.was.end - u.was.start - 1;
      assert t[u.was.end + d - 1] == t[u.was.start + d..u.was.end + d][n] == a[u.was.start..u.was.end][n];
    }
    if u.was.end < |a| {
      assert t[u.was.end + d] == t[u.was.end + d..][0];
    }
  }

  lemma SameSlips(u: Edit, a: seq<Row>, b: seq<Row>, t: seq<Row>, d: int)
    requires RealEdit(u, a, b) && 0 <= u.was.start + d < |t| && u.was.end + d <= |t|
    requires t[u.was.start + d] == a[u.was.start]
    requires u.was.start + d < |t| - 1 <==> u.was.start < |a| - 1
    requires u.was.end + d == |t| <==> u.was.end == |a|
    requires u.was.end == |a| ==> t[|t| - 1] == a[|a| - 1]
    ensures RealEdit(u.ShiftOld(d), t, b)
    ensures Shifted(u.ShiftOld(d), t, b) <==> Shifted(u, a, b)
    ensures Slips(u.ShiftOld(d), t, b) <==> Slips(u, a, b)
  {
  }

  // ------------------------------------------------------------------ all lifted rejections

  function LiftedRejections(q: seq<Edit>, t: seq<Row>, b: seq<Row>): (r: seq<Edit>)
    ensures |r| == |q|
  {
    if q == [] then [] else [LiftedRejection(q[0], t, b)] + LiftedRejections(q[1..], t, b)
  }

  /** A rejection of `p[0]` that slips is caught when it also reaches a deletion one row further
      down, or is joined with the rejection of an edit there that does not slip. */
  predicate CaughtByNext(p: seq<Edit>, kept: seq<bool>, a: seq<Row>, b: seq<Row>)
    requires |kept| == |p|
  {
    |p| > 1 && p[1].now.start == p[0].now.end + 1
    && (p[1].now.IsEmpty() || (!kept[1] && !Shifted(p[1], a, b) && !Slips(p[1], a, b)))
  }

  /** The rejection of `p[0]` does not slip but reaches one row further down, where it catches the
      rejection of `p[1]` unless that is shifted. */
  predicate CatchesNext(p: seq<Edit>, kept: seq<bool>, a: seq<Row>, b: seq<Row>)
    requires |kept| == |p| > 0
  {
    |p| > 1 && p[1].now.start == p[0].now.end + 1 && !kept[0] && Shifted(p[0], a, b) && !Slips(p[0], a, b)
  }

  /** What the rejection of `u` does to the base when it slips: base rows `was` give way to another copy of
      base rows `now`. */
  function RepeatOf(u: Edit, b: seq<Row>): Edit {
    if u.now.start < |b| - 1 then
      Edit(Range(u.was.end + 1 - u.now.Len(), u.was.end + 1), Range(u.was.start + 1, u.was.end + 1))
    else Edit(Range(u.was.start, u.was.start), Range(u.was.start, u.was.start - u.Delta()))
  }

  /** The same for each rejection that slips and is not caught. */
  function Repeats(p: seq<Edit>, kept: seq<bool>, a: seq<Row>, b: seq<Row>, caught: bool): seq<Edit>
    requires |kept| == |p|
  {
    if p == [] then []
    else
      (if !kept[0] && Slips(p[0], a, b) && !CaughtByNext(p, kept, a, b) && !(caught && !Shifted(p[0], a, b))
       then [RepeatOf(p[0], b)] else [])
      + Repeats(p[1..], kept[1..], a, b, CatchesNext(p, kept, a, b))
  }

  function Deltas(m: seq<Edit>): (l: seq<int>)
    ensures |l| == |m|
  {
    if m == [] then [] else [m[0].Delta()] + Deltas(m[1..])
  }

  /** How much longer each of these makes the base. */
  function Drifts(p: seq<Edit>, kept: seq<bool>, a: seq<Row>, b: seq<Row>): seq<int>
    requires |kept| == |p|
  {
    Deltas(Repeats(p, kept, a, b, false))
  }

  function Sum(l: seq<int>): int {
    if l == [] then 0 else l[0] + Sum(l[1..])
  }

  ghost predicate AllZero(l: seq<int>) {
    forall x :: x in l ==> x == 0
  }

  /** The lifted edits start at or after row `x`. */
  ghost predicate From(es: seq<Edit>, x: int) {
    forall e :: e in es ==> x <= e.was.start <= e.was.end
  }

  /** In order and in bounds from row `x` of the base on. */
  ghost predicate Chained(m: seq<Edit>, a: seq<Row>, x: int) {
    m != [] ==>
      && x <= m[0].was.start <= m[0].was.end <= |a| && 0 <= m[0].now.start <= m[0].now.end <= |a|
      && Chained(m[1..], a, m[0].was.end)
  }

  /** From frontier `i` on, the carried edits `f` do to the base what `m` says, with rows of the base only. */
  ghost predicate Drifting(f: seq<Edit>, a: seq<Row>, t: seq<Row>, i: int, x: int, m: seq<Edit>) {
    && 0 <= i <= x <= |a| && StartsFrom(f, a, t, x) && Chained(m, a, x)
    && Overlay(f, a, t, i) == Overlay(m, a, a, i)
  }

  lemma ChainedStarts(m: seq<Edit>, a: seq<Row>, x: int, x': int)
    requires Chained(m, a, x) && x' <= x
    ensures Chained(m, a, x') && StartsFrom(m, a, a, x')
  {
  }

  /** The frontier may move back over rows that are copied. */
  lemma DriftingBack(f: seq<Edit>, a: seq<Row>, t: seq<Row>, i: int, i': int, x: int, m: seq<Edit>)
    requires Drifting(f, a, t, i', x, m) && 0 <= i <= i'
    ensures Drifting(f, a, t, i, x, m)
  {
    hide Overlay, Chained, StartsFrom;
    StartsLaterOnly(f, a, t, x, i');
    ChainedStarts(m, a, x, i');
    OverlaySkip(f, a, t, i, i');
    OverlaySkip(m, a, a, i, i');
  }

  lemma StartsLater(f: seq<Edit>, a: seq<Row>, t: seq<Row>, i: int, x: int, x': int, m: seq<Edit>)
    requires Drifting(f, a, t, i, x, m) && i <= x' <= x
    ensures Drifting(f, a, t, i, x', m)
  {
    hide Overlay;
    ChainedStarts(m, a, x, x');
  }

  lemma NothingDrifts(a: seq<Row>, t: seq<Row>, i: int, x: int)
    requires 0 <= i <= x <= |a|
    ensures Drifting([], a, t, i, x, [])
  {
  }

  /** One more carried edit in front, which puts the same rows in as `r`. */
  lemma DriftingMore(f: Edit, rest: seq<Edit>, a: seq<Row>, t: seq<Row>, i: int, x: int, y: int, z: int, m: seq<Edit>,
                     r: Edit)
    requires Drifting(rest, a, t, y, z, m)
    requires 0 <= i <= x <= f.was.start <= f.was.end <= z && 0 <= f.now.start <= f.now.end <= |t|
    requires y <= f.was.end && r.was == f.was && 0 <= r.now.start <= r.now.end <= |a|
    requires t[f.now.start..f.now.end] == a[r.now.start..r.now.end]
    ensures Drifting([f] + rest, a, t, i, x, [r] + m)
  {
    hide *;
    DriftingParts(rest, a, t, y, z, m, f.was.end);
    OverlayHead(f, rest, a, t, i);
    OverlayHead(r, m, a, a, i);
    HeadStarts(f, rest, a, t, x);
    HeadChained(r, m, a, x);
    DriftingBy([f] + rest, a, t, i, x, [r] + m);
  }

  lemma DriftingBy(f: seq<Edit>, a: seq<Row>, t: seq<Row>, i: int, x: int, m: seq<Edit>)
    requires 0 <= i <= x <= |a| && StartsFrom(f, a, t, x) && Chained(m, a, x)
    requires Overlay(f, a, t, i) == Overlay(m, a, a, i)
    ensures Drifting(f, a, t, i, x, m)
  {
  }

  lemma HeadChained(r: Edit, m: seq<Edit>, a: seq<Row>, x: int)
    requires x <= r.was.start <= r.was.end <= |a| && 0 <= r.now.start <= r.now.end <= |a| && Chained(m, a, r.was.end)
    ensures Chained([r] + m, a, x)
  {
    assert ([r] + m)[1..] == m;
  }

  lemma HeadStarts(f: Edit, rest: seq<Edit>, a: seq<Row>, t: seq<Row>, x: int)
    requires x <= f.was.start <= f.was.end <= |a| && 0 <= f.now.start <= f.now.end <= |t|
    ensures StartsFrom([f] + rest, a, t, x)
  {
  }

  lemma OverlayHead(f: Edit, rest: seq<Edit>, a: seq<Row>, t: seq<Row>, i: int)
    requires 0 <= i <= f.was.start <= f.was.end <= |a| && 0 <= f.now.start <= f.now.end <= |t|
    ensures Overlay([f] + rest, a, t, i)
            == a[i..f.was.start] + t[f.now.start..f.now.end] + Overlay(rest, a, t, f.was.end)
  {
    assert ([f] + rest)[1..] == rest;
  }

  /** Moving the frontier forward over rows that are copied. */
  lemma DriftingParts(f: seq<Edit>, a: seq<Row>, t: seq<Row>, i: int, x: int, m: seq<Edit>, i': int)
    requires Drifting(f, a, t, i, x, m) && i <= i' <= x
    ensures x <= |a| && Chained(m, a, i') && Overlay(f, a, t, i') == Overlay(m, a, a, i')
  {
    hide Overlay, Chained, StartsFrom;
    StartsLaterOnly(f, a, t, x, i');
    ChainedStarts(m, a, x, i');
    OverlaySkip(f, a, t, i, i');
    OverlaySkip(m, a, a, i, i');
    SameTail(a[i..i'], Overlay(f, a, t, i'), Overlay(m, a, a, i'));
  }

  lemma SameTail<T>(x: seq<T>, y: seq<T>, z: seq<T>)
    requires x + y == x + z
    ensures y == z
  {
    assert (x + y)[|x|..] == y && (x + z)[|x|..] == z;
  }

  lemma StartsLaterOnly(f: seq<Edit>, a: seq<Row>, t: seq<Row>, x: int, x': int)
    requires StartsFrom(f, a, t, x) && x' <= x
    ensures StartsFrom(f, a, t, x')
  {
  }

  // ------------------------------------------------------------------ joining lifted rejections

  /** The row edits that the log makes of rejecting the edits not in `kept`. */
  function RejectionEdits(p: seq<Edit>, kept: seq<bool>, t: seq<Row>, b: seq<Row>, d: int): seq<Edit>
    requires |kept| == |p|
  {
    Coalesce(LiftedRejections(Remainder(p, kept, d), t, b))
  }

  lemma EditsWhenKept(p: seq<Edit>, kept: seq<bool>, t: seq<Row>, b: seq<Row>, d: int)
    requires |kept| == |p| > 0 && kept[0]
    ensures RejectionEdits(p, kept, t, b, d) == RejectionEdits(p[1..], kept[1..], t, b, d + p[0].Delta())
  {
  }

  lemma LiftedHead(p: seq<Edit>, kept: seq<bool>, t: seq<Row>, b: seq<Row>, d: int)
    requires |kept| == |p| > 0 && !kept[0]
    ensures LiftedRejections(Remainder(p, kept, d), t, b)
            == [LiftedRejection(p[0].ShiftOld(d), t, b)] + LiftedRejections(Remainder(p[1..], kept[1..], d), t, b)
  {
  }

  lemma {:induction false} JoinedStart(cur: Edit, rest: seq<Edit>)
    ensures CoalesceFrom(cur, rest) != [] && CoalesceFrom(cur, rest)[0].was.start == cur.was.start
    decreases rest
  {
    if rest != [] && cur.was.end >= rest[0].was.start {
      JoinedStart(Extend(cur, rest[0]), rest[1..]);
    }
  }

  /** Edits that do not reach the next one stay by themselves. */
  lemma CoalesceApart(cur: Edit, l: seq<Edit>)
    requires Coalesce(l) == [] || cur.was.end < Coalesce(l)[0].was.start
    ensures CoalesceFrom(cur, l) == [cur] + Coalesce(l)
  {
    if l != [] {
      JoinedStart(l[0], l[1..]);
    }
  }

  lemma EditsUnjoined(p: seq<Edit>, kept: seq<bool>, t: seq<Row>, b: seq<Row>, d: int, e: Edit, rest: seq<Edit>)
    requires |kept| == |p| > 0 && !kept[0] && e == LiftedRejection(p[0].ShiftOld(d), t, b)
    requires rest == RejectionEdits(p[1..], kept[1..], t, b, d)
    requires rest == [] || e.was.end < rest[0].was.start
    ensures RejectionEdits(p, kept, t, b, d) == [e] + rest
  {
    LiftedHead(p, kept, t, b, d);
    var l := LiftedRejections(Remainder(p[1..], kept[1..], d), t, b);
    hide LiftedRejection, LiftedRejections, Remainder;
    assert ([e] + l)[1..] == l;
    CoalesceApart(e, l);
  }

  lemma EditsJoined(p: seq<Edit>, kept: seq<bool>, t: seq<Row>, b: seq<Row>, d: int, e: Edit, f: Edit, rest: seq<Edit>)
    requires |kept| == |p| > 1 && !kept[0] && !kept[1]
    requires e == LiftedRejection(p[0].ShiftOld(d), t, b) && f == LiftedRejection(p[1].ShiftOld(d), t, b)
    requires rest == RejectionEdits(p[2..], kept[2..], t, b, d)
    requires e.was.end >= f.was.start && (rest == [] || f.was.end < rest[0].was.start)
    ensures RejectionEdits(p, kept, t, b, d) == [Extend(e, f)] + rest
  {
    LiftedHead(p, kept, t, b, d);
    assert p[1..][0] == p[1] && p[1..][1..] == p[2..] && kept[1..][0] == kept[1] && kept[1..][1..] == kept[2..];
    LiftedHead(p[1..], kept[1..], t, b, d);
    var l := LiftedRejections(Remainder(p[2..], kept[2..], d), t, b);
    hide LiftedRejection, LiftedRejections, Remainder;
    assert ([e] + ([f] + l))[1..] == [f] + l && ([f] + l)[1..] == l;
    CoalesceApart(Extend(e, f), l);
  }

  lemma EditsFirst(p: seq<Edit>, kept: seq<bool>, t: seq<Row>, b: seq<Row>, d: int)
    requires |kept| == |p| > 0 && !kept[0]
    ensures var es := RejectionEdits(p, kept, t, b, d);
            es != [] && es[0].was.start == LiftedRejection(p[0].ShiftOld(d), t, b).was.start
  {
    LiftedHead(p, kept, t, b, d);
    var e, l := LiftedRejection(p[0].ShiftOld(d), t, b), LiftedRejections(Remainder(p[1..], kept[1..], d), t, b);
    hide LiftedRejection, LiftedRejections, Remainder;
    assert ([e] + l)[1..] == l;
    JoinedStart(e, l);
  }

  // ------------------------------------------------------------------ what of them is carried

  lemma AllPast(p: seq<Edit>, es: seq<Edit>, x: int)
    requires p != [] && p[0].now.start <= p[0].now.end && From(es, x) && (es == [] || p[0].now.end < x)
    ensures forall e :: e in es ==> After(e, p[0]) && !Before(e, p[0])
  {
  }

  lemma CarriedPast(p: seq<Edit>, es: seq<Edit>, s: int, x: int)
    requires p != [] && p[0].now.start <= p[0].now.end && From(es, x) && (es == [] || p[0].now.end < x)
    ensures Carried(p, es, s) == Carried(p[1..], es, s - p[0].Delta())
  {
    AllPast(p, es, x);
    CarriedDropHead(p, es, s);
  }

  /** A lifted rejection that conflicts is not carried. */
  lemma CarriedCaught(p: seq<Edit>, u: Edit, e: Edit, es: seq<Edit>, s: int)
    requires u in p && Conflict(e, u)
    ensures Carried(p, [e] + es, s) == Carried(p, es, s)
  {
    assert ([e] + es)[1..] == es;
  }

  /** One that comes after `p[0]` and before all others is. */
  lemma CarriedInside(p: seq<Edit>, e: Edit, es: seq<Edit>, s: int, x: int)
    requires p != [] && InOrder(p) && After(e, p[0]) && !Before(e, p[0]) && e.was.start <= e.was.end
    requires p[1..] != [] ==> Before(e, p[1..][0])
    requires From(es, x) && (es == [] || p[0].now.end < x)
    ensures var s' := s - p[0].Delta(); Carried(p, [e] + es, s) == [e.ShiftOld(s')] + Carried(p[1..], es, s')
  {
    AllPast(p, es, x);
    assert ([e] + es)[1..] == es && ([e] + es)[0] == e;
    CarriedDropHead(p, [e] + es, s);
    BeforeIsCarried(e, p[1..]);
    CarriedOf(p[1..], [e] + es, s - p[0].Delta());
  }

  lemma CarriedAtEnd(u: Edit, e: Edit, s: int)
    requires InOrder([u]) && Before(e, u) && !After(e, u) && e.was.start <= e.was.end
    ensures Carried([u], [e], s) == [e.ShiftOld(s)]
  {
    BeforeIsCarried(e, [u]);
    CarriedOf([u], [e], s);
    assert [e][1..] == [];
    assert Carried([u], [], s) == [];
  }

  lemma RepeatsCaught(p: seq<Edit>, kept: seq<bool>, a: seq<Row>, b: seq<Row>, caught: bool)
    requires |kept| == |p| && (p == [] || kept[0] || Shifted(p[0], a, b))
    ensures Repeats(p, kept, a, b, caught) == Repeats(p, kept, a, b, false)
  {
  }

  lemma RepeatsHead(p: seq<Edit>, kept: seq<bool>, a: seq<Row>, b: seq<Row>, caught: bool)
    requires |kept| == |p| > 0
    ensures Repeats(p, kept, a, b, caught)
            == (if !kept[0] && Slips(p[0], a, b) && !CaughtByNext(p, kept, a, b) && !(caught && !Shifted(p[0], a, b))
                then [RepeatOf(p[0], b)] else [])
               + Repeats(p[1..], kept[1..], a, b, CatchesNext(p, kept, a, b))
  {
  }

  // ------------------------------------------------------------------ the effect on the base

  /** The lifted rejections start at the first edit, or behind it when it is kept. */
  function FirstRow(p: seq<Edit>, kept: seq<bool>, j: int): int
    requires |kept| == |p|
  {
    if p == [] then j else if kept[0] then p[0].now.end + 1 else p[0].now.start
  }

  /** From the frontier on, the lifted rejections do to the base what `Repeats` says. */
  ghost predicate Settles(p: seq<Edit>, kept: seq<bool>, a: seq<Row>, b: seq<Row>, t: seq<Row>, i: int, j: int,
                          d: int, s: int)
    requires |kept| == |p|
  {
    var es := RejectionEdits(p, kept, t, b, d);
    && Drifting(Carried(p, es, s), a, t, i, if p == [] then i else p[0].was.start, Repeats(p, kept, a, b, false))
    && From(es, FirstRow(p, kept, j))
    && (p == [] ==> es == [])
  }

  lemma SettlesAtEnd(kept: seq<bool>, a: seq<Row>, b: seq<Row>, t: seq<Row>, i: int, j: int, d: int, s: int)
    requires Facing([], kept, a, b, t, i, j, d)
    ensures Settles([], kept, a, b, t, i, j, d, s)
  {
    NothingDrifts(a, t, i, i);
  }

  /** The edits behind the first one. */
  ghost predicate Behind(p: seq<Edit>, kept: seq<bool>, a: seq<Row>, b: seq<Row>, t: seq<Row>, d: int, s: int,
                         es: seq<Edit>)
    requires |kept| == |p| > 0
  {
    && Settles(p[1..], kept[1..], a, b, t, p[0].was.end, p[0].now.end, if kept[0] then d + p[0].Delta() else d,
               s - p[0].Delta())
    && es == RejectionEdits(p[1..], kept[1..], t, b, if kept[0] then d + p[0].Delta() else d)
  }

  lemma HeadOrder(p: seq<Edit>, kept: seq<bool>, a: seq<Row>, b: seq<Row>, t: seq<Row>, i: int, j: int, d: int)
    requires Facing(p, kept, a, b, t, i, j, d) && p != []
    ensures |kept| == |p| && InOrder(p) && InOrder(p[1..])
    ensures 0 <= i <= p[0].was.start <= p[0].was.end <= |a| && 0 <= j <= p[0].now.start <= p[0].now.end <= |b|
    ensures p[0].was.start - i == p[0].now.start - j
    ensures |p| > 1 ==> p[1..][0] == p[1] && kept[1..][0] == kept[1]
    ensures |p| > 1 ==> p[1].was.start - p[0].was.end == p[1].now.start - p[0].now.end > 0
    ensures |p| > 1 ==> p[1].was.start < |a| && p[1].now.start < |b| && p[1].now.start <= p[1].now.end
  {
    HeadShape(p, a, b, i, j);
    if |p| > 1 {
      HeadShape(p[1..], a, b, p[0].was.end, p[0].now.end);
      assert p[1] in p;
    }
    hide Pick;
  }

  /** Where the edits behind the first one start. */
  lemma BehindStarts(p: seq<Edit>, kept: seq<bool>, a: seq<Row>, b: seq<Row>, t: seq<Row>, i: int, j: int, d: int,
                     s: int, es: seq<Edit>)
    requires Facing(p, kept, a, b, t, i, j, d) && p != [] && Behind(p, kept, a, b, t, d, s, es)
    ensures |p| == 1 ==> es == []
    ensures From(es, p[0].now.end + 1) && (|p| > 1 ==> From(es, p[1].now.start))
    ensures Carried(p, es, s) == Carried(p[1..], es, s - p[0].Delta())
  {
    HeadOrder(p, kept, a, b, t, i, j, d);
    BehindFrom(p, kept, a, b, t, d, s, es);
    CarriedPast(p, es, s, p[0].now.end + 1);
    hide *;
  }

  lemma BehindFrom(p: seq<Edit>, kept: seq<bool>, a: seq<Row>, b: seq<Row>, t: seq<Row>, d: int, s: int, es: seq<Edit>)
    requires |kept| == |p| > 0 && Behind(p, kept, a, b, t, d, s, es)
    requires |p| > 1 ==> p[1..][0] == p[1] && kept[1..][0] == kept[1] && p[0].now.end < p[1].now.start <= p[1].now.end
    ensures |p| == 1 ==> es == []
    ensures From(es, p[0].now.end + 1) && (|p| > 1 ==> From(es, p[1].now.start))
    ensures |p| > 1 && kept[1] ==> From(es, p[1].now.end + 1)
  {
    hide Drifting, RejectionEdits, Repeats, Carried, From;
    if |p| > 1 {
      var x := FirstRow(p[1..], kept[1..], p[0].now.end);
      FromEarlier(es, x, p[1].now.start);
      FromEarlier(es, x, p[0].now.end + 1);
    } else {
      FromNone(p[0].now.end + 1);
    }
  }

  lemma FromNone(x: int)
    ensures From([], x)
  {
  }

  /** The same rows are copied up to the first edit, so only the rest matters. */
  lemma BehindDrifts(p: seq<Edit>, kept: seq<bool>, a: seq<Row>, b: seq<Row>, t: seq<Row>, i: int, j: int, d: int,
                     s: int, es: seq<Edit>)
    requires Facing(p, kept, a, b, t, i, j, d) && p != [] && Behind(p, kept, a, b, t, d, s, es)
    ensures Drifting(Carried(p, es, s), a, t, i, p[0].was.start, Repeats(p[1..], kept[1..], a, b, false))
  {
    HeadOrder(p, kept, a, b, t, i, j, d);
    BehindStarts(p, kept, a, b, t, i, j, d, s, es);
    hide *;
    var f, l := Carried(p, es, s), Repeats(p[1..], kept[1..], a, b, false);
    var x := if |p| > 1 then p[1].was.start else p[0].was.end;
    BehindIs(p, kept, a, b, t, d, s, es);
    DriftingBack(f, a, t, i, p[0].was.end, x, l);
    StartsLater(f, a, t, i, x, p[0].was.start, l);
  }

  lemma BehindIs(p: seq<Edit>, kept: seq<bool>, a: seq<Row>, b: seq<Row>, t: seq<Row>, d: int, s: int, es: seq<Edit>)
    requires |kept| == |p| > 0 && Behind(p, kept, a, b, t, d, s, es)
    requires |p| > 1 ==> p[1..][0] == p[1]
    ensures Drifting(Carried(p[1..], es, s - p[0].Delta()), a, t, p[0].was.end,
                     if |p| > 1 then p[1].was.start else p[0].was.end, Repeats(p[1..], kept[1..], a, b, false))
  {
    hide Drifting, RejectionEdits, Repeats, Carried;
  }

  lemma SettlesBy(p: seq<Edit>, kept: seq<bool>, a: seq<Row>, b: seq<Row>, t: seq<Row>, i: int, j: int, d: int,
                  s: int, es: seq<Edit>)
    requires |kept| == |p| > 0 && es == RejectionEdits(p, kept, t, b, d) && From(es, FirstRow(p, kept, j))
    requires Drifting(Carried(p, es, s), a, t, i, p[0].was.start, Repeats(p, kept, a, b, false))
    ensures Settles(p, kept, a, b, t, i, j, d, s)
  {
    hide Drifting, RejectionEdits, Repeats, Carried, From;
  }

  lemma FromEarlier(es: seq<Edit>, x: int, x': int)
    requires From(es, x) && x' <= x
    ensures From(es, x')
  {
  }

  lemma FromMore(e: Edit, es: seq<Edit>, x: int)
    requires From(es, x) && x <= e.was.start <= e.was.end
    ensures From([e] + es, x)
  {
  }

  lemma FirstRowIs(p: seq<Edit>, kept: seq<bool>, j: int)
    requires |kept| == |p| > 0
    ensures FirstRow(p, kept, j) == if kept[0] then p[0].now.end + 1 else p[0].now.start
  {
  }

  lemma NoMore<T>(l: seq<T>)
    ensures [] + l == l
  {
  }

  /** The first edit is kept. */
  lemma SettlesKept(p: seq<Edit>, kept: seq<bool>, a: seq<Row>, b: seq<Row>, t: seq<Row>, i: int, j: int, d: int,
                    s: int, es: seq<Edit>)
    requires Facing(p, kept, a, b, t, i, j, d) && p != [] && kept[0] && Behind(p, kept, a, b, t, d, s, es)
    ensures Settles(p, kept, a, b, t, i, j, d, s)
  {
    RepeatsHead(p, kept, a, b, false);
    NotCatching(p, kept, a, b);
    hide *;
    HeadOrder(p, kept, a, b, t, i, j, d);
    EditsWhenKept(p, kept, t, b, d);
    BehindStarts(p, kept, a, b, t, i, j, d, s, es);
    BehindDrifts(p, kept, a, b, t, i, j, d, s, es);
    BehindEdits(p, kept, a, b, t, d, s, es);
    FirstRowIs(p, kept, j);
    NoMore(Repeats(p[1..], kept[1..], a, b, false));
    SettlesBy(p, kept, a, b, t, i, j, d, s, es);
  }

  lemma BehindEdits(p: seq<Edit>, kept: seq<bool>, a: seq<Row>, b: seq<Row>, t: seq<Row>, d: int, s: int, es: seq<Edit>)
    requires |kept| == |p| > 0 && Behind(p, kept, a, b, t, d, s, es)
    ensures es == RejectionEdits(p[1..], kept[1..], t, b, if kept[0] then d + p[0].Delta() else d)
  {
  }

  lemma NotCatching(p: seq<Edit>, kept: seq<bool>, a: seq<Row>, b: seq<Row>)
    requires |kept| == |p| > 0
    ensures kept[0] || Slips(p[0], a, b) || !Shifted(p[0], a, b) ==> !CatchesNext(p, kept, a, b)
    ensures CatchesNext(p, kept, a, b) ==> |p| > 1 && p[1].now.start == p[0].now.end + 1 && Shifted(p[0], a, b)
  {
  }

  /** Everything about the lifted rejection `e` of the first edit `u`. */
  ghost predicate Lifted(u: Edit, e: Edit, a: seq<Row>, b: seq<Row>, t: seq<Row>, d: int) {
    && RealEdit(u, a, b) && RealEdit(u.ShiftOld(d), t, b)
    && t[u.was.start + d..u.was.end + d] == a[u.was.start..u.was.end]
    && (u.was.end < |a| ==> t[u.was.end + d] == a[u.was.end])
    && u.now.start <= e.was.start <= e.was.end <= u.now.end + 1
    && (e.was.end == u.now.end + 1 ==> Shifted(u, a, b))
    && (Shifted(u, a, b) && u.now.end < |b| ==>
          e == Edit(Range(u.now.start + 1, u.now.end + 1), Range(u.was.start + d + 1, u.was.end + d + 1)))
    && (!Shifted(u, a, b) ==> e.was.start == u.now.start && e.now.start == u.was.start + d)
    && (Shifted(u, a, b) ==> e.was.start == u.now.start + 1)
    && (Conflict(e, u) <==> !Slips(u, a, b))
    && (Slips(u, a, b) && u.now.start < |b| - 1 ==>
          After(e, u) && !Before(e, u) && u.now.end < |b| && u.now.end <= u.now.start + 1 && Shifted(u, a, b))
    && (Slips(u, a, b) && u.now.start >= |b| - 1 ==>
          Before(e, u) && !After(e, u) && u.now.end == |b| == u.now.start + 1
          && e == Edit(Range(u.now.start, u.now.start), Range(u.was.start + d, u.was.end + d - 1)))
  }

  lemma HeadLifted(p: seq<Edit>, kept: seq<bool>, a: seq<Row>, b: seq<Row>, t: seq<Row>, i: int, j: int, d: int)
    requires Facing(p, kept, a, b, t, i, j, d) && p != [] && !kept[0]
    ensures Lifted(p[0], LiftedRejection(p[0].ShiftOld(d), t, b), a, b, t, d)
  {
    hide *;
    RejectedHead(p, kept, a, b, t, i, j, d);
    LiftedBy(p[0], p[0].ShiftOld(d), a, b, t, d);
  }

  lemma LiftedBy(u: Edit, v: Edit, a: seq<Row>, b: seq<Row>, t: seq<Row>, d: int)
    requires v == u.ShiftOld(d) && RealEdit(u, a, b) && RealEdit(v, t, b)
    requires t[v.was.start..v.was.end] == a[u.was.start..u.was.end]
    requires u.was.end < |a| ==> t[v.was.end] == a[u.was.end]
    requires (Shifted(v, t, b) <==> Shifted(u, a, b)) && (Slips(v, t, b) <==> Slips(u, a, b))
    ensures Lifted(u, LiftedRejection(v, t, b), a, b, t, d)
  {
    LiftedShape(v, t, b);
    ConflictUnlessSlips(v, t, b);
    SameNew(u, v, LiftedRejection(v, t, b));
    if Slips(u, a, b) {
      SlipsShape(u, a, b);
    }
    hide LiftedRejection, Slips, Shifted, Conflict, Before, After;
  }

  lemma SlipsShape(u: Edit, a: seq<Row>, b: seq<Row>)
    requires RealEdit(u, a, b) && Slips(u, a, b)
    ensures u.now.start < |b| - 1 ==> u.now.end <= u.now.start + 1 && Shifted(u, a, b)
    ensures u.now.start >= |b| - 1 ==> u.now.end == |b| == u.now.start + 1
  {
  }

  lemma SameNew(u: Edit, v: Edit, e: Edit)
    requires u.now == v.now
    ensures (Before(e, u) <==> Before(e, v)) && (After(e, u) <==> After(e, v)) && (Conflict(e, u) <==> Conflict(e, v))
  {
  }

  /** The rejection of the first edit does not slip: it is not carried. */
  lemma SettlesStill(p: seq<Edit>, kept: seq<bool>, a: seq<Row>, b: seq<Row>, t: seq<Row>, i: int, j: int, d: int,
                     s: int, e: Edit, es: seq<Edit>)
    requires Facing(p, kept, a, b, t, i, j, d) && p != [] && !kept[0] && Behind(p, kept, a, b, t, d, s, es)
    requires Lifted(p[0], e, a, b, t, d) && e == LiftedRejection(p[0].ShiftOld(d), t, b)
    requires es == [] || e.was.end < es[0].was.start
    requires !Slips(p[0], a, b)
    ensures Settles(p, kept, a, b, t, i, j, d, s)
  {
    hide *;
    HeadOrder(p, kept, a, b, t, i, j, d);
    BehindEdits(p, kept, a, b, t, d, s, es);
    EditsUnjoined(p, kept, t, b, d, e, es);
    BehindStarts(p, kept, a, b, t, i, j, d, s, es);
    BehindDrifts(p, kept, a, b, t, i, j, d, s, es);
    LiftedPlace(p[0], e, a, b, t, d);
    CarriedCaught(p, p[0], e, es, s);
    FromEarlier(es, p[0].now.end + 1, p[0].now.start);
    FromMore(e, es, p[0].now.start);
    UnjoinedDrifts(p, kept, a, b, t, i, j, d, s, e, es);
    RepeatsHead(p, kept, a, b, false);
    NoMore(Repeats(p[1..], kept[1..], a, b, false));
    FirstRowIs(p, kept, j);
    SettlesBy(p, kept, a, b, t, i, j, d, s, [e] + es);
  }

  lemma LiftedPlace(u: Edit, e: Edit, a: seq<Row>, b: seq<Row>, t: seq<Row>, d: int)
    requires Lifted(u, e, a, b, t, d)
    ensures u.now.start <= e.was.start <= e.was.end <= u.now.end + 1
    ensures Conflict(e, u) <==> !Slips(u, a, b)
    ensures u.now.start <= u.now.end && u.was.start < |a| && u.now.start < |b|
  {
  }

  /** Edits that are not joined with the first one are not caught by it either. */
  lemma UnjoinedDrifts(p: seq<Edit>, kept: seq<bool>, a: seq<Row>, b: seq<Row>, t: seq<Row>, i: int, j: int, d: int,
                       s: int, e: Edit, es: seq<Edit>)
    requires Facing(p, kept, a, b, t, i, j, d) && p != [] && !kept[0]
    requires Lifted(p[0], e, a, b, t, d) && |kept| == |p|
    requires es == RejectionEdits(p[1..], kept[1..], t, b, d) && (es == [] || e.was.end < es[0].was.start)
    ensures Repeats(p[1..], kept[1..], a, b, CatchesNext(p, kept, a, b)) == Repeats(p[1..], kept[1..], a, b, false)
    ensures |p| > 1 && p[1].now.start == p[0].now.end + 1 && Shifted(p[0], a, b) ==> kept[1] || Shifted(p[1], a, b)
  {
    hide Facing, RejectionEdits, Repeats, Shifted, Slips, Lifted;
    NotCatching(p, kept, a, b);
    HeadOrder(p, kept, a, b, t, i, j, d);
    if |p| > 1 && p[1].now.start == p[0].now.end + 1 && Shifted(p[0], a, b) && !kept[1] {
      FacingTail(p, kept, a, b, t, i, j, d);
      HeadLifted(p[1..], kept[1..], a, b, t, p[0].was.end, p[0].now.end, d);
      EditsFirst(p[1..], kept[1..], t, b, d);
      ShiftedEnd(p[0], e, a, b, t, d);
      UnshiftedStart(p[1], LiftedRejection(p[1].ShiftOld(d), t, b), a, b, t, d);
    }
    if CatchesNext(p, kept, a, b) {
      RepeatsCaught(p[1..], kept[1..], a, b, true);
    }
  }

  lemma ShiftedEnd(u: Edit, e: Edit, a: seq<Row>, b: seq<Row>, t: seq<Row>, d: int)
    requires Lifted(u, e, a, b, t, d) && Shifted(u, a, b) && u.now.end < |b|
    ensures e == Edit(Range(u.now.start + 1, u.now.end + 1), Range(u.was.start + d + 1, u.was.end + d + 1))
  {
  }

  lemma UnshiftedStart(u: Edit, e: Edit, a: seq<Row>, b: seq<Row>, t: seq<Row>, d: int)
    requires Lifted(u, e, a, b, t, d)
    ensures e.was.start == u.now.start <==> !Shifted(u, a, b)
    ensures !Shifted(u, a, b) ==> e.was.end <= u.now.end && e.now.start == u.was.start + d
  {
  }

  /** The rejection slips but conflicts with a deletion one row further down. */
  lemma SettlesCaught(p: seq<Edit>, kept: seq<bool>, a: seq<Row>, b: seq<Row>, t: seq<Row>, i: int, j: int, d: int,
                      s: int, e: Edit, es: seq<Edit>)
    requires Facing(p, kept, a, b, t, i, j, d) && p != [] && !kept[0] && Behind(p, kept, a, b, t, d, s, es)
    requires Lifted(p[0], e, a, b, t, d) && e == LiftedRejection(p[0].ShiftOld(d), t, b)
    requires es == [] || e.was.end < es[0].was.start
    requires Slips(p[0], a, b) && |kept| == |p| && CaughtByNext(p, kept, a, b)
    ensures Settles(p, kept, a, b, t, i, j, d, s)
  {
    hide *;
    HeadOrder(p, kept, a, b, t, i, j, d);
    BehindEdits(p, kept, a, b, t, d, s, es);
    EditsUnjoined(p, kept, t, b, d, e, es);
    BehindStarts(p, kept, a, b, t, i, j, d, s, es);
    BehindDrifts(p, kept, a, b, t, i, j, d, s, es);
    LiftedPlace(p[0], e, a, b, t, d);
    UnjoinedDrifts(p, kept, a, b, t, i, j, d, s, e, es);
    CaughtConflicts(p, kept, a, b, t, d, e);
    CarriedCaught(p, p[1], e, es, s);
    FromEarlier(es, p[0].now.end + 1, p[0].now.start);
    FromMore(e, es, p[0].now.start);
    RepeatsHead(p, kept, a, b, false);
    NoMore(Repeats(p[1..], kept[1..], a, b, false));
    FirstRowIs(p, kept, j);
    SettlesBy(p, kept, a, b, t, i, j, d, s, [e] + es);
  }

  lemma CaughtConflicts(p: seq<Edit>, kept: seq<bool>, a: seq<Row>, b: seq<Row>, t: seq<Row>, d: int, e: Edit)
    requires p != [] && |kept| == |p| && CaughtByNext(p, kept, a, b) && Slips(p[0], a, b) && Lifted(p[0], e, a, b, t, d)
    requires |p| > 1 ==> p[1].now.start < |b| && p[1].now.start <= p[1].now.end
    requires |p| > 1 && p[1].now.start == p[0].now.end + 1 && Shifted(p[0], a, b) ==> kept[1] || Shifted(p[1], a, b)
    ensures |p| > 1 && Conflict(e, p[1]) && p[1] in p
  {
  }

  /** The rejection slips further down and is carried. */
  lemma SettlesInside(p: seq<Edit>, kept: seq<bool>, a: seq<Row>, b: seq<Row>, t: seq<Row>, i: int, j: int, d: int,
                      s: int, e: Edit, es: seq<Edit>)
    requires Facing(p, kept, a, b, t, i, j, d) && p != [] && !kept[0] && Behind(p, kept, a, b, t, d, s, es)
    requires Lifted(p[0], e, a, b, t, d) && e == LiftedRejection(p[0].ShiftOld(d), t, b)
    requires es == [] || e.was.end < es[0].was.start
    requires Slips(p[0], a, b) && p[0].now.start < |b| - 1 && |kept| == |p| && !CaughtByNext(p, kept, a, b)
    requires s == i - j
    ensures Settles(p, kept, a, b, t, i, j, d, s)
  {
    hide *;
    HeadOrder(p, kept, a, b, t, i, j, d);
    BehindEdits(p, kept, a, b, t, d, s, es);
    EditsUnjoined(p, kept, t, b, d, e, es);
    BehindStarts(p, kept, a, b, t, i, j, d, s, es);
    LiftedPlace(p[0], e, a, b, t, d);
    UnjoinedDrifts(p, kept, a, b, t, i, j, d, s, e, es);
    InsideFree(p, kept, a, b, t, d, e);
    CarriedInside(p, e, es, s, p[0].now.end + 1);
    var s' := s - p[0].Delta();
    var m, r := Repeats(p[1..], kept[1..], a, b, false), RepeatOf(p[0], b);
    var z := if |p| > 1 then p[1].was.start else p[0].was.end + 1;
    InsideMoved(p[0], e, a, b, t, i, j, d, s, r);
    BehindFurther(p, kept, a, b, t, i, j, d, s, es, z);
    DriftingMore(e.ShiftOld(s'), Carried(p[1..], es, s'), a, t, i, p[0].was.start, p[0].was.end, z, m, r);
    FromEarlier(es, p[0].now.end + 1, p[0].now.start);
    FromMore(e, es, p[0].now.start);
    NotCatching(p, kept, a, b);
    RepeatsHead(p, kept, a, b, false);
    FirstRowIs(p, kept, j);
    SettlesBy(p, kept, a, b, t, i, j, d, s, [e] + es);
  }

  lemma InsideFree(p: seq<Edit>, kept: seq<bool>, a: seq<Row>, b: seq<Row>, t: seq<Row>, d: int, e: Edit)
    requires p != [] && |kept| == |p| && Lifted(p[0], e, a, b, t, d) && Slips(p[0], a, b) && p[0].now.start < |b| - 1
    requires !CaughtByNext(p, kept, a, b)
    requires |p| > 1 ==> p[1..][0] == p[1] && p[0].now.end < p[1].now.start <= p[1].now.end
    ensures After(e, p[0]) && !Before(e, p[0]) && e.was.start <= e.was.end
    ensures p[1..] != [] ==> Before(e, p[1..][0])
    ensures p[0].was.end < |a|
  {
  }

  /** Where in the base a slipped rejection ends up, and what it replaces there. */
  lemma InsideMoved(u: Edit, e: Edit, a: seq<Row>, b: seq<Row>, t: seq<Row>, i: int, j: int, d: int, s: int, r: Edit)
    requires Lifted(u, e, a, b, t, d) && Slips(u, a, b) && u.now.start < |b| - 1
    requires s == i - j && u.was.start - i == u.now.start - j && r == RepeatOf(u, b)
    ensures var f := e.ShiftOld(s - u.Delta());
            && u.was.start <= f.was.start <= f.was.end == u.was.end + 1 <= |a|
            && 0 <= f.now.start <= f.now.end <= |t|
            && r.was == f.was && 0 <= r.now.start <= r.now.end <= |a|
            && t[f.now.start..f.now.end] == a[r.now.start..r.now.end]
  {
    ShiftedEnd(u, e, a, b, t, d);
    CopiedInside(u, a, t, d);
    hide Slips, Shifted, Conflict, Before, After;
  }

  /** The rows of the rejected edit, moved by one, are base rows in the buffer too. */
  lemma CopiedInside(u: Edit, a: seq<Row>, t: seq<Row>, d: int)
    requires 0 <= u.was.start <= u.was.end < |a| && 0 <= u.was.start + d && u.was.end + d < |t|
    requires t[u.was.start + d..u.was.end + d] == a[u.was.start..u.was.end] && t[u.was.end + d] == a[u.was.end]
    ensures t[u.was.start + d + 1..u.was.end + d + 1] == a[u.was.start + 1..u.was.end + 1]
  {
    var x, y := u.was.start, u.was.end;
    OneMore(t, x + d, y + d);
    OneMore(a, x, y);
    Within(t, x + d, y + d + 1, x + d + 1, y + d + 1);
    Within(a, x, y + 1, x + 1, y + 1);
  }

  lemma OneMore<T>(s: seq<T>, x: int, y: int)
    requires 0 <= x <= y < |s|
    ensures s[x..y + 1] == s[x..y] + [s[y]]
  {
  }

  lemma Within<T>(s: seq<T>, x: int, y: int, x': int, y': int)
    requires 0 <= x <= x' <= y' <= y <= |s|
    ensures s[x..y][x' - x..y' - x] == s[x'..y']
  {
    var u, v := s[x..y][x' - x..y' - x], s[x'..y'];
    forall k | 0 <= k < |v|
      ensures u[k] == v[k]
    {
      assert u[k] == s[x..y][k + (x' - x)] == s[x' + k];
    }
  }

  /** As `BehindDrifts`, but from the end of the first edit on and up to row `z`. */
  lemma BehindFurther(p: seq<Edit>, kept: seq<bool>, a: seq<Row>, b: seq<Row>, t: seq<Row>, i: int, j: int, d: int,
                      s: int, es: seq<Edit>, z: int)
    requires Facing(p, kept, a, b, t, i, j, d) && p != [] && Behind(p, kept, a, b, t, d, s, es)
    requires z == (if |p| > 1 then p[1].was.start else p[0].was.end + 1) && z <= |a|
    ensures |kept| == |p|
    ensures Drifting(Carried(p[1..], es, s - p[0].Delta()), a, t, p[0].was.end, z,
                     Repeats(p[1..], kept[1..], a, b, false))
  {
    HeadOrder(p, kept, a, b, t, i, j, d);
    BehindStarts(p, kept, a, b, t, i, j, d, s, es);
    if |p| > 1 {
      BehindIs(p, kept, a, b, t, d, s, es);
    } else {
      NothingBehind(p, kept, a, b, s - p[0].Delta());
      NothingDrifts(a, t, p[0].was.end, z);
    }
    hide *;
  }

  lemma NothingBehind(p: seq<Edit>, kept: seq<bool>, a: seq<Row>, b: seq<Row>, s: int)
    requires |p| == 1 == |kept|
    ensures Carried(p[1..], [], s) == [] && Repeats(p[1..], kept[1..], a, b, false) == []
  {
  }

  /** The rejection slips further up, at a blank last row, and is carried. */
  lemma SettlesLast(p: seq<Edit>, kept: seq<bool>, a: seq<Row>, b: seq<Row>, t: seq<Row>, i: int, j: int, d: int,
                    s: int, e: Edit, es: seq<Edit>)
    requires Facing(p, kept, a, b, t, i, j, d) && p != [] && !kept[0] && Behind(p, kept, a, b, t, d, s, es)
    requires Lifted(p[0], e, a, b, t, d) && e == LiftedRejection(p[0].ShiftOld(d), t, b)
    requires Slips(p[0], a, b) && p[0].now.start >= |b| - 1
    requires s == i - j
    ensures Settles(p, kept, a, b, t, i, j, d, s)
  {
    hide *;
    HeadOrder(p, kept, a, b, t, i, j, d);
    LastIsLast(p, e, a, b, t, d);
    BehindEdits(p, kept, a, b, t, d, s, es);
    BehindStarts(p, kept, a, b, t, i, j, d, s, es);
    EditsUnjoined(p, kept, t, b, d, e, es);
    CarriedAtEnd(p[0], e, s);
    var r := RepeatOf(p[0], b);
    LastMoved(p[0], e, a, b, t, i, j, d, s, r);
    NothingDrifts(a, t, p[0].was.start, p[0].was.start);
    DriftingMore(e.ShiftOld(s), [], a, t, i, p[0].was.start, p[0].was.start, p[0].was.start, [], r);
    FromEarlier(es, p[0].now.end + 1, p[0].now.start);
    FromMore(e, es, p[0].now.start);
    RepeatsHead(p, kept, a, b, false);
    LastDrifts(p, kept, a, b);
    FirstRowIs(p, kept, j);
    SettlesBy(p, kept, a, b, t, i, j, d, s, [e] + es);
  }

  lemma LastIsLast(p: seq<Edit>, e: Edit, a: seq<Row>, b: seq<Row>, t: seq<Row>, d: int)
    requires p != [] && Lifted(p[0], e, a, b, t, d) && Slips(p[0], a, b) && p[0].now.start >= |b| - 1
    requires |p| > 1 ==> p[0].now.end < p[1].now.start < |b|
    ensures p == [p[0]] && e.was.start <= e.was.end && Before(e, p[0]) && !After(e, p[0])
    ensures p[0].now.start <= e.was.start
    ensures [e] + [] == [e]
  {
  }

  lemma LastMoved(u: Edit, e: Edit, a: seq<Row>, b: seq<Row>, t: seq<Row>, i: int, j: int, d: int, s: int, r: Edit)
    requires Lifted(u, e, a, b, t, d) && Slips(u, a, b) && u.now.start >= |b| - 1
    requires s == i - j && u.was.start - i == u.now.start - j && r == RepeatOf(u, b)
    ensures var f := e.ShiftOld(s);
            && f.was.start == f.was.end == u.was.start && 0 <= f.now.start <= f.now.end <= |t|
            && r.was == f.was && 0 <= r.now.start <= r.now.end <= |a|
            && t[f.now.start..f.now.end] == a[r.now.start..r.now.end]
            && [f] + [] == [f]
  {
    CopiedButLast(u, a, t, d);
    hide Slips, Shifted, Conflict, Before, After;
  }

  lemma CopiedButLast(u: Edit, a: seq<Row>, t: seq<Row>, d: int)
    requires 0 <= u.was.start < u.was.end <= |a| && 0 <= u.was.start + d && u.was.end + d <= |t|
    requires t[u.was.start + d..u.was.end + d] == a[u.was.start..u.was.end]
    ensures t[u.was.start + d..u.was.end + d - 1] == a[u.was.start..u.was.end - 1]
  {
    var x, y := u.was.start, u.was.end;
    Within(t, x + d, y + d, x + d, y + d - 1);
    Within(a, x, y, x, y - 1);
  }

  lemma LastDrifts(p: seq<Edit>, kept: seq<bool>, a: seq<Row>, b: seq<Row>)
    requires |p| == 1 == |kept|
    ensures Repeats(p[1..], kept[1..], a, b, CatchesNext(p, kept, a, b)) == [] && !CaughtByNext(p, kept, a, b)
  {
  }

  // ------------------------------------------------------------------ two rejections joined

  /** The lifted rejection of the first edit is joined with that of the second, which follows after
      one row. */
  ghost predicate Joins(p: seq<Edit>, kept: seq<bool>, a: seq<Row>, b: seq<Row>, t: seq<Row>, d: int, e: Edit, f: Edit)
    requires |kept| == |p|
  {
    && |p| > 1 && !kept[0] && !kept[1]
    && Lifted(p[0], e, a, b, t, d) && e == LiftedRejection(p[0].ShiftOld(d), t, b)
    && Lifted(p[1], f, a, b, t, d) && f == LiftedRejection(p[1].ShiftOld(d), t, b)
    && p[1].now.start == p[0].now.end + 1 && p[1].was.start == p[0].was.end + 1
    && Shifted(p[0], a, b) && !Shifted(p[1], a, b) && p[0].now.end < |b|
  }

  /** Joining happens only there. */
  lemma JoinsOnlyNext(p: seq<Edit>, kept: seq<bool>, a: seq<Row>, b: seq<Row>, t: seq<Row>, i: int, j: int, d: int,
                      s: int, e: Edit, es: seq<Edit>)
    requires Facing(p, kept, a, b, t, i, j, d) && p != [] && !kept[0] && Behind(p, kept, a, b, t, d, s, es)
    requires Lifted(p[0], e, a, b, t, d) && e == LiftedRejection(p[0].ShiftOld(d), t, b)
    requires es != [] && e.was.end >= es[0].was.start
    ensures |kept| == |p| > 1 && !kept[1]
    ensures Joins(p, kept, a, b, t, d, e, LiftedRejection(p[1].ShiftOld(d), t, b))
  {
    hide Facing, RejectionEdits, Repeats, Shifted, Slips, Lifted, Behind, LiftedRejection, Settles;
    HeadOrder(p, kept, a, b, t, i, j, d);
    BehindEdits(p, kept, a, b, t, d, s, es);
    BehindStarts(p, kept, a, b, t, i, j, d, s, es);
    LiftedPlace(p[0], e, a, b, t, d);
    assert es[0] in es;
    FacingTail(p, kept, a, b, t, i, j, d);
    BehindFrom(p, kept, a, b, t, d, s, es);
    HeadLifted(p[1..], kept[1..], a, b, t, p[0].was.end, p[0].now.end, d);
    EditsFirst(p[1..], kept[1..], t, b, d);
    LiftedEnd(p[0], e, a, b, t, d);
    UnshiftedStart(p[1], LiftedRejection(p[1].ShiftOld(d), t, b), a, b, t, d);
  }

  lemma LiftedEnd(u: Edit, e: Edit, a: seq<Row>, b: seq<Row>, t: seq<Row>, d: int)
    requires Lifted(u, e, a, b, t, d)
    ensures e.was.end == u.now.end + 1 ==> Shifted(u, a, b)
  {
  }

  lemma TwoOn<T>(s: seq<T>)
    requires |s| > 1
    ensures s[1..][1..] == s[2..] && s[1..] != [] && s[1..][0] == s[1]
  {
  }

  /** The order of the first two edits, and where everything behind them starts. */
  lemma JoinedOrder(p: seq<Edit>, kept: seq<bool>, a: seq<Row>, b: seq<Row>, t: seq<Row>, i: int, j: int, d: int,
                    s: int, e: Edit, f: Edit, es: seq<Edit>)
    requires Facing(p, kept, a, b, t, i, j, d) && |kept| == |p| && Joins(p, kept, a, b, t, d, e, f)
    requires |p| > 1 && Behind(p[1..], kept[1..], a, b, t, d, s - p[0].Delta(), es)
    ensures RejectionEdits(p, kept, t, b, d) == [Extend(e, f)] + es
    ensures From(es, p[1].now.end + 1) && (|p| == 2 ==> es == [])
    ensures InOrder(p) && p[0].now.end < p[1].now.end + 1
  {
    hide *;
    JoinsFacts(p, kept, a, b, t, d, e, f);
    TwoOn(p);
    TwoOn(kept);
    HeadOrder(p, kept, a, b, t, i, j, d);
    FacingTail(p, kept, a, b, t, i, j, d);
    BehindEdits(p[1..], kept[1..], a, b, t, d, s - p[0].Delta(), es);
    BehindStarts(p[1..], kept[1..], a, b, t, p[0].was.end, p[0].now.end, d, s - p[0].Delta(), es);
    FromFirst(es, p[1].now.end + 1);
    EditsJoined(p, kept, t, b, d, e, f, es);
  }

  lemma JoinedDrifting(p: seq<Edit>, kept: seq<bool>, a: seq<Row>, b: seq<Row>, t: seq<Row>, i: int, j: int, d: int,
                       s: int, e: Edit, f: Edit, es: seq<Edit>)
    requires Facing(p, kept, a, b, t, i, j, d) && |kept| == |p| && Joins(p, kept, a, b, t, d, e, f)
    requires |p| > 1 && Behind(p[1..], kept[1..], a, b, t, d, s - p[0].Delta(), es)
    ensures Drifting(Carried(p[1..], es, s - p[0].Delta()), a, t, i, p[0].was.start,
                     Repeats(p[2..], kept[2..], a, b, false))
  {
    hide *;
    JoinsFacts(p, kept, a, b, t, d, e, f);
    TwoOn(p);
    TwoOn(kept);
    HeadOrder(p, kept, a, b, t, i, j, d);
    FacingTail(p, kept, a, b, t, i, j, d);
    BehindDrifts(p[1..], kept[1..], a, b, t, p[0].was.end, p[0].now.end, d, s - p[0].Delta(), es);
    var g, l := Carried(p[1..], es, s - p[0].Delta()), Repeats(p[2..], kept[2..], a, b, false);
    DriftingBack(g, a, t, i, p[0].was.end, p[1].was.start, l);
    StartsLater(g, a, t, i, p[1].was.start, p[0].was.start, l);
  }

  lemma FromFirst(es: seq<Edit>, x: int)
    requires From(es, x)
    ensures es != [] ==> x <= es[0].was.start
  {
    if es != [] {
      assert es[0] in es;
    }
  }

  lemma JoinsFacts(p: seq<Edit>, kept: seq<bool>, a: seq<Row>, b: seq<Row>, t: seq<Row>, d: int, e: Edit, f: Edit)
    requires |kept| == |p| && Joins(p, kept, a, b, t, d, e, f)
    ensures |p| > 1 && !kept[0] && !kept[1] && p[0] in p && p[1] in p
    ensures e == LiftedRejection(p[0].ShiftOld(d), t, b) && f == LiftedRejection(p[1].ShiftOld(d), t, b)
    ensures e == Edit(Range(p[0].now.start + 1, p[0].now.end + 1), Range(p[0].was.start + d + 1, p[0].was.end + d + 1))
    ensures f.was.start == p[1].now.start == p[0].now.end + 1 && f.was.start <= f.was.end <= p[1].now.end
    ensures f.now.start == p[1].was.start + d && p[1].was.start == p[0].was.end + 1
    ensures p[0].now.start <= e.was.start <= e.was.end && p[0].now.start <= p[0].now.end
    ensures Lifted(p[0], e, a, b, t, d) && Lifted(p[1], f, a, b, t, d)
  {
  }

  /** One of the two joined rejections does not slip: neither is carried. */
  lemma SettlesJoinedStill(p: seq<Edit>, kept: seq<bool>, a: seq<Row>, b: seq<Row>, t: seq<Row>, i: int, j: int,
                           d: int, s: int, e: Edit, f: Edit, es: seq<Edit>)
    requires Facing(p, kept, a, b, t, i, j, d) && |kept| == |p| && Joins(p, kept, a, b, t, d, e, f)
    requires |p| > 1 && Behind(p[1..], kept[1..], a, b, t, d, s - p[0].Delta(), es)
    requires !Slips(p[0], a, b) || !Slips(p[1], a, b)
    ensures Settles(p, kept, a, b, t, i, j, d, s)
  {
    hide *;
    JoinsFacts(p, kept, a, b, t, d, e, f);
    JoinedOrder(p, kept, a, b, t, i, j, d, s, e, f, es);
    JoinedDrifting(p, kept, a, b, t, i, j, d, s, e, f, es);
    JoinedDriftsStill(p, kept, a, b, t, d, e, f);
    JoinedConflict(p, kept, a, b, t, d, e, f);
    var g := Extend(e, f);
    ExtendIs(e, f);
    CarriedCaught(p, if Slips(p[0], a, b) then p[1] else p[0], g, es, s);
    CarriedPast(p, es, s, p[1].now.end + 1);
    FromEarlier(es, p[1].now.end + 1, p[0].now.start);
    FromMore(g, es, p[0].now.start);
    FirstRowIs(p, kept, j);
    SettlesBy(p, kept, a, b, t, i, j, d, s, [g] + es);
  }

  lemma ExtendIs(e: Edit, f: Edit)
    ensures Extend(e, f) == Edit(Range(e.was.start, f.was.end), Range(e.now.start, f.now.end))
  {
  }

  lemma JoinedConflict(p: seq<Edit>, kept: seq<bool>, a: seq<Row>, b: seq<Row>, t: seq<Row>, d: int, e: Edit, f: Edit)
    requires |kept| == |p| && Joins(p, kept, a, b, t, d, e, f) && (!Slips(p[0], a, b) || !Slips(p[1], a, b))
    ensures |p| > 1 && Conflict(Extend(e, f), if Slips(p[0], a, b) then p[1] else p[0])
  {
    JoinsFacts(p, kept, a, b, t, d, e, f);
    LiftedPlace(p[0], e, a, b, t, d);
    LiftedPlace(p[1], f, a, b, t, d);
    hide Joins, Lifted, Slips, Shifted, LiftedRejection;
  }

  lemma JoinedDriftsStill(p: seq<Edit>, kept: seq<bool>, a: seq<Row>, b: seq<Row>, t: seq<Row>, d: int, e: Edit,
                          f: Edit)
    requires |kept| == |p| && Joins(p, kept, a, b, t, d, e, f) && (!Slips(p[0], a, b) || !Slips(p[1], a, b))
    ensures |p| > 1 && Repeats(p, kept, a, b, false) == Repeats(p[2..], kept[2..], a, b, false)
  {
    TwoOn(p);
    TwoOn(kept);
    RepeatsHead(p, kept, a, b, false);
    RepeatsHead(p[1..], kept[1..], a, b, CatchesNext(p, kept, a, b));
    hide Lifted, Slips, Shifted, LiftedRejection, Repeats;
    NoMore(Repeats(p[2..], kept[2..], a, b, false));
  }

  /** Both slip, the second at the last row: they are carried as one. */
  lemma SettlesJoinedSlipping(p: seq<Edit>, kept: seq<bool>, a: seq<Row>, b: seq<Row>, t: seq<Row>, i: int, j: int,
                              d: int, s: int, e: Edit, f: Edit, es: seq<Edit>)
    requires Facing(p, kept, a, b, t, i, j, d) && |kept| == |p| && Joins(p, kept, a, b, t, d, e, f)
    requires |p| > 1 && Behind(p[1..], kept[1..], a, b, t, d, s - p[0].Delta(), es)
    requires Slips(p[0], a, b) && Slips(p[1], a, b) && s == i - j
    ensures Settles(p, kept, a, b, t, i, j, d, s)
  {
    hide *;
    JoinsFacts(p, kept, a, b, t, d, e, f);
    ThirdEdit(p, kept, a, b, t, i, j, d);
    HeadOrder(p, kept, a, b, t, i, j, d);
    JoinedOrder(p, kept, a, b, t, i, j, d, s, e, f, es);
    var g, m, s' := Extend(e, f), [RepeatOf(p[0], b)] + [RepeatOf(p[1], b)], s - p[0].Delta();
    JoinedLast(p, kept, a, b, t, d, e, f);
    JoinedMoved(p, kept, a, b, t, i, j, d, s, e, f, m);
    ExtendIs(e, f);
    FromNone(p[1].now.end + 1);
    CarriedInside(p, g, [], s, p[1].now.end + 1);
    NothingCarriedBy(p[1..], s');
    NothingAfter([g.ShiftOld(s')]);
    FromEarlier(es, p[1].now.end + 1, p[0].now.start);
    FromMore(g, es, p[0].now.start);
    FirstRowIs(p, kept, j);
    SettlesBy(p, kept, a, b, t, i, j, d, s, [g] + es);
  }

  lemma ThirdEdit(p: seq<Edit>, kept: seq<bool>, a: seq<Row>, b: seq<Row>, t: seq<Row>, i: int, j: int, d: int)
    requires Facing(p, kept, a, b, t, i, j, d) && |p| > 1 && |kept| == |p| && !kept[0]
    ensures |p| > 2 ==> p[1].now.end < p[2].now.start < |b|
  {
    hide *;
    TwoOn(p);
    FacingTail(p, kept, a, b, t, i, j, d);
    HeadOrder(p[1..], kept[1..], a, b, t, p[0].was.end, p[0].now.end, d);
  }

  lemma NothingAfter<T>(l: seq<T>)
    ensures l + [] == l
  {
  }

  lemma NothingCarriedBy(p: seq<Edit>, s: int)
    ensures Carried(p, [], s) == []
  {
  }

  lemma JoinedLast(p: seq<Edit>, kept: seq<bool>, a: seq<Row>, b: seq<Row>, t: seq<Row>, d: int, e: Edit, f: Edit)
    requires |kept| == |p| && Joins(p, kept, a, b, t, d, e, f) && Slips(p[0], a, b) && Slips(p[1], a, b)
    requires |p| > 2 ==> p[1].now.end < p[2].now.start < |b|
    ensures |p| == 2 && p[1..] != [] && p[1..][0] == p[1]
    ensures After(Extend(e, f), p[0]) && !Before(Extend(e, f), p[0]) && Before(Extend(e, f), p[1])
    ensures Repeats(p, kept, a, b, false) == [RepeatOf(p[0], b)] + [RepeatOf(p[1], b)]
  {
    JoinsFacts(p, kept, a, b, t, d, e, f);
    LastSlip(p[0], p[1], e, f, a, b, t, d);
    JoinedDriftsBoth(p, kept, a, b);
    hide *;
  }

  lemma LastSlip(u: Edit, w: Edit, e: Edit, f: Edit, a: seq<Row>, b: seq<Row>, t: seq<Row>, d: int)
    requires Lifted(u, e, a, b, t, d) && Lifted(w, f, a, b, t, d) && Slips(u, a, b) && Slips(w, a, b)
    requires f.was.start == w.now.start == u.now.end + 1 && e.was.end == u.now.end + 1
    ensures w.now.end == |b| && !w.now.IsEmpty() && w.now.start >= |b| - 1
    ensures After(Extend(e, f), u) && !Before(Extend(e, f), u) && Before(Extend(e, f), w)
  {
  }

  lemma JoinedDriftsBoth(p: seq<Edit>, kept: seq<bool>, a: seq<Row>, b: seq<Row>)
    requires |p| == 2 == |kept| && !kept[0] && !kept[1] && Slips(p[0], a, b) && Slips(p[1], a, b) && !p[1].now.IsEmpty()
    ensures Repeats(p, kept, a, b, false) == [RepeatOf(p[0], b)] + [RepeatOf(p[1], b)] && p[1..] != []
            && p[1..][0] == p[1]
  {
    hide Slips, Shifted;
    RepeatsHead(p, kept, a, b, false);
    RepeatsHead(p[1..], kept[1..], a, b, false);
    assert p[1..] == [p[1]] && kept[1..] == [kept[1]] && p[1..][1..] == [] && kept[1..][1..] == [];
    NothingAfter([RepeatOf(p[1], b)]);
  }

  /** What is carried as one puts the same rows in as the two would. */
  lemma JoinedMoved(p: seq<Edit>, kept: seq<bool>, a: seq<Row>, b: seq<Row>, t: seq<Row>, i: int, j: int, d: int,
                    s: int, e: Edit, f: Edit, m: seq<Edit>)
    requires |kept| == |p| && Joins(p, kept, a, b, t, d, e, f) && Slips(p[0], a, b) && Slips(p[1], a, b)
    requires p[1].now.start >= |b| - 1 && 0 <= i <= p[0].was.start
    requires s == i - j && p[0].was.start - i == p[0].now.start - j && m == [RepeatOf(p[0], b)] + [RepeatOf(p[1], b)]
    ensures Drifting([Extend(e, f).ShiftOld(s - p[0].Delta())], a, t, i, p[0].was.start, m)
  {
    hide *;
    JoinsFacts(p, kept, a, b, t, d, e, f);
    ExtendIs(e, f);
    var s', r, w := s - p[0].Delta(), RepeatOf(p[0], b), RepeatOf(p[1], b);
    var e', f', g := e.ShiftOld(s'), f.ShiftOld(s'), Extend(e, f).ShiftOld(s');
    NextDistance(p[0], i, j, s);
    JoinedParts(p[0], p[1], e, f, a, b, t, d, s', r, w);
    OverlayHead(g, [], a, t, i);
    OverlayHead(r, [w], a, a, i);
    OverlayHead(w, [], a, a, r.was.end);
    NothingAfter([g]);
    NothingAfter([w]);
    HeadStarts(g, [], a, t, p[0].was.start);
    NoneChained(a, w.was.end);
    HeadChained(w, [], a, r.was.end);
    HeadChained(r, [w], a, p[0].was.start);
    OverlayEnds(a, t, w.was.end);
    JoinedRows(a[i..r.was.start], a[r.now.start..r.now.end], a[w.now.start..w.now.end], a[w.was.end..]);
    EmptySlice(a, r.was.end);
    DriftingBy([g], a, t, i, p[0].was.start, m);
  }

  lemma NoneChained(a: seq<Row>, x: int)
    ensures Chained([], a, x)
  {
  }

  lemma OverlayEnds(a: seq<Row>, t: seq<Row>, i: int)
    requires 0 <= i <= |a|
    ensures Overlay([], a, t, i) == a[i..] == Overlay([], a, a, i)
  {
  }

  lemma EmptySlice<T>(a: seq<T>, i: int)
    requires 0 <= i <= |a|
    ensures a[i..i] == []
  {
  }

  lemma JoinedRows<T>(x: seq<T>, y: seq<T>, z: seq<T>, w: seq<T>)
    ensures x + (y + z) + w == x + y + ([] + z + w)
  {
  }

  lemma JoinedParts(u: Edit, w: Edit, e: Edit, f: Edit, a: seq<Row>, b: seq<Row>, t: seq<Row>, d: int, s: int,
                    r: Edit, q: Edit)
    requires Lifted(u, e, a, b, t, d) && Lifted(w, f, a, b, t, d) && Slips(u, a, b) && Slips(w, a, b)
    requires e == Edit(Range(u.now.start + 1, u.now.end + 1), Range(u.was.start + d + 1, u.was.end + d + 1))
    requires w.now.start >= |b| - 1 && w.was.start == u.was.end + 1 && w.now.start == u.now.end + 1
             && s == u.was.end - u.now.end
    requires r == RepeatOf(u, b) && q == RepeatOf(w, b)
    ensures var g := Extend(e, f).ShiftOld(s);
            && u.was.start <= g.was.start == r.was.start <= g.was.end == r.was.end == u.was.end + 1 == q.was.start
               == q.was.end <= |a|
            && 0 <= g.now.start <= g.now.end <= |t|
            && 0 <= r.now.start <= r.now.end <= |a| && 0 <= q.now.start <= q.now.end <= |a|
            && t[g.now.start..g.now.end] == a[r.now.start..r.now.end] + a[q.now.start..q.now.end]
  {
    CopiedInside(u, a, t, d);
    CopiedButLast(w, a, t, d);
    SliceCat(t, u.was.start + d + 1, u.was.end + d + 1, w.was.end + d - 1);
    hide Shifted, Conflict, Before, After;
  }

  /** The whole induction. */
  lemma {:induction false} RejectionsSettle(p: seq<Edit>, kept: seq<bool>, a: seq<Row>, b: seq<Row>, t: seq<Row>,
                                           i: int, j: int, d: int, s: int)
    requires Facing(p, kept, a, b, t, i, j, d) && s == i - j
    ensures |kept| == |p| && Settles(p, kept, a, b, t, i, j, d, s)
    decreases |p|, 1
  {
    hide *;
    FacingLength(p, kept, a, b, t, i, j, d);
    if p == [] {
      SettlesAtEnd(kept, a, b, t, i, j, d, s);
    } else {
      var es := RejectionEdits(p[1..], kept[1..], t, b, if kept[0] then d + p[0].Delta() else d);
      RejectionsBehind(p, kept, a, b, t, i, j, d, s, es);
      if kept[0] {
        SettlesKept(p, kept, a, b, t, i, j, d, s, es);
      } else {
        var e := LiftedRejection(p[0].ShiftOld(d), t, b);
        HeadLifted(p, kept, a, b, t, i, j, d);
        if es != [] && e.was.end >= es[0].was.start {
          SettlesJoined(p, kept, a, b, t, i, j, d, s, e, es);
        } else if !Slips(p[0], a, b) {
          SettlesStill(p, kept, a, b, t, i, j, d, s, e, es);
        } else if CaughtByNext(p, kept, a, b) {
          SettlesCaught(p, kept, a, b, t, i, j, d, s, e, es);
        } else if p[0].now.start < |b| - 1 {
          SettlesInside(p, kept, a, b, t, i, j, d, s, e, es);
        } else {
          SettlesLast(p, kept, a, b, t, i, j, d, s, e, es);
        }
      }
    }
  }

  lemma {:induction false} RejectionsBehind(p: seq<Edit>, kept: seq<bool>, a: seq<Row>, b: seq<Row>, t: seq<Row>,
                                           i: int, j: int, d: int, s: int, es: seq<Edit>)
    requires Facing(p, kept, a, b, t, i, j, d) && s == i - j && |kept| == |p| > 0
    requires es == RejectionEdits(p[1..], kept[1..], t, b, if kept[0] then d + p[0].Delta() else d)
    ensures Behind(p, kept, a, b, t, d, s, es)
    decreases |p|, 0
  {
    hide *;
    HeadOrder(p, kept, a, b, t, i, j, d);
    FacingTail(p, kept, a, b, t, i, j, d);
    NextDistance(p[0], i, j, s);
    RejectionsSettle(p[1..], kept[1..], a, b, t, p[0].was.end, p[0].now.end, if kept[0] then d + p[0].Delta() else d,
                     s - p[0].Delta());
    BehindBy(p, kept, a, b, t, d, s, es);
  }

  lemma {:induction false} SettlesJoined(p: seq<Edit>, kept: seq<bool>, a: seq<Row>, b: seq<Row>, t: seq<Row>,
                                        i: int, j: int, d: int, s: int, e: Edit, rest: seq<Edit>)
    requires Facing(p, kept, a, b, t, i, j, d) && s == i - j && |kept| == |p| > 0 && !kept[0]
    requires Behind(p, kept, a, b, t, d, s, rest)
    requires Lifted(p[0], e, a, b, t, d) && e == LiftedRejection(p[0].ShiftOld(d), t, b)
    requires rest != [] && e.was.end >= rest[0].was.start
    ensures Settles(p, kept, a, b, t, i, j, d, s)
    decreases |p|, 0
  {
    hide *;
    JoinsOnlyNext(p, kept, a, b, t, i, j, d, s, e, rest);
    var f := LiftedRejection(p[1].ShiftOld(d), t, b);
    var es := RejectionEdits(p[1..][1..], kept[1..][1..], t, b, d);
    HeadOrder(p, kept, a, b, t, i, j, d);
    FacingTail(p, kept, a, b, t, i, j, d);
    NextDistance(p[0], i, j, s);
    RejectionsBehind(p[1..], kept[1..], a, b, t, p[0].was.end, p[0].now.end, d, s - p[0].Delta(), es);
    if Slips(p[0], a, b) && Slips(p[1], a, b) {
      SettlesJoinedSlipping(p, kept, a, b, t, i, j, d, s, e, f, es);
    } else {
      SettlesJoinedStill(p, kept, a, b, t, i, j, d, s, e, f, es);
    }
  }

  lemma FacingLength(p: seq<Edit>, kept: seq<bool>, a: seq<Row>, b: seq<Row>, t: seq<Row>, i: int, j: int, d: int)
    requires Facing(p, kept, a, b, t, i, j, d)
    ensures |kept| == |p|
  {
  }

  lemma NextDistance(u: Edit, i: int, j: int, s: int)
    requires s == i - j && u.was.start - i == u.now.start - j
    ensures s - u.Delta() == u.was.end - u.now.end
  {
  }

  lemma BehindBy(p: seq<Edit>, kept: seq<bool>, a: seq<Row>, b: seq<Row>, t: seq<Row>, d: int, s: int, es: seq<Edit>)
    requires |kept| == |p| > 0
    requires Settles(p[1..], kept[1..], a, b, t, p[0].was.end, p[0].now.end, if kept[0] then d + p[0].Delta() else d,
                     s - p[0].Delta())
    requires es == RejectionEdits(p[1..], kept[1..], t, b, if kept[0] then d + p[0].Delta() else d)
    ensures Behind(p, kept, a, b, t, d, s, es)
  {
  }

  // ------------------------------------------------------------------ the result

  /** All lengthen, or all shorten. */
  ghost predicate OneSided(l: seq<int>) {
    (forall x :: x in l ==> x >= 0) || (forall x :: x in l ==> x <= 0)
  }

  lemma OneSidedSum(l: seq<int>)
    requires OneSided(l)
    ensures Sum(l) == 0 <==> AllZero(l)
  {
    if forall x :: x in l ==> x >= 0 {
      LengthensSum(l);
    } else {
      ShortensSum(l);
    }
  }

  lemma {:induction false} LengthensSum(l: seq<int>)
    requires forall x :: x in l ==> x >= 0
    ensures Sum(l) >= 0 && (Sum(l) == 0 <==> AllZero(l))
  {
    if l != [] {
      assert l == [l[0]] + l[1..];
      assert forall x :: x in l <==> x == l[0] || x in l[1..];
      assert l[0] in l;
      LengthensSum(l[1..]);
    }
  }

  lemma {:induction false} ShortensSum(l: seq<int>)
    requires forall x :: x in l ==> x <= 0
    ensures Sum(l) <= 0 && (Sum(l) == 0 <==> AllZero(l))
  {
    if l != [] {
      assert l == [l[0]] + l[1..];
      assert forall x :: x in l <==> x == l[0] || x in l[1..];
      assert l[0] in l;
      ShortensSum(l[1..]);
    }
  }

  /** Rows replaced by as many are replaced by themselves. */
  ghost predicate StillIfEqual(m: seq<Edit>) {
    forall r :: r in m && r.Delta() == 0 ==> r.was == r.now || (r.was.IsEmpty() && r.now.IsEmpty())
  }

  lemma {:induction false} RepeatsStill(p: seq<Edit>, kept: seq<bool>, a: seq<Row>, b: seq<Row>, caught: bool)
    requires |kept| == |p|
    ensures StillIfEqual(Repeats(p, kept, a, b, caught))
  {
    if p != [] {
      RepeatsStill(p[1..], kept[1..], a, b, CatchesNext(p, kept, a, b));
    }
  }

  lemma AllZeroHead(x: int, l: seq<int>)
    ensures AllZero([x] + l) <==> x == 0 && AllZero(l)
  {
    assert forall y :: y in [x] + l <==> y == x || y in l;
    if AllZero([x] + l) {
      assert x in [x] + l;
      forall y | y in l
        ensures y == 0
      {
        assert y in [x] + l;
      }
    }
  }

  lemma {:induction false} RepeatsLength(m: seq<Edit>, a: seq<Row>, i: int)
    requires Chained(m, a, i) && 0 <= i <= |a| && StillIfEqual(m)
    ensures |Overlay(m, a, a, i)| == |a| - i + Sum(Deltas(m))
    ensures AllZero(Deltas(m)) ==> Overlay(m, a, a, i) == a[i..]
  {
    hide *;
    if m == [] {
      OverlayEnds(a, a, i);
      NoDeltas();
    } else {
      var r := m[0];
      ChainedHead(m, a, i);
      StillHead(m);
      DeltasHead(m);
      RepeatsLength(m[1..], a, r.was.end);
      AllZeroHead(r.Delta(), Deltas(m[1..]));
      OverlayHead(r, m[1..], a, a, i);
      RepeatedHead(r, a, i);
    }
  }

  lemma NoDeltas()
    ensures Sum(Deltas([])) == 0
  {
  }

  lemma ChainedHead(m: seq<Edit>, a: seq<Row>, x: int)
    requires m != [] && Chained(m, a, x)
    ensures m == [m[0]] + m[1..] && x <= m[0].was.start <= m[0].was.end <= |a|
    ensures 0 <= m[0].now.start <= m[0].now.end <= |a| && Chained(m[1..], a, m[0].was.end)
  {
  }

  lemma StillHead(m: seq<Edit>)
    requires m != [] && StillIfEqual(m)
    ensures m[0].Delta() == 0 ==> m[0].was == m[0].now || (m[0].was.IsEmpty() && m[0].now.IsEmpty())
    ensures StillIfEqual(m[1..])
  {
    assert m[0] in m;
  }

  lemma DeltasHead(m: seq<Edit>)
    requires m != []
    ensures Deltas(m) == [m[0].Delta()] + Deltas(m[1..]) && Sum(Deltas(m)) == m[0].Delta() + Sum(Deltas(m[1..]))
  {
    assert ([m[0].Delta()] + Deltas(m[1..]))[1..] == Deltas(m[1..]);
  }

  lemma RepeatedHead(r: Edit, a: seq<Row>, i: int)
    requires 0 <= i <= r.was.start <= r.was.end <= |a| && 0 <= r.now.start <= r.now.end <= |a|
    ensures |a[i..r.was.start] + a[r.now.start..r.now.end]| == r.was.start - i + r.now.Len()
    ensures r.Delta() == r.now.Len() - r.was.Len() && r.was.Len() == r.was.end - r.was.start
    ensures r.was == r.now || (r.was.IsEmpty() && r.now.IsEmpty()) ==>
              a[i..r.was.start] + a[r.now.start..r.now.end] + a[r.was.end..] == a[i..]
  {
    SliceCat3(a, i, r.was.start, r.was.end);
  }

  /** Rejecting any edits of any patch, seen from the base: each rejection that slips, and is not caught,
      puts another copy of base rows into it. So the base changes its length by the sum of what these add;
      if each replaces as many rows as there were, it stays as it is; and if they do not partly lengthen
      and partly shorten it, only then. */
  lemma RejectionDrift(p: seq<Edit>, kept: seq<bool>, a: seq<Row>, b: seq<Row>, t: seq<Row>)
    requires Leads(p, a, b) && Separated(p) && RealStarts(p, a, b) && |kept| == |p| && t == Pick(p, a, b, kept, 0)
    ensures var (r, l) := (RebasedRows(p, RejectionEdits(p, kept, t, b, 0), a, t), Drifts(p, kept, a, b));
            && r == Overlay(Repeats(p, kept, a, b, false), a, a, 0)
            && |r| == |a| + Sum(l)
            && (AllZero(l) ==> r == a)
            && (OneSided(l) ==> (r == a <==> AllZero(l)))
  {
    hide *;
    FacingStarts(p, kept, a, b);
    RejectionsSettle(p, kept, a, b, t, 0, 0, 0, 0);
    DriftOf(p, kept, a, b, t);
    RepeatsStill(p, kept, a, b, false);
    RepeatsLength(Repeats(p, kept, a, b, false), a, 0);
    DriftsAreDeltas(p, kept, a, b);
    AllOut(a);
    var l := Drifts(p, kept, a, b);
    if OneSided(l) {
      OneSidedSum(l);
    }
  }

  lemma DriftsAreDeltas(p: seq<Edit>, kept: seq<bool>, a: seq<Row>, b: seq<Row>)
    requires |kept| == |p|
    ensures Drifts(p, kept, a, b) == Deltas(Repeats(p, kept, a, b, false))
  {
  }

  lemma DriftOf(p: seq<Edit>, kept: seq<bool>, a: seq<Row>, b: seq<Row>, t: seq<Row>)
    requires |kept| == |p| && Settles(p, kept, a, b, t, 0, 0, 0, 0)
    ensures Chained(Repeats(p, kept, a, b, false), a, 0)
    ensures RebasedRows(p, RejectionEdits(p, kept, t, b, 0), a, t) == Overlay(Repeats(p, kept, a, b, false), a, a, 0)
  {
    hide Overlay, Carried, Repeats, RejectionEdits, Chained;
    ChainedStarts(Repeats(p, kept, a, b, false), a, if p == [] then 0 else p[0].was.start, 0);
  }

  // ------------------------------------------------------------------ the report of a rejection

  /** Where a row starts, and whether it is blank. */
  lemma RowStart(s: string, row: int)
    requires 0 <= row < |Rows(s)|
    ensures PointAt(s, Offset(s, row)) == Point(row, 0)
    ensures LineLen(s, row) == |Rows(s)[row]|
    ensures Offset(s, row) == |s| <==> row == |Rows(s)| - 1 && Rows(s)[row] == ""
    ensures Offset(s, row) < |s| && s[Offset(s, row)] == '\n' <==> row < |Rows(s)| - 1 && Rows(s)[row] == ""
  {
    hide Offset;
    AtOffset(s, row);
    var o := Offset(s, row);
    FirstRowEmpty(s[o..]);
    assert Rows(s)[row..][0] == Rows(s)[row];
    hide Rows;
    if o == |s| {
      RowsOfNothing();
      assert s[o..] == "";
    }
  }

  lemma RowsEnd(s: string, row: int)
    requires 0 <= row <= |Rows(s)|
    ensures PointAt(s, Offset(s, row)) == EndPoint(Rows(s), row)
  {
    hide *;
    EndPointIs(Rows(s), row);
    if row < |Rows(s)| {
      RowStart(s, row);
    } else {
      OffsetPastEnd(s, row);
      PointAtEnd(s);
    }
  }

  lemma EndPointIs(rows: seq<Row>, row: int)
    requires rows != []
    ensures EndPoint(rows, row) == if row < |rows| then Point(row, 0) else Point(|rows| - 1, |rows[|rows| - 1]|)
  {
  }

  lemma PointAtEnd(s: string)
    ensures PointAt(s, |s|) == Point(|Rows(s)| - 1, |Rows(s)[|Rows(s)| - 1]|)
  {
    assert s[..|s|] == s;
    hide Rows;
  }

  /** Replacing whole rows of `s` by whole rows of `text`, in characters. */
  function RowsReplaced(s: string, text: string, v: Edit): Edit {
    Edit(CharsOf(s, v.now), CharsOf(text, v.was))
  }

  /** What the buffer reports after a rejection: `q` leads from the rows of the new text back to the
      rows of the snapshot, and each of its edits was replaced. */
  function RejectionReport(q: seq<Edit>, s: string, text: string): (r: seq<Edit>)
    ensures |r| == |q| && forall k :: 0 <= k < |q| ==> r[k] == RowsReplaced(s, text, q[k])
  {
    if q == [] then [] else [RowsReplaced(s, text, q[0])] + RejectionReport(q[1..], s, text)
  }

  lemma RowsReplacedLifted(text: string, s: string, v: Edit)
    requires RealEdit(v, Rows(text), Rows(s))
    ensures InBounds(RowsReplaced(s, text, v), s, text)
    ensures Lift(RowsReplaced(s, text, v), s, text) == LiftedRejection(v, Rows(text), Rows(s))
  {
    hide Rows, Offset, EndPoint, LineLen, PointAt, PointToOffset, MaxPoint;
    RowStart(text, v.was.start);
    RowStart(s, v.now.start);
    RowsEnd(text, v.was.end);
    RowsEnd(s, v.now.end);
    OffsetMonotonic(text, v.was.start, v.was.end);
    OffsetMonotonic(s, v.now.start, v.now.end);
    PointRoundTrip(text, Offset(text, v.was.start));
    LineEnd(s, Offset(s, v.now.start));
  }

  ghost predicate AllReal(q: seq<Edit>, t: seq<Row>, b: seq<Row>) {
    forall v :: v in q ==> RealEdit(v, t, b)
  }

  lemma {:induction false} ReportLifted(q: seq<Edit>, s: string, text: string)
    requires AllReal(q, Rows(text), Rows(s))
    ensures AllInBounds(RejectionReport(q, s, text), s, text)
    ensures LiftAll(RejectionReport(q, s, text), s, text) == LiftedRejections(q, Rows(text), Rows(s))
  {
    hide Rows, RealEdit, InBounds, Lift, RowsReplaced, LiftedRejection;
    if q != [] {
      assert q[0] in q;
      RowsReplacedLifted(text, s, q[0]);
      ReportLifted(q[1..], s, text);
      ReportHead(RowsReplaced(s, text, q[0]), RejectionReport(q[1..], s, text), s, text);
    }
  }

  lemma ReportHead(c: Edit, cs: seq<Edit>, s: string, text: string)
    requires InBounds(c, s, text) && AllInBounds(cs, s, text)
    ensures AllInBounds([c] + cs, s, text) && LiftAll([c] + cs, s, text) == [Lift(c, s, text)] + LiftAll(cs, s, text)
  {
    hide InBounds, Lift;
    assert ([c] + cs)[1..] == cs;
  }

  /** The characters in front of the first edit are the same. */
  lemma SameLeadingText(s: string, text: string, i: int, j: int, x: int, y: int)
    requires 0 <= i <= x < |Rows(text)| && 0 <= j <= y < |Rows(s)| && Rows(text)[i..x] == Rows(s)[j..y]
    ensures Offset(text, i) <= Offset(text, x) && Offset(s, j) <= Offset(s, y)
    ensures s[Offset(s, j)..Offset(s, y)] == text[Offset(text, i)..Offset(text, x)]
  {
    hide Rows, Offset;
    OffsetMonotonic(text, i, x);
    OffsetMonotonic(s, j, y);
    LeadingRows(text, i, x);
    LeadingRows(s, j, y);
    RowsInjective(RowText(text, Range(i, x)), RowText(s, Range(j, y)));
  }

  lemma SameTrailingText(s: string, text: string, i: int, j: int)
    requires 0 <= i <= |Rows(text)| && 0 <= j <= |Rows(s)| && Rows(text)[i..] == Rows(s)[j..]
    ensures s[Offset(s, j)..] == text[Offset(text, i)..]
  {
    hide Rows, Offset;
    RowsOfRest(text, i);
    RowsOfRest(s, j);
    RowsInjective(s[Offset(s, j)..], text[Offset(text, i)..]);
  }

  /** The report is a proper one: separated character edits that lead from the snapshot to the text. */
  lemma {:induction false} ReportAligned(q: seq<Edit>, s: string, text: string, i: int, j: int)
    requires Aligned(q, Rows(text), Rows(s), i, j) && InOrder(q) && AllReal(q, Rows(text), Rows(s))
    ensures Aligned(RejectionReport(q, s, text), s, text, Offset(s, j), Offset(text, i))
    ensures InOrder(RejectionReport(q, s, text))
    decreases q
  {
    hide *;
    AlignedBounds(q, Rows(text), Rows(s), i, j);
    if q == [] {
      SameTrailingText(s, text, i, j);
      ReportOfNothing(s, text, i, j);
    } else {
      var v, c, rest := q[0], RowsReplaced(s, text, q[0]), RejectionReport(q[1..], s, text);
      ReportFirst(q, Rows(text), Rows(s), i, j);
      SameLeadingText(s, text, i, j, v.was.start, v.now.start);
      ReportAligned(q[1..], s, text, v.was.end, v.now.end);
      RowsReplacedAre(s, text, v);
      Prepend(c, rest, s, text, Offset(s, j), Offset(text, i));
      if |q| > 1 {
        ReportApart(q, s, text);
        ConsInOrder(c, rest);
      } else {
        AloneInOrder(c, q, s, text);
      }
      ReportUnrolled(q, s, text);
    }
  }

  lemma AlignedBounds<T>(q: seq<Edit>, a: seq<T>, b: seq<T>, i: int, j: int)
    requires Aligned(q, a, b, i, j)
    ensures 0 <= i <= |a| && 0 <= j <= |b| && (q == [] ==> a[i..] == b[j..])
  {
  }

  lemma ReportOfNothing(s: string, text: string, i: int, j: int)
    requires s[Offset(s, j)..] == text[Offset(text, i)..]
    ensures Aligned(RejectionReport([], s, text), s, text, Offset(s, j), Offset(text, i))
    ensures InOrder(RejectionReport([], s, text))
  {
  }

  lemma ReportUnrolled(q: seq<Edit>, s: string, text: string)
    requires q != []
    ensures RejectionReport(q, s, text) == [RowsReplaced(s, text, q[0])] + RejectionReport(q[1..], s, text)
  {
  }

  lemma ReportFirst(q: seq<Edit>, t: seq<Row>, b: seq<Row>, i: int, j: int)
    requires q != [] && Aligned(q, t, b, i, j) && InOrder(q) && AllReal(q, t, b)
    ensures 0 <= i <= q[0].was.start <= q[0].was.end <= |t| && 0 <= j <= q[0].now.start <= q[0].now.end <= |b|
    ensures q[0].was.start < |t| && q[0].now.start < |b| && t[i..q[0].was.start] == b[j..q[0].now.start]
    ensures Aligned(q[1..], t, b, q[0].was.end, q[0].now.end) && InOrder(q[1..]) && AllReal(q[1..], t, b)
  {
    assert q[0] in q;
    assert forall v :: v in q[1..] ==> v in q;
    hide RealEdit;
    RealStart(q[0], t, b);
  }

  lemma RealStart(v: Edit, t: seq<Row>, b: seq<Row>)
    requires RealEdit(v, t, b)
    ensures v.was.start < |t| && v.now.start < |b|
  {
  }

  lemma RowsReplacedAre(s: string, text: string, v: Edit)
    requires v.was.start <= v.was.end && v.now.start <= v.now.end
    ensures var c := RowsReplaced(s, text, v);
            && c.was == Range(Offset(s, v.now.start), Offset(s, v.now.end))
            && c.now == Range(Offset(text, v.was.start), Offset(text, v.was.end))
            && c.was.start <= c.was.end <= |s| && c.now.start <= c.now.end <= |text|
  {
    OffsetMonotonic(s, v.now.start, v.now.end);
    OffsetMonotonic(text, v.was.start, v.was.end);
  }

  /** Rows in between keep the characters of two edits apart. */
  lemma ReportApart(q: seq<Edit>, s: string, text: string)
    requires |q| > 1 && InOrder(q) && AllReal(q, Rows(text), Rows(s))
    ensures var (c, r) := (RowsReplaced(s, text, q[0]), RejectionReport(q[1..], s, text));
            r != [] && c.was.end < r[0].was.start && c.now.end < r[0].now.start
  {
    hide Rows, Offset;
    assert q[0] in q && q[1] in q && q[1..][0] == q[1];
    OffsetsApart(s, q[0].now.end, q[1].now.start);
    OffsetsApart(text, q[0].was.end, q[1].was.start);
  }

  lemma AloneInOrder(c: Edit, q: seq<Edit>, s: string, text: string)
    requires |q| == 1 && c.was.start <= c.was.end && c.now.start <= c.now.end
    ensures InOrder([c] + RejectionReport(q[1..], s, text))
  {
    assert RejectionReport(q[1..], s, text) == [];
    assert ([c] + [])[1..] == [];
    assert InOrder([]);
  }

  /** What a rejection reports, lifted and joined by the log. */
  lemma ReportOfRejection(p: seq<Edit>, kept: seq<bool>, base: string, s: string, text: string)
    requires Leads(p, Rows(base), Rows(s)) && Separated(p) && RealStarts(p, Rows(base), Rows(s)) && |kept| == |p|
    requires Rows(text) == Pick(p, Rows(base), Rows(s), kept, 0)
    ensures var cs := RejectionReport(Remainder(p, kept, 0), s, text);
            && Leads(cs, s, text) && Separated(cs) && AllInBounds(cs, s, text)
            && Coalesce(LiftAll(cs, s, text)) == RejectionEdits(p, kept, Rows(text), Rows(s), 0)
  {
    hide *;
    var q := Remainder(p, kept, 0);
    RemainderKeepsShape(p, Rows(base), Rows(s), kept);
    LeadsAligned(q, Rows(text), Rows(s));
    AlignedInOrder(q, Rows(text), Rows(s), 0, 0);
    EditsAreReal(q, Rows(text), Rows(s));
    RealByEdits(q, Rows(text), Rows(s));
    ReportLifted(q, s, text);
    ReportAligned(q, s, text, 0, 0);
    InOrderSeparated(RejectionReport(q, s, text));
    ReportStarts(p, kept, s, text, q);
  }

  lemma ReportStarts(p: seq<Edit>, kept: seq<bool>, s: string, text: string, q: seq<Edit>)
    requires |kept| == |p| && q == Remainder(p, kept, 0)
    requires Aligned(RejectionReport(q, s, text), s, text, Offset(s, 0), Offset(text, 0))
    ensures Leads(RejectionReport(q, s, text), s, text)
    ensures RejectionEdits(p, kept, Rows(text), Rows(s), 0) == Coalesce(LiftedRejections(q, Rows(text), Rows(s)))
  {
    hide Rows, Aligned, Remainder;
    EmptyOffset(s);
    EmptyOffset(text);
  }

  lemma RealByEdits(q: seq<Edit>, t: seq<Row>, b: seq<Row>)
    requires Aligned(q, t, b, 0, 0) && InOrder(q) && EditsReal(q, t, b)
    ensures AllReal(q, t, b)
  {
    forall v | v in q
      ensures RealEdit(v, t, b)
    {
      var k :| 0 <= k < |q| && q[k] == v;
      AfterFrontier(q, t, b, 0, 0, k);
    }
  }

  /** The report names just the characters that the rejection replaced, and the text it put there. */
  ghost predicate NamesReplaced(cs: seq<Edit>, l: seq<Replacement>, text: string) {
    && |cs| == |l|
    && (cs != [] ==>
          && cs[0].was == l[0].at && 0 <= cs[0].now.start <= cs[0].now.end <= |text|
          && text[cs[0].now.start..cs[0].now.end] == l[0].text
          && NamesReplaced(cs[1..], l[1..], text))
  }

  lemma SameRowText(base: string, text: string, r: Range, q: Range)
    requires 0 <= r.start <= r.end <= |Rows(base)| && r.start < |Rows(base)|
    requires 0 <= q.start <= q.end <= |Rows(text)| && q.start < |Rows(text)|
    requires Rows(base)[r.start..r.end] == Rows(text)[q.start..q.end]
    requires r.end == |Rows(base)| <==> q.end == |Rows(text)|
    ensures RowText(base, r) == RowText(text, q)
    ensures Offset(text, q.start) <= Offset(text, q.end) <= |text|
    ensures RowText(text, q) == text[Offset(text, q.start)..Offset(text, q.end)]
  {
    hide Rows, Offset;
    SliceRows(base, r);
    SliceRows(text, q);
    ToEnd(Rows(base), r.start);
    ToEnd(Rows(text), q.start);
    RowsInjective(RowText(base, r), RowText(text, q));
  }

  lemma {:induction false} ReportMatches(p: seq<Edit>, kept: seq<bool>, base: string, s: string, text: string, i: int,
                                         j: int, d: int)
    requires Facing(p, kept, Rows(base), Rows(s), Rows(text), i, j, d)
    ensures |kept| == |p|
    ensures NamesReplaced(RejectionReport(Remainder(p, kept, d), s, text),
                          Reverts(base, p, AllCharsOf(p, s), Negated(kept)), text)
    decreases p
  {
    hide *;
    FacingLength(p, kept, Rows(base), Rows(s), Rows(text), i, j, d);
    if p == [] {
      NothingMatches(base, s, text, kept, d);
    } else {
      FacingTail(p, kept, Rows(base), Rows(s), Rows(text), i, j, d);
      var d' := if kept[0] then d + p[0].Delta() else d;
      ReportMatches(p[1..], kept[1..], base, s, text, p[0].was.end, p[0].now.end, d');
      if kept[0] {
        MatchesKept(p, kept, base, s, text, d);
      } else {
        RejectedHead(p, kept, Rows(base), Rows(s), Rows(text), i, j, d);
        HeadTexts(p[0], Rows(base), Rows(s), Rows(text), d);
        SameRowText(base, text, p[0].was, Range(p[0].was.start + d, p[0].was.end + d));
        ReplacedParts(p[0], s, text, d);
        MatchesRejected(p, kept, base, s, text, d, RowsReplaced(s, text, p[0].ShiftOld(d)));
      }
    }
  }

  lemma HeadTexts(u: Edit, a: seq<Row>, b: seq<Row>, t: seq<Row>, d: int)
    requires RealEdit(u, a, b) && RealEdit(u.ShiftOld(d), t, b)
    requires t[u.ShiftOld(d).was.start..u.ShiftOld(d).was.end] == a[u.was.start..u.was.end]
    ensures 0 <= u.was.start <= u.was.end <= |a| && u.was.start < |a|
    ensures 0 <= u.was.start + d <= u.was.end + d <= |t| && u.was.start + d < |t|
    ensures t[u.was.start + d..u.was.end + d] == a[u.was.start..u.was.end]
    ensures u.was.end == |a| <==> u.was.end + d == |t|
    ensures u.ShiftOld(d).was == Range(u.was.start + d, u.was.end + d)
  {
  }

  lemma NothingMatches(base: string, s: string, text: string, kept: seq<bool>, d: int)
    requires kept == []
    ensures NamesReplaced(RejectionReport(Remainder([], kept, d), s, text),
                          Reverts(base, [], AllCharsOf([], s), Negated(kept)), text)
  {
  }

  lemma MatchesKept(p: seq<Edit>, kept: seq<bool>, base: string, s: string, text: string, d: int)
    requires |kept| == |p| > 0 && kept[0]
    requires NamesReplaced(RejectionReport(Remainder(p[1..], kept[1..], d + p[0].Delta()), s, text),
                     Reverts(base, p[1..], AllCharsOf(p[1..], s), Negated(kept[1..])), text)
    ensures NamesReplaced(RejectionReport(Remainder(p, kept, d), s, text),
                          Reverts(base, p, AllCharsOf(p, s), Negated(kept)), text)
  {
    RevertsTail(base, p, s, kept);
    hide NamesReplaced, RejectionReport, Reverts;
  }

  lemma RevertsTail(base: string, p: seq<Edit>, s: string, kept: seq<bool>)
    requires |kept| == |p| > 0
    ensures Reverts(base, p, AllCharsOf(p, s), Negated(kept))
            == (if kept[0] then [] else [Replacement(CharsOf(s, p[0].now), RowText(base, p[0].was))])
               + Reverts(base, p[1..], AllCharsOf(p[1..], s), Negated(kept[1..]))
    ensures kept[0] ==>
              Reverts(base, p, AllCharsOf(p, s), Negated(kept))
                == Reverts(base, p[1..], AllCharsOf(p[1..], s), Negated(kept[1..]))
  {
    assert AllCharsOf(p, s)[1..] == AllCharsOf(p[1..], s);
    assert Negated(kept)[1..] == Negated(kept[1..]);
    hide CharsOf, RowText;
  }

  lemma MatchesRejected(p: seq<Edit>, kept: seq<bool>, base: string, s: string, text: string, d: int, c: Edit)
    requires |kept| == |p| > 0 && !kept[0] && c == RowsReplaced(s, text, p[0].ShiftOld(d))
    requires NamesReplaced(RejectionReport(Remainder(p[1..], kept[1..], d), s, text),
                     Reverts(base, p[1..], AllCharsOf(p[1..], s), Negated(kept[1..])), text)
    requires c.was == CharsOf(s, p[0].now) && 0 <= c.now.start <= c.now.end <= |text|
    requires text[c.now.start..c.now.end] == RowText(base, p[0].was)
    ensures NamesReplaced(RejectionReport(Remainder(p, kept, d), s, text),
                          Reverts(base, p, AllCharsOf(p, s), Negated(kept)), text)
  {
    hide *;
    RevertsTail(base, p, s, kept);
    ReportRejected(p, kept, s, text, d);
    MatchesMore(c, RejectionReport(Remainder(p[1..], kept[1..], d), s, text),
                Replacement(CharsOf(s, p[0].now), RowText(base, p[0].was)),
                Reverts(base, p[1..], AllCharsOf(p[1..], s), Negated(kept[1..])), text);
  }

  lemma ReplacedParts(u: Edit, s: string, text: string, d: int)
    ensures RowsReplaced(s, text, u.ShiftOld(d)).was == CharsOf(s, u.now)
    ensures RowsReplaced(s, text, u.ShiftOld(d)).now
            == Range(Offset(text, u.was.start + d), Offset(text, u.was.end + d))
  {
  }

  lemma ReportRejected(p: seq<Edit>, kept: seq<bool>, s: string, text: string, d: int)
    requires |kept| == |p| > 0 && !kept[0]
    ensures RejectionReport(Remainder(p, kept, d), s, text)
            == [RowsReplaced(s, text, p[0].ShiftOld(d))] + RejectionReport(Remainder(p[1..], kept[1..], d), s, text)
  {
    hide RowsReplaced;
  }

  lemma MatchesMore(c: Edit, cs: seq<Edit>, r: Replacement, l: seq<Replacement>, text: string)
    requires NamesReplaced(cs, l, text) && c.was == r.at && 0 <= c.now.start <= c.now.end <= |text|
    requires text[c.now.start..c.now.end] == r.text
    ensures NamesReplaced([c] + cs, [r] + l, text)
  {
    assert ([c] + cs)[1..] == cs && ([r] + l)[1..] == l;
  }

  /** Rejecting and reporting, together: the report is proper and names exactly what was replaced. */
  lemma RejectionReported(p: seq<Edit>, kept: seq<bool>, base: string, s: string, text: string)
    requires Leads(p, Rows(base), Rows(s)) && Separated(p) && RealStarts(p, Rows(base), Rows(s)) && |kept| == |p|
    requires RejectingGives(base, s, p, Negated(kept), text)
    ensures Rows(text) == Pick(p, Rows(base), Rows(s), kept, 0)
    ensures var cs := RejectionReport(Remainder(p, kept, 0), s, text);
            && Leads(cs, s, text) && Separated(cs)
            && NamesReplaced(cs, Reverts(base, p, AllCharsOf(p, s), Negated(kept)), text)
  {
    hide *;
    RejectedRows(base, s, p, Negated(kept));
    LeadsAligned(p, Rows(base), Rows(s));
    PickInverted(p, Rows(base), Rows(s), kept, 0, 0);
    RejectingText(base, s, p, Negated(kept), text);
    ReportOfRejection(p, kept, base, s, text);
    FacingStarts(p, kept, Rows(base), Rows(s));
    ReportMatches(p, kept, base, s, text, 0, 0, 0);
  }

  lemma RejectingText(base: string, s: string, p: seq<Edit>, picks: seq<bool>, text: string)
    requires |picks| == |p| && RejectingGives(base, s, p, picks, text)
    ensures var l := Reverts(base, p, AllCharsOf(p, s), picks); Fits(l, |s|, 0) && ApplyAll(l, s, 0) == text
  {
  }

  /** Rejections that do not slip, or that replace as many rows as there were, leave no drift. */
  lemma {:induction false} NoSlipNoDrift(p: seq<Edit>, kept: seq<bool>, a: seq<Row>, b: seq<Row>, caught: bool)
    requires |kept| == |p|
    requires forall k :: 0 <= k < |p| && !kept[k] ==> !Slips(p[k], a, b) || p[k].Delta() == 0
    ensures AllZero(Deltas(Repeats(p, kept, a, b, caught)))
  {
    hide Slips, Shifted;
    if p != [] {
      var m := Repeats(p[1..], kept[1..], a, b, CatchesNext(p, kept, a, b));
      NoSlipNoDrift(p[1..], kept[1..], a, b, CatchesNext(p, kept, a, b));
      RepeatsHead(p, kept, a, b, caught);
      NoMore(m);
      assert ([RepeatOf(p[0], b)] + m)[1..] == m;
      AllZeroHead(RepeatOf(p[0], b).Delta(), Deltas(m));
    }
  }
}
