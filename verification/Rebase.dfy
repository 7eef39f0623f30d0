/** Rebasing user edits over unreviewed agent edits.

    A patch `p` of unreviewed edits leads from the base to the snapshot; row edits `es` by the user
    lead from the snapshot to the new snapshot. A user edit that conflicts with no unreviewed edit
    is carried over to the base; the others become part of what is under review. */
module Rebase {
  import opened Patches

  /** The user edit ends before the unreviewed edit. */
  predicate Before(e: Edit, u: Edit) {
    e.was.end < u.now.start || (!u.now.IsEmpty() && e.was.end == u.now.start)
  }

  /** The user edit starts after the unreviewed edit. */
  predicate After(e: Edit, u: Edit) {
    e.was.start > u.now.end || (!u.now.IsEmpty() && e.was.start == u.now.end)
  }

  predicate Conflict(e: Edit, u: Edit) {
    !Before(e, u) && !After(e, u)
  }

  ghost predicate NoConflict(p: seq<Edit>, e: Edit) {
    forall u :: u in p ==> !Conflict(e, u)
  }

  /** How far the unreviewed edits before `e` have moved the rows of the base. */
  ghost function DeltaBefore(p: seq<Edit>, e: Edit): int {
    if p == [] then 0
    else (if After(e, p[0]) then p[0].Delta() else 0) + DeltaBefore(p[1..], e)
  }

  /** The user edits that conflict with no unreviewed edit, their old rows expressed in the base;
      `s` is the distance from snapshot rows to base rows before the first unreviewed edit. */
  ghost function Carried(p: seq<Edit>, es: seq<Edit>, s: int): seq<Edit> {
    if es == [] then []
    else (if NoConflict(p, es[0]) then [es[0].ShiftOld(s - DeltaBefore(p, es[0]))] else [])
         + Carried(p, es[1..], s)
  }

  /** `a` from `i` on with every edit of `f` applied, the new rows taken from `t`. */
  ghost function Overlay<T>(f: seq<Edit>, a: seq<T>, t: seq<T>, i: int): (r: seq<T>) {
    if f == [] then (if 0 <= i <= |a| then a[i..] else [])
    else
      var e := f[0];
      if 0 <= i <= e.was.start <= e.was.end <= |a| && 0 <= e.now.start <= e.now.end <= |t|
      then a[i..e.was.start] + t[e.now.start..e.now.end] + Overlay(f[1..], a, t, e.was.end)
      else []
  }

  /** The rebased base: all of it, with the carried edits applied. */
  ghost function RebasedRows<T>(p: seq<Edit>, es: seq<Edit>, a: seq<T>, t: seq<T>): seq<T> {
    Overlay(Carried(p, es, 0), a, t, 0)
  }

  // ------------------------------------------------------------------ order of the two lists

  lemma BeforeAll(e: Edit, p: seq<Edit>)
    requires InOrder(p)
    requires p != [] ==> Before(e, p[0])
    requires e.was.start <= e.was.end
    ensures forall u :: u in p ==> Before(e, u) && !After(e, u)
  {
    forall u | u in p
      ensures Before(e, u) && !After(e, u)
    {
      LaterEdit(p, u);
    }
  }

  lemma AllAfter(es: seq<Edit>, u: Edit)
    requires InOrder(es)
    requires es != [] ==> After(es[0], u)
    requires u.now.start <= u.now.end
    ensures forall e :: e in es ==> After(e, u) && !Before(e, u)
  {
    forall e | e in es
      ensures After(e, u) && !Before(e, u)
    {
      LaterEdit(es, e);
    }
  }

  lemma DeltaBeforeZero(p: seq<Edit>, e: Edit)
    requires forall u :: u in p ==> !After(e, u)
    ensures DeltaBefore(p, e) == 0
  {
  }

  /** An unreviewed edit before all remaining user edits can be folded into the distance. */
  lemma {:induction false} CarriedDropHead(p: seq<Edit>, es: seq<Edit>, s: int)
    requires p != []
    requires forall e :: e in es ==> After(e, p[0]) && !Before(e, p[0])
    ensures Carried(p, es, s) == Carried(p[1..], es, s - p[0].Delta())
  {
    if es != [] {
      assert es[0] in es;
      assert NoConflict(p, es[0]) <==> NoConflict(p[1..], es[0]) by {
        assert p == [p[0]] + p[1..];
      }
      CarriedDropHead(p, es[1..], s);
    }
  }

  /** Carried edits lie at or after the frontier and inside the base. */
  lemma {:induction false} CarriedFits<T>(p: seq<Edit>, e: Edit, a: seq<T>, b: seq<T>, i: int, j: int, s: int)
    requires Aligned(p, a, b, i, j) && InOrder(p)
    requires i == j + s && j <= e.was.start <= e.was.end <= |b|
    requires NoConflict(p, e)
    ensures var o := s - DeltaBefore(p, e); i <= e.was.start + o && e.was.end + o <= |a|
  {
    if p == [] {
      assert |a[i..]| == |b[j..]|;
    } else {
      var u := p[0];
      assert u in p;
      assert |a[i..u.was.start]| == |b[j..u.now.start]|;
      if After(e, u) {
        CarriedFits(p[1..], e, a, b, u.was.end, u.now.end, s - u.Delta());
      } else {
        BeforeAll(e, p);
        DeltaBeforeZero(p, e);
      }
    }
  }

  /** The ranges of all edits lie in bounds, the old ones from `j` on. */
  ghost predicate Bounded<T>(es: seq<Edit>, b: seq<T>, t: seq<T>, j: int) {
    forall e :: e in es ==> j <= e.was.start <= e.was.end <= |b| && 0 <= e.now.start <= e.now.end <= |t|
  }

  lemma AlignedBounded<T>(es: seq<Edit>, b: seq<T>, t: seq<T>, j: int, k: int)
    requires Aligned(es, b, t, j, k)
    ensures Bounded(es, b, t, j)
  {
    forall e | e in es
      ensures j <= e.was.start <= e.was.end <= |b| && 0 <= e.now.start <= e.now.end <= |t|
    {
      var n :| 0 <= n < |es| && es[n] == e;
      AfterFrontier(es, b, t, j, k, n);
    }
  }

  /** The first carried edit, if there is one, starts at or after the frontier. */
  ghost predicate StartsFrom<T>(f: seq<Edit>, a: seq<T>, t: seq<T>, i: int) {
    f != [] ==> i <= f[0].was.start <= f[0].was.end <= |a| && 0 <= f[0].now.start <= f[0].now.end <= |t|
  }

  lemma {:induction false} CarriedFirst<T>(p: seq<Edit>, es: seq<Edit>, a: seq<T>, b: seq<T>, t: seq<T>, i: int,
                                           j: int, s: int)
    requires Aligned(p, a, b, i, j) && InOrder(p)
    requires i == j + s && Bounded(es, b, t, j)
    ensures StartsFrom(Carried(p, es, s), a, t, i)
  {
    if es != [] {
      assert es[0] in es;
      if NoConflict(p, es[0]) {
        CarriedFits(p, es[0], a, b, i, j, s);
      } else {
        CarriedFirst(p, es[1..], a, b, t, i, j, s);
      }
    }
  }

  /** Elements before the first edit are copied. */
  lemma OverlaySkip<T>(f: seq<Edit>, a: seq<T>, t: seq<T>, i: int, i': int)
    requires 0 <= i <= i' <= |a| && StartsFrom(f, a, t, i')
    ensures Overlay(f, a, t, i) == a[i..i'] + Overlay(f, a, t, i')
  {
    if f == [] {
      SliceCat(a, i, i', |a|);
    } else {
      var e := f[0];
      SliceCat(a, i, i', e.was.start);
      var rest := Overlay(f[1..], a, t, e.was.end);
      var w := t[e.now.start..e.now.end];
      Assoc(a[i..i'], a[i'..e.was.start], w + rest);
      Assoc(a[i'..e.was.start], w, rest);
      Assoc(a[i..e.was.start], w, rest);
    }
  }

  // ------------------------------------------------------------------ what is left under review

  /** The patch from the rebased base to the new snapshot. An unreviewed edit that no user edit
      conflicts with is only shifted; a run of edits that conflict with one another becomes one
      edit covering all of them. `s`, `d` and `c` are the distances from snapshot to base rows,
      from base to rebased rows, and from snapshot to new snapshot rows. */
  function Residual(p: seq<Edit>, es: seq<Edit>, s: int, d: int, c: int): seq<Edit>
    decreases |p| + |es|, 1
  {
    if p == [] then []
    else if es == [] || After(es[0], p[0]) then
      [p[0].ShiftBoth(d, c)] + Residual(p[1..], es, s - p[0].Delta(), d, c)
    else if Before(es[0], p[0]) then
      Residual(p, es[1..], s, d + es[0].Delta(), c + es[0].Delta())
    else
      var x := if es[0].was.start <= p[0].now.start then es[0].was.start else p[0].now.start;
      ResidualRun(p, es, s, d, c, x + s + d, x + c)
  }

  /** A run of conflicts that starts at row `x` of the rebased base and row `y` of the new
      snapshot and has reached the conflict between the first edits of both lists. */
  function ResidualRun(p: seq<Edit>, es: seq<Edit>, s: int, d: int, c: int, x: int, y: int): seq<Edit>
    requires p != [] && es != []
    decreases |p| + |es|, 0
  {
    var u, e := p[0], es[0];
    if |es| > 1 && Conflict(es[1], u) then
      ResidualRun(p, es[1..], s, d, c + e.Delta(), x, y)
    else if |p| > 1 && Conflict(e, p[1]) then
      ResidualRun(p[1..], es, s - u.Delta(), d, c, x, y)
    else
      var h := if e.was.end <= u.now.end then u.now.end else e.was.end;
      var s', c' := s - u.Delta(), c + e.Delta();
      [Edit(Range(x, h + s' + d), Range(y, h + c'))] + Residual(p[1..], es[1..], s', d, c')
  }

  /** Three texts seen from one row of the snapshot: both lists of edits start there, and the
      rebased text `r` continues as the base does with the carried edits applied. */
  ghost predicate Corner<T>(p: seq<Edit>, es: seq<Edit>, a: seq<T>, b: seq<T>, t: seq<T>, r: seq<T>,
                            i: int, j: int, k: int, l: int, s: int, d: int, c: int) {
    && Aligned(p, a, b, i, j) && InOrder(p)
    && Aligned(es, b, t, j, k) && InOrder(es)
    && i == j + s && l == i + d && k == j + c
    && Continues(r, l, Carried(p, es, s), a, t, i)
  }

  /** `r` from `l` on is `a` from `i` on with the edits of `f`. */
  ghost predicate Continues<T>(r: seq<T>, l: int, f: seq<Edit>, a: seq<T>, t: seq<T>, i: int) {
    0 <= l <= |r| && r[l..] == Overlay(f, a, t, i)
  }

  /** Skipping to a later row of the base skips as many rows of the rebased text. */
  lemma ContinuesFrom<T>(r: seq<T>, l: int, f: seq<Edit>, a: seq<T>, t: seq<T>, i: int, i': int, l': int)
    requires Continues(r, l, f, a, t, i)
    requires 0 <= i <= i' <= |a| && l' - l == i' - i && StartsFrom(f, a, t, i')
    ensures Continues(r, l', f, a, t, i')
    ensures r[l..l'] == a[i..i']
  {
    OverlaySkip(f, a, t, i, i');
    Unconcat(r, l, a[i..i'], Overlay(f, a, t, i'));
  }

  /** A user edit before all unreviewed ones is carried over. */
  lemma UserStep<T>(p: seq<Edit>, es: seq<Edit>, a: seq<T>, b: seq<T>, t: seq<T>, r: seq<T>,
                    i: int, j: int, k: int, l: int, s: int, d: int, c: int)
    requires Corner(p, es, a, b, t, r, i, j, k, l, s, d, c)
    requires es != [] && (p != [] ==> Before(es[0], p[0]))
    ensures var e := es[0];
            var l' := e.was.end + s + (d + e.Delta());
            && Corner(p, es[1..], a, b, t, r, e.was.end + s, e.was.end, e.now.end, l', s, d + e.Delta(), c + e.Delta())
            && 0 <= l <= l' && 0 <= k <= e.now.end
            && r[l..l'] == t[k..e.now.end]
            && (p != [] ==> !After(e, p[0]))
  {
    var e := es[0];
    BeforeAll(e, p);
    DeltaBeforeZero(p, e);
    UserStepRows(p, es, a, b, t, r, i, j, k, l, s, d, c, Carried(p, es[1..], s));
  }

  lemma UserStepRows<T>(p: seq<Edit>, es: seq<Edit>, a: seq<T>, b: seq<T>, t: seq<T>, r: seq<T>,
                        i: int, j: int, k: int, l: int, s: int, d: int, c: int, rest: seq<Edit>)
    requires Aligned(p, a, b, i, j) && es != [] && Aligned(es, b, t, j, k)
    requires p != [] ==> Before(es[0], p[0])
    requires i == j + s && l == i + d && k == j + c
    requires Continues(r, l, [es[0].ShiftOld(s)] + rest, a, t, i)
    ensures var e := es[0];
            var l' := e.was.end + s + (d + e.Delta());
            && 0 <= l <= l' && 0 <= k
            && r[l..l'] == t[k..e.now.end]
            && Continues(r, l', rest, a, t, e.was.end + s)
            && Aligned(p, a, b, e.was.end + s, e.was.end)
            && e.now.end == e.was.end + (c + e.Delta())
  {
    var e := es[0];
    assert |b[j..e.was.start]| == |t[k..e.now.start]|;
    if p == [] {
      assert |a[i..]| == |b[j..]|;
    }
    Advance(p, a, b, i, j, e.was.start + s, e.was.start);
    Advance(p, a, b, i, j, e.was.end + s, e.was.end);
    assert ([e.ShiftOld(s)] + rest)[1..] == rest;
    hide Aligned;
    SliceCat(t, k, e.now.start, e.now.end);
    Unconcat(r, l, t[k..e.now.end], Overlay(rest, a, t, e.was.end + s));
  }

  /** All four frontiers may move over rows before the first edits of both lists. */
  lemma Slide<T>(p: seq<Edit>, es: seq<Edit>, a: seq<T>, b: seq<T>, t: seq<T>, r: seq<T>,
                 i: int, j: int, k: int, l: int, s: int, d: int, c: int, i': int, j': int, k': int, l': int)
    requires Corner(p, es, a, b, t, r, i, j, k, l, s, d, c)
    requires i' == j' + s && l' == i' + d && k' == j' + c
    requires j <= j' && p != [] && j' <= p[0].now.start
    requires es != [] ==> j' <= es[0].was.start
    ensures Corner(p, es, a, b, t, r, i', j', k', l', s, d, c)
    ensures 0 <= l <= l' <= |r| && 0 <= k <= k' <= |t|
    ensures r[l..l'] == t[k..k']
  {
    if es == [] {
      assert |b[j..]| == |t[k..]|;
    }
    assert 0 <= i && 0 <= k;
    hide Overlay, Carried, InOrder;
    Advance(p, a, b, i, j, i', j');
    Advance(es, b, t, j, k, j', k');
    AlignedBounded(es, b, t, j', k');
    CarriedFirst(p, es, a, b, t, i', j', s);
    ContinuesFrom(r, l, Carried(p, es, s), a, t, i, i', l');
  }

  /** An unreviewed edit at the frontier and before all user edits stays under review. */
  lemma AgentStep<T>(p: seq<Edit>, es: seq<Edit>, a: seq<T>, b: seq<T>, t: seq<T>, r: seq<T>,
                     i: int, j: int, k: int, l: int, s: int, d: int, c: int,
                     i': int, j': int, k': int, l': int, s': int)
    requires Corner(p, es, a, b, t, r, i, j, k, l, s, d, c)
    requires p != [] && j == p[0].now.start && i' == p[0].was.end && j' == p[0].now.end
    requires s' == s - p[0].Delta() && l' == i' + d && k' == j' + c
    requires es != [] ==> After(es[0], p[0])
    ensures Corner(p[1..], es, a, b, t, r, i', j', k', l', s', d, c)
  {
    var u := p[0];
    assert |a[i..u.was.start]| == |b[j..u.now.start]|;
    AllAfter(es, u);
    CarriedDropHead(p, es, s);
    hide Overlay, Carried;
    Take(p[1..], es, a, b, t, r, i, j, k, l, s', d, c, i', j', k', l');
  }

  /** Moving past an unreviewed edit, whose rows the user has not touched. */
  lemma Take<T>(p: seq<Edit>, es: seq<Edit>, a: seq<T>, b: seq<T>, t: seq<T>, r: seq<T>,
                i: int, j: int, k: int, l: int, s: int, d: int, c: int, i': int, j': int, k': int, l': int)
    requires Aligned(p, a, b, i', j') && Aligned(es, b, t, j, k) && InOrder(p)
    requires i' == j' + s && l == i + d && k == j + c && 0 <= i <= i' && j <= j'
    requires l' == i' + d && k' == j' + c
    requires es != [] ==> j' <= es[0].was.start
    requires Continues(r, l, Carried(p, es, s), a, t, i)
    ensures Aligned(es, b, t, j', k')
    ensures Continues(r, l', Carried(p, es, s), a, t, i')
  {
    if es == [] {
      assert |b[j..]| == |t[k..]|;
    }
    assert 0 <= k && j' <= |b| && i' <= |a|;
    hide Overlay, Carried, InOrder;
    Advance(es, b, t, j, k, j', k');
    AlignedBounded(es, b, t, j', k');
    CarriedFirst(p, es, a, b, t, i', j', s);
    ContinuesFrom(r, l, Carried(p, es, s), a, t, i, i', l');
  }

  /** An unreviewed edit before all user edits: `Slide` and `AgentStep` together. */
  lemma AgentCase<T>(p: seq<Edit>, es: seq<Edit>, a: seq<T>, b: seq<T>, t: seq<T>, r: seq<T>,
                     i: int, j: int, k: int, l: int, s: int, d: int, c: int, e: Edit, s': int)
    requires Corner(p, es, a, b, t, r, i, j, k, l, s, d, c)
    requires p != [] && (es != [] ==> After(es[0], p[0]))
    requires e == p[0].ShiftBoth(d, c) && s' == s - p[0].Delta()
    ensures Corner(p[1..], es, a, b, t, r, p[0].was.end, p[0].now.end, e.now.end, e.was.end, s', d, c)
    ensures 0 <= l <= e.was.start <= e.was.end <= |r|
    ensures 0 <= k <= e.now.start <= e.now.end <= |t|
    ensures r[l..e.was.start] == t[k..e.now.start]
  {
    var u := p[0];
    HeadShape(p, a, b, i, j);
    hide Aligned, Overlay, Carried, InOrder, Continues;
    Slide(p, es, a, b, t, r, i, j, k, l, s, d, c, u.was.start, u.now.start, e.now.start, e.was.start);
    hide Corner;
    AgentStep(p, es, a, b, t, r, u.was.start, u.now.start, e.now.start, e.was.start, s, d, c,
              u.was.end, u.now.end, e.now.end, e.was.end, s');
    CornerBounds(p[1..], es, a, b, t, r, u.was.end, u.now.end, e.now.end, e.was.end, s', d, c);
  }

  lemma CornerBounds<T>(p: seq<Edit>, es: seq<Edit>, a: seq<T>, b: seq<T>, t: seq<T>, r: seq<T>,
                        i: int, j: int, k: int, l: int, s: int, d: int, c: int)
    requires Corner(p, es, a, b, t, r, i, j, k, l, s, d, c)
    ensures 0 <= l <= |r| && 0 <= k <= |t|
  {
  }

  /** The first edits of both lists conflict: a run opens at the earlier of their starts. */
  lemma ConflictCase<T>(p: seq<Edit>, es: seq<Edit>, a: seq<T>, b: seq<T>, t: seq<T>, r: seq<T>,
                        i: int, j: int, k: int, l: int, s: int, d: int, c: int,
                        x: int, xi: int, xk: int, xl: int)
    requires Corner(p, es, a, b, t, r, i, j, k, l, s, d, c)
    requires p != [] && es != [] && Conflict(es[0], p[0])
    requires x == if es[0].was.start <= p[0].now.start then es[0].was.start else p[0].now.start
    requires xi == x + s && xk == x + c && xl == xi + d
    ensures ConflictRun(p, es, a, b, t, r, xi, x, x, xk, s, d, c, xl, xk)
    ensures 0 <= l <= xl && 0 <= k <= xk
    ensures r[l..xl] == t[k..xk]
  {
    hide *;
    CornerParts(p, es, a, b, t, r, i, j, k, l, s, d, c);
    HeadShape(p, a, b, i, j);
    HeadShape(es, b, t, j, k);
    Slide(p, es, a, b, t, r, i, j, k, l, s, d, c, xi, x, xk, xl);
    CornerParts(p, es, a, b, t, r, xi, x, xk, xl, s, d, c);
    HeadShape(p, a, b, xi, x);
    HeadShape(es, b, t, x, xk);
    RunStarts(p, es, a, b, t, r, xi, x, xk, xl, s, d, c);
  }

  lemma CornerParts<T>(p: seq<Edit>, es: seq<Edit>, a: seq<T>, b: seq<T>, t: seq<T>, r: seq<T>,
                       i: int, j: int, k: int, l: int, s: int, d: int, c: int)
    requires Corner(p, es, a, b, t, r, i, j, k, l, s, d, c)
    ensures Aligned(p, a, b, i, j) && Aligned(es, b, t, j, k) && i == j + s && l == i + d && k == j + c
  {
  }

  lemma RunStarts<T>(p: seq<Edit>, es: seq<Edit>, a: seq<T>, b: seq<T>, t: seq<T>, r: seq<T>,
                     i: int, j: int, k: int, l: int, s: int, d: int, c: int)
    requires Corner(p, es, a, b, t, r, i, j, k, l, s, d, c)
    requires p != [] && es != [] && Conflict(es[0], p[0])
    requires 0 <= i <= p[0].was.start && 0 <= k <= es[0].now.start
    ensures ConflictRun(p, es, a, b, t, r, i, j, j, k, s, d, c, l, k)
  {
    hide Aligned, InOrder, Continues, Carried, Conflict;
  }

  /** Inside a run the two lists have separate frontiers; `x` and `y` are where the run starts. */
  ghost predicate ConflictRun<T>(p: seq<Edit>, es: seq<Edit>, a: seq<T>, b: seq<T>, t: seq<T>, r: seq<T>,
                         i: int, j: int, j': int, k: int, s: int, d: int, c: int, x: int, y: int) {
    && p != [] && es != [] && Conflict(es[0], p[0])
    && Aligned(p, a, b, i, j) && InOrder(p)
    && Aligned(es, b, t, j', k) && InOrder(es)
    && i == j + s && k == j' + c
    && 0 <= x - d <= p[0].was.start && 0 <= y <= es[0].now.start
    && Continues(r, x, Carried(p, es, s), a, t, x - d)
  }

  /** After a conflict with `e`, a following user edit that does not conflict with `u` is after it. */
  lemma NextAfter(es: seq<Edit>, u: Edit)
    requires InOrder(es) && es != [] && Conflict(es[0], u) && u.now.start <= u.now.end
    requires |es| > 1 ==> !Conflict(es[1], u)
    ensures forall e :: e in es[1..] ==> After(e, u) && !Before(e, u)
  {
    AllAfter(es[1..], u);
  }

  /** Likewise an unreviewed edit that does not conflict with `e` comes after it. */
  lemma NextBefore(p: seq<Edit>, e: Edit)
    requires InOrder(p) && p != [] && Conflict(e, p[0]) && e.was.start <= e.was.end
    requires |p| > 1 ==> !Conflict(e, p[1])
    ensures p[1..] != [] ==> Before(e, p[1..][0])
  {
  }

  lemma CarriedSkipsConflict(p: seq<Edit>, es: seq<Edit>, s: int)
    requires p != [] && es != [] && Conflict(es[0], p[0])
    ensures Carried(p, es, s) == Carried(p, es[1..], s)
  {
    assert p[0] in p;
  }

  /** The next user edit also conflicts: the run continues with it. */
  lemma RunDropsUser<T>(p: seq<Edit>, es: seq<Edit>, a: seq<T>, b: seq<T>, t: seq<T>, r: seq<T>,
                        i: int, j: int, j': int, k: int, s: int, d: int, c: int, x: int, y: int)
    requires ConflictRun(p, es, a, b, t, r, i, j, j', k, s, d, c, x, y)
    requires |es| > 1 && Conflict(es[1], p[0])
    ensures ConflictRun(p, es[1..], a, b, t, r, i, j, es[0].was.end, es[0].now.end, s, d, c + es[0].Delta(), x, y)
  {
    var e := es[0];
    assert |b[j'..e.was.start]| == |t[k..e.now.start]|;
    assert es[1..][0] == es[1];
    CarriedSkipsConflict(p, es, s);
    AlignedBounded(es[1..], b, t, e.was.end, e.now.end);
  }

  /** The next unreviewed edit also conflicts: the run continues with it. */
  lemma RunDropsAgent<T>(p: seq<Edit>, es: seq<Edit>, a: seq<T>, b: seq<T>, t: seq<T>, r: seq<T>,
                         i: int, j: int, j': int, k: int, s: int, d: int, c: int, x: int, y: int)
    requires ConflictRun(p, es, a, b, t, r, i, j, j', k, s, d, c, x, y)
    requires |es| > 1 ==> !Conflict(es[1], p[0])
    requires |p| > 1 && Conflict(es[0], p[1])
    ensures ConflictRun(p[1..], es, a, b, t, r, p[0].was.end, p[0].now.end, j', k, s - p[0].Delta(), d, c, x, y)
  {
    var u := p[0];
    assert u in p;
    assert |a[i..u.was.start]| == |b[j..u.now.start]|;
    assert p[1..][0] == p[1];
    NextAfter(es, u);
    CarriedSkipsConflict(p, es, s);
    CarriedDropHead(p, es[1..], s);
    CarriedSkipsConflict(p[1..], es, s - u.Delta());
  }

  /** Nothing further conflicts: the run ends at the later end of the two edits. */
  lemma RunCloses<T>(p: seq<Edit>, es: seq<Edit>, a: seq<T>, b: seq<T>, t: seq<T>, r: seq<T>,
                     i: int, j: int, j': int, k: int, s: int, d: int, c: int, x: int, y: int,
                     h: int, hi: int, hk: int, hl: int, s': int, c': int)
    requires ConflictRun(p, es, a, b, t, r, i, j, j', k, s, d, c, x, y)
    requires |es| > 1 ==> !Conflict(es[1], p[0])
    requires |p| > 1 ==> !Conflict(es[0], p[1])
    requires h == if es[0].was.end <= p[0].now.end then p[0].now.end else es[0].was.end
    requires s' == s - p[0].Delta() && c' == c + es[0].Delta() && hi == h + s' && hk == h + c' && hl == hi + d
    ensures Corner(p[1..], es[1..], a, b, t, r, hi, h, hk, hl, s', d, c')
    ensures 0 <= x <= hl <= |r| && 0 <= y <= hk <= |t|
  {
    hide *;
    RunFacts(p, es, a, b, t, r, i, j, j', k, s, d, c, x, y, h, s', c');
    RunClosesRows(p[1..], es[1..], a, b, t, r, p[0].was.end, p[0].now.end, es[0].was.end, es[0].now.end, s', d, c', x,
                  h, hi, hk, hl);
    CornerBounds(p[1..], es[1..], a, b, t, r, hi, h, hk, hl, s', d, c');
  }

  lemma RunFacts<T>(p: seq<Edit>, es: seq<Edit>, a: seq<T>, b: seq<T>, t: seq<T>, r: seq<T>,
                    i: int, j: int, j': int, k: int, s: int, d: int, c: int, x: int, y: int, h: int, s': int, c': int)
    requires ConflictRun(p, es, a, b, t, r, i, j, j', k, s, d, c, x, y)
    requires |es| > 1 ==> !Conflict(es[1], p[0])
    requires |p| > 1 ==> !Conflict(es[0], p[1])
    requires h == if es[0].was.end <= p[0].now.end then p[0].now.end else es[0].was.end
    requires s' == s - p[0].Delta() && c' == c + es[0].Delta()
    ensures p != [] && es != []
    ensures Aligned(p[1..], a, b, p[0].was.end, p[0].now.end) && InOrder(p[1..])
    ensures Aligned(es[1..], b, t, es[0].was.end, es[0].now.end) && InOrder(es[1..])
    ensures p[0].was.end == p[0].now.end + s' && es[0].now.end == es[0].was.end + c'
    ensures 0 <= x - d <= p[0].was.end && p[0].now.end <= h && es[0].was.end <= h <= |b| && 0 <= y <= h + c'
    ensures p[1..] != [] ==> h <= p[1..][0].now.start
    ensures es[1..] != [] ==> h <= es[1..][0].was.start
    ensures Continues(r, x, Carried(p[1..], es[1..], s'), a, t, x - d)
    ensures 0 <= x <= h + s' + d
  {
    HeadShape(p, a, b, i, j);
    HeadShape(es, b, t, j', k);
    RunOrder(p, es, a, b, t, r, i, j, j', k, s, d, c, x, y);
    RunEnd(p, es, s, h);
    hide Overlay, Carried, Aligned, Conflict, Continues, InOrder;
  }

  lemma RunOrder<T>(p: seq<Edit>, es: seq<Edit>, a: seq<T>, b: seq<T>, t: seq<T>, r: seq<T>,
                    i: int, j: int, j': int, k: int, s: int, d: int, c: int, x: int, y: int)
    requires ConflictRun(p, es, a, b, t, r, i, j, j', k, s, d, c, x, y)
    ensures p != [] && es != [] && Conflict(es[0], p[0]) && InOrder(p) && InOrder(es) && InOrder(p[1..])
            && InOrder(es[1..])
    ensures i == j + s && k == j' + c && 0 <= x - d <= p[0].was.start && 0 <= y <= es[0].now.start
    ensures 0 <= x && Continues(r, x, Carried(p, es, s), a, t, x - d)
  {
    hide Overlay, Carried, Aligned, Conflict;
  }

  /** Where a run ends, nothing that follows in either list has started. */
  lemma RunEnd(p: seq<Edit>, es: seq<Edit>, s: int, h: int)
    requires p != [] && es != [] && InOrder(p) && InOrder(es)
    requires Conflict(es[0], p[0])
    requires |es| > 1 ==> !Conflict(es[1], p[0])
    requires |p| > 1 ==> !Conflict(es[0], p[1])
    requires h == if es[0].was.end <= p[0].now.end then p[0].now.end else es[0].was.end
    ensures Carried(p, es, s) == Carried(p[1..], es[1..], s - p[0].Delta())
    ensures p[1..] != [] ==> h <= p[1..][0].now.start
    ensures es[1..] != [] ==> h <= es[1..][0].was.start
  {
    NextAfter(es, p[0]);
    NextBefore(p, es[0]);
    CarriedSkipsConflict(p, es, s);
    CarriedDropHead(p, es[1..], s);
    if |es| > 1 {
      assert es[1..][0] in es[1..];
    }
  }

  lemma RunClosesRows<T>(p: seq<Edit>, es: seq<Edit>, a: seq<T>, b: seq<T>, t: seq<T>, r: seq<T>,
                         i: int, j: int, j': int, k: int, s: int, d: int, c: int, x: int,
                         h: int, hi: int, hk: int, hl: int)
    requires Aligned(p, a, b, i, j) && InOrder(p) && Aligned(es, b, t, j', k) && InOrder(es)
    requires i == j + s && k == j' + c && hi == h + s && hk == h + c && hl == hi + d
    requires j <= h && j' <= h <= |b|
    requires p != [] ==> h <= p[0].now.start
    requires es != [] ==> h <= es[0].was.start
    requires 0 <= x - d <= i && Continues(r, x, Carried(p, es, s), a, t, x - d)
    ensures Corner(p, es, a, b, t, r, hi, h, hk, hl, s, d, c)
  {
    if p == [] {
      assert |a[i..]| == |b[j..]|;
    }
    hide Overlay, Carried, InOrder;
    Advance(p, a, b, i, j, hi, h);
    Advance(es, b, t, j', k, h, hk);
    assert hi <= |a|;
    hide Aligned;
    AlignedBounded(es, b, t, h, hk);
    CarriedFirst(p, es, a, b, t, hi, h, s);
    ContinuesFrom(r, x, Carried(p, es, s), a, t, x - d, hi, hl);
  }

  /** From any corner on, the residual patch leads from the rebased base to the new snapshot. */
  lemma {:induction false} ResidualLeads<T>(p: seq<Edit>, es: seq<Edit>, a: seq<T>, b: seq<T>, t: seq<T>, r: seq<T>,
                                           i: int, j: int, k: int, l: int, s: int, d: int, c: int)
    requires Corner(p, es, a, b, t, r, i, j, k, l, s, d, c)
    ensures Aligned(Residual(p, es, s, d, c), r, t, l, k)
    decreases |p| + |es|, 1
  {
    hide Aligned, Corner, ConflictRun, ResidualRun;
    if es != [] && (p == [] || Before(es[0], p[0])) {
      UserStep(p, es, a, b, t, r, i, j, k, l, s, d, c);
      var e := es[0];
      var l', d', c' := e.was.end + s + (d + e.Delta()), d + e.Delta(), c + e.Delta();
      ResidualLeads(p, es[1..], a, b, t, r, e.was.end + s, e.was.end, e.now.end, l', s, d', c');
      Widen(Residual(p, es[1..], s, d', c'), r, t, l, k, l', e.now.end);
    } else if p == [] {
      CopiesRest(a, b, t, r, i, j, k, l, s, d, c);
    } else if es == [] || After(es[0], p[0]) {
      var e, s' := p[0].ShiftBoth(d, c), s - p[0].Delta();
      AgentCase(p, es, a, b, t, r, i, j, k, l, s, d, c, e, s');
      ResidualLeads(p[1..], es, a, b, t, r, p[0].was.end, p[0].now.end, e.now.end, e.was.end, s', d, c);
      Prepend(e, Residual(p[1..], es, s', d, c), r, t, l, k);
    } else {
      var x := if es[0].was.start <= p[0].now.start then es[0].was.start else p[0].now.start;
      var xi, xk, xl := x + s, x + c, x + s + d;
      ConflictCase(p, es, a, b, t, r, i, j, k, l, s, d, c, x, xi, xk, xl);
      RunLeads(p, es, a, b, t, r, xi, x, x, xk, s, d, c, xl, xk);
      Widen(ResidualRun(p, es, s, d, c, xl, xk), r, t, l, k, xl, xk);
    }
  }

  lemma CopiesRest<T>(a: seq<T>, b: seq<T>, t: seq<T>, r: seq<T>, i: int, j: int, k: int, l: int, s: int, d: int,
                      c: int)
    requires Corner([], [], a, b, t, r, i, j, k, l, s, d, c)
    ensures Aligned([], r, t, l, k)
  {
  }

  lemma {:induction false} RunLeads<T>(p: seq<Edit>, es: seq<Edit>, a: seq<T>, b: seq<T>, t: seq<T>, r: seq<T>,
                                      i: int, j: int, j': int, k: int, s: int, d: int, c: int, x: int, y: int)
    requires ConflictRun(p, es, a, b, t, r, i, j, j', k, s, d, c, x, y)
    ensures Aligned(ResidualRun(p, es, s, d, c, x, y), r, t, x, y)
    decreases |p| + |es|, 0
  {
    hide Aligned, Corner, Residual, Carried, Overlay, Continues, InOrder;
    var u, e := p[0], es[0];
    if |es| > 1 && Conflict(es[1], u) {
      RunDropsUser(p, es, a, b, t, r, i, j, j', k, s, d, c, x, y);
      RunLeads(p, es[1..], a, b, t, r, i, j, e.was.end, e.now.end, s, d, c + e.Delta(), x, y);
    } else if |p| > 1 && Conflict(e, p[1]) {
      RunDropsAgent(p, es, a, b, t, r, i, j, j', k, s, d, c, x, y);
      RunLeads(p[1..], es, a, b, t, r, u.was.end, u.now.end, j', k, s - u.Delta(), d, c, x, y);
    } else {
      var h := if e.was.end <= u.now.end then u.now.end else e.was.end;
      var s', c' := s - u.Delta(), c + e.Delta();
      RunCloses(p, es, a, b, t, r, i, j, j', k, s, d, c, x, y, h, h + s', h + c', h + s' + d, s', c');
      ResidualLeads(p[1..], es[1..], a, b, t, r, h + s', h, h + c', h + s' + d, s', d, c');
      Prepend(Edit(Range(x, h + s' + d), Range(y, h + c')), Residual(p[1..], es[1..], s', d, c'), r, t, x, y);
    }
  }

  /** The rebase square: whatever conflicts there are, the residual patch leads from the rebased
      base to the new snapshot. */
  lemma RebaseSquare<T>(p: seq<Edit>, es: seq<Edit>, a: seq<T>, b: seq<T>, t: seq<T>)
    requires Leads(p, a, b) && Separated(p)
    requires Leads(es, b, t) && Separated(es)
    ensures Leads(Residual(p, es, 0, 0, 0), RebasedRows(p, es, a, t), t)
  {
    AlignedInOrder(p, a, b, 0, 0);
    AlignedInOrder(es, b, t, 0, 0);
    var r := RebasedRows(p, es, a, t);
    assert r[0..] == r;
    ResidualLeads(p, es, a, b, t, r, 0, 0, 0, 0, 0, 0, 0);
  }

  // ------------------------------------------------------------------ no conflicts

  /** How far the user edits before an unreviewed edit move it. */
  ghost function UserDelta(es: seq<Edit>, u: Edit): int {
    if es == [] then 0
    else (if Before(es[0], u) then es[0].Delta() else 0) + UserDelta(es[1..], u)
  }

  /** The unreviewed edits, each moved by the user edits before it. */
  ghost function Followed(p: seq<Edit>, es: seq<Edit>, d: int): seq<Edit> {
    if p == [] then []
    else [p[0].ShiftBoth(d + UserDelta(es, p[0]), d + UserDelta(es, p[0]))] + Followed(p[1..], es, d)
  }

  lemma UserDeltaZero(es: seq<Edit>, u: Edit)
    requires forall e :: e in es ==> !Before(e, u)
    ensures UserDelta(es, u) == 0
  {
  }

  lemma FollowedDropHead(p: seq<Edit>, es: seq<Edit>, d: int)
    requires es != [] && forall u :: u in p ==> Before(es[0], u)
    ensures Followed(p, es, d) == Followed(p, es[1..], d + es[0].Delta())
  {
    if p != [] {
      assert p[0] in p;
      FollowedDropHead(p[1..], es, d);
    }
  }

  /** When nothing conflicts, exactly the old unreviewed edits remain, merely moved. */
  lemma {:induction false} NoConflictsFollow(p: seq<Edit>, es: seq<Edit>, s: int, d: int)
    requires InOrder(p) && InOrder(es)
    requires forall e :: e in es ==> NoConflict(p, e)
    ensures Residual(p, es, s, d, d) == Followed(p, es, d)
    decreases |p| + |es|
  {
    if p == [] {
    } else if es == [] || After(es[0], p[0]) {
      AllAfter(es, p[0]);
      UserDeltaZero(es, p[0]);
      NoConflictsFollow(p[1..], es, s - p[0].Delta(), d);
    } else {
      assert es[0] in es && p[0] in p;
      BeforeAll(es[0], p);
      FollowedDropHead(p, es, d);
      NoConflictsFollow(p, es[1..], s, d + es[0].Delta());
    }
  }

  // ------------------------------------------------------------------ confinement

  /** The user edits move the new rows as far as they change lengths. */
  ghost predicate Placed(es: seq<Edit>, c: int) {
    es != [] ==> es[0].now.start == es[0].was.start + c && Placed(es[1..], c + es[0].Delta())
  }

  lemma {:induction false} AlignedPlaced<T>(es: seq<Edit>, b: seq<T>, t: seq<T>, j: int, k: int)
    requires Aligned(es, b, t, j, k)
    ensures Placed(es, k - j)
  {
    if es != [] {
      HeadShape(es, b, t, j, k);
      AlignedPlaced(es[1..], b, t, es[0].was.end, es[0].now.end);
    }
  }

  /** Where the user edits move snapshot row `m`, relative to `m`. */
  ghost function RowShift(es: seq<Edit>, m: int): int {
    if es == [] || m < es[0].was.end then 0 else es[0].Delta() + RowShift(es[1..], m)
  }

  /** Row `n` of the new snapshot was written by a user edit that conflicts with an unreviewed one. */
  ghost predicate WrittenInConflict(p: seq<Edit>, es: seq<Edit>, n: int) {
    exists e :: e in es && !NoConflict(p, e) && e.now.Contains(n)
  }

  /** Row `n` of the new snapshot is a row from `j` on that was already under review and that the
      user left alone. */
  ghost predicate StillUnderReview(p: seq<Edit>, es: seq<Edit>, j: int, c: int, n: int) {
    exists u, m :: u in p && u.now.Contains(m) && j <= m && Untouched(es, m) && n == m + c + RowShift(es, m)
  }

  ghost predicate Untouched(es: seq<Edit>, m: int) {
    forall e :: e in es ==> !e.was.Contains(m)
  }

  ghost predicate Justified(p: seq<Edit>, es: seq<Edit>, j: int, c: int, n: int) {
    WrittenInConflict(p, es, n) || StillUnderReview(p, es, j, c, n)
  }

  lemma JustifiedByTail(p: seq<Edit>, es: seq<Edit>, j: int, c: int, n: int, j': int)
    requires p != [] && Justified(p[1..], es, j', c, n) && j <= j'
    ensures Justified(p, es, j, c, n)
  {
    if WrittenInConflict(p[1..], es, n) {
      var e :| e in es && !NoConflict(p[1..], e) && e.now.Contains(n);
      assert !NoConflict(p, e);
    } else {
      var u, m :| u in p[1..] && u.now.Contains(m) && j' <= m && Untouched(es, m) && n == m + c + RowShift(es, m);
      assert u in p;
    }
  }

  lemma JustifiedByLater(p: seq<Edit>, es: seq<Edit>, j: int, c: int, n: int, j': int)
    requires es != [] && es[0].was.start <= es[0].was.end <= j' && j <= j'
    requires Justified(p, es[1..], j', c + es[0].Delta(), n)
    ensures Justified(p, es, j, c, n)
  {
    if WrittenInConflict(p, es[1..], n) {
      var e :| e in es[1..] && !NoConflict(p, e) && e.now.Contains(n);
      assert e in es;
    } else {
      var u, m :| u in p && u.now.Contains(m) && j' <= m && Untouched(es[1..], m)
                  && n == m + (c + es[0].Delta()) + RowShift(es[1..], m);
      assert Untouched(es, m) by {
        assert es == [es[0]] + es[1..];
      }
    }
  }

  /** A row of the first unreviewed edit that lies before all user edits. */
  lemma JustifiedBefore(p: seq<Edit>, es: seq<Edit>, j: int, c: int, m: int)
    requires p != [] && p[0].now.Contains(m) && j <= m && InOrder(es)
    requires es != [] ==> m < es[0].was.start
    ensures Justified(p, es, j, c, m + c)
  {
    forall e | e in es
      ensures !e.was.Contains(m)
    {
      LaterEdit(es, e);
    }
    assert p[0] in p && Untouched(es, m) && m + c == m + c + RowShift(es, m);
  }

  /** Every row that the residual patch presents as changed is either a row that was under review
      before or a row that the user wrote in a conflicting edit. */
  lemma {:induction false} ResidualConfined(p: seq<Edit>, es: seq<Edit>, s: int, d: int, c: int, j: int, q: Edit,
                                            n: int)
    requires InOrder(p) && InOrder(es) && Placed(es, c)
    requires p != [] ==> j <= p[0].now.start
    requires es != [] ==> j <= es[0].was.start
    requires q in Residual(p, es, s, d, c) && q.now.Contains(n)
    ensures Justified(p, es, j, c, n)
    decreases |p| + |es|, 1
  {
    if es == [] || After(es[0], p[0]) {
      if q == p[0].ShiftBoth(d, c) {
        JustifiedBefore(p, es, j, c, n - c);
      } else {
        ResidualConfined(p[1..], es, s - p[0].Delta(), d, c, p[0].now.end, q, n);
        JustifiedByTail(p, es, j, c, n, p[0].now.end);
      }
    } else if Before(es[0], p[0]) {
      ResidualConfined(p, es[1..], s, d + es[0].Delta(), c + es[0].Delta(), es[0].was.end, q, n);
      JustifiedByLater(p, es, j, c, n, es[0].was.end);
    } else {
      var x := if es[0].was.start <= p[0].now.start then es[0].was.start else p[0].now.start;
      if x + c <= n < es[0].now.start {
        JustifiedBefore(p, es, j, c, n - c);
      } else {
        RunConfined(p, es, s, d, c, x + s + d, x + c, j, q, n);
      }
    }
  }

  /** Inside a run, all rows from the first user edit on are justified. */
  lemma {:induction false} RunConfined(p: seq<Edit>, es: seq<Edit>, s: int, d: int, c: int, x: int, y: int, j: int,
                                       q: Edit, n: int)
    requires InOrder(p) && InOrder(es) && Placed(es, c) && p != [] && es != []
    requires Conflict(es[0], p[0]) && j <= es[0].was.end
    requires q in ResidualRun(p, es, s, d, c, x, y) && q.now.Contains(n)
    requires !(y <= n < es[0].now.start)
    ensures Justified(p, es, j, c, n)
    decreases |p| + |es|, 0
  {
    var u, e := p[0], es[0];
    var c' := c + e.Delta();
    if e.now.Contains(n) {
      assert u in p && e in es;
    } else if |es| > 1 && Conflict(es[1], u) {
      if e.now.end <= n < es[1].now.start {
        assert es[1..][0] == es[1];
        JustifiedBefore(p, es[1..], e.was.end, c', n - c');
      } else {
        RunConfined(p, es[1..], s, d, c', x, y, e.was.end, q, n);
      }
      JustifiedByLater(p, es, j, c, n, e.was.end);
    } else if |p| > 1 && Conflict(e, p[1]) {
      RunConfined(p[1..], es, s - u.Delta(), d, c, x, y, j, q, n);
      JustifiedByTail(p, es, j, c, n, j);
    } else {
      RunEndConfined(p, es, s, d, c, x, y, q, n);
      JustifiedByLater(p, es, j, c, n, e.was.end);
    }
  }

  lemma RunEndConfined(p: seq<Edit>, es: seq<Edit>, s: int, d: int, c: int, x: int, y: int, q: Edit, n: int)
    requires InOrder(p) && InOrder(es) && Placed(es, c) && p != [] && es != []
    requires Conflict(es[0], p[0])
    requires |es| > 1 ==> !Conflict(es[1], p[0])
    requires |p| > 1 ==> !Conflict(es[0], p[1])
    requires q in ResidualRun(p, es, s, d, c, x, y) && q.now.Contains(n)
    requires !(y <= n < es[0].now.end)
    ensures Justified(p, es[1..], es[0].was.end, c + es[0].Delta(), n)
    decreases |p| + |es|, 0, 0
  {
    hide *;
    var u, e := p[0], es[0];
    var h := if e.was.end <= u.now.end then u.now.end else e.was.end;
    var s', c' := s - u.Delta(), c + e.Delta();
    RunEnd(p, es, s, h);
    RunEndNewFacts(p, es, s, d, c, x, y, q, n, h, s', c');
    if q == Edit(Range(x, h + s' + d), Range(y, h + c')) {
      JustifiedBefore(p, es[1..], e.was.end, c', n - c');
    } else {
      ResidualConfined(p[1..], es[1..], s', d, c', h, q, n);
      JustifiedByTail(p, es[1..], e.was.end, c', n, h);
    }
  }

  lemma RunEndNewFacts(p: seq<Edit>, es: seq<Edit>, s: int, d: int, c: int, x: int, y: int, q: Edit, n: int, h: int,
                       s': int, c': int)
    requires InOrder(p) && InOrder(es) && Placed(es, c) && p != [] && es != [] && Conflict(es[0], p[0])
    requires |es| > 1 ==> !Conflict(es[1], p[0])
    requires |p| > 1 ==> !Conflict(es[0], p[1])
    requires q in ResidualRun(p, es, s, d, c, x, y) && q.now.Contains(n) && !(y <= n < es[0].now.end)
    requires h == if es[0].was.end <= p[0].now.end then p[0].now.end else es[0].was.end
    requires es[1..] != [] ==> h <= es[1..][0].was.start
    requires s' == s - p[0].Delta() && c' == c + es[0].Delta()
    ensures InOrder(p[1..]) && InOrder(es[1..]) && Placed(es[1..], c') && es[0].was.end <= h
    ensures if q == Edit(Range(x, h + s' + d), Range(y, h + c'))
            then es[0].was.end <= n - c' && p[0].now.Contains(n - c')
                 && (es[1..] != [] ==> n - c' < es[1..][0].was.start)
            else q in Residual(p[1..], es[1..], s', d, c')
  {
    hide Residual;
  }

  // ------------------------------------------------------------------ confinement of the old rows

  /** The unreviewed edits lie in the base as far from the snapshot as they change lengths. */
  ghost predicate PlacedInBase(p: seq<Edit>, s: int) {
    p != [] ==> p[0].was.start == p[0].now.start + s && PlacedInBase(p[1..], s - p[0].Delta())
  }

  lemma {:induction false} AlignedPlacedInBase<T>(p: seq<Edit>, a: seq<T>, b: seq<T>, i: int, j: int)
    requires Aligned(p, a, b, i, j)
    ensures PlacedInBase(p, i - j)
  {
    if p != [] {
      HeadShape(p, a, b, i, j);
      AlignedPlacedInBase(p[1..], a, b, p[0].was.end, p[0].now.end);
    }
  }

  /** How far the carried user edits before an unreviewed edit move it. */
  ghost function CarriedBefore(p: seq<Edit>, es: seq<Edit>, u: Edit): int {
    if es == [] then 0
    else (if NoConflict(p, es[0]) && Before(es[0], u) then es[0].Delta() else 0) + CarriedBefore(p, es[1..], u)
  }

  /** How far the carried user edits above snapshot row `m` move it. */
  ghost function CarriedAbove(p: seq<Edit>, es: seq<Edit>, m: int): int {
    if es == [] then 0
    else (if NoConflict(p, es[0]) && es[0].was.end <= m then es[0].Delta() else 0) + CarriedAbove(p, es[1..], m)
  }

  /** How much further down snapshot row `m` is than the base row it is equal to. */
  ghost function BaseShift(p: seq<Edit>, m: int): int {
    if p == [] then 0 else (if p[0].now.end <= m then p[0].Delta() else 0) + BaseShift(p[1..], m)
  }

  /** Row `n` of the rebased base is a base row that was already shown as replaced. */
  ghost predicate WasUnderReview(p: seq<Edit>, es: seq<Edit>, d: int, n: int) {
    exists u, m :: u in p && u.was.Contains(m) && n == m + d + CarriedBefore(p, es, u)
  }

  ghost predicate Outside(p: seq<Edit>, m: int) {
    forall u :: u in p ==> !u.now.Contains(m)
  }

  /** Row `n` of the rebased base is the row that snapshot row `m`, from `j` on and not under review,
      is equal to, and a conflicting user edit replaced that row. */
  ghost predicate ReplacedInConflict(p: seq<Edit>, es: seq<Edit>, s: int, d: int, j: int, n: int) {
    exists e, m :: e in es && !NoConflict(p, e) && e.was.Contains(m) && j <= m && Outside(p, m)
                   && n == m + s - BaseShift(p, m) + d + CarriedAbove(p, es, m)
  }

  ghost predicate OldJustified(p: seq<Edit>, es: seq<Edit>, s: int, d: int, j: int, n: int) {
    WasUnderReview(p, es, d, n) || ReplacedInConflict(p, es, s, d, j, n)
  }

  /** Without `p[0]`, the same user edits conflict. */
  ghost predicate SameConflicts(p: seq<Edit>, es: seq<Edit>)
    requires p != []
  {
    forall e :: e in es ==> (NoConflict(p, e) <==> NoConflict(p[1..], e))
  }

  lemma {:induction false} SameCarried(p: seq<Edit>, es: seq<Edit>, u: Edit, m: int)
    requires p != [] && SameConflicts(p, es)
    ensures CarriedBefore(p, es, u) == CarriedBefore(p[1..], es, u)
    ensures CarriedAbove(p, es, m) == CarriedAbove(p[1..], es, m)
  {
    if es != [] {
      assert es[0] in es;
      SameCarried(p, es[1..], u, m);
    }
  }

  lemma OldJustifiedByTail(p: seq<Edit>, es: seq<Edit>, s: int, d: int, j: int, j': int, n: int)
    requires p != [] && SameConflicts(p, es) && j <= j' && p[0].now.end <= j'
    requires OldJustified(p[1..], es, s - p[0].Delta(), d, j', n)
    ensures OldJustified(p, es, s, d, j, n)
  {
    if WasUnderReview(p[1..], es, d, n) {
      var u, m :| u in p[1..] && u.was.Contains(m) && n == m + d + CarriedBefore(p[1..], es, u);
      SameCarried(p, es, u, m);
      assert u in p;
    } else {
      var e, m :| e in es && !NoConflict(p[1..], e) && e.was.Contains(m) && j' <= m && Outside(p[1..], m)
                  && n == m + (s - p[0].Delta()) - BaseShift(p[1..], m) + d + CarriedAbove(p[1..], es, m);
      SameCarried(p, es, e, m);
      assert Outside(p, m) by {
        assert p == [p[0]] + p[1..];
      }
    }
  }

  /** The first user edit conflicts, so it carries nothing. */
  lemma OldJustifiedPastConflict(p: seq<Edit>, es: seq<Edit>, s: int, d: int, j: int, n: int)
    requires es != [] && !NoConflict(p, es[0]) && OldJustified(p, es[1..], s, d, j, n)
    ensures OldJustified(p, es, s, d, j, n)
  {
    if WasUnderReview(p, es[1..], d, n) {
      var u, m :| u in p && u.was.Contains(m) && n == m + d + CarriedBefore(p, es[1..], u);
      assert CarriedBefore(p, es, u) == CarriedBefore(p, es[1..], u);
    } else {
      var e, m :| e in es[1..] && !NoConflict(p, e) && e.was.Contains(m) && j <= m && Outside(p, m)
                  && n == m + s - BaseShift(p, m) + d + CarriedAbove(p, es[1..], m);
      assert e in es && CarriedAbove(p, es, m) == CarriedAbove(p, es[1..], m);
    }
  }

  /** The first user edit comes before everything and is carried. */
  lemma OldJustifiedPastCarried(p: seq<Edit>, es: seq<Edit>, s: int, d: int, j: int, n: int)
    requires es != [] && InOrder(p) && InOrder(es) && p != [] && Before(es[0], p[0]) && j <= es[0].was.end
    requires OldJustified(p, es[1..], s, d + es[0].Delta(), es[0].was.end, n)
    ensures OldJustified(p, es, s, d, j, n)
  {
    BeforeAll(es[0], p);
    if WasUnderReview(p, es[1..], d + es[0].Delta(), n) {
      var u, m :| u in p && u.was.Contains(m) && n == m + (d + es[0].Delta()) + CarriedBefore(p, es[1..], u);
      assert CarriedBefore(p, es, u) == es[0].Delta() + CarriedBefore(p, es[1..], u);
    } else {
      var e, m :| e in es[1..] && !NoConflict(p, e) && e.was.Contains(m) && es[0].was.end <= m && Outside(p, m)
                  && n == m + s - BaseShift(p, m) + (d + es[0].Delta()) + CarriedAbove(p, es[1..], m);
      assert e in es && CarriedAbove(p, es, m) == es[0].Delta() + CarriedAbove(p, es[1..], m);
    }
  }

  lemma {:induction false} NoneBefore(p: seq<Edit>, es: seq<Edit>, u: Edit)
    requires forall e :: e in es ==> !NoConflict(p, e) || !Before(e, u)
    ensures CarriedBefore(p, es, u) == 0
  {
    if es != [] {
      assert es[0] in es;
      NoneBefore(p, es[1..], u);
    }
  }

  lemma {:induction false} NoneAbove(p: seq<Edit>, es: seq<Edit>, m: int)
    requires forall e :: e in es ==> !NoConflict(p, e) || e.was.end > m
    ensures CarriedAbove(p, es, m) == 0
  {
    if es != [] {
      assert es[0] in es;
      NoneAbove(p, es[1..], m);
    }
  }

  lemma {:induction false} NoShiftBefore(p: seq<Edit>, m: int)
    requires InOrder(p) && (p != [] ==> m < p[0].now.start)
    ensures BaseShift(p, m) == 0 && Outside(p, m)
  {
    if p != [] {
      NoShiftBefore(p[1..], m);
      assert p == [p[0]] + p[1..];
    }
  }

  /** A base row of the first unreviewed edit, when no remaining user edit comes before it. */
  lemma OldRowOfFirst(p: seq<Edit>, es: seq<Edit>, s: int, d: int, j: int, n: int)
    requires p != [] && InOrder(p) && InOrder(es) && p[0].was.Contains(n - d)
    requires es != [] ==> !Before(es[0], p[0])
    ensures OldJustified(p, es, s, d, j, n)
  {
    forall e | e in es
      ensures !Before(e, p[0])
    {
      LaterEdit(es, e);
    }
    NoneBefore(p, es, p[0]);
    assert p[0] in p && n == (n - d) + d + CarriedBefore(p, es, p[0]);
  }

  /** A row in front of `p[0]` that the first, conflicting user edit replaced. */
  lemma OldRowOfConflict(p: seq<Edit>, es: seq<Edit>, s: int, d: int, j: int, m: int)
    requires InOrder(p) && InOrder(es) && es != [] && !NoConflict(p, es[0]) && es[0].was.Contains(m) && j <= m
    requires p != [] ==> m < p[0].now.start
    ensures OldJustified(p, es, s, d, j, m + s + d)
  {
    NoShiftBefore(p, m);
    forall e | e in es
      ensures !NoConflict(p, e) || e.was.end > m
    {
      LaterEdit(es, e);
    }
    NoneAbove(p, es, m);
    assert es[0] in es && m + s + d == m + s - BaseShift(p, m) + d + CarriedAbove(p, es, m);
  }

  lemma AfterSameConflicts(p: seq<Edit>, es: seq<Edit>)
    requires p != [] && forall e :: e in es ==> !Conflict(e, p[0]) || !NoConflict(p[1..], e)
    ensures SameConflicts(p, es)
  {
    forall e | e in es
      ensures NoConflict(p, e) <==> NoConflict(p[1..], e)
    {
      assert p == [p[0]] + p[1..];
    }
  }

  /** Every base row that the residual patch presents as replaced was already presented so, or was
      replaced by a conflicting user edit. */
  lemma {:induction false} ResidualOldConfined(p: seq<Edit>, es: seq<Edit>, s: int, d: int, c: int, j: int, q: Edit,
                                               n: int)
    requires InOrder(p) && InOrder(es) && PlacedInBase(p, s)
    requires p != [] ==> j <= p[0].now.start
    requires es != [] ==> j <= es[0].was.start
    requires q in Residual(p, es, s, d, c) && q.was.Contains(n)
    ensures OldJustified(p, es, s, d, j, n)
    decreases |p| + |es|, 1
  {
    hide OldJustified;
    if es == [] || After(es[0], p[0]) {
      AllAfter(es, p[0]);
      if q == p[0].ShiftBoth(d, c) {
        OldRowOfFirst(p, es, s, d, j, n);
      } else {
        AfterSameConflicts(p, es);
        AfterEnd(p, es);
        ResidualOldConfined(p[1..], es, s - p[0].Delta(), d, c, p[0].now.end, q, n);
        OldJustifiedByTail(p, es, s, d, j, p[0].now.end, n);
      }
    } else if Before(es[0], p[0]) {
      ResidualOldConfined(p, es[1..], s, d + es[0].Delta(), c + es[0].Delta(), es[0].was.end, q, n);
      OldJustifiedPastCarried(p, es, s, d, j, n);
    } else {
      assert p[0] in p;
      var x := if es[0].was.start <= p[0].now.start then es[0].was.start else p[0].now.start;
      if x + s + d <= n < p[0].was.start + d {
        OldRowOfConflict(p, es, s, d, j, n - d - s);
      } else {
        RunOldConfined(p, es, s, d, c, x + s + d, x + c, j, q, n);
      }
    }
  }

  lemma AfterEnd(p: seq<Edit>, es: seq<Edit>)
    requires p != [] && InOrder(p) && (es != [] ==> After(es[0], p[0]))
    ensures p[1..] != [] ==> p[0].now.end <= p[1..][0].now.start
    ensures es != [] ==> p[0].now.end <= es[0].was.start
  {
  }

  /** Inside a run, all base rows from the first unreviewed edit on are justified. */
  lemma {:induction false} RunOldConfined(p: seq<Edit>, es: seq<Edit>, s: int, d: int, c: int, x: int, y: int, j: int,
                                          q: Edit, n: int)
    requires InOrder(p) && InOrder(es) && PlacedInBase(p, s) && p != [] && es != []
    requires Conflict(es[0], p[0]) && j <= p[0].now.end
    requires q in ResidualRun(p, es, s, d, c, x, y) && q.was.Contains(n)
    requires !(x <= n < p[0].was.start + d)
    ensures OldJustified(p, es, s, d, j, n)
    decreases |p| + |es|, 0
  {
    hide OldJustified;
    var u, e := p[0], es[0];
    assert u in p && !NoConflict(p, e);
    if u.was.Contains(n - d) {
      OldRowOfFirst(p, es, s, d, j, n);
    } else if |es| > 1 && Conflict(es[1], u) {
      RunOldConfined(p, es[1..], s, d, c + e.Delta(), x, y, j, q, n);
      OldJustifiedPastConflict(p, es, s, d, j, n);
    } else if |p| > 1 && Conflict(e, p[1]) {
      RunPastAgent(p, es);
      if u.was.end + d <= n < p[1].was.start + d {
        OldRowOfConflict(p[1..], es, s - u.Delta(), d, u.now.end, n - d - (s - u.Delta()));
      } else {
        RunOldConfined(p[1..], es, s - u.Delta(), d, c, x, y, u.now.end, q, n);
      }
      OldJustifiedByTail(p, es, s, d, j, u.now.end, n);
    } else {
      RunEndOldConfined(p, es, s, d, c, x, y, j, q, n);
    }
  }

  lemma RunPastAgent(p: seq<Edit>, es: seq<Edit>)
    requires InOrder(p) && InOrder(es) && |p| > 1 && es != [] && Conflict(es[0], p[0]) && Conflict(es[0], p[1])
    requires |es| > 1 ==> !Conflict(es[1], p[0])
    ensures p[1..][0] == p[1] && p[1] in p[1..] && !NoConflict(p[1..], es[0]) && SameConflicts(p, es)
    ensures p[0].now.end < p[1].now.start <= p[1].now.end
    ensures es[0].was.start <= p[0].now.end && p[1].now.start <= es[0].was.end
  {
    NextAfter(es, p[0]);
    assert p[1] in p[1..];
    AfterSameConflicts(p, es);
  }

  lemma RunEndOldConfined(p: seq<Edit>, es: seq<Edit>, s: int, d: int, c: int, x: int, y: int, j: int, q: Edit, n: int)
    requires InOrder(p) && InOrder(es) && PlacedInBase(p, s) && p != [] && es != []
    requires Conflict(es[0], p[0]) && j <= p[0].now.end
    requires |es| > 1 ==> !Conflict(es[1], p[0])
    requires |p| > 1 ==> !Conflict(es[0], p[1])
    requires q in ResidualRun(p, es, s, d, c, x, y) && q.was.Contains(n)
    requires !(x <= n < p[0].was.start + d) && !p[0].was.Contains(n - d)
    ensures OldJustified(p, es, s, d, j, n)
    decreases |p| + |es|, 0, 0
  {
    hide *;
    var u, e := p[0], es[0];
    var h := if e.was.end <= u.now.end then u.now.end else e.was.end;
    var s', c' := s - u.Delta(), c + e.Delta();
    RunEnd(p, es, s, h);
    RunEndFacts(p, es, s, d, c, x, y, q, n, h, s', c');
    if q == Edit(Range(x, h + s' + d), Range(y, h + c')) {
      OldRowAtEnd(p, es, s, d, j, n - d - s');
    } else {
      ResidualOldConfined(p[1..], es[1..], s', d, c', h, q, n);
      OldJustifiedByTail(p, es[1..], s, d, j, h, n);
      OldJustifiedPastConflict(p, es, s, d, j, n);
    }
  }

  lemma RunEndFacts(p: seq<Edit>, es: seq<Edit>, s: int, d: int, c: int, x: int, y: int, q: Edit, n: int, h: int,
                    s': int, c': int)
    requires InOrder(p) && InOrder(es) && PlacedInBase(p, s) && p != [] && es != [] && Conflict(es[0], p[0])
    requires |es| > 1 ==> !Conflict(es[1], p[0])
    requires |p| > 1 ==> !Conflict(es[0], p[1])
    requires q in ResidualRun(p, es, s, d, c, x, y) && q.was.Contains(n)
    requires !(x <= n < p[0].was.start + d) && !p[0].was.Contains(n - d)
    requires h == if es[0].was.end <= p[0].now.end then p[0].now.end else es[0].was.end
    requires s' == s - p[0].Delta() && c' == c + es[0].Delta()
    ensures InOrder(p[1..]) && InOrder(es[1..]) && PlacedInBase(p[1..], s') && SameConflicts(p, es[1..])
    ensures !NoConflict(p, es[0]) && p[0].now.end <= h
    ensures if q == Edit(Range(x, h + s' + d), Range(y, h + c')) then p[0].now.end <= n - d - s' < es[0].was.end
            else q in Residual(p[1..], es[1..], s', d, c')
  {
    NextAfter(es, p[0]);
    AfterSameConflicts(p, es[1..]);
    assert p[0] in p && !NoConflict(p, es[0]);
    hide Residual;
  }

  /** A row behind the last unreviewed edit of a run that its last user edit replaced. */
  lemma OldRowAtEnd(p: seq<Edit>, es: seq<Edit>, s: int, d: int, j: int, m: int)
    requires InOrder(p) && InOrder(es) && p != [] && es != [] && Conflict(es[0], p[0])
    requires |p| > 1 ==> !Conflict(es[0], p[1])
    requires p[0].now.end <= m < es[0].was.end && j <= m
    ensures OldJustified(p, es, s, d, j, m + (s - p[0].Delta()) + d)
  {
    NextBefore(p, es[0]);
    NoShiftBefore(p[1..], m);
    assert p[0] in p && !NoConflict(p, es[0]) && es[0] in es;
    assert Outside(p, m) by {
      assert p == [p[0]] + p[1..];
    }
    forall e | e in es
      ensures !NoConflict(p, e) || e.was.end > m
    {
      LaterEdit(es, e);
    }
    NoneAbove(p, es, m);
    assert m + (s - p[0].Delta()) + d == m + s - BaseShift(p, m) + d + CarriedAbove(p, es, m);
  }

  /** The rebase, in one statement. The residual patch leads from the rebased base to the new
      snapshot. Every row it presents as new was under review before and left alone by the user, or
      was written by a conflicting user edit; every row it presents as replaced was presented so
      before, or was replaced by a conflicting user edit. When nothing conflicts it is the old patch
      with shifted rows. */
  lemma RebaseIsConfined<T>(p: seq<Edit>, es: seq<Edit>, a: seq<T>, b: seq<T>, t: seq<T>)
    requires Leads(p, a, b) && Separated(p)
    requires Leads(es, b, t) && Separated(es)
    ensures Leads(Residual(p, es, 0, 0, 0), RebasedRows(p, es, a, t), t)
    ensures forall q, n :: q in Residual(p, es, 0, 0, 0) && q.now.Contains(n) ==> Justified(p, es, 0, 0, n)
    ensures forall q, n :: q in Residual(p, es, 0, 0, 0) && q.was.Contains(n) ==> OldJustified(p, es, 0, 0, 0, n)
    ensures (forall e :: e in es ==> NoConflict(p, e)) ==> Residual(p, es, 0, 0, 0) == Followed(p, es, 0)
  {
    hide Aligned, Residual, Justified, OldJustified, NoConflict, Carried, Overlay, Separated;
    RebaseSquare(p, es, a, b, t);
    ListsPlaced(p, es, a, b, t);
    forall q, n | q in Residual(p, es, 0, 0, 0) && q.now.Contains(n)
      ensures Justified(p, es, 0, 0, n)
    {
      ResidualConfined(p, es, 0, 0, 0, 0, q, n);
    }
    forall q, n | q in Residual(p, es, 0, 0, 0) && q.was.Contains(n)
      ensures OldJustified(p, es, 0, 0, 0, n)
    {
      ResidualOldConfined(p, es, 0, 0, 0, 0, q, n);
    }
    if forall e :: e in es ==> NoConflict(p, e) {
      NoConflictsFollow(p, es, 0, 0);
    }
  }

  lemma ListsPlaced<T>(p: seq<Edit>, es: seq<Edit>, a: seq<T>, b: seq<T>, t: seq<T>)
    requires Leads(p, a, b) && Separated(p)
    requires Leads(es, b, t) && Separated(es)
    ensures InOrder(p) && InOrder(es) && Placed(es, 0) && PlacedInBase(p, 0)
    ensures p != [] ==> 0 <= p[0].now.start
    ensures es != [] ==> 0 <= es[0].was.start
  {
    hide *;
    LeadsAligned(p, a, b);
    LeadsAligned(es, b, t);
    AlignedInOrder(p, a, b, 0, 0);
    AlignedInOrder(es, b, t, 0, 0);
    AlignedPlaced(es, b, t, 0, 0);
    AlignedPlacedInBase(p, a, b, 0, 0);
    if p != [] {
      HeadShape(p, a, b, 0, 0);
    }
    if es != [] {
      HeadShape(es, b, t, 0, 0);
    }
  }

  /** `RowShift` is where the user edits move the rows they leave alone. */
  lemma {:induction false} RowFollows<T>(es: seq<Edit>, b: seq<T>, t: seq<T>, j: int, k: int, m: int)
    requires Aligned(es, b, t, j, k) && j <= m < |b| && Untouched(es, m)
    ensures 0 <= m + (k - j) + RowShift(es, m) < |t| && t[m + (k - j) + RowShift(es, m)] == b[m]
  {
    if es == [] {
      assert b[j..][m - j] == t[k..][m - j];
    } else {
      HeadShape(es, b, t, j, k);
      assert es[0] in es;
      if m < es[0].was.start {
        assert b[j..es[0].was.start][m - j] == t[k..es[0].now.start][m - j];
      } else {
        assert Untouched(es[1..], m);
        RowFollows(es[1..], b, t, es[0].was.end, es[0].now.end, m);
      }
    }
  }

  /** `BaseShift` leads from rows outside the unreviewed edits to the base rows they are equal to. */
  lemma {:induction false} BaseRowOf<T>(p: seq<Edit>, a: seq<T>, b: seq<T>, i: int, j: int, m: int)
    requires Aligned(p, a, b, i, j) && InOrder(p) && j <= m < |b| && Outside(p, m)
    ensures 0 <= m + (i - j) - BaseShift(p, m) < |a| && a[m + (i - j) - BaseShift(p, m)] == b[m]
  {
    if p == [] {
      assert a[i..][m - i - (j - i)] == b[j..][m - j];
    } else {
      HeadShape(p, a, b, i, j);
      assert p[0] in p;
      if m < p[0].now.start {
        NoShiftBefore(p, m);
        assert a[i..p[0].was.start][m - j] == b[j..p[0].now.start][m - j];
      } else {
        assert Outside(p[1..], m);
        BaseRowOf(p[1..], a, b, p[0].was.end, p[0].now.end, m);
      }
    }
  }
}
