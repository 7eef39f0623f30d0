/** The loop that carries user edits over to the base: `apply_non_conflicting_edits`. */
module NonConflicting {
  import opened Patches
  import opened Ropes
  import opened Rebase
  import opened Conflicts
  import opened Splicing

  /** The loop has consumed a prefix of both lists: the rebased text starts with `pre` and goes on
      with the base from row `i`, edited by what can be carried from the remaining lists. */
  ghost predicate Progress<T>(p: seq<Edit>, es: seq<Edit>, a: seq<T>, b: seq<T>, t: seq<T>, r: seq<T>,
                              pre: seq<T>, i: int, fi: int, fj: int, s: int) {
    && Aligned(p, a, b, fi, fj) && InOrder(p) && RealStarts(p, a, b)
    && InOrder(es) && Bounded(es, b, t, fj)
    && fi == fj + s && 0 <= i <= fi
    && r == pre + Overlay(Carried(p, es, s), a, t, i)
  }

  lemma ProgressStarts<T>(p: seq<Edit>, es: seq<Edit>, a: seq<T>, b: seq<T>, t: seq<T>)
    requires Leads(p, a, b) && Separated(p) && RealStarts(p, a, b)
    requires Leads(es, b, t) && Separated(es)
    ensures Progress(p, es, a, b, t, RebasedRows(p, es, a, t), [], 0, 0, 0, 0)
  {
    AlignedInOrder(p, a, b, 0, 0);
    AlignedInOrder(es, b, t, 0, 0);
    AlignedBounded(es, b, t, 0, 0);
    var r := RebasedRows(p, es, a, t);
    assert [] + r == r;
  }

  /** All user edits that remain come after the first unreviewed edit. */
  lemma PassAgent<T>(p: seq<Edit>, es: seq<Edit>, a: seq<T>, b: seq<T>, t: seq<T>, r: seq<T>,
                     pre: seq<T>, i: int, fi: int, fj: int, s: int)
    requires Progress(p, es, a, b, t, r, pre, i, fi, fj, s)
    requires p != [] && forall e :: e in es ==> After(e, p[0]) && !Before(e, p[0])
    ensures Progress(p[1..], es, a, b, t, r, pre, i, p[0].was.end, p[0].now.end, s - p[0].Delta())
    ensures Carried(p, es, s) == Carried(p[1..], es, s - p[0].Delta()) && InOrder(p[1..])
  {
    HeadShape(p, a, b, fi, fj);
    CarriedDropHead(p, es, s);
    hide Overlay, Carried;
    assert p[0].now.start <= p[0].now.end;
  }

  /** The first user edit conflicts, so it is not carried. */
  lemma PassConflict<T>(p: seq<Edit>, es: seq<Edit>, a: seq<T>, b: seq<T>, t: seq<T>, r: seq<T>,
                        pre: seq<T>, i: int, fi: int, fj: int, s: int)
    requires Progress(p, es, a, b, t, r, pre, i, fi, fj, s)
    requires p != [] && es != [] && Conflict(es[0], p[0])
    ensures Progress(p, es[1..], a, b, t, r, pre, i, fi, fj, s)
    ensures Carried(p, es, s) == Carried(p, es[1..], s) && InOrder(es[1..])
  {
    CarriedSkipsConflict(p, es, s);
    hide Overlay, Carried, Aligned;
  }

  /** The first user edit comes before all unreviewed ones, so it is carried. */
  lemma PassUser<T>(p: seq<Edit>, es: seq<Edit>, a: seq<T>, b: seq<T>, t: seq<T>, r: seq<T>,
                    pre: seq<T>, i: int, fi: int, fj: int, s: int, x: int, y: int)
    requires Progress(p, es, a, b, t, r, pre, i, fi, fj, s)
    requires es != [] && (p != [] ==> Before(es[0], p[0]))
    requires x == es[0].was.start + s && y == es[0].was.end + s
    ensures 0 <= i <= x <= y <= |a| && 0 <= es[0].now.start <= es[0].now.end <= |t|
    ensures fj <= es[0].was.start <= es[0].was.end <= |b|
    ensures Progress(p, es[1..], a, b, t, r, Grown(pre, a, i, x, t, es[0].now), y, y, es[0].was.end, s)
    ensures Carried(p, es, s) != []
  {
    hide Overlay, Carried, Aligned, DeltaBefore;
    var e := es[0];
    assert e in es;
    CarriedHead(p, es, s);
    UserFits(p, e, a, b, fi, fj, s);
    LaterBounded(es, b, t, fj);
    PassUserRows(e.ShiftOld(s), Carried(p, es[1..], s), a, t, r, pre, i);
  }

  lemma CarriedHead(p: seq<Edit>, es: seq<Edit>, s: int)
    requires InOrder(p) && InOrder(es) && es != [] && (p != [] ==> Before(es[0], p[0]))
    ensures Carried(p, es, s) == [es[0].ShiftOld(s)] + Carried(p, es[1..], s)
  {
    assert es[0].was.start <= es[0].was.end;
    hide Carried, NoConflict, DeltaBefore, InOrder, Before;
    BeforeIsCarried(es[0], p);
    CarriedOf(p, es, s);
  }

  lemma CarriedOf(p: seq<Edit>, es: seq<Edit>, s: int)
    requires es != []
    ensures Carried(p, es, s)
            == (if NoConflict(p, es[0]) then [es[0].ShiftOld(s - DeltaBefore(p, es[0]))] else [])
               + Carried(p, es[1..], s)
  {
    hide NoConflict, DeltaBefore;
  }

  lemma BeforeIsCarried(e: Edit, p: seq<Edit>)
    requires InOrder(p) && e.was.start <= e.was.end && (p != [] ==> Before(e, p[0]))
    ensures NoConflict(p, e) && DeltaBefore(p, e) == 0
  {
    hide InOrder, DeltaBefore, Before, After;
    BeforeAll(e, p);
    DeltaBeforeZero(p, e);
  }

  lemma UserFits<T>(p: seq<Edit>, e: Edit, a: seq<T>, b: seq<T>, fi: int, fj: int, s: int)
    requires Aligned(p, a, b, fi, fj) && fi == fj + s && fj <= e.was.start <= e.was.end <= |b|
    requires p != [] ==> Before(e, p[0])
    ensures fi <= e.was.start + s <= e.was.end + s <= |a|
    ensures Aligned(p, a, b, e.was.end + s, e.was.end)
  {
    if p == [] {
      assert |a[fi..]| == |b[fj..]|;
    } else {
      HeadShape(p, a, b, fi, fj);
    }
    Advance(p, a, b, fi, fj, e.was.end + s, e.was.end);
  }

  lemma LaterBounded<T>(es: seq<Edit>, b: seq<T>, t: seq<T>, j: int)
    requires es != [] && InOrder(es) && Bounded(es, b, t, j)
    ensures Bounded(es[1..], b, t, es[0].was.end)
  {
    forall e | e in es[1..]
      ensures es[0].was.end <= e.was.start <= e.was.end <= |b| && 0 <= e.now.start <= e.now.end <= |t|
    {
      assert e in es;
      LaterEdit(es, e);
    }
  }

  lemma PassUserRows<T>(e: Edit, f: seq<Edit>, a: seq<T>, t: seq<T>, r: seq<T>, pre: seq<T>, i: int)
    requires 0 <= i <= e.was.start <= e.was.end <= |a| && 0 <= e.now.start <= e.now.end <= |t|
    requires r == pre + Overlay([e] + f, a, t, i)
    ensures r == Grown(pre, a, i, e.was.start, t, e.now) + Overlay(f, a, t, e.was.end)
  {
    assert ([e] + f)[1..] == f;
    var x, y, z := a[i..e.was.start], t[e.now.start..e.now.end], Overlay(f, a, t, e.was.end);
    assert pre + (x + y + z) == pre + x + y + z;
  }

  /** A carried edit starts at a real row of the base and reaches its end just when it reaches the
      end of the snapshot. */
  lemma CarriedReal<T>(p: seq<Edit>, e: Edit, a: seq<T>, b: seq<T>, fi: int, fj: int, s: int)
    requires Aligned(p, a, b, fi, fj) && RealStarts(p, a, b) && fi == fj + s
    requires fj <= e.was.start <= e.was.end <= |b| && e.was.start < |b|
    requires p != [] ==> Before(e, p[0])
    ensures e.was.start + s < |a|
    ensures e.was.end + s == |a| <==> e.was.end == |b|
  {
    if p == [] {
      assert |a[fi..]| == |b[fj..]|;
    } else {
      assert p[0] in p;
      HeadShape(p, a, b, fi, fj);
    }
  }

  /** After a conflict with the current user edit, the next one conflicts with `u` too exactly when
      it overlaps it; otherwise it and all that follow come after `u`. */
  lemma NextConflicts(es: seq<Edit>, p: seq<Edit>)
    requires es != [] && InOrder(es) && p != [] && InOrder(p) && Conflict(es[0], p[0])
    ensures InOrder(es[1..])
    ensures |es| > 1 && es[1].was.Overlaps(p[0].now) ==> Conflict(es[1..][0], p[0])
    ensures !(|es| > 1 && es[1].was.Overlaps(p[0].now)) ==>
              forall e :: e in es[1..] ==> After(e, p[0]) && !Before(e, p[0])
  {
    if |es| > 1 {
      assert es[1..][0] == es[1];
      if !es[1].was.Overlaps(p[0].now) {
        AllAfter(es[1..], p[0]);
      }
    }
  }

  /** Applying the first user edit, when it comes before all unreviewed edits: the rebased text
      grows by the base rows before it and by its new rows. */
  lemma ApplyStep(p: seq<Edit>, es: seq<Edit>, a: seq<Row>, b: seq<Row>, r: seq<Row>,
                  pre: seq<Row>, i: int, fi: int, fj: int, s: int, d: int, text: string, newText: string,
                  x: int, y: int, pre': seq<Row>)
    requires Progress(p, es, a, b, Rows(newText), r, pre, i, fi, fj, s)
    requires es != [] && (p != [] ==> Before(es[0], p[0]))
    requires Written(text, pre, a, i, d)
    requires EditsReal(es, b, Rows(newText))
    requires x == es[0].was.start + s && y == es[0].was.end + s
    requires pre' == Grown(pre, a, i, x, Rows(newText), es[0].now)
    ensures Progress(p, es[1..], a, b, Rows(newText), r, pre', y, y, es[0].was.end, s)
    ensures Written(ReplaceRows(text, es[0].was.Shift(d + s), RowText(newText, es[0].now)), pre', a, y,
                    d + es[0].Delta())
    ensures Carried(p, es, s) != []
  {
    hide *;
    var e := es[0];
    PassUser(p, es, a, b, Rows(newText), r, pre, i, fi, fj, s, x, y);
    ProgressPatch(p, es, a, b, Rows(newText), r, pre, i, fi, fj, s);
    FirstReal(es, b, Rows(newText));
    CarriedReal(p, e, a, b, fi, fj, s);
    ShiftIs(e.was, s, d);
    Applies(text, newText, e, pre, a, i, d, x, y);
  }

  lemma ProgressPatch<T>(p: seq<Edit>, es: seq<Edit>, a: seq<T>, b: seq<T>, t: seq<T>, r: seq<T>,
                         pre: seq<T>, i: int, fi: int, fj: int, s: int)
    requires Progress(p, es, a, b, t, r, pre, i, fi, fj, s)
    ensures Aligned(p, a, b, fi, fj) && RealStarts(p, a, b) && fi == fj + s
  {
  }

  lemma {:induction false} CarriedSome(p: seq<Edit>, es: seq<Edit>, s: int)
    ensures Carried(p, es, s) != [] <==> exists e :: e in es && NoConflict(p, e)
  {
    if es != [] {
      CarriedSome(p, es[1..], s);
      if exists e :: e in es && NoConflict(p, e) {
        var e :| e in es && NoConflict(p, e);
        assert e == es[0] || e in es[1..];
      }
      assert es[0] in es;
    }
  }

  /** The inner loop: passes the unreviewed edits that are before the user edit at the head of
      `newEdits` or that intersect with it, and the user edits that intersect with those. On return
      `newEdits[0]` is the user edit that was looked at last. */
  method PassUnreviewed(oldEdits: seq<Edit>, newEdits: seq<Edit>, delta: int,
                        ghost a: seq<Row>, ghost b: seq<Row>, ghost t: seq<Row>, ghost r: seq<Row>,
                        ghost pre: seq<Row>, ghost i: int, ghost fi: int, ghost fj: int)
    returns (oldRest: seq<Edit>, newRest: seq<Edit>, rebasedDelta: int, conflict: bool, ghost gi: int, ghost gj: int)
    requires newEdits != [] && Progress(oldEdits, newEdits, a, b, t, r, pre, i, fi, fj, -delta)
    requires EditsReal(newEdits, b, t)
    ensures 0 < |newRest| <= |newEdits| && EditsReal(newRest, b, t)
    ensures conflict ==> Progress(oldRest, newRest[1..], a, b, t, r, pre, i, gi, gj, -rebasedDelta)
    ensures !conflict ==> Progress(oldRest, newRest, a, b, t, r, pre, i, gi, gj, -rebasedDelta)
    ensures !conflict && oldRest != [] ==> Before(newRest[0], oldRest[0])
    ensures Carried(oldEdits, newEdits, -delta)
            == Carried(oldRest, if conflict then newRest[1..] else newRest, -rebasedDelta)
  {
    hide *;
    oldRest, newRest, rebasedDelta, conflict, gi, gj := oldEdits, newEdits, delta, false, fi, fj;
    ProgressOrder(oldEdits, newEdits, a, b, t, r, pre, i, fi, fj, -delta);
    while oldRest != []
      invariant 0 < |newRest| <= |newEdits| && InOrder(newRest) && InOrder(oldRest)
      invariant EditsReal(newRest, b, t)
      invariant conflict ==> Progress(oldRest, newRest[1..], a, b, t, r, pre, i, gi, gj, -rebasedDelta)
      invariant !conflict ==> Progress(oldRest, newRest, a, b, t, r, pre, i, gi, gj, -rebasedDelta)
      invariant Carried(oldEdits, newEdits, -delta)
                == Carried(oldRest, if conflict then newRest[1..] else newRest, -rebasedDelta)
      decreases |oldRest| + |newRest|
    {
      var oldEdit := oldRest[0];
      if Before(newRest[0], oldEdit) {
        break;
      } else if After(newRest[0], oldEdit) {
        AllAfterHead(newRest, oldRest);
        PassAgent(oldRest, if conflict then newRest[1..] else newRest, a, b, t, r, pre, i, gi, gj, -rebasedDelta);
        gi, gj := oldEdit.was.end, oldEdit.now.end;
        oldRest := oldRest[1..];
        rebasedDelta := rebasedDelta + oldEdit.Delta();
      } else {
        ConflictIs(newRest[0], oldEdit);
        NextConflicts(newRest, oldRest);
        if !conflict {
          PassConflict(oldRest, newRest, a, b, t, r, pre, i, gi, gj, -rebasedDelta);
        }
        conflict := true;
        if |newRest| > 1 && newRest[1].was.Overlaps(oldEdit.now) {
          PassConflict(oldRest, newRest[1..], a, b, t, r, pre, i, gi, gj, -rebasedDelta);
          EditsRealTail(newRest, b, t);
          newRest := newRest[1..];
        } else {
          PassAgent(oldRest, newRest[1..], a, b, t, r, pre, i, gi, gj, -rebasedDelta);
          gi, gj := oldEdit.was.end, oldEdit.now.end;
          oldRest := oldRest[1..];
          rebasedDelta := rebasedDelta + oldEdit.Delta();
        }
      }
    }
  }

  /** `apply_non_conflicting_edits`: applies to the base text, in one pass over both lists, exactly
      the user edits that conflict with no unreviewed edit, that is, leave all of them alone. `snap`
      stands for the rows of the snapshot between the two lists. */
  method ApplyNonConflictingEdits(patch: seq<Edit>, edits: seq<Edit>, oldText: string, newText: string,
                                  ghost snap: seq<Row>) returns (text: string, hasMadeChanges: bool)
    requires Leads(patch, Rows(oldText), snap) && Separated(patch) && RealStarts(patch, Rows(oldText), snap)
    requires Leads(edits, snap, Rows(newText)) && Separated(edits) && RealStarts(edits, snap, Rows(newText))
    ensures Rows(text) == RebasedRows(patch, edits, Rows(oldText), Rows(newText))
    ensures hasMadeChanges <==> exists e :: e in edits && AllClear(patch, e)
    ensures forall g :: g in Carried(patch, edits, 0) ==>
                          exists e :: e in edits && AllClear(patch, e) && Carries(g, e, Rows(oldText), snap)
    ensures forall e :: e in edits && AllClear(patch, e) ==>
                          exists g :: g in Carried(patch, edits, 0) && Carries(g, e, Rows(oldText), snap)
  {
    hide *;
    text := oldText;
    hasMadeChanges := false;
    var oldEdits, newEdits := patch, edits;
    var appliedDelta, rebasedDelta := 0, 0;
    ghost var a, t := Rows(oldText), Rows(newText);
    ghost var r := RebasedRows(patch, edits, a, t);
    ghost var pre, i, fi, fj := [], 0, 0, 0;
    ProgressStarts(patch, edits, a, snap, t);
    EditsAreReal(edits, snap, t);
    WrittenAtStart(oldText);
    while newEdits != []
      invariant Progress(oldEdits, newEdits, a, snap, t, r, pre, i, fi, fj, -rebasedDelta)
      invariant Written(text, pre, a, i, appliedDelta)
      invariant EditsReal(newEdits, snap, t)
      invariant Carried(patch, edits, 0) != [] <==> hasMadeChanges || Carried(oldEdits, newEdits, -rebasedDelta) != []
      decreases |newEdits|
    {
      var conflict;
      oldEdits, newEdits, rebasedDelta, conflict, fi, fj :=
        PassUnreviewed(oldEdits, newEdits, rebasedDelta, a, snap, t, r, pre, i, fi, fj);
      if !conflict {
        var newEdit := newEdits[0];
        ghost var x, y := newEdit.was.start + -rebasedDelta, newEdit.was.end + -rebasedDelta;
        ghost var pre' := Grown(pre, a, i, x, t, newEdit.now);
        ApplyStep(oldEdits, newEdits, a, snap, r, pre, i, fi, fj, -rebasedDelta, appliedDelta, text, newText, x, y,
                  pre');
        text := ReplaceRows(text, newEdit.was.Shift(appliedDelta + -rebasedDelta), RowText(newText, newEdit.now));
        pre, i, fi, fj := pre', y, y, newEdit.was.end;
        appliedDelta := appliedDelta + newEdit.Delta();
        hasMadeChanges := true;
      }
      EditsRealTail(newEdits, snap, t);
      newEdits := newEdits[1..];
    }
    ProgressEnds(oldEdits, a, snap, t, r, pre, i, fi, fj, -rebasedDelta, text, appliedDelta);
    CarriedSome(patch, edits, 0);
    CarriedIffClear(patch, edits, a, snap, t);
  }

  lemma AllAfterHead(es: seq<Edit>, p: seq<Edit>)
    requires InOrder(es) && es != [] && p != [] && InOrder(p) && After(es[0], p[0])
    ensures forall e :: e in es ==> After(e, p[0]) && !Before(e, p[0])
  {
    AllAfter(es, p[0]);
  }

  lemma ConflictIs(e: Edit, u: Edit)
    ensures Conflict(e, u) <==> !Before(e, u) && !After(e, u)
  {
  }

  lemma ProgressOrder<T>(p: seq<Edit>, es: seq<Edit>, a: seq<T>, b: seq<T>, t: seq<T>, r: seq<T>,
                         pre: seq<T>, i: int, fi: int, fj: int, s: int)
    requires Progress(p, es, a, b, t, r, pre, i, fi, fj, s)
    ensures InOrder(p) && InOrder(es)
  {
  }

  lemma ProgressEnds(p: seq<Edit>, a: seq<Row>, b: seq<Row>, t: seq<Row>, r: seq<Row>,
                     pre: seq<Row>, i: int, fi: int, fj: int, s: int, text: string, d: int)
    requires Progress(p, [], a, b, t, r, pre, i, fi, fj, s) && Written(text, pre, a, i, d)
    ensures Rows(text) == r
    ensures Carried(p, [], s) == []
  {
  }
}
