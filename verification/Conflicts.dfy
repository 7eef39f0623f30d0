/** What it means that a user edit conflicts with an unreviewed one, in terms of rows, and which user
    edits are carried over. */
module Conflicts {
  import opened Patches
  import opened Rebase

  ghost predicate SharesRow(x: Range, y: Range) {
    exists n :: x.Contains(n) && y.Contains(n)
  }

  /** The user edit `e` and the unreviewed edit `u` leave each other alone: no row of the snapshot
      belongs to both, and neither inserts rows between those of the other; nothing may be done at the
      very place where rows were deleted. */
  ghost predicate ClearOf(e: Edit, u: Edit) {
    if u.now.IsEmpty() then !(e.was.start <= u.now.start <= e.was.end)
    else !SharesRow(e.was, u.now) && !(e.was.IsEmpty() && u.now.start < e.was.start < u.now.end)
  }

  ghost predicate AllClear(p: seq<Edit>, e: Edit) {
    forall u :: u in p ==> ClearOf(e, u)
  }

  /** The comparisons of the loop say just that. */
  lemma ConflictInRows(e: Edit, u: Edit)
    requires e.was.start <= e.was.end && u.now.start <= u.now.end
    ensures Conflict(e, u) <==> !ClearOf(e, u)
  {
    if !u.now.IsEmpty() && Conflict(e, u) && e.was.start < e.was.end {
      var n := if e.was.start >= u.now.start then e.was.start else u.now.start;
      assert e.was.Contains(n) && u.now.Contains(n);
    }
  }

  lemma NoConflictInRows(p: seq<Edit>, e: Edit)
    requires e.was.start <= e.was.end && forall u :: u in p ==> u.now.start <= u.now.end
    ensures NoConflict(p, e) <==> AllClear(p, e)
  {
    forall u | u in p
      ensures Conflict(e, u) <==> !ClearOf(e, u)
    {
      ConflictInRows(e, u);
    }
  }

  lemma {:induction false} EveryInOrder(p: seq<Edit>)
    requires InOrder(p)
    ensures forall u :: u in p ==> u.was.start <= u.was.end && u.now.start <= u.now.end
  {
    if p != [] {
      EveryInOrder(p[1..]);
      assert p == [p[0]] + p[1..];
    }
  }

  /** Without a conflict the rows of a user edit are as far from their base rows as `DeltaBefore` says. */
  lemma {:induction false} SameShift(p: seq<Edit>, e: Edit, m: int)
    requires InOrder(p) && NoConflict(p, e) && e.was.Contains(m)
    ensures BaseShift(p, m) == DeltaBefore(p, e)
  {
    if p != [] {
      assert p[0] in p && !Conflict(e, p[0]);
      SameShift(p[1..], e, m);
    }
  }

  /** `g` does to the base what `e` does to the snapshot: it replaces the same rows by the same rows. */
  ghost predicate Carries<T>(g: Edit, e: Edit, a: seq<T>, b: seq<T>) {
    && g.now == e.now && 0 <= g.was.start <= g.was.end <= |a| && 0 <= e.was.start <= e.was.end <= |b|
    && a[g.was.start..g.was.end] == b[e.was.start..e.was.end]
  }

  lemma CarriedOne<T>(p: seq<Edit>, e: Edit, a: seq<T>, b: seq<T>)
    requires Aligned(p, a, b, 0, 0) && InOrder(p) && NoConflict(p, e) && 0 <= e.was.start <= e.was.end <= |b|
    ensures Carries(e.ShiftOld(-DeltaBefore(p, e)), e, a, b)
  {
    hide *;
    var d, g := DeltaBefore(p, e), e.ShiftOld(-DeltaBefore(p, e));
    ShiftedOld(e, -d);
    CarriedFits(p, e, a, b, 0, 0, 0);
    forall k | 0 <= k < e.was.end - e.was.start
      ensures a[g.was.start..g.was.end][k] == b[e.was.start..e.was.end][k]
    {
      var m := e.was.start + k;
      Inside(e, m);
      SameShift(p, e, m);
      ClearIsOutside(p, e, m);
      BaseRowOf(p, a, b, 0, 0, m);
    }
    CarriesBy(g, e, a, b);
  }

  lemma ShiftedOld(e: Edit, d: int)
    ensures e.ShiftOld(d).was == Range(e.was.start + d, e.was.end + d) && e.ShiftOld(d).now == e.now
  {
  }

  lemma Inside(e: Edit, m: int)
    requires e.was.start <= m < e.was.end
    ensures e.was.Contains(m)
  {
  }

  lemma CarriesBy<T>(g: Edit, e: Edit, a: seq<T>, b: seq<T>)
    requires g.now == e.now && 0 <= g.was.start <= g.was.end <= |a| && 0 <= e.was.start <= e.was.end <= |b|
    requires g.was.end - g.was.start == e.was.end - e.was.start
    requires forall k :: 0 <= k < e.was.end - e.was.start ==>
                           a[g.was.start..g.was.end][k] == b[e.was.start..e.was.end][k]
    ensures Carries(g, e, a, b)
  {
  }

  /** A row of an edit without conflicts belongs to no unreviewed edit. */
  lemma ClearIsOutside(p: seq<Edit>, e: Edit, m: int)
    requires InOrder(p) && NoConflict(p, e) && e.was.Contains(m)
    ensures Outside(p, m)
  {
    EveryInOrder(p);
    NoConflictInRows(p, e);
    hide InOrder, NoConflict;
    forall u | u in p
      ensures !u.now.Contains(m)
    {
      assert ClearOf(e, u);
    }
  }

  lemma {:induction false} CarriedAre<T>(p: seq<Edit>, es: seq<Edit>, a: seq<T>, b: seq<T>)
    requires Aligned(p, a, b, 0, 0) && InOrder(p)
    requires forall e :: e in es ==> 0 <= e.was.start <= e.was.end <= |b|
    ensures forall g :: g in Carried(p, es, 0) ==> exists e :: e in es && AllClear(p, e) && Carries(g, e, a, b)
    ensures forall e :: e in es && AllClear(p, e) ==> exists g :: g in Carried(p, es, 0) && Carries(g, e, a, b)
  {
    hide *;
    if es == [] {
      NothingIsCarried(p);
    } else {
      CarriedAre(p, es[1..], a, b);
      EveryInOrder(p);
      assert es[0] in es;
      NoConflictInRows(p, es[0]);
      CarriedFirstOf(p, es);
      var g := es[0].ShiftOld(-DeltaBefore(p, es[0]));
      if NoConflict(p, es[0]) {
        CarriedOne(p, es[0], a, b);
        MoreCarried(p, es, a, b, [g], Carried(p, es[1..], 0));
      } else {
        MoreCarried(p, es, a, b, [], Carried(p, es[1..], 0));
      }
    }
  }

  lemma NothingIsCarried(p: seq<Edit>)
    ensures Carried(p, [], 0) == []
  {
  }

  lemma MoreCarried<T>(p: seq<Edit>, es: seq<Edit>, a: seq<T>, b: seq<T>, f: seq<Edit>, rest: seq<Edit>)
    requires es != [] && (if AllClear(p, es[0]) then |f| == 1 && Carries(f[0], es[0], a, b) else f == [])
    requires forall g :: g in rest ==> exists e :: e in es[1..] && AllClear(p, e) && Carries(g, e, a, b)
    requires forall e :: e in es[1..] && AllClear(p, e) ==> exists g :: g in rest && Carries(g, e, a, b)
    ensures forall g :: g in f + rest ==> exists e :: e in es && AllClear(p, e) && Carries(g, e, a, b)
    ensures forall e :: e in es && AllClear(p, e) ==> exists g :: g in f + rest && Carries(g, e, a, b)
  {
    hide AllClear, Carries;
    assert es == [es[0]] + es[1..];
    if f != [] {
      assert f[0] in f + rest;
    }
  }

  lemma CarriedFirstOf(p: seq<Edit>, es: seq<Edit>)
    requires es != []
    ensures Carried(p, es, 0)
            == (if NoConflict(p, es[0]) then [es[0].ShiftOld(-DeltaBefore(p, es[0]))] else []) + Carried(p, es[1..], 0)
  {
  }

  /** The user edits that are carried over are those that leave every unreviewed edit alone: each of
      them, and nothing else, is done to the base, where it replaces the very rows that it replaces in
      the snapshot. */
  lemma CarriedIffClear<T>(p: seq<Edit>, es: seq<Edit>, a: seq<T>, b: seq<T>, t: seq<T>)
    requires Leads(p, a, b) && Separated(p) && Leads(es, b, t) && Separated(es)
    ensures forall e :: e in es ==> (NoConflict(p, e) <==> AllClear(p, e))
    ensures forall g :: g in Carried(p, es, 0) ==> exists e :: e in es && AllClear(p, e) && Carries(g, e, a, b)
    ensures forall e :: e in es && AllClear(p, e) ==> exists g :: g in Carried(p, es, 0) && Carries(g, e, a, b)
  {
    hide *;
    ListsPlaced(p, es, a, b, t);
    LeadsAligned(p, a, b);
    LeadsAligned(es, b, t);
    EveryInOrder(p);
    EveryInOrder(es);
    AlignedBounded(es, b, t, 0, 0);
    BoundedOld(es, b, t);
    CarriedAre(p, es, a, b);
    forall e | e in es
      ensures NoConflict(p, e) <==> AllClear(p, e)
    {
      NoConflictInRows(p, e);
    }
  }

  lemma BoundedOld<T>(es: seq<Edit>, b: seq<T>, t: seq<T>)
    requires Bounded(es, b, t, 0)
    ensures forall e :: e in es ==> 0 <= e.was.start <= e.was.end <= |b|
  {
  }
}
