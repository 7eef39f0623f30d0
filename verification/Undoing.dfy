/** Taking replacements back.

    A rejection replaces ranges of the buffer and remembers, for each, two anchors and the text
    between them. Undoing it replaces what the anchors enclose by then. */
module Undoing {
  import opened Patches
  import opened Buffers

  /** A range of the text between two anchors, `anchor_before` its start and `anchor_after` its
      end, seen after the replacements `l`. */
  function ResolveAround(l: seq<Replacement>, r: Range): Range {
    Range(ResolveBefore(l, r.start), ResolveAfter(l, r.end))
  }

  /** What takes `undone`, some of the replacements `l` of `s`, back after `l` was applied: every
      range, found again by its anchors, gets its former text. */
  ghost function Undo(undone: seq<Replacement>, l: seq<Replacement>, s: string): seq<Replacement> {
    if undone == [] then []
    else
      var at := undone[0].at;
      [Replacement(ResolveAround(l, at), if 0 <= at.start <= at.end <= |s| then s[at.start..at.end] else "")]
      + Undo(undone[1..], l, s)
  }

  // ------------------------------------------------------------------ any replacements in order

  /** The starts do not decrease. */
  ghost predicate Rising(u: seq<Replacement>, n: int) {
    u != [] ==>
      && 0 <= u[0].at.start <= u[0].at.end <= n
      && (|u| > 1 ==> u[0].at.start <= u[1].at.start)
      && Rising(u[1..], n)
  }

  /** The text from offset `j` on after replacements that may overlap: what was replaced already is
      not replaced again. */
  ghost function ApplyOver(u: seq<Replacement>, s: string, j: int): string
    requires Rising(u, |s|) && 0 <= j <= |s|
  {
    if u == [] then s[j..]
    else
      var x := if u[0].at.start >= j then u[0].at.start else j;
      var y := if u[0].at.end >= j then u[0].at.end else j;
      s[j..x] + u[0].text + ApplyOver(u[1..], s, y)
  }

  lemma {:induction false} SkipOver(u: seq<Replacement>, s: string, j: int, z: int)
    requires Rising(u, |s|) && 0 <= j <= z <= |s| && (u != [] ==> z <= u[0].at.start)
    ensures ApplyOver(u, s, j) == s[j..z] + ApplyOver(u, s, z)
  {
    if u == [] {
      SliceCat(s, j, z, |s|);
      ToEnd(s, j);
      ToEnd(s, z);
    } else {
      var r := u[0];
      SliceCat(s, j, z, r.at.start);
      var rest := ApplyOver(u[1..], s, r.at.end);
      Assoc(s[j..z], s[z..r.at.start] + r.text, rest);
      Assoc(s[j..z], s[z..r.at.start], r.text);
    }
  }

  /** Joining ranges that touch or overlap is not replacing anything twice. */
  lemma {:induction false} GatherFromOver(r: Replacement, u: seq<Replacement>, s: string, i: int)
    requires 0 <= i <= r.at.start <= r.at.end <= |s| && Rising(u, |s|)
    requires u != [] ==> r.at.start <= u[0].at.start
    ensures Fits(GatherFrom(r, u), |s|, i)
    ensures ApplyAll(GatherFrom(r, u), s, i) == s[i..r.at.start] + r.text + ApplyOver(u, s, r.at.end)
    decreases u
  {
    hide *;
    GatherFromIs(r, u);
    if u == [] {
      Alone(r, s, i);
      OverNone(s, r.at.end);
    } else {
      RisingHead(u, |s|);
      if u[0].IsTrivial() {
        OverTrivial(u, s, r.at.end);
        GatherFromOver(r, u[1..], s, i);
      } else if r.at.end >= u[0].at.start {
        OverJoin(u, s, r.at.end);
        MergeIs(r, u[0]);
        GatherFromOver(Merge(r, u[0]), u[1..], s, i);
        JoinOver(s[i..r.at.start], r.text, u[0].text, ApplyOver(u[1..], s, Merge(r, u[0]).at.end));
      } else {
        OverGap(u, s, r.at.end);
        GatherFromOver(u[0], u[1..], s, r.at.end);
        Cons(r, GatherFrom(u[0], u[1..]), s, i);
      }
    }
  }

  lemma GatherFromIs(r: Replacement, u: seq<Replacement>)
    ensures u == [] ==> GatherFrom(r, u) == [r]
    ensures u != [] && u[0].IsTrivial() ==> GatherFrom(r, u) == GatherFrom(r, u[1..])
    ensures u != [] && !u[0].IsTrivial() && r.at.end >= u[0].at.start ==>
            GatherFrom(r, u) == GatherFrom(Merge(r, u[0]), u[1..])
    ensures u != [] && !u[0].IsTrivial() && r.at.end < u[0].at.start ==>
            GatherFrom(r, u) == [r] + GatherFrom(u[0], u[1..])
  {
  }

  lemma MergeIs(r: Replacement, n: Replacement)
    ensures Merge(r, n).at == Range(r.at.start, if r.at.end >= n.at.end then r.at.end else n.at.end)
    ensures Merge(r, n).text == r.text + n.text
  {
  }

  lemma RisingHead(u: seq<Replacement>, n: int)
    requires u != [] && Rising(u, n)
    ensures 0 <= u[0].at.start <= u[0].at.end <= n && Rising(u[1..], n)
    ensures u[1..] != [] ==> u[0].at.start <= u[1..][0].at.start
  {
    assert u[1..] != [] ==> u[1..][0] == u[1];
  }

  lemma OverNone(s: string, j: int)
    requires 0 <= j <= |s|
    ensures Rising([], |s|) && ApplyOver([], s, j) == ApplyAll([], s, j)
  {
  }

  lemma OverTrivial(u: seq<Replacement>, s: string, j: int)
    requires u != [] && Rising(u, |s|) && 0 <= j <= |s| && u[0].IsTrivial()
    ensures Rising(u[1..], |s|) && ApplyOver(u, s, j) == ApplyOver(u[1..], s, j)
  {
    RisingHead(u, |s|);
    var z := u[0].at.end;
    if z > j {
      SkipOver(u[1..], s, j, z);
      assert s[j..z] + u[0].text == s[j..z];
    } else {
      assert s[j..j] + u[0].text == "";
    }
  }

  lemma OverJoin(u: seq<Replacement>, s: string, j: int)
    requires u != [] && Rising(u, |s|) && u[0].at.start <= j <= |s| && 0 <= j
    ensures Rising(u[1..], |s|)
    ensures ApplyOver(u, s, j) == u[0].text + ApplyOver(u[1..], s, if j >= u[0].at.end then j else u[0].at.end)
  {
    assert s[j..j] + u[0].text == u[0].text;
  }

  lemma OverGap(u: seq<Replacement>, s: string, j: int)
    requires u != [] && Rising(u, |s|) && 0 <= j < u[0].at.start
    ensures Rising(u[1..], |s|) && u[0].at.end <= |s|
    ensures ApplyOver(u, s, j) == s[j..u[0].at.start] + u[0].text + ApplyOver(u[1..], s, u[0].at.end)
  {
  }

  lemma {:induction false} GatherOver(u: seq<Replacement>, s: string)
    requires Rising(u, |s|)
    ensures Fits(Gather(u), |s|, 0) && ApplyAll(Gather(u), s, 0) == ApplyOver(u, s, 0)
  {
    if u != [] {
      assert u[1..] != [] ==> u[1..][0] == u[1];
      if u[0].IsTrivial() {
        GatherOver(u[1..], s);
        SkipOver(u[1..], s, 0, u[0].at.end);
        assert s[0..u[0].at.start] + u[0].text == s[0..u[0].at.end];
      } else {
        GatherFromOver(u[0], u[1..], s, 0);
      }
    }
  }

  lemma {:induction false} RisingUpright(u: seq<Replacement>, n: int)
    requires Rising(u, n) && 0 <= n
    ensures AllUpright(u) == u && InBuffer(u, n)
  {
    if u != [] {
      RisingUpright(u[1..], n);
      assert u == [u[0]] + u[1..];
    }
  }

  /** So `Buffer::edit` treats rising replacements as `ApplyOver` says. */
  lemma EditedOver(u: seq<Replacement>, s: string)
    requires Rising(u, |s|)
    ensures InBuffer(u, |s|) && Edited(s, u) == ApplyOver(u, s, 0)
  {
    RisingUpright(u, |s|);
    GatherOver(u, s);
  }

  // ------------------------------------------------------------------ anchors after joined replacements

  lemma {:induction false} ResolveOrder(g: seq<Replacement>, n: int, i: int, o: int, o': int)
    requires Fits(g, n, i) && i <= o <= o' <= n
    ensures i <= ResolveBefore(g, o) <= ResolveAfter(g, o) <= ResolveAfter(g, o') <= n + TotalDelta(g)
    ensures ResolveBefore(g, o) <= ResolveBefore(g, o')
  {
    if g != [] {
      var r := g[0];
      ResolveLow(g[1..], n, r.at.end);
      if o >= r.at.end {
        ResolveOrder(g[1..], n, r.at.end, o, o');
      } else if o' >= r.at.end {
        ResolveOrder(g[1..], n, r.at.end, o', o');
      }
    }
  }

  /** The rest of the text is never negative. */
  lemma {:induction false} ResolveLow(g: seq<Replacement>, n: int, i: int)
    requires Fits(g, n, i)
    ensures i <= n + TotalDelta(g)
  {
    if g != [] {
      ResolveLow(g[1..], n, g[0].at.end);
    }
  }

  /** What is gathered from two lists with a gap between them is gathered from each. */
  lemma {:induction false} GatherFromSplit(r: Replacement, d: seq<Replacement>, l: seq<Replacement>, n: int, m: int,
                                           x: int, z: int)
    requires r.at.start <= r.at.end <= x < z && Fits(d, x, m) && Fits(l, n, z)
    ensures GatherFrom(r, d + l) == GatherFrom(r, d) + Gather(l)
    decreases |d| + |l|
  {
    hide *;
    GatherFromIs(r, d);
    GatherFromIs(r, d + l);
    if d == [] {
      NoneAfter(l);
      GatherIs(l);
      GatherFromIs(r, l);
      if l != [] {
        FitsHead(l, n, z);
        if l[0].IsTrivial() {
          FitsEarlier(l[1..], n, l[0].at.end, z);
          GatherFromSplit(r, [], l[1..], n, m, x, z);
          NoneAfter(l[1..]);
        }
      }
    } else {
      TailOfSum(d, l);
      FitsHead(d, x, m);
      if d[0].IsTrivial() {
        GatherFromSplit(r, d[1..], l, n, d[0].at.end, x, z);
      } else if r.at.end >= d[0].at.start {
        MergeIs(r, d[0]);
        GatherFromSplit(Merge(r, d[0]), d[1..], l, n, d[0].at.end, x, z);
      } else {
        GatherFromSplit(d[0], d[1..], l, n, d[0].at.end, x, z);
        Assoc([r], GatherFrom(d[0], d[1..]), Gather(l));
      }
    }
  }

  lemma TailOfSum<T>(d: seq<T>, l: seq<T>)
    requires d != []
    ensures d + l != [] && (d + l)[0] == d[0] && (d + l)[1..] == d[1..] + l
  {
  }

  lemma GatherIs(l: seq<Replacement>)
    ensures l == [] ==> Gather(l) == []
    ensures l != [] && l[0].IsTrivial() ==> Gather(l) == Gather(l[1..])
    ensures l != [] && !l[0].IsTrivial() ==> Gather(l) == GatherFrom(l[0], l[1..])
  {
  }

  lemma {:induction false} GatherSplit(d: seq<Replacement>, l: seq<Replacement>, n: int, m: int, x: int, z: int)
    requires x < z && Fits(d, x, m) && Fits(l, n, z)
    ensures Gather(d + l) == Gather(d) + Gather(l)
  {
    hide *;
    if d == [] {
      NoneAfter(l);
      GatherIs(d);
      NoneAfter(Gather(l));
    } else {
      TailOfSum(d, l);
      FitsHead(d, x, m);
      GatherIs(d);
      GatherIs(d + l);
      if d[0].IsTrivial() {
        GatherSplit(d[1..], l, n, d[0].at.end, x, z);
      } else {
        FitsBounds(d[1..], x, d[0].at.end);
        GatherFromSplit(d[0], d[1..], l, n, d[0].at.end, x, z);
      }
    }
  }

  /** Replacements that start at `z` or later leave an anchor in front of `z` alone. */
  lemma ResolveInFront(g: seq<Replacement>, n: int, z: int, o: int)
    requires Fits(g, n, z) && o < z
    ensures ResolveAfter(g, o) == o && ResolveBefore(g, o) == o && ResolveBefore(g, z) == z
  {
  }

  /** Characters between `x` and `z` that nothing replaces are still there, between the anchors. */
  lemma StillBetween(g1: seq<Replacement>, g2: seq<Replacement>, s: string, x: int, z: int)
    requires 0 <= x < z <= |s| && Fits(g1, x, 0) && Fits(g2, |s|, z)
    ensures Fits(g1 + g2, |s|, 0)
    ensures var s' := ApplyAll(g1 + g2, s, 0);
            && 0 <= ResolveAfter(g1 + g2, x) <= ResolveBefore(g1 + g2, z) <= |s'|
            && s'[ResolveAfter(g1 + g2, x)..ResolveBefore(g1 + g2, z)] == s[x..z]
  {
    hide *;
    FitsEndsBy(g1, x, 0);
    EndEarlier(g1, x, z - 1);
    FitsEarlier(g2, |s|, z, x);
    ResolvePast(g1, g2, x);
    ResolvePast(g1, g2, z);
    ResolveInFront(g2, |s|, z, x);
    ApplyInTwo(g1, g2, s, 0, x);
    ApplyLength(g1, s[..x], 0);
    SkipTo(g2, s, x, z);
    MiddlePart(ApplyAll(g1, s[..x], 0), s[x..z], ApplyAll(g2, s, z));
  }

  lemma MiddlePart(u: string, v: string, w: string)
    ensures (u + (v + w))[|u|..|u| + |v|] == v
  {
  }

  /** After the last replacement the rest of the text is the same. */
  lemma UntouchedRest(g: seq<Replacement>, s: string, x: int)
    requires 0 <= x <= |s| && Fits(g, x, 0)
    ensures Fits(g, |s|, 0)
    ensures var s' := ApplyAll(g, s, 0); 0 <= ResolveAfter(g, x) <= |s'| && s'[ResolveAfter(g, x)..] == s[x..]
  {
    hide *;
    FitsEndsBy(g, x, 0);
    ResolvePast(g, [], x);
    NothingResolves(x);
    FirstPart(g, s, x);
    NoneAfter(g);
  }

  lemma NothingResolves(o: int)
    ensures ResolveAfter([], o) == o && ResolveBefore([], o) == o
  {
  }

  lemma NoneAfter<T>(l: seq<T>)
    ensures l + [] == l && [] + l == l
  {
  }

  // ------------------------------------------------------------------ undoing

  /** `l` is what was replaced, of which `d` has been looked at; undoing the rest from offset `x` of
      the former text and offset `j` of the new one restores the former text. */
  ghost predicate Undone(d: seq<Replacement>, l: seq<Replacement>, s: string, x: int, j: int) {
    && Fits(d, x, 0) && Fits(l, |s|, x)
    && (if d == [] then x == 0 && j == 0 else j == ResolveAfter(Gather(d + l), x))
  }

  /** Where the next range starts: nothing, or characters that nobody replaced, come before it. */
  lemma UndoneGap(d: seq<Replacement>, l: seq<Replacement>, s: string, x: int, j: int)
    requires Undone(d, l, s, x, j) && l != []
    requires Fits(Gather(d + l), |s|, 0)
    ensures 0 <= x <= l[0].at.start <= l[0].at.end <= |s|
    ensures var (g, z) := (Gather(d + l), l[0].at.start);
            var (s', b) := (ApplyAll(g, s, 0), ResolveBefore(g, z));
            && 0 <= j <= |s'| && b <= |s'| && ResolveAfter(g, l[0].at.end) >= j && ResolveAfter(g, l[0].at.end) >= b
            && (if b >= j then s'[j..b] == s[x..z] else x == z)
  {
    hide ApplyAll, Gather;
    var g, z := Gather(d + l), l[0].at.start;
    FitsHead(l, |s|, x);
    ApplyLength(g, s, 0);
    ResolveOrder(g, |s|, 0, x, z);
    ResolveOrder(g, |s|, 0, z, l[0].at.end);
    if x < z {
      FitsFrom(l, |s|, x, z);
      GatherSplit(d, l, |s|, 0, x, z);
      GatheredFits(d, s[..x], 0);
      GatheredFits(l, s, z);
      StillBetween(Gather(d), Gather(l), s, x, z);
      if d == [] {
        GatherOfNothing();
        NoneAfter(Gather(l));
        ResolveInFront(Gather(l), |s|, z, 0);
      }
    }
  }

  lemma FitsFrom(l: seq<Replacement>, n: int, i: int, z: int)
    requires Fits(l, n, i) && l != [] && z == l[0].at.start
    ensures Fits(l, n, z)
  {
  }

  lemma GatherOfNothing()
    ensures Gather([]) == []
  {
  }

  lemma GatheredFits(l: seq<Replacement>, s: string, i: int)
    requires Fits(l, |s|, i)
    ensures Fits(Gather(l), |s|, i)
  {
    GatherKeeps(l, s, i);
  }

  lemma UndoneNext(d: seq<Replacement>, l: seq<Replacement>, s: string, x: int, j: int)
    requires Undone(d, l, s, x, j) && l != []
    ensures (d + [l[0]]) + l[1..] == d + l
    ensures Undone(d + [l[0]], l[1..], s, l[0].at.end, ResolveAfter(Gather(d + l), l[0].at.end))
  {
    hide Gather;
    MoveFirst(d, l);
    FitsHead(l, |s|, x);
    FitsAppend(d, l[0], x, 0);
    assert d + [l[0]] != [];
  }

  lemma {:induction false} FitsAppend(d: seq<Replacement>, r: Replacement, x: int, i: int)
    requires Fits(d, x, i) && x <= r.at.start <= r.at.end
    ensures Fits(d + [r], r.at.end, i)
  {
    if d == [] {
      assert d + [r] == [r] && [r][1..] == [];
    } else {
      assert (d + [r])[1..] == d[1..] + [r];
      FitsAppend(d[1..], r, x, d[0].at.end);
    }
  }

  lemma UndoUnrolled(l: seq<Replacement>, g: seq<Replacement>, s: string)
    requires l != [] && 0 <= l[0].at.start <= l[0].at.end <= |s|
    ensures Undo(l, g, s)
            == [Replacement(ResolveAround(g, l[0].at), s[l[0].at.start..l[0].at.end])] + Undo(l[1..], g, s)
  {
  }

  lemma UndoFirst(l: seq<Replacement>, g: seq<Replacement>, s: string)
    ensures l == [] <==> Undo(l, g, s) == []
    ensures l != [] ==> Undo(l, g, s)[0].at.start == ResolveBefore(g, l[0].at.start)
  {
  }

  lemma OverHead(r: Replacement, u: seq<Replacement>, s: string, j: int, x: int, y: int)
    requires 0 <= j <= |s| && 0 <= r.at.start <= r.at.end <= |s| && Rising(u, |s|)
    requires u != [] ==> r.at.start <= u[0].at.start
    requires x == (if r.at.start >= j then r.at.start else j) && y == (if r.at.end >= j then r.at.end else j)
    ensures Rising([r] + u, |s|) && ApplyOver([r] + u, s, j) == s[j..x] + r.text + ApplyOver(u, s, y)
  {
    assert ([r] + u)[1..] == u;
  }

  lemma {:induction false} UndoOver(d: seq<Replacement>, l: seq<Replacement>, s: string, x: int, j: int,
                                    g: seq<Replacement>, s': string)
    requires Undone(d, l, s, x, j) && g == Gather(d + l) && Fits(g, |s|, 0) && s' == ApplyAll(g, s, 0)
    ensures 0 <= x <= |s| && 0 <= j <= |s'|
    ensures Rising(Undo(l, g, s), |s'|) && ApplyOver(Undo(l, g, s), s', j) == s[x..]
    decreases l
  {
    hide *;
    UndoneBounds(d, l, s, x, j);
    if l == [] {
      UndoneEnd(d, s, x, j, g, s');
    } else {
      var r, y := l[0], l[0].at.end;
      UndoneGap(d, l, s, x, j);
      UndoneNext(d, l, s, x, j);
      UndoOver(d + [r], l[1..], s, y, ResolveAfter(g, y), g, s');
      UndoUnrolled(l, g, s);
      UndoFirst(l[1..], g, s);
      NextStart(l, |s|, x, g);
      ApplyLength(g, s, 0);
      ResolveOrder(g, |s|, 0, r.at.start, y);
      AroundIs(g, r.at);
      var b := ResolveBefore(g, r.at.start);
      OverHead(Replacement(ResolveAround(g, r.at), s[r.at.start..y]), Undo(l[1..], g, s), s', j,
               if b >= j then b else j, ResolveAfter(g, y));
      GapText(s, s', x, j, b, r.at.start);
      SliceCat3(s, x, r.at.start, y);
    }
  }

  lemma AroundIs(g: seq<Replacement>, r: Range)
    ensures ResolveAround(g, r) == Range(ResolveBefore(g, r.start), ResolveAfter(g, r.end))
  {
  }

  lemma GapText(s: string, s': string, x: int, j: int, b: int, z: int)
    requires 0 <= x <= z <= |s| && 0 <= j <= |s'| && b <= |s'|
    requires if b >= j then s'[j..b] == s[x..z] else x == z
    ensures s'[j..if b >= j then b else j] == s[x..z]
  {
  }

  lemma NextStart(l: seq<Replacement>, n: int, i: int, g: seq<Replacement>)
    requires l != [] && Fits(l, n, i) && Fits(g, n, 0)
    ensures l[1..] != [] ==> ResolveBefore(g, l[0].at.start) <= ResolveBefore(g, l[1..][0].at.start)
  {
    FitsHead(l, n, i);
    if l[1..] != [] {
      FitsHead(l[1..], n, l[0].at.end);
      ResolveOrder(g, n, 0, l[0].at.start, l[1..][0].at.start);
    }
  }

  lemma UndoneBounds(d: seq<Replacement>, l: seq<Replacement>, s: string, x: int, j: int)
    requires Undone(d, l, s, x, j)
    ensures 0 <= x <= |s| && Fits(d, x, 0) && Fits(l, |s|, x) && (d == [] ==> x == 0 && j == 0)
    ensures d != [] ==> j == ResolveAfter(Gather(d + l), x)
  {
    FitsBounds(d, x, 0);
    FitsBounds(l, |s|, x);
    hide Gather;
  }

  lemma UndoneEnd(d: seq<Replacement>, s: string, x: int, j: int, g: seq<Replacement>, s': string)
    requires Undone(d, [], s, x, j) && g == Gather(d + []) && Fits(g, |s|, 0) && s' == ApplyAll(g, s, 0)
    ensures 0 <= x <= |s| && 0 <= j <= |s'|
    ensures Rising(Undo([], g, s), |s'|) && ApplyOver(Undo([], g, s), s', j) == s[x..]
  {
    UndoneBounds(d, [], s, x, j);
    OverNothing(g, s, s', j);
    NoneAfter(d);
    if d == [] {
      GatherOfNothing();
      AllOut(s);
    } else {
      hide ApplyAll, Gather, ApplyOver, Rising, Undo, Fits;
      SliceFits(d, s, x);
      UntouchedRest(g, s, x);
    }
  }

  lemma OverNothing(g: seq<Replacement>, s: string, s': string, j: int)
    ensures Rising(Undo([], g, s), |s'|) && (0 <= j <= |s'| ==> ApplyOver(Undo([], g, s), s', j) == s'[j..])
  {
  }

  lemma SliceFits(d: seq<Replacement>, s: string, x: int)
    requires 0 <= x <= |s| && Fits(d, x, 0)
    ensures Fits(Gather(d), x, 0)
  {
    GatheredFits(d, s[..x], 0);
  }

  /** Whatever was replaced at once, touching or not, empty or not: replacing what the anchors around
      each range enclose afterwards by its former text restores the text. The anchors must be attached
      to characters that were in the text before. */
  lemma UndoRestores(l: seq<Replacement>, s: string)
    requires Fits(l, |s|, 0)
    ensures InBuffer(Undo(l, Gather(l), s), |ApplyAll(l, s, 0)|)
    ensures Edited(ApplyAll(l, s, 0), Undo(l, Gather(l), s)) == s
  {
    hide *;
    var g, s' := Gather(l), ApplyAll(l, s, 0);
    GatherKeeps(l, s, 0);
    NoneAfter(l);
    UndoneStart(l, s);
    UndoOver([], l, s, 0, 0, g, s');
    EditedOver(Undo(l, g, s), s');
    AllOut(s);
  }

  lemma UndoneStart(l: seq<Replacement>, s: string)
    requires Fits(l, |s|, 0)
    ensures Undone([], l, s, 0, 0)
  {
  }

  lemma MoveFirst<T>(done: seq<T>, rest: seq<T>)
    requires rest != []
    ensures done + rest == (done + [rest[0]]) + rest[1..]
  {
  }

  /** Touching replacements: the ranges found for undoing overlap, and `Buffer::edit` joins them. */
  lemma TouchingUndone()
    ensures var l := [Replacement(Range(0, 1), "x"), Replacement(Range(1, 2), "y")];
            && Fits(l, 2, 0) && ApplyAll(l, "ab", 0) == "xy"
            && Undo(l, Gather(l), "ab") == [Replacement(Range(0, 2), "a"), Replacement(Range(2, 2), "b")]
            && Edited("xy", Undo(l, Gather(l), "ab")) == "ab"
  {
    var r, q := Replacement(Range(0, 1), "x"), Replacement(Range(1, 2), "y");
    var m := Replacement(Range(0, 2), "xy");
    TouchingGathered(r, q, m);
    TouchingApplied(r, q);
    TouchingFound(r, q, m);
    hide *;
    UndoRestores([r, q], "ab");
  }

  lemma TouchingGathered(r: Replacement, q: Replacement, m: Replacement)
    requires r == Replacement(Range(0, 1), "x") && q == Replacement(Range(1, 2), "y")
             && m == Replacement(Range(0, 2), "xy")
    ensures Gather([r, q]) == [m]
  {
    GatherIs([r, q]);
    assert [r, q][1..] == [q] && [q][1..] == [];
    GatherFromIs(r, [q]);
    MergeIs(r, q);
    assert "x" + "y" == "xy" && Merge(r, q) == m;
    GatherFromIs(m, []);
    hide Gather, GatherFrom;
  }

  lemma TouchingApplied(r: Replacement, q: Replacement)
    requires r == Replacement(Range(0, 1), "x") && q == Replacement(Range(1, 2), "y")
    ensures Fits([r, q], 2, 0) && ApplyAll([r, q], "ab", 0) == "xy"
  {
    assert [r, q][1..] == [q] && [q][1..] == [];
    Unroll([r, q], "ab", 0);
    Unroll([q], "ab", 1);
    NothingMore("ab", 2);
  }

  lemma TouchingFound(r: Replacement, q: Replacement, m: Replacement)
    requires r == Replacement(Range(0, 1), "x") && q == Replacement(Range(1, 2), "y")
             && m == Replacement(Range(0, 2), "xy")
    ensures Undo([r, q], [m], "ab") == [Replacement(Range(0, 2), "a"), Replacement(Range(2, 2), "b")]
  {
    assert [r, q][1..] == [q] && [q][1..] == [] && [m][1..] == [];
    assert "ab"[0..1] == "a" && "ab"[1..2] == "b";
    NothingResolves(2);
    assert m.Delta() == 0 && ResolveAfter([m], 2) == m.Delta() + ResolveAfter([m][1..], 2);
    UndoUnrolled([r, q], [m], "ab");
    UndoUnrolled([q], [m], "ab");
    UndoFirst([], [m], "ab");
  }
}
