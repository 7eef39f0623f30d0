/** Patches between two sequences: lists of replaced ranges in the style of `text::Patch`.

    A patch is used at two levels: over the rows of two texts and over their characters.
    `Aligned` says that a patch leads from one sequence to the other; it lets neighbouring
    edits touch. `Separated` is the stricter shape that `Patch::new` asserts. */
module Patches {

  /** A half-open range. The source uses unsigned fields and signed running deltas; plain
      integers cover both, and `Aligned` bounds them. */
  datatype Range = Range(start: int, end: int) {
    predicate IsEmpty() {
      end <= start
    }

    function Len(): int {
      end - start
    }

    function Shift(d: int): Range {
      Range(start + d, end + d)
    }

    predicate Contains(k: int) {
      start <= k < end
    }

    /** `util::RangeExt::overlaps`. */
    predicate Overlaps(other: Range) {
      start < other.end && other.start < end
    }
  }

  datatype Edit = Edit(was: Range, now: Range) {
    function Delta(): int {
      now.Len() - was.Len()
    }

    predicate IsEmpty() {
      was.IsEmpty() && now.IsEmpty()
    }

    function ShiftOld(d: int): Edit {
      Edit(was.Shift(d), now)
    }

    function ShiftBoth(dOld: int, dNew: int): Edit {
      Edit(was.Shift(dOld), now.Shift(dNew))
    }

    function Invert(): Edit {
      Edit(now, was)
    }
  }

  /** From position `i` of `a` and `j` of `b` on, the edits of `p` are in order, in bounds, at
      equal distance in both sequences, and everything outside their ranges is equal. */
  ghost predicate Aligned<T>(p: seq<Edit>, a: seq<T>, b: seq<T>, i: int, j: int) {
    && 0 <= i <= |a|
    && 0 <= j <= |b|
    && if p == [] then a[i..] == b[j..]
       else
         && i <= p[0].was.start <= p[0].was.end <= |a|
         && j <= p[0].now.start <= p[0].now.end <= |b|
         && a[i..p[0].was.start] == b[j..p[0].now.start]
         && Aligned(p[1..], a, b, p[0].was.end, p[0].now.end)
  }

  /** `p` leads from all of `a` to all of `b`. */
  ghost predicate Leads<T>(p: seq<Edit>, a: seq<T>, b: seq<T>) {
    Aligned(p, a, b, 0, 0)
  }

  /** The order that `Patch::new` asserts between neighbours, stated for every pair; `InOrder` below is
      the version for neighbours. */
  ghost predicate Separated(p: seq<Edit>) {
    forall m, n :: 0 <= m < n < |p| ==> p[m].was.end < p[n].was.start && p[m].now.end < p[n].now.start
  }

  /** Both ranges of every edit begin at an element that exists. */
  ghost predicate RealStarts<T>(p: seq<Edit>, a: seq<T>, b: seq<T>) {
    forall e :: e in p ==> e.was.start < |a| && e.now.start < |b|
  }

  /** Replacing the elements `r` of `a` by `w`. */
  function Splice<T>(a: seq<T>, r: Range, w: seq<T>): (s: seq<T>)
    requires 0 <= r.start <= r.end <= |a|
  {
    a[..r.start] + w + a[r.end..]
  }

  // ------------------------------------------------------------------ moving the frontier

  lemma SliceCat<T>(s: seq<T>, i: int, j: int, k: int)
    requires 0 <= i <= j <= k <= |s|
    ensures s[i..j] + s[j..k] == s[i..k]
  {
  }

  lemma ToEnd<T>(s: seq<T>, i: int)
    requires 0 <= i <= |s|
    ensures s[i..|s|] == s[i..]
  {
  }

  lemma SliceCat3<T>(s: seq<T>, i: int, j: int, k: int)
    requires 0 <= i <= j <= k <= |s|
    ensures s[i..j] + s[j..k] + s[k..] == s[i..]
  {
  }

  lemma SliceSplit<T>(a: seq<T>, i: int, m: int, i': int, b: seq<T>, j: int, n: int, j': int)
    requires 0 <= i <= m <= i' <= |a| && 0 <= j <= n <= j' <= |b|
    requires m - i == n - j
    requires a[i..i'] == b[j..j']
    ensures a[i..m] == b[j..n] && a[m..i'] == b[n..j']
  {
    assert a[i..m] == a[i..i'][..m - i] && b[j..n] == b[j..j'][..m - i];
    assert a[m..i'] == a[i..i'][m - i..] && b[n..j'] == b[j..j'][m - i..];
  }

  /** The two frontiers of a patch may advance together over elements before its first edit. */
  lemma Advance<T>(p: seq<Edit>, a: seq<T>, b: seq<T>, i: int, j: int, i': int, j': int)
    requires Aligned(p, a, b, i, j)
    requires 0 <= i' - i == j' - j
    requires if p == [] then i' <= |a| else i' <= p[0].was.start || j' <= p[0].now.start
    ensures Aligned(p, a, b, i', j')
    ensures a[i..i'] == b[j..j']
  {
    if p == [] {
      assert |a[i..]| == |b[j..]|;
      SliceSplit(a, i, i', |a|, b, j, j', |b|);
    } else {
      assert |a[i..p[0].was.start]| == |b[j..p[0].now.start]|;
      SliceSplit(a, i, i', p[0].was.start, b, j, j', p[0].now.start);
    }
  }

  /** The frontiers may also move back over elements that are equal. */
  lemma Widen<T>(p: seq<Edit>, a: seq<T>, b: seq<T>, i: int, j: int, i': int, j': int)
    requires 0 <= i <= i' && 0 <= j <= j'
    requires Aligned(p, a, b, i', j')
    requires a[i..i'] == b[j..j']
    ensures Aligned(p, a, b, i, j)
  {
    if p == [] {
      SliceCat(a, i, i', |a|);
      SliceCat(b, j, j', |b|);
    } else {
      SliceCat(a, i, i', p[0].was.start);
      SliceCat(b, j, j', p[0].now.start);
    }
  }

  lemma Prepend<T>(e: Edit, q: seq<Edit>, a: seq<T>, b: seq<T>, i: int, j: int)
    requires 0 <= i <= e.was.start <= e.was.end <= |a|
    requires 0 <= j <= e.now.start <= e.now.end <= |b|
    requires a[i..e.was.start] == b[j..e.now.start]
    requires Aligned(q, a, b, e.was.end, e.now.end)
    ensures Aligned([e] + q, a, b, i, j)
  {
    assert ([e] + q)[1..] == q;
  }

  function Inverted(p: seq<Edit>): (r: seq<Edit>)
    ensures |r| == |p|
    ensures forall k :: 0 <= k < |p| ==> r[k] == p[k].Invert()
  {
    if p == [] then [] else [p[0].Invert()] + Inverted(p[1..])
  }

  /** Distances between neighbours agree, so separation on one side is separation on both. */
  lemma {:induction false} SeparatedByNew<T>(p: seq<Edit>, a: seq<T>, b: seq<T>, i: int, j: int)
    requires Aligned(p, a, b, i, j)
    requires forall m, n :: 0 <= m < n < |p| ==> p[m].now.end < p[n].now.start
    ensures Separated(p)
  {
    if p != [] {
      var q := p[1..];
      SeparatedByNew(q, a, b, p[0].was.end, p[0].now.end);
      forall n | 0 < n < |p|
        ensures p[0].was.end < p[n].was.start
      {
        AfterFrontier(q, a, b, p[0].was.end, p[0].now.end, 0);
        assert q[0] == p[1] && p[0].was.end < q[0].was.start;
        assert q[n - 1] == p[n];
      }
      forall m, n | 0 < m < n < |p|
        ensures p[m].was.end < p[n].was.start
      {
        assert p[m] == q[m - 1] && p[n] == q[n - 1];
      }
    }
  }

  lemma SeparatedTail(p: seq<Edit>)
    requires Separated(p) && p != []
    ensures Separated(p[1..])
  {
  }

  /** Edits in order and strictly separated, stated from neighbour to neighbour. */
  ghost predicate InOrder(p: seq<Edit>) {
    p != [] ==>
      && p[0].was.start <= p[0].was.end && p[0].now.start <= p[0].now.end
      && (|p| > 1 ==> p[0].was.end < p[1].was.start && p[0].now.end < p[1].now.start)
      && InOrder(p[1..])
  }

  lemma OrderHead(p: seq<Edit>)
    requires p != [] && InOrder(p)
    ensures p[0].was.start <= p[0].was.end && p[0].now.start <= p[0].now.end && InOrder(p[1..])
  {
  }

  lemma {:induction false} AlignedInOrder<T>(p: seq<Edit>, a: seq<T>, b: seq<T>, i: int, j: int)
    requires Aligned(p, a, b, i, j) && Separated(p)
    ensures InOrder(p)
  {
    if p != [] {
      SeparatedTail(p);
      AlignedInOrder(p[1..], a, b, p[0].was.end, p[0].now.end);
    }
  }

  /** Every edit is well formed, and every later edit lies after the first. */
  lemma {:induction false} LaterEdit(p: seq<Edit>, e: Edit)
    requires InOrder(p) && e in p
    ensures e.was.start <= e.was.end && e.now.start <= e.now.end
    ensures e in p[1..] ==> p[0].was.end < e.was.start && p[0].now.end < e.now.start
  {
    if e in p[1..] {
      LaterEdit(p[1..], e);
      assert p[1..][0] == p[1];
      assert e == p[1] || e in p[1..][1..];
    }
  }

  /** Order between neighbours is order between all. */
  lemma {:induction false} InOrderSeparated(p: seq<Edit>)
    requires InOrder(p)
    ensures Separated(p)
  {
    if p != [] {
      InOrderSeparated(p[1..]);
      forall n | 0 < n < |p|
        ensures p[0].was.end < p[n].was.start && p[0].now.end < p[n].now.start
      {
        assert p[n] == p[1..][n - 1];
        LaterEdit(p, p[n]);
      }
      forall m, n | 0 < m < n < |p|
        ensures p[m].was.end < p[n].was.start && p[m].now.end < p[n].now.start
      {
        assert p[m] == p[1..][m - 1] && p[n] == p[1..][n - 1];
      }
    }
  }

  lemma HeadShape<T>(p: seq<Edit>, a: seq<T>, b: seq<T>, i: int, j: int)
    requires p != [] && Aligned(p, a, b, i, j)
    ensures p[0].was.start - i == p[0].now.start - j >= 0
    ensures 0 <= i && 0 <= j && p[0].was.start <= p[0].was.end <= |a| && p[0].now.start <= p[0].now.end <= |b|
    ensures Aligned(p[1..], a, b, p[0].was.end, p[0].now.end)
  {
    assert |a[i..p[0].was.start]| == |b[j..p[0].now.start]|;
  }

  /** Every later edit of an aligned patch lies after the frontier. */
  lemma AfterFrontier<T>(p: seq<Edit>, a: seq<T>, b: seq<T>, i: int, j: int, k: int)
    requires Aligned(p, a, b, i, j)
    requires 0 <= k < |p|
    ensures i <= p[k].was.start <= p[k].was.end <= |a|
    ensures j <= p[k].now.start <= p[k].now.end <= |b|
  {
    if k > 0 {
      AfterFrontier(p[1..], a, b, p[0].was.end, p[0].now.end, k - 1);
    }
  }

  // ------------------------------------------------------------------ applying a patch

  /** Applying the edits one after the other, as the repository's random test does: each edit
      replaces, in the text patched so far, as many elements as it has old ones, starting at the
      position it has in the new text. */
  ghost function ApplyInOrder<T>(p: seq<Edit>, text: seq<T>, b: seq<T>): (r: seq<T>) {
    if p == [] then text
    else
      var e := p[0];
      if 0 <= e.now.start <= e.now.end <= |b| && e.was.start <= e.was.end && e.now.start + e.was.Len() <= |text|
      then ApplyInOrder(p[1..],
                        Splice(text, Range(e.now.start, e.now.start + e.was.Len()), b[e.now.start..e.now.end]), b)
      else text
  }

  /** A patch that leads from `a` to `b` turns `a` into `b` when it is applied in order. */
  lemma LeadsApplies<T>(p: seq<Edit>, a: seq<T>, b: seq<T>)
    requires Leads(p, a, b)
    ensures ApplyInOrder(p, a, b) == b
  {
    assert b[..0] + a[0..] == a;
    AlignedApplies(p, a, b, 0, 0);
  }

  lemma {:induction false} AlignedApplies<T>(p: seq<Edit>, a: seq<T>, b: seq<T>, i: int, j: int)
    requires Aligned(p, a, b, i, j)
    ensures ApplyInOrder(p, b[..j] + a[i..], b) == b
    decreases p
  {
    var text := b[..j] + a[i..];
    if p == [] {
      assert text == b[..j] + b[j..] == b;
    } else {
      var e := p[0];
      assert |a[i..e.was.start]| == |b[j..e.now.start]|;
      assert a[i..] == a[i..e.was.start] + a[e.was.start..];
      assert b[..e.now.start] == b[..j] + b[j..e.now.start];
      assert text == b[..e.now.start] + a[e.was.start..];
      var r := Range(e.now.start, e.now.start + e.was.Len());
      var text' := Splice(text, r, b[e.now.start..e.now.end]);
      assert text[r.end..] == a[e.was.end..];
      assert text[..r.start] == b[..e.now.start];
      assert text' == b[..e.now.end] + a[e.was.end..] by {
        assert b[..e.now.end] == b[..e.now.start] + b[e.now.start..e.now.end];
      }
      AlignedApplies(p[1..], a, b, e.was.end, e.now.end);
    }
  }

  // ------------------------------------------------------------------ choosing sides edit by edit

  /** The text that takes the new side of the edits picked by `picks`, the old side of the
      others, and the common elements in between, from position `i` of `a` on. */
  ghost function Pick<T>(p: seq<Edit>, a: seq<T>, b: seq<T>, picks: seq<bool>, i: int): (r: seq<T>)
    requires |picks| == |p|
  {
    if p == [] then (if 0 <= i <= |a| then a[i..] else [])
    else
      var e := p[0];
      if 0 <= i <= e.was.start <= e.was.end <= |a| && 0 <= e.now.start <= e.now.end <= |b|
      then a[i..e.was.start]
           + (if picks[0] then b[e.now.start..e.now.end] else a[e.was.start..e.was.end])
           + Pick(p[1..], a, b, picks[1..], e.was.end)
      else []
  }

  function AllOf(n: nat, v: bool): (r: seq<bool>)
    ensures |r| == n
  {
    seq(n, _ => v)
  }

  function Negated(picks: seq<bool>): (r: seq<bool>)
    ensures |r| == |picks| && forall k :: 0 <= k < |r| ==> r[k] == !picks[k]
  {
    seq(|picks|, k requires 0 <= k < |picks| => !picks[k])
  }

  /** Picking nothing gives the old text, picking everything the new one. */
  lemma {:induction false} PickExtremes<T>(p: seq<Edit>, a: seq<T>, b: seq<T>, i: int, j: int)
    requires Aligned(p, a, b, i, j)
    ensures Pick(p, a, b, AllOf(|p|, false), i) == a[i..]
    ensures Pick(p, a, b, AllOf(|p|, true), i) == b[j..]
  {
    if p != [] {
      var e := p[0];
      PickExtremes(p[1..], a, b, e.was.end, e.now.end);
      assert AllOf(|p|, false)[1..] == AllOf(|p[1..]|, false);
      assert AllOf(|p|, true)[1..] == AllOf(|p[1..]|, true);
      assert a[i..] == a[i..e.was.start] + a[e.was.start..e.was.end] + a[e.was.end..];
      assert b[j..] == b[j..e.now.start] + b[e.now.start..e.now.end] + b[e.now.end..];
    }
  }

  lemma AllOut<T>(s: seq<T>)
    ensures s[|s|..] == [] && s[0..] == s
  {
  }

  lemma LeadsAligned<T>(p: seq<Edit>, a: seq<T>, b: seq<T>)
    requires Leads(p, a, b)
    ensures Aligned(p, a, b, 0, 0)
  {
  }

  /** Picking everything gives the new sequence, picking nothing the old one. */
  lemma PickWhole<T>(p: seq<Edit>, a: seq<T>, b: seq<T>)
    requires Leads(p, a, b)
    ensures Pick(p, a, b, AllOf(|p|, false), 0) == a
    ensures Pick(p, a, b, AllOf(|p|, true), 0) == b
  {
    LeadsAligned(p, a, b);
    hide *;
    PickExtremes(p, a, b, 0, 0);
    AllOut(a);
    AllOut(b);
  }

  /** Picking the new side of some edits going forward is picking the old side of the others
      going backward. */
  lemma {:induction false} PickInverted<T>(p: seq<Edit>, a: seq<T>, b: seq<T>, picks: seq<bool>, i: int, j: int)
    requires Aligned(p, a, b, i, j)
    requires |picks| == |p|
    ensures Pick(p, a, b, picks, i) == Pick(Inverted(p), b, a, Negated(picks), j)
  {
    if p != [] {
      PickInverted(p[1..], a, b, picks[1..], p[0].was.end, p[0].now.end);
      assert Inverted(p)[1..] == Inverted(p[1..]);
      assert Negated(picks)[1..] == Negated(picks[1..]);
    }
  }

  /** The edits that were not picked, their old rows moved by the deltas picked before them. */
  function Remainder(p: seq<Edit>, picks: seq<bool>, d: int): (r: seq<Edit>)
    requires |picks| == |p|
    ensures |r| <= |p|
  {
    if p == [] then []
    else if picks[0] then Remainder(p[1..], picks[1..], d + p[0].Delta())
    else [p[0].ShiftOld(d)] + Remainder(p[1..], picks[1..], d)
  }

  /** The remainder still leads from a text that continues with the picked sides to the new text. */
  lemma {:induction false} RemainderLeads<T>(p: seq<Edit>, a: seq<T>, b: seq<T>, picks: seq<bool>,
                                            i: int, j: int, a': seq<T>, d: int)
    requires Aligned(p, a, b, i, j)
    requires |picks| == |p|
    requires 0 <= i + d <= |a'| && a'[i + d..] == Pick(p, a, b, picks, i)
    ensures Aligned(Remainder(p, picks, d), a', b, i + d, j)
    decreases p
  {
    hide Aligned, Pick;
    if p == [] {
      RemainderEnds(a, b, i, j, a', d);
    } else {
      var e := p[0];
      HeadShape(p, a, b, i, j);
      if picks[0] {
        PickedStep(p, a, b, picks, i, j, a', d);
        RemainderLeads(p[1..], a, b, picks[1..], e.was.end, e.now.end, a', d + e.Delta());
        Widen(Remainder(p[1..], picks[1..], d + e.Delta()), a', b, i + d, j, e.was.end + (d + e.Delta()), e.now.end);
      } else {
        KeptStep(p, a, b, picks, i, j, a', d);
        RemainderLeads(p[1..], a, b, picks[1..], e.was.end, e.now.end, a', d);
        Prepend(e.ShiftOld(d), Remainder(p[1..], picks[1..], d), a', b, i + d, j);
      }
    }
  }

  lemma RemainderEnds<T>(a: seq<T>, b: seq<T>, i: int, j: int, a': seq<T>, d: int)
    requires Aligned([], a, b, i, j)
    requires 0 <= i + d <= |a'| && a'[i + d..] == Pick([], a, b, [], i)
    ensures Aligned([], a', b, i + d, j)
  {
  }

  lemma PickedStep<T>(p: seq<Edit>, a: seq<T>, b: seq<T>, picks: seq<bool>, i: int, j: int, a': seq<T>, d: int)
    requires Aligned(p, a, b, i, j) && p != []
    requires |picks| == |p| && picks[0]
    requires 0 <= i + d <= |a'| && a'[i + d..] == Pick(p, a, b, picks, i)
    ensures var k := p[0].was.end + (d + p[0].Delta());
            && i + d <= k <= |a'|
            && a'[i + d..k] == b[j..p[0].now.end]
            && a'[k..] == Pick(p[1..], a, b, picks[1..], p[0].was.end)
  {
    var e := p[0];
    SliceCat(b, j, e.now.start, e.now.end);
    assert |a[i..e.was.start]| == |b[j..e.now.start]|;
    Unconcat(a', i + d, b[j..e.now.end], Pick(p[1..], a, b, picks[1..], e.was.end));
  }

  lemma KeptStep<T>(p: seq<Edit>, a: seq<T>, b: seq<T>, picks: seq<bool>, i: int, j: int, a': seq<T>, d: int)
    requires Aligned(p, a, b, i, j) && p != []
    requires |picks| == |p| && !picks[0]
    requires 0 <= i + d <= |a'| && a'[i + d..] == Pick(p, a, b, picks, i)
    ensures p[0].was.end + d <= |a'|
    ensures a'[i + d..p[0].was.start + d] == b[j..p[0].now.start]
    ensures a'[p[0].was.end + d..] == Pick(p[1..], a, b, picks[1..], p[0].was.end)
  {
    var e := p[0];
    SliceCat(a, i, e.was.start, e.was.end);
    var rest := Pick(p[1..], a, b, picks[1..], e.was.end);
    Unconcat(a', i + d, a[i..e.was.end], rest);
    Assoc(a[i..e.was.start], a[e.was.start..e.was.end], rest);
    Unconcat(a', i + d, a[i..e.was.start], a[e.was.start..e.was.end] + rest);
  }

  lemma Unconcat<T>(s: seq<T>, k: int, x: seq<T>, y: seq<T>)
    requires 0 <= k <= |s|
    requires s[k..] == x + y
    ensures k + |x| + |y| == |s|
    ensures s[k..k + |x|] == x
    ensures s[k + |x|..] == y
  {
    assert s[k..k + |x|] == s[k..][..|x|];
    assert s[k + |x|..] == s[k..][|x|..];
  }

  lemma Assoc<T>(x: seq<T>, y: seq<T>, z: seq<T>)
    ensures x + (y + z) == x + y + z
  {
  }

  /** Keeping some edits leaves a patch that satisfies everything the old one did. */
  lemma RemainderKeepsShape<T>(p: seq<Edit>, a: seq<T>, b: seq<T>, picks: seq<bool>)
    requires Leads(p, a, b) && Separated(p) && RealStarts(p, a, b)
    requires |picks| == |p|
    ensures var a' := Pick(p, a, b, picks, 0);
            var q := Remainder(p, picks, 0);
            Leads(q, a', b) && Separated(q) && RealStarts(q, a', b)
  {
    var a' := Pick(p, a, b, picks, 0);
    assert a'[0..] == a';
    RemainderLeads(p, a, b, picks, 0, 0, a', 0);
    RemainderInOrder(p, picks, 0);
    SeparatedByNew(Remainder(p, picks, 0), a', b, 0, 0);
    RemainderStarts(p, a, b, picks, 0, 0, a', 0);
  }

  /** The remainder keeps new ranges as they are, so it keeps their order. */
  lemma RemainderStep(p: seq<Edit>, picks: seq<bool>, d: int)
    requires |picks| == |p|
    ensures p == [] ==> Remainder(p, picks, d) == []
    ensures p != [] && picks[0] ==> Remainder(p, picks, d) == Remainder(p[1..], picks[1..], d + p[0].Delta())
    ensures p != [] && !picks[0] ==> Remainder(p, picks, d) == [p[0].ShiftOld(d)] + Remainder(p[1..], picks[1..], d)
    ensures p != [] ==> p[0].ShiftOld(d).now == p[0].now
  {
  }

  lemma {:induction false} RemainderFrom(p: seq<Edit>, picks: seq<bool>, d: int, e: Edit)
    requires |picks| == |p| && e in Remainder(p, picks, d)
    ensures exists e' :: e' in p && e'.now == e.now
  {
    if !picks[0] && e == p[0].ShiftOld(d) {
      assert p[0] in p;
    } else {
      RemainderFrom(p[1..], picks[1..], if picks[0] then d + p[0].Delta() else d, e);
      var e' :| e' in p[1..] && e'.now == e.now;
      assert e' in p;
    }
  }

  /** The new rows of the edits ascend. */
  ghost predicate NewAscends(q: seq<Edit>) {
    forall m, n :: 0 <= m < n < |q| ==> q[m].now.end < q[n].now.start
  }

  lemma ConsAscends(e: Edit, q: seq<Edit>)
    requires NewAscends(q) && forall e' :: e' in q ==> e.now.end < e'.now.start
    ensures NewAscends([e] + q)
  {
  }

  lemma {:induction false} RemainderInOrder(p: seq<Edit>, picks: seq<bool>, d: int)
    requires Separated(p) && |picks| == |p|
    ensures NewAscends(Remainder(p, picks, d))
  {
    hide *;
    RemainderStep(p, picks, d);
    if p == [] {
      NoneAscends();
    } else {
      SeparatedTail(p);
      RemainderInOrder(p[1..], picks[1..], if picks[0] then d + p[0].Delta() else d);
      if !picks[0] {
        var r := Remainder(p[1..], picks[1..], d);
        forall e | e in r
          ensures p[0].now.end < e.now.start
        {
          RemainderFrom(p[1..], picks[1..], d, e);
          var e' :| e' in p[1..] && e'.now == e.now;
          FirstIsFirst(p, e');
        }
        ConsAscends(p[0].ShiftOld(d), r);
      }
    }
  }

  lemma NoneAscends()
    ensures NewAscends([])
  {
  }

  lemma FirstIsFirst(p: seq<Edit>, e: Edit)
    requires Separated(p) && p != [] && e in p[1..]
    ensures p[0].was.end < e.was.start && p[0].now.end < e.now.start
  {
    var k :| 0 <= k < |p[1..]| && p[1..][k] == e;
    assert p[k + 1] == e;
  }

  lemma {:induction false} RemainderStarts<T>(p: seq<Edit>, a: seq<T>, b: seq<T>, picks: seq<bool>,
                                             i: int, j: int, a': seq<T>, d: int)
    requires Aligned(p, a, b, i, j) && Separated(p) && RealStarts(p, a, b)
    requires |picks| == |p|
    requires 0 <= i + d <= |a'| && a'[i + d..] == Pick(p, a, b, picks, i)
    ensures RealStarts(Remainder(p, picks, d), a', b)
    decreases p
  {
    hide Aligned, Pick, Separated;
    if p != [] {
      var e := p[0];
      HeadShape(p, a, b, i, j);
      SeparatedTail(p);
      if picks[0] {
        PickedStep(p, a, b, picks, i, j, a', d);
        RemainderStarts(p[1..], a, b, picks[1..], e.was.end, e.now.end, a', d + e.Delta());
      } else {
        KeptStep(p, a, b, picks, i, j, a', d);
        RemainderStarts(p[1..], a, b, picks[1..], e.was.end, e.now.end, a', d);
        StartIsInside(p, a, b, picks, i, j);
        assert e in p;
      }
    }
  }

  lemma StartIsInside<T>(p: seq<Edit>, a: seq<T>, b: seq<T>, picks: seq<bool>, i: int, j: int)
    requires Aligned(p, a, b, i, j) && Separated(p) && RealStarts(p, a, b)
    requires |picks| == |p| > 0 && !picks[0]
    ensures p[0].was.start - i < |Pick(p, a, b, picks, i)|
  {
    var e := p[0];
    assert e in p;
    if e.was.start == e.was.end {
      if |p| > 1 {
        assert p[1..][0] == p[1];
      }
      assert |Pick(p[1..], a, b, picks[1..], e.was.end)| > 0;
    }
  }
}
