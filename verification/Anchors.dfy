/** Anchors in a buffer that keeps its deleted characters.

    A character that is deleted stays where it was, invisible, and anchors attached to it stay too.
    New text goes to one of the gaps between the characters that are there; a gap is named by the
    number of characters in front of it, visible or not. */
module Anchors {
  import opened Patches
  import opened Ropes
  import opened Buffers
  import opened Undoing
  import opened Review

  /** A character; `added` ones were put in by the edit that is looked at. */
  datatype Cell = Cell(c: char, visible: bool, added: bool)

  function CellText(x: Cell): string {
    if x.visible then [x.c] else ""
  }

  /** The text of the buffer. */
  function TextOf(b: seq<Cell>): string {
    if b == [] then "" else CellText(b[0]) + TextOf(b[1..])
  }

  /** The offset of a gap. */
  function Count(b: seq<Cell>, i: int): nat {
    if 0 <= i <= |b| then |TextOf(b[..i])| else 0
  }

  predicate NoneAdded(b: seq<Cell>) {
    forall x :: x in b ==> !x.added
  }

  lemma {:induction false} VisibleCat(x: seq<Cell>, y: seq<Cell>)
    ensures TextOf(x + y) == TextOf(x) + TextOf(y)
  {
    if x == [] {
      NoneAfter(y);
    } else {
      TailOfSum(x, y);
      VisibleCat(x[1..], y);
      Assoc(CellText(x[0]), TextOf(x[1..]), TextOf(y));
    }
  }

  lemma CutVisible(b: seq<Cell>, i: int, j: int)
    requires 0 <= i <= j <= |b|
    ensures TextOf(b[i..]) == TextOf(b[i..j]) + TextOf(b[j..])
    ensures TextOf(b[..j]) == TextOf(b[..i]) + TextOf(b[i..j])
    ensures Count(b, i) <= Count(b, j) == Count(b, i) + |TextOf(b[i..j])| <= |TextOf(b)|
  {
    hide *;
    CutCells(b, i, j);
    VisibleCat(b[i..j], b[j..]);
    VisibleCat(b[..i], b[i..j]);
    VisibleCat(b[..j], b[j..]);
    CountIs(b, i);
    CountIs(b, j);
  }

  lemma CutCells(b: seq<Cell>, i: int, j: int)
    requires 0 <= i <= j <= |b|
    ensures b[i..] == b[i..j] + b[j..] && b[..j] == b[..i] + b[i..j] && b == b[..j] + b[j..]
  {
  }

  lemma StepVisible(b: seq<Cell>, i: int)
    requires 0 <= i < |b|
    ensures TextOf(b[i..]) == CellText(b[i]) + TextOf(b[i + 1..])
    ensures Count(b, i + 1) == Count(b, i) + |CellText(b[i])|
  {
    assert b[i..][0] == b[i] && b[i..][1..] == b[i + 1..];
    CutVisible(b, i, i + 1);
    OneVisible(b, i);
  }

  /** The text between two gaps. */
  lemma SliceVisible(b: seq<Cell>, i: int, j: int)
    requires 0 <= i <= j <= |b|
    ensures Count(b, i) <= Count(b, j) <= |TextOf(b)|
    ensures TextOf(b)[Count(b, i)..Count(b, j)] == TextOf(b[i..j])
    ensures TextOf(b)[Count(b, i)..] == TextOf(b[i..])
  {
    hide *;
    CutVisible(b, i, j);
    WholeVisible(b, i);
    CountIs(b, i);
    MiddleAndRest(TextOf(b[..i]), TextOf(b[i..j]), TextOf(b[j..]));
  }

  lemma WholeVisible(b: seq<Cell>, i: int)
    requires 0 <= i <= |b|
    ensures TextOf(b) == TextOf(b[..i]) + TextOf(b[i..])
  {
    assert b == b[..i] + b[i..];
    VisibleCat(b[..i], b[i..]);
  }

  lemma CountIs(b: seq<Cell>, i: int)
    requires 0 <= i <= |b|
    ensures Count(b, i) == |TextOf(b[..i])|
  {
  }

  lemma MiddleAndRest(u: string, v: string, w: string)
    ensures (u + (v + w))[|u|..|u| + |v|] == v && (u + (v + w))[|u|..] == v + w
  {
  }

  // ------------------------------------------------------------------ anchors

  /** Where an anchor attached to the character in front of gap `a` is (`anchor_before`): right behind
      that character, or at the start. Added characters do not count as gaps. */
  function OffsetBehind(b: seq<Cell>, a: int): nat {
    if a <= 0 || b == [] then 0 else |CellText(b[0])| + OffsetBehind(b[1..], if b[0].added then a else a - 1)
  }

  /** Where an anchor attached to the character behind gap `z` is (`anchor_after`): right in front of
      that character, or at the end. */
  function OffsetAhead(b: seq<Cell>, z: int): nat {
    if b == [] || (z <= 0 && !b[0].added) then 0
    else |CellText(b[0])| + OffsetAhead(b[1..], if b[0].added then z else z - 1)
  }

  /** As long as nothing is added, both are at the offset of the gap. */
  lemma {:induction false} PlainAnchors(b: seq<Cell>, i: int)
    requires NoneAdded(b) && 0 <= i <= |b|
    ensures OffsetBehind(b, i) == OffsetAhead(b, i) == Count(b, i)
  {
    if i > 0 {
      assert b[0] in b && b[..i][1..] == b[1..][..i - 1];
      PlainAnchors(b[1..], i - 1);
    } else {
      assert b == [] || b[0] in b;
    }
  }

  /** The first gap at offset `o`: right behind a visible character, or the start. */
  function FirstGap(b: seq<Cell>, o: int): nat {
    if b == [] || o <= 0 then 0 else 1 + FirstGap(b[1..], o - |CellText(b[0])|)
  }

  /** The last gap at offset `o`: right in front of a visible character, or the end. */
  function LastGap(b: seq<Cell>, o: int): nat {
    if b == [] || (o <= 0 && b[0].visible) then 0 else 1 + LastGap(b[1..], o - |CellText(b[0])|)
  }

  lemma {:induction false} FirstGapIs(b: seq<Cell>, o: int)
    requires 0 <= o <= |TextOf(b)|
    ensures FirstGap(b, o) <= |b| && Count(b, FirstGap(b, o)) == o
    ensures FirstGap(b, o) == 0 || b[FirstGap(b, o) - 1].visible
  {
    if o > 0 {
      var n := FirstGap(b[1..], o - |CellText(b[0])|);
      FirstGapIs(b[1..], o - |CellText(b[0])|);
      assert b[..n + 1][1..] == b[1..][..n];
    }
  }

  lemma {:induction false} LastGapIs(b: seq<Cell>, o: int)
    requires 0 <= o <= |TextOf(b)|
    ensures LastGap(b, o) <= |b| && Count(b, LastGap(b, o)) == o
    ensures LastGap(b, o) == |b| || b[LastGap(b, o)].visible
  {
    if b != [] && !(o == 0 && b[0].visible) {
      var n := LastGap(b[1..], o - |CellText(b[0])|);
      LastGapIs(b[1..], o - |CellText(b[0])|);
      assert b[..n + 1][1..] == b[1..][..n];
    }
  }

  /** A visible character keeps the gaps on its two sides apart. */
  lemma GapOrder(b: seq<Cell>, i: int, j: int)
    requires 0 <= i <= |b| && 0 <= j <= |b|
    ensures Count(b, i) < Count(b, j) ==> i < j
    ensures i < j && b[i].visible ==> Count(b, i) < Count(b, j)
    ensures i < j && b[j - 1].visible ==> Count(b, i) < Count(b, j)
  {
    hide *;
    if i < j {
      CellTextLength(b[i]);
      CellTextLength(b[j - 1]);
      StepVisible(b, i);
      StepVisible(b, j - 1);
      CutVisible(b, i + 1, j);
      CutVisible(b, i, j - 1);
    } else {
      CutVisible(b, j, i);
    }
  }

  lemma CellTextLength(x: Cell)
    ensures |CellText(x)| == if x.visible then 1 else 0
  {
  }

  // ------------------------------------------------------------------ an edit of the buffer

  /** New text, visible. */
  function Typed(s: string): seq<Cell> {
    if s == "" then [] else [Cell(s[0], true, true)] + Typed(s[1..])
  }

  function Struck(x: Cell, deleted: bool): Cell {
    if deleted then x.(visible := false) else x
  }

  /** What an edit makes of the characters from gap `i` on: the replacements `g` are still to be made,
      the text of each at its gap in `p`, in front of the characters it deletes; characters up to offset
      `y` are being deleted. */
  function AfterEdit(b: seq<Cell>, i: int, y: int, g: seq<Replacement>, p: seq<int>): seq<Cell>
    requires |p| == |g| && 0 <= i <= |b|
    decreases |b| - i + |g|
  {
    if g != [] && p[0] == i then Typed(g[0].text) + AfterEdit(b, i, g[0].at.end, g[1..], p[1..])
    else if i == |b| then []
    else [Struck(b[i], Count(b, i) < y)] + AfterEdit(b, i + 1, y, g, p)
  }

  /** Each text goes to a gap at the offset where its range starts. */
  ghost predicate GapsFor(b: seq<Cell>, g: seq<Replacement>, p: seq<int>) {
    |p| == |g| &&
    (g != [] ==> 0 <= p[0] <= |b| && Count(b, p[0]) == g[0].at.start && GapsFor(b, g[1..], p[1..]))
  }

  /** Gaps from `i` on that ascend. */
  ghost predicate Ascends(p: seq<int>, i: int, n: int) {
    p != [] ==> i <= p[0] <= n && Ascends(p[1..], p[0] + 1, n)
  }

  lemma {:induction false} GapsAscend(b: seq<Cell>, g: seq<Replacement>, p: seq<int>, n: int, k: int, i: int)
    requires GapsFor(b, g, p) && Fits(g, n, k) && Apart(g) && (p != [] ==> i <= p[0])
    ensures Ascends(p, i, |b|)
  {
    if g != [] {
      FitsHead(g, n, k);
      if |g| > 1 {
        assert g[1..][0] == g[1];
        GapOrder(b, p[0], p[1..][0]);
      }
      GapsAscend(b, g[1..], p[1..], n, g[0].at.end, p[0] + 1);
    }
  }

  lemma {:induction false} TypedVisible(s: string)
    ensures TextOf(Typed(s)) == s
  {
    if s != "" {
      TypedVisible(s[1..]);
      assert Typed(s)[1..] == Typed(s[1..]);
      assert s == [s[0]] + s[1..];
    }
  }

  function Later(i: int, j: int): int {
    if i >= j then i else j
  }

  /** The text of the buffer becomes what replacing its characters gives, whichever gaps are taken. */
  lemma {:induction false} AfterEditText(b: seq<Cell>, i: int, y: int, g: seq<Replacement>, p: seq<int>)
    requires |p| == |g| && GapsFor(b, g, p) && 0 <= i <= |b| && Ascends(p, i, |b|)
    requires Fits(g, |TextOf(b)|, y)
    ensures Fits(g, |TextOf(b)|, Later(Count(b, i), y))
    ensures TextOf(AfterEdit(b, i, y, g, p)) == ApplyAll(g, TextOf(b), Later(Count(b, i), y))
    decreases |b| - i + |g|
  {
    hide *;
    var s := TextOf(b);
    AfterEditIs(b, i, y, g, p);
    FitsBounds(g, |s|, y);
    if g != [] && p[0] == i {
      GapsHead(b, g, p, i);
      FitsHead(g, |s|, y);
      AfterEditText(b, i, g[0].at.end, g[1..], p[1..]);
      InsertText(b, i, y, g, p);
    } else if i == |b| {
      NoGapsLeft(b, g, p, i);
      RestText(b, y);
    } else {
      GapsLater(b, p, i);
      AfterEditText(b, i + 1, y, g, p);
      NextCellText(b, i, y, g, AfterEdit(b, i + 1, y, g, p));
    }
  }

  lemma AfterEditIs(b: seq<Cell>, i: int, y: int, g: seq<Replacement>, p: seq<int>)
    requires |p| == |g| && 0 <= i <= |b|
    ensures g != [] && p[0] == i ==>
              AfterEdit(b, i, y, g, p) == Typed(g[0].text) + AfterEdit(b, i, g[0].at.end, g[1..], p[1..])
    ensures !(g != [] && p[0] == i) && i == |b| ==> AfterEdit(b, i, y, g, p) == []
    ensures !(g != [] && p[0] == i) && i < |b| ==>
              AfterEdit(b, i, y, g, p) == [Struck(b[i], Count(b, i) < y)] + AfterEdit(b, i + 1, y, g, p)
  {
  }

  lemma GapsHead(b: seq<Cell>, g: seq<Replacement>, p: seq<int>, i: int)
    requires GapsFor(b, g, p) && Ascends(p, i, |b|) && g != []
    ensures |p| == |g| && GapsFor(b, g[1..], p[1..]) && Ascends(p[1..], i, |b|) && Ascends(p[1..], p[0] + 1, |b|)
    ensures i <= p[0] <= |b| && 0 <= p[0] && Count(b, p[0]) == g[0].at.start
  {
    hide Count;
  }

  lemma NoGapsLeft(b: seq<Cell>, g: seq<Replacement>, p: seq<int>, i: int)
    requires |p| == |g| && Ascends(p, i, |b|) && i == |b| && !(g != [] && p[0] == i)
    ensures g == []
  {
  }

  lemma GapsLater(b: seq<Cell>, p: seq<int>, i: int)
    requires Ascends(p, i, |b|) && (p != [] ==> p[0] != i)
    ensures Ascends(p, i + 1, |b|)
  {
  }

  lemma InsertText(b: seq<Cell>, i: int, y: int, g: seq<Replacement>, p: seq<int>)
    requires g != [] && |p| == |g| && p[0] == i && 0 <= i <= |b| && Count(b, i) == g[0].at.start
    requires Fits(g, |TextOf(b)|, y)
    requires var m := Later(Count(b, i), g[0].at.end);
             Fits(g[1..], |TextOf(b)|, m)
             && TextOf(AfterEdit(b, i, g[0].at.end, g[1..], p[1..])) == ApplyAll(g[1..], TextOf(b), m)
    ensures Fits(g, |TextOf(b)|, Later(Count(b, i), y))
    ensures TextOf(AfterEdit(b, i, y, g, p)) == ApplyAll(g, TextOf(b), Later(Count(b, i), y))
  {
    hide TextOf, Count, AfterEdit, ApplyAll, Fits, Typed;
    var s, x := TextOf(b), g[0].at.start;
    AfterEditIs(b, i, y, g, p);
    FitsHead(g, |s|, y);
    FitsFrom(g, |s|, y, x);
    Unroll(g, s, x);
    TypedVisible(g[0].text);
    VisibleCat(Typed(g[0].text), AfterEdit(b, i, g[0].at.end, g[1..], p[1..]));
    NothingBefore(s, x, g[0].text, ApplyAll(g[1..], s, g[0].at.end));
  }

  lemma RestText(b: seq<Cell>, y: int)
    requires 0 <= y <= |TextOf(b)|
    ensures Fits([], |TextOf(b)|, Later(Count(b, |b|), y))
    ensures TextOf([]) == ApplyAll([], TextOf(b), Later(Count(b, |b|), y))
  {
    assert b[..|b|] == b;
  }

  lemma NextCellText(b: seq<Cell>, i: int, y: int, g: seq<Replacement>, rest: seq<Cell>)
    requires 0 <= i < |b| && 0 <= y && Fits(g, |TextOf(b)|, Later(Count(b, i + 1), y))
    requires TextOf(rest) == ApplyAll(g, TextOf(b), Later(Count(b, i + 1), y))
    ensures Fits(g, |TextOf(b)|, Later(Count(b, i), y))
    ensures TextOf([Struck(b[i], Count(b, i) < y)] + rest) == ApplyAll(g, TextOf(b), Later(Count(b, i), y))
  {
    var x := Struck(b[i], Count(b, i) < y);
    FrontVisible(x, rest);
    hide TextOf, ApplyAll, Fits, Count;
    StepVisible(b, i);
    if b[i].visible && Count(b, i) >= y {
      SkipTo(g, TextOf(b), Count(b, i), Count(b, i + 1));
      SliceVisible(b, i, i + 1);
      OneVisible(b, i);
    }
  }

  lemma FrontVisible(x: Cell, rest: seq<Cell>)
    ensures TextOf([x] + rest) == CellText(x) + TextOf(rest)
  {
    assert ([x] + rest)[1..] == rest;
  }

  lemma OneVisible(b: seq<Cell>, i: int)
    requires 0 <= i < |b|
    ensures TextOf(b[i..i + 1]) == CellText(b[i])
  {
    assert b[i..i + 1] == [b[i]] && [b[i]][1..] == [];
  }

  // ------------------------------------------------------------------ which gaps are taken

  /** The gap at which the fragment that holds the character behind gap `i` ends; fragments begin at the
      gaps in `starts`. */
  function FragmentEnd(starts: set<int>, i: int, n: int): int
    decreases n - i
  {
    if i >= n then n else if i + 1 == n || i + 1 in starts then i + 1 else FragmentEnd(starts, i + 1, n)
  }

  /** The gaps that `apply_local_edit` takes. Its cursor is in the fragment that holds the character
      behind gap `cur`, or past what it may still use if `cur` is negative. Where that fragment ends in
      front of the range the cursor moves on, past all deleted characters at the start of the range;
      otherwise the text goes right behind the characters passed last. */
  function Gaps(b: seq<Cell>, starts: set<int>, g: seq<Replacement>, cur: int): (p: seq<int>)
    ensures |p| == |g|
  {
    if g == [] then []
    else
      var (x, y, e) := (g[0].at.start, g[0].at.end, Count(b, FragmentEnd(starts, cur, |b|)));
      var ahead := cur < 0 || e < x;
      var q := if ahead then LastGap(b, x) else FirstGap(b, x);
      [q] + Gaps(b, starts, g[1..], if x < y then FirstGap(b, y) else if ahead || x < e then q else -1)
  }

  lemma {:induction false} FragmentEndIs(starts: set<int>, i: int, n: int)
    requires 0 <= i < n
    ensures i < FragmentEnd(starts, i, n) <= n
    ensures FragmentEnd(starts, i, n) == n || FragmentEnd(starts, i, n) in starts
    ensures forall k :: i < k < FragmentEnd(starts, i, n) ==> k !in starts
    decreases n - i
  {
    if i + 1 < n && i + 1 !in starts {
      FragmentEndIs(starts, i + 1, n);
    }
  }

  /** The cursor need not move on exactly if no fragment begins between it and the last visible character in
      front of the range. */
  lemma SameFragment(b: seq<Cell>, starts: set<int>, cur: int, x: int)
    requires 0 <= cur < |b| && Count(b, cur) < x <= |TextOf(b)|
    ensures Count(b, FragmentEnd(starts, cur, |b|)) >= x <==> forall k :: cur < k < FirstGap(b, x) ==> k !in starts
  {
    hide Count, TextOf, FirstGap, FragmentEnd;
    var e, q := FragmentEnd(starts, cur, |b|), FirstGap(b, x);
    FragmentEndIs(starts, cur, |b|);
    FirstGapIs(b, x);
    GapOrder(b, cur, q);
    if e < q {
      GapOrder(b, e, q);
    } else {
      CutVisible(b, q, e);
    }
  }

  /** Where the text of a second edit goes: right behind the characters in front of it, if no fragment begins
      between what the first edit dealt with last and there, and otherwise past the deleted characters too;
      the text of the first edit always goes past those. */
  lemma SecondGap(b: seq<Cell>, starts: set<int>, g: seq<Replacement>, c: int)
    requires |g| > 1 && Fits(g, |TextOf(b)|, 0) && g[0].at.end < g[1].at.start
    requires c == if g[0].at.IsEmpty() then LastGap(b, g[0].at.start) else FirstGap(b, g[0].at.end)
    ensures Gaps(b, starts, g, -1)[0] == LastGap(b, g[0].at.start)
    ensures Gaps(b, starts, g, -1)[1]
            == if forall k :: c < k < FirstGap(b, g[1].at.start) ==> k !in starts then FirstGap(b, g[1].at.start)
               else LastGap(b, g[1].at.start)
  {
    FitsHead(g, |TextOf(b)|, 0);
    FitsHead(g[1..], |TextOf(b)|, g[0].at.end);
    assert g[1..][0] == g[1];
    FirstGapIs(b, g[0].at.end);
    LastGapIs(b, g[0].at.start);
    FirstGapIs(b, g[1].at.start);
    GapOrder(b, c, FirstGap(b, g[1].at.start));
    hide Count, TextOf, FirstGap, LastGap, Fits;
    SameFragment(b, starts, c, g[1].at.start);
  }

  lemma {:induction false} GapsFit(b: seq<Cell>, starts: set<int>, g: seq<Replacement>, cur: int, i: int)
    requires Fits(g, |TextOf(b)|, i)
    ensures GapsFor(b, g, Gaps(b, starts, g, cur))
  {
    if g != [] {
      var (x, y, e) := (g[0].at.start, g[0].at.end, Count(b, FragmentEnd(starts, cur, |b|)));
      FitsHead(g, |TextOf(b)|, i);
      FirstGapIs(b, x);
      LastGapIs(b, x);
      var ahead := cur < 0 || e < x;
      var q := if ahead then LastGap(b, x) else FirstGap(b, x);
      GapsFit(b, starts, g[1..], if x < y then FirstGap(b, y) else if ahead || x < e then q else -1, y);
    }
  }

  // ------------------------------------------------------------------ anchors at characters that are there

  /** An anchor behind a character that is there ends up where `ResolveBefore` says. */
  lemma {:induction false} BehindResolves(b: seq<Cell>, i: int, y: int, g: seq<Replacement>, p: seq<int>, a: int)
    requires NoneAdded(b) && |p| == |g| && GapsFor(b, g, p) && 0 <= i <= a <= |b| && Ascends(p, i, |b|)
    requires Fits(g, |TextOf(b)|, y) && (a == i || b[a - 1].visible)
    ensures Later(Count(b, i), y) + OffsetBehind(AfterEdit(b, i, y, g, p), a - i)
            == ResolveBefore(g, Later(Count(b, a), y))
    decreases |b| - i + |g|
  {
    hide *;
    AfterEditIs(b, i, y, g, p);
    if a == i {
      InFrontOfGaps(b, i, y, g, p);
      BehindStart(AfterEdit(b, i, y, g, p));
    } else if g != [] && p[0] == i {
      GapsHead(b, g, p, i);
      FitsHead(g, |TextOf(b)|, y);
      BehindResolves(b, i, g[0].at.end, g[1..], p[1..], a);
      BehindTyped(g[0].text, AfterEdit(b, i, g[0].at.end, g[1..], p[1..]), a - i);
      GapOrder(b, i, a);
      LaterIs(Count(b, i), y);
      LaterIs(Count(b, i), g[0].at.end);
      LaterIs(g[0].at.start, g[0].at.end);
      BeforeUnrolled(g, |TextOf(b)|, y, Count(b, a));
    } else {
      GapsLater(b, p, i);
      BehindResolves(b, i + 1, y, g, p, a);
      AfterEditHead(b, i, y, g, p);
      BehindStep(AfterEdit(b, i, y, g, p), a - i);
      CountStep(b, i, y);
    }
  }

  lemma CountStep(b: seq<Cell>, i: int, y: int)
    requires 0 <= i < |b|
    ensures Later(Count(b, i + 1), y) == Later(Count(b, i), y) + |CellText(Struck(b[i], Count(b, i) < y))|
  {
    StepVisible(b, i);
    hide Count;
  }

  lemma InFrontOfGaps(b: seq<Cell>, i: int, y: int, g: seq<Replacement>, p: seq<int>)
    requires |p| == |g| && GapsFor(b, g, p) && 0 <= i <= |b| && Ascends(p, i, |b|) && Fits(g, |TextOf(b)|, y)
    ensures ResolveBefore(g, Later(Count(b, i), y)) == Later(Count(b, i), y)
  {
    hide Count, TextOf;
    if g != [] {
      CutVisible(b, i, p[0]);
    }
  }

  lemma BehindStart(c: seq<Cell>)
    ensures OffsetBehind(c, 0) == 0
  {
  }

  lemma BehindStep(c: seq<Cell>, a: int)
    requires c != [] && !c[0].added && a > 0
    ensures OffsetBehind(c, a) == |CellText(c[0])| + OffsetBehind(c[1..], a - 1)
  {
  }

  lemma {:induction false} BehindTyped(s: string, c: seq<Cell>, a: int)
    requires a > 0
    ensures OffsetBehind(Typed(s) + c, a) == |s| + OffsetBehind(c, a)
  {
    if s == "" {
      NoneAfter(c);
    } else {
      BehindTyped(s[1..], c, a);
      TypedHead(s, c);
    }
  }

  lemma BeforeUnrolled(g: seq<Replacement>, n: int, y: int, o: int)
    requires g != [] && Fits(g, n, y) && o > g[0].at.start
    ensures ResolveBefore(g, Later(o, y))
            == |g[0].text| + ResolveBefore(g[1..], Later(o, g[0].at.end)) - Later(g[0].at.start, g[0].at.end)
               + g[0].at.start
  {
    FitsHead(g, n, y);
    if g[1..] != [] {
      FitsHead(g[1..], n, g[0].at.end);
    }
  }

  /** An anchor in front of a character that is there, or at the end, ends up where `ResolveAfter` says. */
  lemma {:induction false} AheadResolves(b: seq<Cell>, i: int, y: int, g: seq<Replacement>, p: seq<int>, z: int)
    requires NoneAdded(b) && |p| == |g| && GapsFor(b, g, p) && 0 <= i <= z <= |b| && Ascends(p, i, |b|)
    requires Fits(g, |TextOf(b)|, y) && Apart(g) && (z == |b| || b[z].visible)
    requires g != [] ==> y < g[0].at.start || y <= Count(b, i)
    ensures Later(Count(b, i), y) + OffsetAhead(AfterEdit(b, i, y, g, p), z - i)
            == ResolveAfter(g, Later(Count(b, z), y))
    decreases |b| - i + |g|
  {
    hide *;
    AfterEditIs(b, i, y, g, p);
    if g != [] && p[0] == i {
      GapsHead(b, g, p, i);
      FitsHead(g, |TextOf(b)|, y);
      ApartHead(g);
      AheadResolves(b, i, g[0].at.end, g[1..], p[1..], z);
      AheadTyped(g[0].text, AfterEdit(b, i, g[0].at.end, g[1..], p[1..]), z - i);
      GapOrder(b, i, z);
      CutVisible(b, i, z);
      LaterIs(Count(b, i), y);
      LaterIs(Count(b, i), g[0].at.end);
      LaterIs(g[0].at.start, g[0].at.end);
      AfterUnrolled(g, |TextOf(b)|, y, Count(b, z));
    } else if z == i {
      AfterEditHead(b, i, y, g, p);
      AheadEnds(AfterEdit(b, i, y, g, p), 0);
      BehindNoGap(b, i, y, g, p);
    } else {
      GapsLater(b, p, i);
      CutVisible(b, i, i + 1);
      AheadResolves(b, i + 1, y, g, p, z);
      AfterEditHead(b, i, y, g, p);
      AheadStep(AfterEdit(b, i, y, g, p), z, i);
      CountStep(b, i, y);
    }
  }

  lemma ApartHead(g: seq<Replacement>)
    requires Apart(g) && g != []
    ensures Apart(g[1..]) && (g[1..] != [] ==> g[0].at.end < g[1..][0].at.start)
  {
    assert |g| > 1 ==> g[1..][0] == g[1];
    assert |g| == 1 ==> g[1..] == [];
  }

  lemma {:induction false} AheadTyped(s: string, c: seq<Cell>, z: int)
    requires z >= 0
    ensures OffsetAhead(Typed(s) + c, z) == |s| + OffsetAhead(c, z)
  {
    if s == "" {
      NoneAfter(c);
    } else {
      AheadTyped(s[1..], c, z);
      TypedHead(s, c);
    }
  }

  lemma AfterUnrolled(g: seq<Replacement>, n: int, y: int, o: int)
    requires g != [] && Fits(g, n, y) && Apart(g) && o >= g[0].at.start
    ensures ResolveAfter(g, Later(o, y))
            == |g[0].text| + ResolveAfter(g[1..], Later(o, g[0].at.end)) - Later(g[0].at.start, g[0].at.end)
               + g[0].at.start
  {
    FitsHead(g, n, y);
    ApartHead(g);
  }

  lemma BehindNoGap(b: seq<Cell>, i: int, y: int, g: seq<Replacement>, p: seq<int>)
    requires |p| == |g| && GapsFor(b, g, p) && 0 <= i <= |b| && Ascends(p, i, |b|) && Fits(g, |TextOf(b)|, y)
    requires (i == |b| || b[i].visible) && (g != [] ==> p[0] != i && (y < g[0].at.start || y <= Count(b, i)))
    ensures ResolveAfter(g, Later(Count(b, i), y)) == Later(Count(b, i), y)
  {
    hide Count, TextOf;
    if g != [] {
      GapOrder(b, i, p[0]);
    }
  }

  /** After any replacements, anchors at characters that are there are found where `Buffers` says. */
  lemma AttachedAnchors(b: seq<Cell>, g: seq<Replacement>, p: seq<int>, q: int)
    requires NoneAdded(b) && Fits(g, |TextOf(b)|, 0) && Apart(g) && GapsFor(b, g, p) && 0 <= q <= |b|
    ensures q == 0 || b[q - 1].visible ==> OffsetBehind(AfterEdit(b, 0, 0, g, p), q) == ResolveBefore(g, Count(b, q))
    ensures q == |b| || b[q].visible ==> OffsetAhead(AfterEdit(b, 0, 0, g, p), q) == ResolveAfter(g, Count(b, q))
  {
    hide *;
    AtStart(b);
    GapsStart(b, g, p);
    GapsAscend(b, g, p, |TextOf(b)|, 0, 0);
    LaterIs(Count(b, q), 0);
    if q == 0 || b[q - 1].visible {
      BehindResolves(b, 0, 0, g, p, q);
    }
    if q == |b| || b[q].visible {
      AheadResolves(b, 0, 0, g, p, q);
    }
  }

  lemma LaterIs(i: int, j: int)
    ensures Later(i, j) == if i >= j then i else j
  {
  }

  lemma AheadEnds(c: seq<Cell>, z: int)
    requires c == [] || (z == 0 && !c[0].added)
    ensures OffsetAhead(c, z) == 0
  {
  }

  lemma AheadStep(c: seq<Cell>, z: int, i: int)
    requires c != [] && i <= z && (c[0].added || i != z)
    ensures OffsetAhead(c, z - i) == |CellText(c[0])| + OffsetAhead(c[1..], z - (if c[0].added then i else i + 1))
  {
  }

  lemma TypedHead(s: string, c: seq<Cell>)
    requires s != ""
    ensures (Typed(s) + c) != [] && (Typed(s) + c)[0] == Cell(s[0], true, true)
            && (Typed(s) + c)[1..] == Typed(s[1..]) + c
    ensures CellText((Typed(s) + c)[0]) == [s[0]]
  {
    var x := Cell(s[0], true, true);
    assert Typed(s) == [x] + Typed(s[1..]);
    hide Typed;
    Assoc([x], Typed(s[1..]), c);
    assert ([x] + (Typed(s[1..]) + c))[1..] == Typed(s[1..]) + c;
  }

  lemma AfterEditHead(b: seq<Cell>, i: int, y: int, g: seq<Replacement>, p: seq<int>)
    requires NoneAdded(b) && |p| == |g| && 0 <= i <= |b| && !(g != [] && p[0] == i)
    ensures i == |b| ==> AfterEdit(b, i, y, g, p) == []
    ensures i < |b| ==>
              var c := AfterEdit(b, i, y, g, p);
              c != [] && c[0] == Struck(b[i], Count(b, i) < y) && !c[0].added && c[1..] == AfterEdit(b, i + 1, y, g, p)
  {
    if i < |b| {
      assert b[i] in b;
    }
  }

  lemma AtStart(b: seq<Cell>)
    ensures Count(b, 0) == 0 && Later(0, 0) == 0
  {
  }

  lemma GapsStart(b: seq<Cell>, g: seq<Replacement>, p: seq<int>)
    requires GapsFor(b, g, p)
    ensures |p| == |g| && (p != [] ==> 0 <= p[0])
  {
  }
}
