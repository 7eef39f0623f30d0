/** Undoing a rejection in a buffer that keeps its deleted characters. */
module Restoring {
  import opened Options
  import opened Patches
  import opened Ropes
  import opened Buffers
  import opened Undoing
  import opened Review
  import opened Anchors
  import opened LogStates

  // ------------------------------------------------------------------ ranges held by anchors

  /** Spans of gaps between two anchors each, at least one character apart, from gap `i` on. */
  ghost predicate SpansApart(h: seq<Replacement>, i: int, n: int) {
    h != [] ==> i <= h[0].at.start <= h[0].at.end <= n && SpansApart(h[1..], h[0].at.end + 1, n)
  }

  /** The replacements of `h`, which are given by spans of gaps, at the offsets where their anchors are
      found. */
  function Located(h: seq<Replacement>, b: seq<Cell>): (r: seq<Replacement>)
    ensures |r| == |h|
  {
    if h == [] then []
    else [Replacement(Range(OffsetBehind(b, h[0].at.start), OffsetAhead(b, h[0].at.end)), h[0].text)]
         + Located(h[1..], b)
  }

  /** The same for the characters `c` from gap `i` and offset `d` on. */
  ghost function LocatedFrom(k: seq<Replacement>, c: seq<Cell>, i: int, d: int): seq<Replacement> {
    if k == [] then []
    else
      [Replacement(Range(d + OffsetBehind(c, k[0].at.start - i), d + OffsetAhead(c, k[0].at.end - i)), k[0].text)]
      + LocatedFrom(k[1..], c, i, d)
  }

  lemma {:induction false} LocatedAll(k: seq<Replacement>, c: seq<Cell>)
    ensures LocatedFrom(k, c, 0, 0) == Located(k, c)
  {
    if k != [] {
      LocatedAll(k[1..], c);
    }
  }

  /** The text after the replacements `k`, character by character: the characters `c` begin at gap `i`;
      when `inside`, everything up to the end of the first span is being replaced. */
  ghost function Restored(c: seq<Cell>, k: seq<Replacement>, i: int, inside: bool): string
    requires inside ==> k != []
    decreases |c|, |k|, if inside then 0 else 1
  {
    if inside then
      if c == [] || (!c[0].added && i == k[0].at.end) then Restored(c, k[1..], i, false)
      else Restored(c[1..], k, if c[0].added then i else i + 1, true)
    else if k != [] && (k[0].at.start == i || c == []) then k[0].text + Restored(c, k, i, true)
    else if c == [] then ""
    else CellText(c[0]) + Restored(c[1..], k, if c[0].added then i else i + 1, false)
  }

  /** Past the first character, anchors further on are found at the same places. */
  lemma {:induction false} LocatedStep(k: seq<Replacement>, c: seq<Cell>, i: int, n: int, d: int)
    requires c != [] && SpansApart(k, i + 1, n)
    ensures LocatedFrom(k, c, i, d)
            == LocatedFrom(k, c[1..], if c[0].added then i else i + 1, d + |CellText(c[0])|)
  {
    if k != [] {
      SpansLater(k[1..], k[0].at.end + 1, i + 1, n);
      LocatedStep(k[1..], c, i, n, d);
    }
  }

  lemma SpansLater(k: seq<Replacement>, i: int, j: int, n: int)
    requires SpansApart(k, i, n) && j <= i
    ensures SpansApart(k, j, n)
  {
  }

  ghost predicate Gives(l: seq<Replacement>, s: string, d: int, r: string) {
    Fits(l, |s|, d) && ApplyAll(l, s, d) == r
  }

  /** Replacing what the anchors enclose gives that text. */
  lemma {:induction false} LocatedText(k: seq<Replacement>, c: seq<Cell>, i: int, n: int, s: string, d: int,
                                       inside: bool)
    requires 0 <= d <= |s| && s[d..] == TextOf(c)
    requires if inside then k != [] && i <= k[0].at.end && SpansApart(k[1..], k[0].at.end + 1, n)
             else SpansApart(k, i, n)
    ensures !inside ==> Gives(LocatedFrom(k, c, i, d), s, d, Restored(c, k, i, false))
    ensures inside ==>
              Gives(LocatedFrom(k[1..], c, i, d), s, d + OffsetAhead(c, k[0].at.end - i), Restored(c, k, i, true))
    decreases |c|, |k|, if inside then 0 else 1
  {
    hide *;
    RestoredIs(c, k, i, inside);
    if inside {
      if c == [] || (!c[0].added && i == k[0].at.end) {
        SpansLater(k[1..], k[0].at.end + 1, i, n);
        LocatedText(k[1..], c, i, n, s, d, false);
        AheadEnds(c, k[0].at.end - i);
      } else {
        SpansLater(k[1..], k[0].at.end + 1, i + 1, n);
        AheadStep(c, k[0].at.end, i);
        LocatedStep(k[1..], c, i, n, d);
        TailVisible(c, s, d);
        LocatedText(k, c[1..], if c[0].added then i else i + 1, n, s, d + |CellText(c[0])|, true);
      }
    } else if k != [] && (k[0].at.start == i || c == []) {
      SpansHead(k, i, n);
      LocatedText(k, c, i, n, s, d, true);
      LocatedHead(k, c, i, s, d, Restored(c, k, i, true));
    } else if c == [] {
      NothingToLocate(c, i, s, d);
    } else {
      SpansNext(k, i, n);
      LocatedStep(k, c, i, n, d);
      TailVisible(c, s, d);
      var i' := if c[0].added then i else i + 1;
      SpansLater(k, i + 1, i', n);
      LocatedText(k, c[1..], i', n, s, d + |CellText(c[0])|, false);
      GivesMore(LocatedFrom(k, c, i, d), s, d, CellText(c[0]), Restored(c[1..], k, i', false));
    }
  }

  lemma RestoredIs(c: seq<Cell>, k: seq<Replacement>, i: int, inside: bool)
    requires inside ==> k != []
    ensures Restored(c, k, i, inside)
            == if inside then
                 if c == [] || (!c[0].added && i == k[0].at.end) then Restored(c, k[1..], i, false)
                 else Restored(c[1..], k, if c[0].added then i else i + 1, true)
               else if k != [] && (k[0].at.start == i || c == []) then k[0].text + Restored(c, k, i, true)
               else if c == [] then ""
               else CellText(c[0]) + Restored(c[1..], k, if c[0].added then i else i + 1, false)
  {
  }

  lemma TailVisible(c: seq<Cell>, s: string, d: int)
    requires c != [] && 0 <= d <= |s| && s[d..] == TextOf(c)
    ensures d + |CellText(c[0])| <= |s| && s[d + |CellText(c[0])|..] == TextOf(c[1..])
    ensures s[d..d + |CellText(c[0])|] == CellText(c[0])
  {
    var x, v := CellText(c[0]), TextOf(c[1..]);
    assert s[d..] == x + v;
    hide TextOf, CellText;
    assert |s[d..]| == |x| + |v|;
    assert s[d + |x|..] == s[d..][|x|..] && s[d..d + |x|] == s[d..][..|x|];
  }

  lemma SpansHead(k: seq<Replacement>, i: int, n: int)
    requires k != [] && SpansApart(k, i, n)
    ensures i <= k[0].at.start <= k[0].at.end <= n && SpansApart(k[1..], k[0].at.end + 1, n)
  {
  }

  lemma SpansNext(k: seq<Replacement>, i: int, n: int)
    requires SpansApart(k, i, n) && (k != [] ==> k[0].at.start != i)
    ensures SpansApart(k, i + 1, n)
  {
  }

  lemma NothingToLocate(c: seq<Cell>, i: int, s: string, d: int)
    requires c == [] && 0 <= d <= |s| && s[d..] == TextOf(c)
    ensures Gives(LocatedFrom([], c, i, d), s, d, "")
  {
    NothingMore(s, d);
  }

  /** The first range is replaced at once. */
  lemma LocatedHead(k: seq<Replacement>, c: seq<Cell>, i: int, s: string, d: int, r: string)
    requires k != [] && 0 <= d <= |s| && (k[0].at.start == i || c == [])
    requires Gives(LocatedFrom(k[1..], c, i, d), s, d + OffsetAhead(c, k[0].at.end - i), r)
    ensures Gives(LocatedFrom(k, c, i, d), s, d, k[0].text + r)
  {
    hide *;
    var l, e := LocatedFrom(k[1..], c, i, d), d + OffsetAhead(c, k[0].at.end - i);
    LocatedIs(k, c, i, d);
    GivesIs(l, s, e, r);
    FitsBounds(l, |s|, e);
    Cons(Replacement(Range(d, e), k[0].text), l, s, d);
    NothingBefore(s, d, k[0].text, r);
    GivesBy(LocatedFrom(k, c, i, d), s, d, k[0].text + r);
  }

  lemma LocatedIs(k: seq<Replacement>, c: seq<Cell>, i: int, d: int)
    requires k != [] && (k[0].at.start == i || c == [])
    ensures LocatedFrom(k, c, i, d)
            == [Replacement(Range(d, d + OffsetAhead(c, k[0].at.end - i)), k[0].text)] + LocatedFrom(k[1..], c, i, d)
  {
  }

  lemma GivesIs(l: seq<Replacement>, s: string, d: int, r: string)
    requires Gives(l, s, d, r)
    ensures Fits(l, |s|, d) && ApplyAll(l, s, d) == r
  {
  }

  lemma GivesBy(l: seq<Replacement>, s: string, d: int, r: string)
    requires Fits(l, |s|, d) && ApplyAll(l, s, d) == r
    ensures Gives(l, s, d, r)
  {
  }

  lemma GivesMore(l: seq<Replacement>, s: string, d: int, x: string, r: string)
    requires 0 <= d && d + |x| <= |s| && s[d..d + |x|] == x && Gives(l, s, d + |x|, r)
    ensures Gives(l, s, d, x + r)
  {
    SkipTo(l, s, d, d + |x|);
  }

  // ------------------------------------------------------------------ undoing a rejection

  /** New text at gap `q` lies between the two anchors of some span. */
  predicate Encloses(h: seq<Replacement>, q: int) {
    h != [] && (h[0].at.start <= q <= h[0].at.end || Encloses(h[1..], q))
  }

  /** Every text that is put in lies between the anchors of some span. */
  predicate AllEnclosed(g: seq<Replacement>, p: seq<int>, h: seq<Replacement>)
    requires |p| == |g|
  {
    g != [] ==> (g[0].text == "" || Encloses(h, p[0])) && AllEnclosed(g[1..], p[1..], h)
  }

  /** The character at `q` lies between the anchors of some span. */
  predicate InSpan(h: seq<Replacement>, q: int) {
    h != [] && (h[0].at.start <= q < h[0].at.end || InSpan(h[1..], q))
  }

  /** The character at offset `o` is replaced. */
  predicate Replaces(l: seq<Replacement>, o: int) {
    l != [] && (l[0].at.start <= o < l[0].at.end || Replaces(l[1..], o))
  }

  /** Characters from gap `i` on that lie in no span are not deleted. */
  ghost predicate Spared(b: seq<Cell>, i: int, y: int, g: seq<Replacement>, h: seq<Replacement>) {
    forall q :: 0 <= i <= q < |b| && b[q].visible && !InSpan(h, q) ==> y <= Count(b, q) && !Replaces(g, Count(b, q))
  }

  /** `k` puts the text between the anchors back. */
  ghost predicate PutsBack(b: seq<Cell>, k: seq<Replacement>) {
    forall r :: r in k ==> 0 <= r.at.start <= r.at.end <= |b| && r.text == TextOf(b[r.at.start..r.at.end])
  }

  /** `r` is `v` if and only if `held` is true, and otherwise longer. */
  ghost predicate IsWhen(r: string, v: string, held: bool) {
    if held then r == v else |r| > |v|
  }

  lemma {:induction false} SkipTyped(s: string, c: seq<Cell>, k: seq<Replacement>, i: int, inside: bool)
    requires if inside then k != [] else k == [] || k[0].at.start != i
    requires !inside && c == [] ==> k == []
    ensures Restored(Typed(s) + c, k, i, inside) == (if inside then "" else s) + Restored(c, k, i, inside)
  {
    hide *;
    if s == "" {
      TypedNothing(c);
      NothingInFront(Restored(c, k, i, inside));
    } else {
      SkipTyped(s[1..], c, k, i, inside);
      TypedHead(s, c);
      RestoredIs(Typed(s) + c, k, i, inside);
      FirstAndRest(s, Restored(c, k, i, inside));
    }
  }

  lemma TypedNothing(c: seq<Cell>)
    ensures Typed("") + c == c
  {
  }

  lemma NothingInFront(s: string)
    ensures "" + s == s
  {
  }

  lemma FirstAndRest(s: string, r: string)
    requires s != ""
    ensures [s[0]] + (s[1..] + r) == s + r && "" + r == r
  {
    assert s == [s[0]] + s[1..];
  }

  /** Undoing, character by character: outside of the spans every character is still there, and new text
      stays; inside, everything goes and the former text comes back. */
  lemma {:induction false} UndoneText(b: seq<Cell>, i: int, y: int, g: seq<Replacement>, p: seq<int>,
                                      k: seq<Replacement>, inside: bool)
    requires NoneAdded(b) && 0 <= i <= |b| && |p| == |g| && Ascends(p, i, |b|)
    requires PutsBack(b, k) && Spared(b, i, y, g, k) && GapsFor(b, g, p)
    requires if inside then k != [] && k[0].at.start <= i <= k[0].at.end && SpansApart(k, k[0].at.start, |b|)
             else SpansApart(k, i, |b|)
    ensures var c := AfterEdit(b, i, y, g, p);
            IsWhen(Restored(c, k, i, inside), TextOf(b[if inside then k[0].at.end else i..]), AllEnclosed(g, p, k))
    decreases |b| - i, |g|, |k|, if inside then 0 else 1
  {
    hide *;
    var c := AfterEdit(b, i, y, g, p);
    AfterEditIs(b, i, y, g, p);
    RestoredIs(c, k, i, inside);
    if !inside && k != [] && k[0].at.start == i {
      SpansHead(k, i, |b|);
      UndoneText(b, i, y, g, p, k, true);
      PutBackHead(b, k);
      CutVisible(b, i, k[0].at.end);
      WhenFront(k[0].text, Restored(c, k, i, true), TextOf(b[k[0].at.end..]), AllEnclosed(g, p, k));
    } else if g != [] && p[0] == i {
      GapsHead(b, g, p, i);
      SparedNext(b, i, y, g, k);
      UndoneText(b, i, g[0].at.end, g[1..], p[1..], k, inside);
      if inside {
        SpansHead(k, k[0].at.start, |b|);
      }
      UndoneInsert(b, i, y, g, p, k, inside, TextOf(b[if inside then k[0].at.end else i..]));
    } else if inside && i == k[0].at.end {
      GapsLater(b, p, i);
      SpansHead(k, k[0].at.start, |b|);
      SpansLater(k[1..], i + 1, i, |b|);
      LeaveSpan(b, i, y, g, p, k);
      AfterEditHead(b, i, y, g, p);
      UndoneText(b, i, y, g, p, k[1..], false);
    } else if i == |b| {
      NoGapsLeft(b, g, p, i);
      SpansEnd(k, i, inside);
      NothingUndone(b, p, k);
    } else {
      GapsLater(b, p, i);
      SparedStep(b, i, y, g, k);
      SpansStep(k, i, |b|, inside);
      UndoneText(b, i + 1, y, g, p, k, inside);
      AfterEditHead(b, i, y, g, p);
      StepVisible(b, i);
      if !inside {
        SpansNext(k, i, |b|);
        StruckSpared(b, i, y, g, k);
        WhenFront(CellText(b[i]), Restored(c[1..], k, i + 1, false), TextOf(b[i + 1..]), AllEnclosed(g, p, k));
      }
    }
  }

  lemma WhenFront(x: string, r: string, v: string, held: bool)
    requires IsWhen(r, v, held)
    ensures IsWhen(x + r, x + v, held)
  {
  }

  lemma PutBackHead(b: seq<Cell>, k: seq<Replacement>)
    requires k != [] && PutsBack(b, k)
    ensures 0 <= k[0].at.start <= k[0].at.end <= |b| && k[0].text == TextOf(b[k[0].at.start..k[0].at.end])
    ensures PutsBack(b, k[1..])
  {
    assert k[0] in k;
  }

  lemma SparedNext(b: seq<Cell>, i: int, y: int, g: seq<Replacement>, k: seq<Replacement>)
    requires 0 <= i <= |b| && Spared(b, i, y, g, k) && g != [] && Count(b, i) == g[0].at.start
    ensures Spared(b, i, g[0].at.end, g[1..], k)
  {
    hide Count, InSpan;
    forall q | i <= q < |b| && b[q].visible && !InSpan(k, q)
      ensures g[0].at.end <= Count(b, q) && !Replaces(g[1..], Count(b, q))
    {
      CutVisible(b, i, q);
    }
  }

  lemma SparedStep(b: seq<Cell>, i: int, y: int, g: seq<Replacement>, k: seq<Replacement>)
    requires 0 <= i < |b| && Spared(b, i, y, g, k)
    ensures Spared(b, i + 1, y, g, k)
  {
  }

  lemma StruckSpared(b: seq<Cell>, i: int, y: int, g: seq<Replacement>, k: seq<Replacement>)
    requires 0 <= i < |b| && Spared(b, i, y, g, k) && SpansApart(k, i + 1, |b|)
    ensures CellText(Struck(b[i], Count(b, i) < y)) == CellText(b[i])
  {
    BeforeSpans(k, i + 1, |b|, i);
  }

  /** No span reaches a gap in front of all of them. */
  lemma {:induction false} BeforeSpans(k: seq<Replacement>, i: int, n: int, q: int)
    requires SpansApart(k, i, n) && q < i
    ensures !InSpan(k, q) && !Encloses(k, q)
  {
    if k != [] {
      BeforeSpans(k[1..], k[0].at.end + 1, n, q);
    }
  }

  lemma {:induction false} AfterEditSome(b: seq<Cell>, i: int, y: int, g: seq<Replacement>, p: seq<int>)
    requires |p| == |g| && 0 <= i < |b|
    ensures AfterEdit(b, i, y, g, p) != []
    decreases g
  {
    if g != [] {
      AfterEditSome(b, i, g[0].at.end, g[1..], p[1..]);
    }
  }

  lemma UndoneInsert(b: seq<Cell>, i: int, y: int, g: seq<Replacement>, p: seq<int>, k: seq<Replacement>, inside: bool,
                     v: string)
    requires 0 <= i <= |b| && |p| == |g| && g != [] && p[0] == i
    requires if inside then k != [] && k[0].at.start <= i <= k[0].at.end
             else SpansApart(k, i, |b|) && (k != [] ==> k[0].at.start != i)
    requires IsWhen(Restored(AfterEdit(b, i, g[0].at.end, g[1..], p[1..]), k, i, inside), v,
                    AllEnclosed(g[1..], p[1..], k))
    ensures IsWhen(Restored(AfterEdit(b, i, y, g, p), k, i, inside), v, AllEnclosed(g, p, k))
  {
    hide TextOf, Restored, AfterEdit, Typed, Encloses;
    var c, x := AfterEdit(b, i, g[0].at.end, g[1..], p[1..]), g[0].text;
    AfterEditIs(b, i, y, g, p);
    if inside {
      EnclosedByFirst(k, i);
      SkipTyped(x, c, k, i, true);
      assert "" + Restored(c, k, i, true) == Restored(c, k, i, true);
    } else {
      SpansNext(k, i, |b|);
      BeforeSpans(k, i + 1, |b|, i);
      if k != [] {
        AfterEditSome(b, i, g[0].at.end, g[1..], p[1..]);
      }
      SkipTyped(x, c, k, i, false);
    }
  }

  lemma EnclosedByFirst(k: seq<Replacement>, q: int)
    requires k != [] && k[0].at.start <= q <= k[0].at.end
    ensures Encloses(k, q)
  {
  }

  lemma LeaveSpan(b: seq<Cell>, i: int, y: int, g: seq<Replacement>, p: seq<int>, k: seq<Replacement>)
    requires k != [] && |p| == |g| && 0 <= i == k[0].at.end && Ascends(p, i + 1, |b|)
    requires Spared(b, i, y, g, k) && PutsBack(b, k)
    ensures Spared(b, i, y, g, k[1..]) && PutsBack(b, k[1..])
    ensures AllEnclosed(g, p, k[1..]) == AllEnclosed(g, p, k)
  {
    hide Count, Replaces;
    PutBackHead(b, k);
    EnclosedLater(g, p, k, i + 1, |b|);
  }

  lemma {:induction false} EnclosedLater(g: seq<Replacement>, p: seq<int>, k: seq<Replacement>, i: int, n: int)
    requires k != [] && |p| == |g| && k[0].at.end < i && Ascends(p, i, n)
    ensures AllEnclosed(g, p, k[1..]) == AllEnclosed(g, p, k)
  {
    if g != [] {
      EnclosedLater(g[1..], p[1..], k, p[0] + 1, n);
    }
  }

  lemma SpansEnd(k: seq<Replacement>, i: int, inside: bool)
    requires if inside then k != [] && k[0].at.start <= i < k[0].at.end && SpansApart(k, k[0].at.start, i)
             else SpansApart(k, i, i) && (k != [] ==> k[0].at.start != i)
    ensures !inside && k == []
  {
  }

  lemma NothingUndone(b: seq<Cell>, p: seq<int>, k: seq<Replacement>)
    requires k == [] && p == []
    ensures IsWhen(Restored([], k, |b|, false), TextOf(b[|b|..]), AllEnclosed([], p, k))
  {
  }

  lemma SpansStep(k: seq<Replacement>, i: int, n: int, inside: bool)
    requires if inside then k != [] && k[0].at.start <= i < k[0].at.end
             else SpansApart(k, i, n) && (k != [] ==> k[0].at.start != i)
    ensures !inside ==> SpansApart(k, i + 1, n)
  {
  }

  // ------------------------------------------------------------------ from spans to the replacements made

  lemma {:induction false} GatherFromApart(r: Replacement, l: seq<Replacement>, n: int)
    requires r.at.start <= r.at.end && Fits(l, n, r.at.end)
    ensures GatherFrom(r, l) != [] && GatherFrom(r, l)[0].at.start == r.at.start && Apart(GatherFrom(r, l))
    decreases l
  {
    if l != [] {
      FitsHead(l, n, r.at.end);
      if l[0].IsTrivial() {
        FitsEarlier(l[1..], n, l[0].at.end, r.at.end);
        GatherFromApart(r, l[1..], n);
      } else if r.at.end >= l[0].at.start {
        GatherFromApart(Merge(r, l[0]), l[1..], n);
      } else {
        GatherFromApart(l[0], l[1..], n);
        assert ([r] + GatherFrom(l[0], l[1..]))[1..] == GatherFrom(l[0], l[1..]);
      }
    }
  }

  lemma {:induction false} GatherApart(l: seq<Replacement>, n: int, i: int)
    requires Fits(l, n, i)
    ensures Apart(Gather(l))
  {
    if l != [] {
      FitsHead(l, n, i);
      if l[0].IsTrivial() {
        GatherApart(l[1..], n, l[0].at.end);
      } else {
        GatherFromApart(l[0], l[1..], n);
      }
    }
  }

  /** Joining touching ranges replaces no other characters. */
  lemma {:induction false} GatherFromCovers(r: Replacement, l: seq<Replacement>, n: int, o: int)
    requires r.at.start <= r.at.end && Fits(l, n, r.at.end)
    ensures Replaces(GatherFrom(r, l), o) ==> r.at.start <= o < r.at.end || Replaces(l, o)
    decreases l
  {
    if l == [] {
      assert [r][1..] == [];
    } else {
      FitsHead(l, n, r.at.end);
      if l[0].IsTrivial() {
        FitsEarlier(l[1..], n, l[0].at.end, r.at.end);
        GatherFromCovers(r, l[1..], n, o);
      } else if r.at.end >= l[0].at.start {
        GatherFromCovers(Merge(r, l[0]), l[1..], n, o);
      } else {
        GatherFromCovers(l[0], l[1..], n, o);
        assert ([r] + GatherFrom(l[0], l[1..]))[1..] == GatherFrom(l[0], l[1..]);
      }
    }
  }

  lemma {:induction false} GatherCovers(l: seq<Replacement>, n: int, i: int, o: int)
    requires Fits(l, n, i)
    ensures Replaces(Gather(l), o) ==> Replaces(l, o)
  {
    if l != [] {
      FitsHead(l, n, i);
      if l[0].IsTrivial() {
        GatherCovers(l[1..], n, l[0].at.end, o);
      } else {
        GatherFromCovers(l[0], l[1..], n, o);
      }
    }
  }

  lemma {:induction false} LocatedFits(h: seq<Replacement>, b: seq<Cell>, i: int)
    requires NoneAdded(b) && 0 <= i <= |b| && SpansApart(h, i, |b|)
    ensures Fits(Located(h, b), |TextOf(b)|, Count(b, i))
  {
    hide Count, TextOf, OffsetAhead, OffsetBehind;
    CutVisible(b, i, |b|);
    if h != [] {
      var a, z := h[0].at.start, h[0].at.end;
      PlainAnchors(b, a);
      PlainAnchors(b, z);
      CutVisible(b, i, a);
      CutVisible(b, a, z);
      CutVisible(b, z, |b|);
      SpansLater(h[1..], z + 1, z, |b|);
      LocatedFits(h[1..], b, z);
    }
  }

  /** A visible character that is replaced lies in a span. */
  lemma {:induction false} CoveredInSpan(h: seq<Replacement>, b: seq<Cell>, i: int, q: int)
    requires NoneAdded(b) && 0 <= i && SpansApart(h, i, |b|) && 0 <= q < |b| && b[q].visible
    requires Replaces(Located(h, b), Count(b, q))
    ensures InSpan(h, q)
  {
    hide Count, TextOf, OffsetAhead, OffsetBehind;
    if h != [] {
      var a, z := h[0].at.start, h[0].at.end;
      PlainAnchors(b, a);
      PlainAnchors(b, z);
      GapOrder(b, q, a);
      GapOrder(b, q, z);
      if !(Count(b, a) <= Count(b, q) < Count(b, z)) {
        CoveredInSpan(h[1..], b, z + 1, q);
      }
    }
  }

  lemma SparedAtFirst(h: seq<Replacement>, b: seq<Cell>)
    requires NoneAdded(b) && SpansApart(h, 0, |b|) && Fits(Located(h, b), |TextOf(b)|, 0)
    ensures Spared(b, 0, 0, Gather(Located(h, b)), h)
  {
    hide Count, TextOf, Gather, Replaces, InSpan, Fits, Located, SpansApart;
    var l := Located(h, b);
    forall q | 0 <= q < |b| && b[q].visible && !InSpan(h, q)
      ensures !Replaces(Gather(l), Count(b, q))
    {
      GatherCovers(l, |TextOf(b)|, 0, Count(b, q));
      if Replaces(l, Count(b, q)) {
        CoveredInSpan(h, b, 0, q);
      }
    }
  }

  // ------------------------------------------------------------------ what is remembered

  /** The spans of `h` with the texts of `undo`. */
  function Refilled(h: seq<Replacement>, undo: seq<Replacement>): (r: seq<Replacement>)
    requires |undo| == |h|
    ensures |r| == |h|
  {
    if h == [] then [] else [Replacement(h[0].at, undo[0].text)] + Refilled(h[1..], undo[1..])
  }

  /** What undoing replaces once the buffer holds the characters `c`: what the two anchors of each span
      enclose by then gets the text that was between them. */
  function UndoIn(h: seq<Replacement>, b: seq<Cell>, c: seq<Cell>): seq<Replacement> {
    Located(Refilled(h, Remembered(Located(h, b), TextOf(b))), c)
  }

  lemma {:induction false} RefilledSpans(h: seq<Replacement>, undo: seq<Replacement>, i: int, n: int)
    requires |undo| == |h| && SpansApart(h, i, n)
    ensures SpansApart(Refilled(h, undo), i, n)
  {
    if h != [] {
      RefilledSpans(h[1..], undo[1..], h[0].at.end + 1, n);
    }
  }

  lemma {:induction false} RefilledHolds(h: seq<Replacement>, undo: seq<Replacement>, q: int)
    requires |undo| == |h|
    ensures InSpan(Refilled(h, undo), q) == InSpan(h, q) && Encloses(Refilled(h, undo), q) == Encloses(h, q)
  {
    if h != [] {
      RefilledHolds(h[1..], undo[1..], q);
    }
  }

  lemma {:induction false} RefilledEnclosed(h: seq<Replacement>, undo: seq<Replacement>, g: seq<Replacement>,
                                            p: seq<int>)
    requires |undo| == |h| && |p| == |g|
    ensures AllEnclosed(g, p, Refilled(h, undo)) == AllEnclosed(g, p, h)
  {
    if g != [] {
      RefilledHolds(h, undo, p[0]);
      RefilledEnclosed(h, undo, g[1..], p[1..]);
    }
  }

  lemma RefilledSpared(h: seq<Replacement>, undo: seq<Replacement>, b: seq<Cell>, g: seq<Replacement>)
    requires |undo| == |h| && Spared(b, 0, 0, g, h)
    ensures Spared(b, 0, 0, g, Refilled(h, undo))
  {
    hide Count, Replaces, InSpan;
    forall q
      ensures InSpan(Refilled(h, undo), q) == InSpan(h, q)
    {
      RefilledHolds(h, undo, q);
    }
  }

  lemma {:induction false} RefilledPutsBack(h: seq<Replacement>, b: seq<Cell>, i: int)
    requires NoneAdded(b) && 0 <= i && SpansApart(h, i, |b|)
    ensures PutsBack(b, Refilled(h, Remembered(Located(h, b), TextOf(b))))
  {
    if h != [] {
      var a, z := h[0].at.start, h[0].at.end;
      var undo := Remembered(Located(h, b), TextOf(b));
      RefilledPutsBack(h[1..], b, z + 1);
      PlainAnchors(b, a);
      PlainAnchors(b, z);
      SliceVisible(b, a, z);
    }
  }

  /** Rejecting and undoing at once, with spans of anchors and any gaps at the right offsets: undoing
      restores the text of the buffer if and only if every text that was put in lies between the two
      anchors of some remembered span. */
  lemma UndoRestoresIffEnclosed(b: seq<Cell>, h: seq<Replacement>, p: seq<int>, c: seq<Cell>)
    requires NoneAdded(b) && SpansApart(h, 0, |b|)
    requires GapsFor(b, Gather(Located(h, b)), p) && c == AfterEdit(b, 0, 0, Gather(Located(h, b)), p)
    ensures Fits(Located(h, b), |TextOf(b)|, 0) && TextOf(c) == ApplyAll(Located(h, b), TextOf(b), 0)
    ensures InBuffer(UndoIn(h, b, c), |TextOf(c)|)
    ensures Edited(TextOf(c), UndoIn(h, b, c)) == TextOf(b) <==> AllEnclosed(Gather(Located(h, b)), p, h)
  {
    hide *;
    var l, s := Located(h, b), TextOf(b);
    var g, k := Gather(l), Refilled(h, Remembered(l, s));
    AtStart(b);
    LocatedFits(h, b, 0);
    GatherKeeps(l, s, 0);
    GatherApart(l, |s|, 0);
    GapsStart(b, g, p);
    GapsAscend(b, g, p, |s|, 0, 0);
    AfterEditText(b, 0, 0, g, p);
    SparedAtFirst(h, b);
    RefilledSpared(h, Remembered(l, s), b, g);
    RefilledSpans(h, Remembered(l, s), 0, |b|);
    RefilledEnclosed(h, Remembered(l, s), g, p);
    RefilledPutsBack(h, b, 0);
    UndoneText(b, 0, 0, g, p, k, false);
    AllOut(TextOf(c));
    AllOut(b);
    LocatedText(k, c, 0, |b|, TextOf(c), 0, false);
    LocatedAll(k, c);
    UndoInIs(h, b, c, k);
    EditedBy(TextOf(c), UndoIn(h, b, c), Restored(c, k, 0, false), s, AllEnclosed(g, p, h));
  }

  lemma UndoInIs(h: seq<Replacement>, b: seq<Cell>, c: seq<Cell>, k: seq<Replacement>)
    requires k == Refilled(h, Remembered(Located(h, b), TextOf(b)))
    ensures UndoIn(h, b, c) == Located(k, c)
  {
  }

  lemma EditedBy(s: string, u: seq<Replacement>, r: string, v: string, held: bool)
    requires Gives(u, s, 0, r) && IsWhen(r, v, held)
    ensures InBuffer(u, |s|) && (Edited(s, u) == v <==> held)
  {
    EditedInOrder(s, u);
  }

  // ------------------------------------------------------------------ what to look at before rejecting

  /** What one edit's caller can look at before rejecting it: nothing is put in, or something is replaced,
      or the character behind the end anchor is there, or the anchor is that of the end. */
  predicate CanBeUndone(b: seq<Cell>, h: Replacement)
    requires 0 <= h.at.end <= |b|
  {
    || h.text == ""
    || OffsetBehind(b, h.at.start) < OffsetAhead(b, h.at.end)
    || h.at.end == |b| || b[h.at.end].visible
  }

  /** One rejected edit, in a buffer whose fragments begin wherever they do: undoing restores the text if
      that is so, and otherwise leaves it as the rejection made it, with the base text in it. */
  lemma UndoOfOne(b: seq<Cell>, starts: set<int>, h: Replacement, p: seq<int>, c: seq<Cell>)
    requires NoneAdded(b) && 0 <= h.at.start <= h.at.end <= |b|
    requires p == Gaps(b, starts, Gather(Located([h], b)), -1)
    requires c == AfterEdit(b, 0, 0, Gather(Located([h], b)), p)
    ensures Fits(Located([h], b), |TextOf(b)|, 0) && TextOf(c) == ApplyAll(Located([h], b), TextOf(b), 0)
    ensures Edited(TextOf(c), UndoIn([h], b, c)) == TextOf(b) <==> CanBeUndone(b, h)
    ensures !CanBeUndone(b, h) ==> Edited(TextOf(c), UndoIn([h], b, c)) == TextOf(c)
  {
    hide *;
    OneSpan(h, |b|);
    LocatedFits([h], b, 0);
    AtStart(b);
    GatherKeeps(Located([h], b), TextOf(b), 0);
    GapsFit(b, starts, Gather(Located([h], b)), -1, 0);
    UndoRestoresIffEnclosed(b, [h], p, c);
    OneEnclosed(b, starts, h, p);
    if !CanBeUndone(b, h) {
      OneLost(b, starts, h, p, c);
    }
  }

  lemma OneSpan(h: Replacement, n: int)
    requires 0 <= h.at.start <= h.at.end <= n
    ensures SpansApart([h], 0, n)
  {
    assert [h][1..] == [];
  }

  lemma OneEnclosed(b: seq<Cell>, starts: set<int>, h: Replacement, p: seq<int>)
    requires NoneAdded(b) && 0 <= h.at.start <= h.at.end <= |b|
    requires p == Gaps(b, starts, Gather(Located([h], b)), -1)
    ensures AllEnclosed(Gather(Located([h], b)), p, [h]) <==> CanBeUndone(b, h)
  {
    hide *;
    CanBeUndoneIs(b, h);
    var (a, z) := (h.at.start, h.at.end);
    var r := Replacement(Range(OffsetBehind(b, a), OffsetAhead(b, z)), h.text);
    PlainAnchors(b, a);
    PlainAnchors(b, z);
    CutVisible(b, a, z);
    OneGathered(b, starts, h, r);
    if !r.IsTrivial() {
      LastGapIs(b, r.at.start);
      GapOrder(b, LastGap(b, r.at.start), a);
      GapOrder(b, LastGap(b, r.at.start), z);
      GapOrder(b, z, LastGap(b, r.at.start));
    }
  }

  lemma CanBeUndoneIs(b: seq<Cell>, h: Replacement)
    requires 0 <= h.at.end <= |b|
    ensures CanBeUndone(b, h)
            <==> h.text == "" || OffsetBehind(b, h.at.start) < OffsetAhead(b, h.at.end) || h.at.end == |b|
                 || b[h.at.end].visible
  {
  }

  /** Both anchors stay in front of the text that was put in. */
  lemma OneLost(b: seq<Cell>, starts: set<int>, h: Replacement, p: seq<int>, c: seq<Cell>)
    requires NoneAdded(b) && 0 <= h.at.start <= h.at.end <= |b| && !CanBeUndone(b, h)
    requires p == Gaps(b, starts, Gather(Located([h], b)), -1)
    requires c == AfterEdit(b, 0, 0, Gather(Located([h], b)), p)
    ensures Edited(TextOf(c), UndoIn([h], b, c)) == TextOf(c)
  {
    hide *;
    CanBeUndoneIs(b, h);
    var (a, z) := (h.at.start, h.at.end);
    var r := Replacement(Range(OffsetBehind(b, a), OffsetAhead(b, z)), h.text);
    PlainAnchors(b, a);
    PlainAnchors(b, z);
    CutVisible(b, a, z);
    OneGathered(b, starts, h, r);
    OneIsNotTrivial(r);
    LastGapIs(b, r.at.start);
    GapOrder(b, LastGap(b, r.at.start), z);
    AtStart(b);
    AnchorsInFront(b, 0, [r], p, a);
    AnchorsInFront(b, 0, [r], p, z);
    OneUnchanged(h, b, c, r.at.start);
  }

  lemma OneIsNotTrivial(r: Replacement)
    requires r.text != ""
    ensures !r.IsTrivial()
  {
  }

  /** Anchors in front of the first gap that is taken stay where they are. */
  lemma {:induction false} AnchorsInFront(b: seq<Cell>, i: int, g: seq<Replacement>, p: seq<int>, q: int)
    requires NoneAdded(b) && |p| == |g| > 0 && 0 <= i <= q < p[0] && q < |b|
    ensures Count(b, i) + OffsetBehind(AfterEdit(b, i, 0, g, p), q - i) == Count(b, q)
    ensures Count(b, i) + OffsetAhead(AfterEdit(b, i, 0, g, p), q - i) == Count(b, q)
    decreases q - i
  {
    hide *;
    AfterEditHead(b, i, 0, g, p);
    var c := AfterEdit(b, i, 0, g, p);
    if i == q {
      BehindStart(c);
      AheadEnds(c, 0);
    } else {
      AnchorsInFront(b, i + 1, g, p, q);
      BehindStep(c, q - i);
      AheadStep(c, q, i);
      StepVisible(b, i);
      StruckNone(b[i]);
    }
  }

  lemma StruckNone(x: Cell)
    ensures Struck(x, false) == x
  {
  }

  lemma OneUnchanged(h: Replacement, b: seq<Cell>, c: seq<Cell>, x: int)
    requires 0 <= x <= |TextOf(b)| && OffsetBehind(b, h.at.start) == OffsetAhead(b, h.at.end) == x
    requires OffsetBehind(c, h.at.start) == OffsetAhead(c, h.at.end) == x
    ensures Edited(TextOf(c), UndoIn([h], b, c)) == TextOf(c)
  {
    hide TextOf, OffsetBehind, OffsetAhead;
    var u := Replacement(Range(x, x), "");
    assert [h][1..] == [];
    assert Located([h], b) == [Replacement(Range(x, x), h.text)];
    var l := [Replacement(Range(x, x), h.text)];
    assert l[1..] == [] && TextOf(b)[x..x] == "";
    assert Remembered(l, TextOf(b)) == [u];
    assert [u][1..] == [] && [Replacement(h.at, "")][1..] == [];
    assert UndoIn([h], b, c) == [u];
    assert AllUpright([u]) == [u];
    TrivialChangesNothing([u], TextOf(c));
  }

  lemma OneGathered(b: seq<Cell>, starts: set<int>, h: Replacement, r: Replacement)
    requires r == Replacement(Range(OffsetBehind(b, h.at.start), OffsetAhead(b, h.at.end)), h.text)
    ensures Located([h], b) == [r] && (r.IsTrivial() <==> r.text == "" && r.at.start >= r.at.end)
    ensures r.IsTrivial() ==> Gather([r]) == []
    ensures !r.IsTrivial() ==>
              Gather([r]) == [r] && Gaps(b, starts, [r], -1) == [LastGap(b, r.at.start)]
    ensures AllEnclosed([], [], [h])
    ensures forall q :: AllEnclosed([r], [q], [h]) <==> h.text == "" || h.at.start <= q <= h.at.end
  {
    hide OffsetBehind, OffsetAhead, LastGap, FirstGap;
    assert [h][1..] == [] && [r][1..] == [];
    forall q
      ensures AllEnclosed([r], [q], [h]) <==> h.text == "" || h.at.start <= q <= h.at.end
    {
      assert [q][1..] == [];
      assert Encloses([h], q) <==> h.at.start <= q <= h.at.end;
    }
  }

  /** The characters next to both anchors are there, or the anchors are those of the start and the end;
      when something is replaced, the one behind the end anchor does not matter. */
  predicate Attached(b: seq<Cell>, r: Replacement) {
    && 0 <= r.at.start <= r.at.end <= |b|
    && (r.at.start == 0 || b[r.at.start - 1].visible)
    && (OffsetBehind(b, r.at.start) < OffsetAhead(b, r.at.end) || r.at.end == |b| || b[r.at.end].visible)
  }

  /** Any number of rejected edits, touching in the buffer or not, and whichever gaps their texts go to:
      if the anchors of those that change something are attached, undoing restores the text. */
  lemma UndoOfAttached(b: seq<Cell>, h: seq<Replacement>, p: seq<int>, c: seq<Cell>)
    requires NoneAdded(b) && SpansApart(h, 0, |b|)
    requires GapsFor(b, Gather(Located(h, b)), p) && c == AfterEdit(b, 0, 0, Gather(Located(h, b)), p)
    requires forall r :: r in h ==> IdleOrAttached(b, r)
    ensures Edited(TextOf(c), UndoIn(h, b, c)) == TextOf(b)
  {
    hide *;
    var g := Gather(Located(h, b));
    LocatedFits(h, b, 0);
    AtStart(b);
    StartsOfGathered(Located(h, b), |TextOf(b)|, 0);
    AttachedEnclose(b, h, g, p);
    UndoRestoresIffEnclosed(b, h, p, c);
  }

  /** Some replacement of `l` that changes something starts at `x`. */
  ghost predicate StartsIn(l: seq<Replacement>, x: int) {
    l != [] && ((!l[0].IsTrivial() && l[0].at.start == x) || StartsIn(l[1..], x))
  }

  ghost predicate AllStartIn(g: seq<Replacement>, l: seq<Replacement>) {
    g != [] ==> StartsIn(l, g[0].at.start) && AllStartIn(g[1..], l)
  }

  lemma {:induction false} StartsOfGathered(l: seq<Replacement>, n: int, i: int)
    requires Fits(l, n, i)
    ensures AllStartIn(Gather(l), l)
  {
    if l != [] {
      FitsHead(l, n, i);
      if l[0].IsTrivial() {
        StartsOfGathered(l[1..], n, l[0].at.end);
        StartsInMore(Gather(l), l);
      } else {
        StartsOfFrom(l[0], l[1..], n, l);
      }
    }
  }

  lemma {:induction false} StartsInMore(g: seq<Replacement>, l: seq<Replacement>)
    requires l != [] && AllStartIn(g, l[1..])
    ensures AllStartIn(g, l)
  {
    if g != [] {
      StartsInMore(g[1..], l);
    }
  }

  lemma {:induction false} StartsOfFrom(r: Replacement, l: seq<Replacement>, n: int, all: seq<Replacement>)
    requires r.at.start <= r.at.end && Fits(l, n, r.at.end) && StartsIn(all, r.at.start)
    requires forall x :: StartsIn(l, x) ==> StartsIn(all, x)
    ensures AllStartIn(GatherFrom(r, l), all)
    decreases l
  {
    if l == [] {
      assert [r][1..] == [];
    } else {
      FitsHead(l, n, r.at.end);
      forall x | StartsIn(l[1..], x)
        ensures StartsIn(all, x)
      {
        assert StartsIn(l, x);
      }
      if l[0].IsTrivial() {
        FitsEarlier(l[1..], n, l[0].at.end, r.at.end);
        StartsOfFrom(r, l[1..], n, all);
      } else if r.at.end >= l[0].at.start {
        StartsOfFrom(Merge(r, l[0]), l[1..], n, all);
      } else {
        assert StartsIn(l, l[0].at.start);
        StartsOfFrom(l[0], l[1..], n, all);
        assert ([r] + GatherFrom(l[0], l[1..]))[1..] == GatherFrom(l[0], l[1..]);
      }
    }
  }

  /** Nothing is replaced and nothing put in, or the anchors are attached. */
  predicate IdleOrAttached(b: seq<Cell>, r: Replacement) {
    (r.text == "" && OffsetBehind(b, r.at.start) == OffsetAhead(b, r.at.end)) || Attached(b, r)
  }

  lemma {:induction false} AttachedEnclose(b: seq<Cell>, h: seq<Replacement>, g: seq<Replacement>, p: seq<int>)
    requires NoneAdded(b) && GapsFor(b, g, p) && AllStartIn(g, Located(h, b))
    requires forall r :: r in h ==> IdleOrAttached(b, r)
    ensures |p| == |g| && AllEnclosed(g, p, h)
  {
    if g != [] {
      AttachedEnclose(b, h, g[1..], p[1..]);
      hide Count, Located, IdleOrAttached;
      StartEncloses(b, h, g[0].at.start, p[0]);
    }
  }

  lemma {:induction false} StartEncloses(b: seq<Cell>, h: seq<Replacement>, x: int, q: int)
    requires NoneAdded(b) && 0 <= q <= |b| && Count(b, q) == x && StartsIn(Located(h, b), x)
    requires forall r :: r in h ==> IdleOrAttached(b, r)
    ensures Encloses(h, q)
  {
    hide Count, TextOf, IdleOrAttached;
    assert h[0] in h;
    var r := Located(h, b)[0];
    if !r.IsTrivial() && r.at.start == x {
      SpanEncloses(b, h[0], q);
    } else {
      StartEncloses(b, h[1..], x, q);
    }
  }

  lemma SpanEncloses(b: seq<Cell>, r: Replacement, q: int)
    requires NoneAdded(b) && 0 <= q <= |b| && Count(b, q) == OffsetBehind(b, r.at.start) && IdleOrAttached(b, r)
    requires !(r.text == "" && OffsetBehind(b, r.at.start) >= OffsetAhead(b, r.at.end))
    ensures r.at.start <= q <= r.at.end
  {
    hide Count, TextOf;
    PlainAnchors(b, r.at.start);
    PlainAnchors(b, r.at.end);
    CutVisible(b, r.at.start, r.at.end);
    GapOrder(b, q, r.at.start);
    GapOrder(b, q, r.at.end);
    GapOrder(b, r.at.end, q);
  }

  // ------------------------------------------------------------------ rejecting in the log

  /** `b` are the characters of the buffer and `b0` the same when the snapshot was taken: those that came
      later are deleted in `b0`. */
  ghost predicate SameCharacters(b0: seq<Cell>, b: seq<Cell>) {
    && |b0| == |b| && NoneAdded(b0) && NoneAdded(b)
    && forall q :: 0 <= q < |b| ==> b0[q].c == b[q].c
  }

  /** The anchors around ranges of the snapshot, `anchor_before` the start and `anchor_after` the end: the
      gaps that they are next to. */
  function Spans(b0: seq<Cell>, at: seq<Range>): (r: seq<Range>)
    ensures |r| == |at|
  {
    if at == [] then [] else [Range(FirstGap(b0, at[0].start), LastGap(b0, at[0].end))] + Spans(b0, at[1..])
  }

  /** Where they are found in the buffer. */
  function FoundIn(b: seq<Cell>, spans: seq<Range>): (r: seq<Range>)
    ensures |r| == |spans|
  {
    if spans == [] then []
       else [Range(OffsetBehind(b, spans[0].start), OffsetAhead(b, spans[0].end))] + FoundIn(b, spans[1..])
  }

  /** The anchors of the unreviewed edits. */
  function SpansOf(b0: seq<Cell>, edits: seq<Edit>): (r: seq<Range>)
    ensures |r| == |edits|
  {
    Spans(b0, AllCharsOf(edits, TextOf(b0)))
  }

  /** Rejecting the edits that `ranges` touch: `h` are the anchors of those edits and their base texts, `p`
      the gaps where these go, `c` the characters of the buffer afterwards. */
  ghost predicate Rejects(b0: seq<Cell>, b: seq<Cell>, starts: set<int>, base: string, edits: seq<Edit>,
                          ranges: seq<Range>, h: seq<Replacement>, p: seq<int>, c: seq<Cell>) {
    var spans := SpansOf(b0, edits);
    && h == Reverts(base, edits, spans, Scan(AllRowsAt(TextOf(b), FoundIn(b, spans)), ranges))
    && p == Gaps(b, starts, Gather(Located(h, b)), -1)
    && c == AfterEdit(b, 0, 0, Gather(Located(h, b)), p)
  }

  /** Ranges with at least one character between neighbours. */
  ghost predicate CharsApart(at: seq<Range>, i: int, n: int) {
    at != [] ==> i <= at[0].start <= at[0].end <= n && CharsApart(at[1..], at[0].end + 1, n)
  }

  lemma {:induction false} EditsCharsApart(q: seq<Edit>, a: seq<Row>, s: string, i: int, j: int, d: int)
    requires Aligned(q, a, Rows(s), i, j) && InOrder(q) && RealStarts(q, a, Rows(s))
    requires 0 <= d && (q != [] ==> d <= Offset(s, q[0].now.start))
    ensures CharsApart(AllCharsOf(q, s), d, |s|)
  {
    if q != [] {
      var e := q[0];
      HeadShape(q, a, Rows(s), i, j);
      assert AllCharsOf(q, s)[1..] == AllCharsOf(q[1..], s);
      OffsetMonotonic(s, e.now.start, e.now.end);
      if q[1..] != [] {
        assert q[1] in q && q[1..][0] == q[1];
        OffsetsApart(s, e.now.end, q[1].now.start);
      }
      hide Rows, Offset;
      EditsCharsApart(q[1..], a, s, e.was.end, e.now.end, Offset(s, e.now.end) + 1);
    }
  }

  lemma {:induction false} SpansAreApart(b0: seq<Cell>, at: seq<Range>, d: int, i: int)
    requires CharsApart(at, d, |TextOf(b0)|) && 0 <= d && 0 <= i
    requires at != [] ==> i <= FirstGap(b0, at[0].start)
    ensures CharsApart(Spans(b0, at), i, |b0|)
  {
    if at != [] {
      hide TextOf, Count, FirstGap, LastGap;
      var a, z := FirstGap(b0, at[0].start), LastGap(b0, at[0].end);
      FirstGapIs(b0, at[0].start);
      LastGapIs(b0, at[0].end);
      GapOrder(b0, z, a);
      if at[1..] != [] {
        FirstGapIs(b0, at[1..][0].start);
        GapOrder(b0, z, FirstGap(b0, at[1..][0].start));
      }
      SpansAreApart(b0, at[1..], at[0].end + 1, z + 1);
    }
  }

  lemma {:induction false} RevertsSpans(base: string, edits: seq<Edit>, spans: seq<Range>, picks: seq<bool>, i: int,
                                        n: int)
    requires |edits| == |spans| == |picks| && CharsApart(spans, i, n)
    ensures SpansApart(Reverts(base, edits, spans, picks), i, n)
  {
    if edits != [] {
      var l := Reverts(base, edits[1..], spans[1..], picks[1..]);
      RevertsSpans(base, edits[1..], spans[1..], picks[1..], spans[0].end + 1, n);
      if picks[0] {
        var r := Replacement(spans[0], RowText(base, edits[0].was));
        assert ([r] + l)[1..] == l;
      } else {
        SpansLater(l, spans[0].end + 1, i, n);
        assert [] + l == l;
      }
    }
  }

  lemma {:induction false} FoundInText(b: seq<Cell>, spans: seq<Range>, i: int)
    requires NoneAdded(b) && 0 <= i <= |b| && CharsApart(spans, i, |b|)
    ensures InText(FoundIn(b, spans), |TextOf(b)|, Count(b, i))
  {
    hide TextOf, Count, OffsetBehind, OffsetAhead;
    CutVisible(b, i, |b|);
    if spans != [] {
      var a, z := spans[0].start, spans[0].end;
      PlainAnchors(b, a);
      PlainAnchors(b, z);
      CutVisible(b, i, a);
      CutVisible(b, a, z);
      CharsApartEarlier(spans[1..], z + 1, z, |b|);
      FoundInText(b, spans[1..], z);
    }
  }

  lemma CharsApartEarlier(at: seq<Range>, i: int, j: int, n: int)
    requires CharsApart(at, i, n) && j <= i
    ensures CharsApart(at, j, n)
  {
  }

  lemma {:induction false} RevertsLocated(base: string, edits: seq<Edit>, spans: seq<Range>, b: seq<Cell>,
                                          picks: seq<bool>)
    requires |edits| == |spans| == |picks|
    ensures Located(Reverts(base, edits, spans, picks), b) == Reverts(base, edits, FoundIn(b, spans), picks)
  {
    if edits != [] {
      RevertsLocated(base, edits[1..], spans[1..], b, picks[1..]);
      hide OffsetBehind, OffsetAhead, RowText;
      var h := Reverts(base, edits[1..], spans[1..], picks[1..]);
      assert FoundIn(b, spans)[1..] == FoundIn(b, spans[1..]);
      if picks[0] {
        var r := Replacement(spans[0], RowText(base, edits[0].was));
        assert ([r] + h)[1..] == h;
      } else {
        assert [] + h == h && [] + Located(h, b) == Located(h, b);
      }
    }
  }

  /** The anchors of unreviewed edits, wherever the user has edited since the snapshot was taken. */
  lemma SpansOfEdits(b0: seq<Cell>, b: seq<Cell>, base: string, edits: seq<Edit>)
    requires SameCharacters(b0, b)
    requires Leads(edits, Rows(base), Rows(TextOf(b0))) && Separated(edits)
             && RealStarts(edits, Rows(base), Rows(TextOf(b0)))
    ensures CharsApart(SpansOf(b0, edits), 0, |b|)
    ensures InText(FoundIn(b, SpansOf(b0, edits)), |TextOf(b)|, 0)
  {
    var s := TextOf(b0);
    AlignedInOrder(edits, Rows(base), Rows(s), 0, 0);
    hide *;
    LeadsAligned(edits, Rows(base), Rows(s));
    EditsCharsApart(edits, Rows(base), s, 0, 0, 0);
    SpansAreApart(b0, AllCharsOf(edits, s), 0, 0);
    AtStart(b);
    SpansOfIs(b0, b, edits);
    FoundInText(b, SpansOf(b0, edits), 0);
  }

  lemma SpansOfIs(b0: seq<Cell>, b: seq<Cell>, edits: seq<Edit>)
    requires SameCharacters(b0, b)
    ensures SpansOf(b0, edits) == Spans(b0, AllCharsOf(edits, TextOf(b0)))
    ensures |b| == |b0| && NoneAdded(b) && NoneAdded(b0)
  {
  }

  /** Undo after reject, in the log. Whatever was edited since the snapshot was taken, and whichever edits
      are rejected: the anchors are found in order, the buffer gets the base texts in place of what they
      enclose, and undoing restores it if and only if every text that was put in lies between the two
      anchors of a rejected edit. */
  lemma UndoAfterReject(b0: seq<Cell>, b: seq<Cell>, starts: set<int>, base: string, edits: seq<Edit>,
                        ranges: seq<Range>, h: seq<Replacement>, p: seq<int>, c: seq<Cell>)
    requires SameCharacters(b0, b)
    requires Leads(edits, Rows(base), Rows(TextOf(b0))) && Separated(edits)
             && RealStarts(edits, Rows(base), Rows(TextOf(b0)))
    requires Rejects(b0, b, starts, base, edits, ranges, h, p, c)
    ensures InText(FoundIn(b, SpansOf(b0, edits)), |TextOf(b)|, 0)
    ensures var at := FoundIn(b, SpansOf(b0, edits));
            Located(h, b) == Reverts(base, edits, at, Scan(AllRowsAt(TextOf(b), at), ranges))
    ensures Fits(Located(h, b), |TextOf(b)|, 0) && TextOf(c) == ApplyAll(Located(h, b), TextOf(b), 0)
    ensures |p| == |Gather(Located(h, b))|
    ensures Edited(TextOf(c), UndoIn(h, b, c)) == TextOf(b) <==> AllEnclosed(Gather(Located(h, b)), p, h)
  {
    hide *;
    SpansOfEdits(b0, b, base, edits);
    SpansOfIs(b0, b, edits);
    var spans := SpansOf(b0, edits);
    var picks := Scan(AllRowsAt(TextOf(b), FoundIn(b, spans)), ranges);
    RejectsIs(b0, b, starts, base, edits, ranges, h, p, c);
    RevertsSpans(base, edits, spans, picks, 0, |b|);
    RevertsLocated(base, edits, spans, b, picks);
    LocatedFits(h, b, 0);
    AtStart(b);
    GatherKeeps(Located(h, b), TextOf(b), 0);
    GapsFit(b, starts, Gather(Located(h, b)), -1, 0);
    UndoRestoresIffEnclosed(b, h, p, c);
  }

  lemma RejectsIs(b0: seq<Cell>, b: seq<Cell>, starts: set<int>, base: string, edits: seq<Edit>, ranges: seq<Range>,
                  h: seq<Replacement>, p: seq<int>, c: seq<Cell>)
    requires Rejects(b0, b, starts, base, edits, ranges, h, p, c)
    ensures h == Reverts(base, edits, SpansOf(b0, edits),
                         Scan(AllRowsAt(TextOf(b), FoundIn(b, SpansOf(b0, edits))), ranges))
    ensures p == Gaps(b, starts, Gather(Located(h, b)), -1) && |p| == |Gather(Located(h, b))|
    ensures c == AfterEdit(b, 0, 0, Gather(Located(h, b)), p)
  {
  }

  /** While the buffer holds the snapshot, undoing always restores it. */
  lemma UndoAtRest(b: seq<Cell>, starts: set<int>, base: string, edits: seq<Edit>, ranges: seq<Range>,
                   h: seq<Replacement>, p: seq<int>, c: seq<Cell>)
    requires NoneAdded(b)
    requires Leads(edits, Rows(base), Rows(TextOf(b))) && Separated(edits)
             && RealStarts(edits, Rows(base), Rows(TextOf(b)))
    requires Rejects(b, b, starts, base, edits, ranges, h, p, c)
    ensures FoundIn(b, SpansOf(b, edits)) == AllCharsOf(edits, TextOf(b))
    ensures Edited(TextOf(c), UndoIn(h, b, c)) == TextOf(b)
  {
    hide *;
    var s := TextOf(b);
    var spans := SpansOf(b, edits);
    SameAsItself(b);
    SpansOfEdits(b, b, base, edits);
    SpansOfIs(b, b, edits);
    LeadsAligned(edits, Rows(base), Rows(s));
    CharsInText(edits, Rows(base), s, 0, 0);
    EmptyOffset(s);
    FoundAtRest(b, AllCharsOf(edits, s), 0);
    var picks := Scan(AllRowsAt(s, FoundIn(b, spans)), ranges);
    RejectsIs(b, b, starts, base, edits, ranges, h, p, c);
    RevertsSpans(base, edits, spans, picks, 0, |b|);
    AttachedAtRest(b, base, edits, AllCharsOf(edits, s), picks, 0);
    LocatedFits(h, b, 0);
    AtStart(b);
    GatherKeeps(Located(h, b), s, 0);
    GapsFit(b, starts, Gather(Located(h, b)), -1, 0);
    UndoOfAttached(b, h, p, c);
  }

  lemma SameAsItself(b: seq<Cell>)
    requires NoneAdded(b)
    ensures SameCharacters(b, b)
  {
  }

  lemma {:induction false} FoundAtRest(b: seq<Cell>, at: seq<Range>, i: int)
    requires NoneAdded(b) && InText(at, |TextOf(b)|, i)
    ensures FoundIn(b, Spans(b, at)) == at
  {
    hide TextOf, Count, FirstGap, LastGap, OffsetBehind, OffsetAhead;
    if at != [] {
      FoundAtRest(b, at[1..], at[0].end);
      InTextHead(at, |TextOf(b)|, i);
      FoundSpan(b, at[0]);
    }
  }

  lemma InTextHead(at: seq<Range>, n: int, i: int)
    requires at != [] && InText(at, n, i)
    ensures 0 <= i <= at[0].start <= at[0].end <= n && InText(at[1..], n, at[0].end)
  {
  }

  /** Anchors made in the buffer itself are attached, and found where they were made. */
  lemma FoundSpan(b: seq<Cell>, r: Range)
    requires NoneAdded(b) && 0 <= r.start <= r.end <= |TextOf(b)|
    ensures var (a, z) := (FirstGap(b, r.start), LastGap(b, r.end));
            && 0 <= a <= z <= |b| && OffsetBehind(b, a) == r.start && OffsetAhead(b, z) == r.end
            && (a == 0 || b[a - 1].visible) && (z == |b| || b[z].visible)
  {
    var (a, z) := (FirstGap(b, r.start), LastGap(b, r.end));
    FirstGapIs(b, r.start);
    LastGapIs(b, r.end);
    PlainAnchors(b, a);
    PlainAnchors(b, z);
    hide TextOf, Count, FirstGap, LastGap, OffsetBehind, OffsetAhead;
    GapOrder(b, z, a);
  }

  lemma {:induction false} AttachedAtRest(b: seq<Cell>, base: string, edits: seq<Edit>, at: seq<Range>,
                                          picks: seq<bool>, i: int)
    requires NoneAdded(b) && |edits| == |at| == |picks| && InText(at, |TextOf(b)|, i)
    ensures forall r :: r in Reverts(base, edits, Spans(b, at), picks) ==> IdleOrAttached(b, r)
  {
    hide *;
    SpansFirst(b, at);
    if edits == [] {
      NothingReverted(base, Spans(b, at), picks);
    } else {
      InTextHead(at, |TextOf(b)|, i);
      AttachedAtRest(b, base, edits[1..], at[1..], picks[1..], at[0].end);
      FoundSpan(b, at[0]);
      AttachedIs(b, Replacement(Spans(b, at)[0], RowText(base, edits[0].was)));
      RevertedHead(base, edits, Spans(b, at), picks);
    }
  }

  lemma SpansFirst(b: seq<Cell>, at: seq<Range>)
    ensures at != [] ==>
              Spans(b, at) == [Range(FirstGap(b, at[0].start), LastGap(b, at[0].end))] + Spans(b, at[1..])
  {
  }

  lemma NothingReverted(base: string, spans: seq<Range>, picks: seq<bool>)
    requires spans == [] && picks == []
    ensures Reverts(base, [], spans, picks) == []
  {
  }

  lemma AttachedIs(b: seq<Cell>, r: Replacement)
    requires 0 <= r.at.start <= r.at.end <= |b| && (r.at.start == 0 || b[r.at.start - 1].visible)
    requires r.at.end == |b| || b[r.at.end].visible
    ensures IdleOrAttached(b, r)
  {
  }

  lemma RevertedHead(base: string, edits: seq<Edit>, spans: seq<Range>, picks: seq<bool>)
    requires |edits| == |spans| == |picks| > 0
    ensures forall r :: r in Reverts(base, edits, spans, picks) ==>
                          r == Replacement(spans[0], RowText(base, edits[0].was))
                          || r in Reverts(base, edits[1..], spans[1..], picks[1..])
  {
  }

  // ------------------------------------------------------------------ examples

  /** The characters of `s`, of which the first `n` are there. */
  function Cells(s: string, n: int): seq<Cell> {
    if s == "" then [] else [Cell(s[0], n > 0, false)] + Cells(s[1..], n - 1)
  }

  /** The agent deleted row 1, and the user the row behind it, which the log has not processed yet. */
  function BeforeReject(): Tracked {
    Tracked("a\nX\nb\n", "a\nb\n", [Edit(Range(1, 2), Range(1, 1))], Modified, [Change(User, "a\n")], None)
  }

  lemma CellsOf(c: char, s: string, n: int)
    ensures Cells([c] + s, n) == [Cell(c, n > 0, false)] + Cells(s, n - 1)
  {
    assert ([c] + s)[1..] == s;
  }

  lemma FourCells(x: char, y: char, z: char, w: char, n: int)
    ensures var b := Cells([x, y, z, w], n);
            && b == [Cell(x, n > 0, false), Cell(y, n > 1, false), Cell(z, n > 2, false), Cell(w, n > 3, false)]
            && NoneAdded(b) && TextOf(b) == [x, y, z, w][..if n < 0 then 0 else if n < 4 then n else 4]
  {
    hide *;
    var b := [Cell(x, n > 0, false), Cell(y, n > 1, false), Cell(z, n > 2, false), Cell(w, n > 3, false)];
    CellsOf(x, [y, z, w], n);
    CellsOf(y, [z, w], n - 1);
    CellsOf(z, [w], n - 2);
    CellsOf(w, "", n - 3);
    NoCells(n - 4);
    FourParts(x, y, z, w);
    FourParts(b[0], b[1], b[2], b[3]);
    FourVisible(b);
    FourShown(b, x, y, z, w, n);
  }

  lemma NoCells(n: int)
    ensures Cells("", n) == []
  {
  }

  lemma FourParts<T>(x: T, y: T, z: T, w: T)
    ensures [x] + [y, z, w] == [x, y, z, w] && [y] + [z, w] == [y, z, w] && [z] + [w] == [z, w] && [w] + [] == [w]
  {
  }

  lemma FourShown(b: seq<Cell>, x: char, y: char, z: char, w: char, n: int)
    requires b == [Cell(x, n > 0, false), Cell(y, n > 1, false), Cell(z, n > 2, false), Cell(w, n > 3, false)]
    ensures NoneAdded(b)
    ensures CellText(b[0]) + CellText(b[1]) + CellText(b[2]) + CellText(b[3])
            == [x, y, z, w][..if n < 0 then 0 else if n < 4 then n else 4]
  {
  }

  lemma FourVisible(b: seq<Cell>)
    requires |b| == 4
    ensures TextOf(b) == CellText(b[0]) + CellText(b[1]) + CellText(b[2]) + CellText(b[3])
    ensures Count(b, 1) == |CellText(b[0])| && Count(b, 2) == Count(b, 1) + |CellText(b[1])|
    ensures Count(b, 3) == Count(b, 2) + |CellText(b[2])| && Count(b, 4) == Count(b, 3) + |CellText(b[3])|
  {
    hide *;
    StepVisible(b, 0);
    StepVisible(b, 1);
    StepVisible(b, 2);
    StepVisible(b, 3);
    AtStart(b);
    AllOut(b);
    NoneVisible(b);
    FourTexts(CellText(b[0]), CellText(b[1]), CellText(b[2]), CellText(b[3]));
  }

  lemma FourTexts(x: string, y: string, z: string, w: string)
    ensures x + (y + (z + (w + ""))) == x + y + z + w
  {
  }

  lemma NoneVisible(b: seq<Cell>)
    requires |b| == 4
    ensures TextOf(b[4..]) == ""
  {
  }

  lemma ExampleRows()
    ensures Rows("a\nX\nb\n") == ["a", "X", "b", ""] && Rows("a\nb\n") == ["a", "b", ""] && Rows("a\n") == ["a", ""]
  {
    hide *;
    RowsOfNothing();
    RowInFront('b', "");
    RowInFront('X', "b\n");
    RowInFront('a', "X\nb\n");
    RowInFront('a', "b\n");
    RowInFront('a', "");
    assert "b\n" == ['b'] + "\n" + "" && "X\nb\n" == ['X'] + "\n" + "b\n" && "a\nX\nb\n" == ['a'] + "\n" + "X\nb\n";
    assert "a\nb\n" == ['a'] + "\n" + "b\n" && "a\n" == ['a'] + "\n" + "";
  }

  lemma RowInFront(c: char, s: string)
    requires c != '\n'
    ensures Rows([c] + "\n" + s) == [[c]] + Rows(s)
    ensures Offset([c] + "\n" + s, 1) == 2
  {
    var t := [c] + "\n" + s;
    assert t[1..] == "\n" + s && ("\n" + s)[1..] == s;
    RowsOf(t);
    RowsOf("\n" + s);
    assert [c] + "" == [c];
    assert t[0] == c && t[1..][0] == '\n';
    assert Offset(t, 1) == 1 + Offset(t[1..], 1) == 2 + Offset(t[1..][1..], 0);
  }

  lemma ExampleState()
    ensures TrackedInv(BeforeReject(), "a\n")
  {
    ExampleRows();
    hide Rows;
    var a, b, e := Rows("a\nX\nb\n"), Rows("a\nb\n"), Edit(Range(1, 2), Range(1, 1));
    assert Aligned([], a, b, 2, 1);
    Prepend(e, [], a, b, 0, 0);
    assert [e] + [] == [e];
  }

  /** The gap right behind, or right in front of, a visible character. */
  lemma GapsAt(b: seq<Cell>, q: int)
    requires 0 <= q <= |b|
    ensures q == 0 || b[q - 1].visible ==> FirstGap(b, Count(b, q)) == q
    ensures q == |b| || b[q].visible ==> LastGap(b, Count(b, q)) == q
  {
    hide FirstGap, LastGap, Count, TextOf;
    CutVisible(b, q, q);
    FirstGapIs(b, Count(b, q));
    LastGapIs(b, Count(b, q));
    GapOrder(b, FirstGap(b, Count(b, q)), q);
    GapOrder(b, q, FirstGap(b, Count(b, q)));
    GapOrder(b, LastGap(b, Count(b, q)), q);
    GapOrder(b, q, LastGap(b, Count(b, q)));
  }

  /** The anchors of the agent's edit, where they are in the buffer, and the gap that text put there takes. */
  lemma ExampleSpans(b0: seq<Cell>, b: seq<Cell>)
    requires b0 == Cells("a\nb\n", 4) && b == Cells("a\nb\n", 2)
    ensures TextOf(b0) == "a\nb\n" == BeforeReject().snapshot && TextOf(b) == "a\n" && SameCharacters(b0, b)
    ensures |b| == 4 && !b[2].visible && LastGap(b, 2) == 4
    ensures SpansOf(b0, BeforeReject().edits) == [Range(2, 2)] && FoundIn(b, [Range(2, 2)]) == [Range(2, 2)]
  {
    hide *;
    FourCells('a', '\n', 'b', '\n', 4);
    FourCells('a', '\n', 'b', '\n', 2);
    assert ['a', '\n', 'b', '\n'] == "a\nb\n" && "a\nb\n"[..2] == "a\n" && "a\nb\n"[..4] == "a\nb\n";
    ExampleCounts(b0);
    ExampleCounts(b);
    ExampleSame(b0, b);
    GapsAt(b0, 2);
    GapsAt(b, 4);
    PlainAnchors(b, 2);
    RowInFront('a', "b\n");
    assert "a\nb\n" == ['a'] + "\n" + "b\n";
    OneAt(b0, Edit(Range(1, 2), Range(1, 1)));
    ExampleEdits();
    OneFound(b, Range(2, 2));
  }

  lemma ExampleCounts(b: seq<Cell>)
    requires |b| == 4 && b[0].visible && b[1].visible && b[2].visible == b[3].visible
    ensures Count(b, 2) == 2 && (!b[2].visible ==> Count(b, 4) == 2)
  {
    FourVisible(b);
    hide Count, TextOf;
  }

  lemma ExampleSame(b0: seq<Cell>, b: seq<Cell>)
    requires |b0| == 4 == |b| && NoneAdded(b0) && NoneAdded(b)
    requires b0[0].c == b[0].c && b0[1].c == b[1].c && b0[2].c == b[2].c && b0[3].c == b[3].c
    ensures SameCharacters(b0, b)
  {
  }

  lemma ExampleEdits()
    ensures BeforeReject().edits == [Edit(Range(1, 2), Range(1, 1))]
    ensures BeforeReject().snapshot == "a\nb\n"
  {
  }

  lemma OneFound(b: seq<Cell>, r: Range)
    ensures FoundIn(b, [r]) == [Range(OffsetBehind(b, r.start), OffsetAhead(b, r.end))]
  {
    assert [r][1..] == [];
  }

  lemma OneAt(b0: seq<Cell>, e: Edit)
    ensures SpansOf(b0, [e])
            == [Range(FirstGap(b0, Offset(TextOf(b0), e.now.start)), LastGap(b0, Offset(TextOf(b0), e.now.end)))]
  {
    assert [e][1..] == [];
    var at := AllCharsOf([e], TextOf(b0));
    assert at == [CharsOf(TextOf(b0), e.now)] && at[1..] == [];
  }

  /** Undoing a rejection can leave the text that the rejection put in. The base text of the agent's edit
      goes behind the deleted row, and the end anchor, which is attached to that row, stays in front. */
  lemma UndoLosesText(starts: set<int>, h: seq<Replacement>, p: seq<int>, c: seq<Cell>)
    requires Rejects(Cells("a\nb\n", 4), Cells("a\nb\n", 2), starts, BeforeReject().base, BeforeReject().edits,
                     [Range(0, 1)], h, p, c)
    ensures TrackedInv(BeforeReject(), "a\n") && SameCharacters(Cells("a\nb\n", 4), Cells("a\nb\n", 2))
    ensures TextOf(Cells("a\nb\n", 4)) == BeforeReject().snapshot && TextOf(Cells("a\nb\n", 2)) == "a\n"
    ensures h == [Replacement(Range(2, 2), "X\n")] && p == [4]
    ensures TextOf(c) == "a\nX\n"
    ensures Edited(TextOf(c), UndoIn(h, Cells("a\nb\n", 2), c)) == "a\nX\n"
  {
    hide *;
    var b0, b, r := Cells("a\nb\n", 4), Cells("a\nb\n", 2), Replacement(Range(2, 2), "X\n");
    ExampleState();
    ExampleSpans(b0, b);
    ExampleScan();
    ExampleText();
    RejectsIs(b0, b, starts, BeforeReject().base, BeforeReject().edits, [Range(0, 1)], h, p, c);
    ExampleReverts(b);
    ExampleFound(b, r);
    OneGathered(b, starts, r, r);
    CanBeUndoneIs(b, r);
    ExamplePlain(b0, b);
    UndoOfOne(b, starts, r, p, c);
    ExampleResult(r);
  }

  lemma ExamplePlain(b0: seq<Cell>, b: seq<Cell>)
    requires SameCharacters(b0, b)
    ensures NoneAdded(b)
  {
  }

  lemma ExampleScan()
    ensures Scan(AllRowsAt("a\n", [Range(2, 2)]), [Range(0, 1)]) == [true]
  {
    ExampleRows();
    hide Rows;
    assert WholeRange("a\n") == Range(0, 1);
    assert InText([Range(2, 2)], 2, 0) by {
      assert [Range(2, 2)][1..] == [];
    }
    hide Scan, AllRowsAt;
    WholeRangePicksAll("a\n", [Range(2, 2)], 0);
    assert AllOf(1, true) == [true];
  }

  lemma ExampleText()
    ensures RowText("a\nX\nb\n", Range(1, 2)) == "X\n"
  {
    hide *;
    var s := "a\nX\nb\n";
    assert s == ['a'] + "\n" + "X\nb\n" && "X\nb\n" == ['X'] + "\n" + "b\n";
    RowInFront('X', "b\n");
    RowInFront('a', "X\nb\n");
    NextRowStarts('a', "X\nb\n");
    RowTextIs(s, Range(1, 2));
    assert s[2..4] == "X\n";
  }

  lemma NextRowStarts(c: char, s: string)
    requires c != '\n'
    ensures Offset([c] + "\n" + s, 2) == 2 + Offset(s, 1)
  {
    var t := [c] + "\n" + s;
    assert t[0] == c && t[1] == '\n' && t[1..][1..] == s;
    assert Offset(t, 2) == 1 + Offset(t[1..], 2) == 2 + Offset(t[1..][1..], 1);
  }

  lemma RowTextIs(s: string, r: Range)
    ensures RowText(s, r)
            == if Offset(s, r.start) <= Offset(s, r.end) then s[Offset(s, r.start)..Offset(s, r.end)] else ""
  {
  }

  lemma ExampleReverts(b: seq<Cell>)
    requires RowText("a\nX\nb\n", Range(1, 2)) == "X\n"
    ensures Reverts(BeforeReject().base, BeforeReject().edits, [Range(2, 2)], [true])
            == [Replacement(Range(2, 2), "X\n")]
  {
    hide RowText;
    assert [Range(2, 2)][1..] == [] && [true][1..] == [] && BeforeReject().edits[1..] == [];
  }

  lemma ExampleFound(b: seq<Cell>, r: Replacement)
    requires r == Replacement(Range(2, 2), "X\n") && FoundIn(b, [Range(2, 2)]) == [Range(2, 2)]
    ensures OffsetBehind(b, 2) == 2 && OffsetAhead(b, 2) == 2 && !r.IsTrivial()
  {
    assert FoundIn(b, [Range(2, 2)])[0] == Range(OffsetBehind(b, 2), OffsetAhead(b, 2));
  }

  lemma ExampleResult(r: Replacement)
    requires r == Replacement(Range(2, 2), "X\n")
    ensures Fits([r], 2, 0) && ApplyAll([r], "a\n", 0) == "a\nX\n"
  {
    Alone(r, "a\n", 0);
    NothingMore("a\n", 2);
  }

  /** With several edits the characters alone do not decide. The second text goes in front of a deleted
      character if the characters between the two edits are of one fragment, and behind it otherwise; only
      in front is it between its anchors. */
  lemma FragmentsDecide()
    ensures var (b, h) := (Cells("abcd", 3), [Replacement(Range(1, 1), "X"), Replacement(Range(3, 3), "Y")]);
            && Gaps(b, {0, 3}, Gather(Located(h, b)), -1) == [1, 3]
            && AllEnclosed(Gather(Located(h, b)), [1, 3], h)
            && Gaps(b, {0, 2, 3}, Gather(Located(h, b)), -1) == [1, 4]
            && !AllEnclosed(Gather(Located(h, b)), [1, 4], h)
  {
    hide *;
    var b, r, q := Cells("abcd", 3), Replacement(Range(1, 1), "X"), Replacement(Range(3, 3), "Y");
    ThreeOfFour(b);
    TwoLocated(b, r, q);
    TwoGathered(r, q);
    TwoGaps(b, r, q);
    TwoEnclosed(r, q);
  }

  lemma ThreeOfFour(b: seq<Cell>)
    requires b == Cells("abcd", 3)
    ensures NoneAdded(b) && |b| == 4 && b[0].visible && b[1].visible && b[2].visible && !b[3].visible
    ensures Count(b, 1) == 1 && Count(b, 2) == 2 && Count(b, 3) == Count(b, 4) == 3
  {
    FourCells('a', 'b', 'c', 'd', 3);
    assert ['a', 'b', 'c', 'd'] == "abcd";
    hide Cells, Count, TextOf;
    FourVisible(b);
  }

  lemma TwoLocated(b: seq<Cell>, r: Replacement, q: Replacement)
    requires NoneAdded(b) && |b| == 4 && Count(b, 1) == 1 && Count(b, 3) == 3
    requires r == Replacement(Range(1, 1), "X") && q == Replacement(Range(3, 3), "Y")
    ensures Located([r, q], b) == [r, q]
  {
    PlainAnchors(b, 1);
    PlainAnchors(b, 3);
    hide Count, OffsetBehind, OffsetAhead;
    assert [r, q][1..] == [q] && [q][1..] == [];
  }

  lemma TwoGathered(r: Replacement, q: Replacement)
    requires r == Replacement(Range(1, 1), "X") && q == Replacement(Range(3, 3), "Y")
    ensures Gather([r, q]) == [r, q]
  {
    assert [r, q][1..] == [q] && [q][1..] == [];
    GatherIs([r, q]);
    GatherFromIs(r, [q]);
    GatherFromIs(q, []);
    hide Gather, GatherFrom;
    assert [r] + [q] == [r, q];
  }

  lemma TwoGaps(b: seq<Cell>, r: Replacement, q: Replacement)
    requires |b| == 4 && b[0].visible && b[1].visible && b[2].visible && !b[3].visible
    requires r == Replacement(Range(1, 1), "X") && q == Replacement(Range(3, 3), "Y")
    requires Count(b, 1) == 1 && Count(b, 2) == 2 && Count(b, 3) == Count(b, 4) == 3
    ensures Gaps(b, {0, 3}, [r, q], -1) == [1, 3] && Gaps(b, {0, 2, 3}, [r, q], -1) == [1, 4]
  {
    GapsAt(b, 1);
    GapsAt(b, 3);
    GapsAt(b, 4);
    hide FirstGap, LastGap, Count;
    assert [r, q][1..] == [q] && [q][1..] == [];
    assert FragmentEnd({0, 3}, 1, 4) == 3 && FragmentEnd({0, 2, 3}, 1, 4) == 2;
  }

  lemma TwoEnclosed(r: Replacement, q: Replacement)
    requires r == Replacement(Range(1, 1), "X") && q == Replacement(Range(3, 3), "Y")
    ensures AllEnclosed([r, q], [1, 3], [r, q]) && !AllEnclosed([r, q], [1, 4], [r, q])
  {
    assert [r, q][1..] == [q] && [q][1..] == [] && [1, 3][1..] == [3] && [1, 4][1..] == [4];
    assert Encloses([r, q], 1) && Encloses([q], 3) && Encloses([r, q], 3) && !Encloses([q], 4) && !Encloses([r, q], 4);
  }
}
