/** Building a text from the front: replacing the rows of one edit after the other, each at its old
    position plus a running delta. The loops that keep, carry over and commit edits share this. */
module Splicing {
  import opened Patches
  import opened Ropes

  /** The finished part of the text, with the base rows up to `x` and the new rows added. */
  ghost function Grown<T>(pre: seq<T>, a: seq<T>, i: int, x: int, t: seq<T>, now: Range): seq<T> {
    if 0 <= i <= x <= |a| && 0 <= now.start <= now.end <= |t|
    then pre + a[i..x] + t[now.start..now.end]
    else []
  }

  /** The text so far: the finished rows `pre`, then the base from row `i` on; `d` is how much longer
      the finished rows are than the base rows they replace. */
  ghost predicate Written(text: string, pre: seq<Row>, a: seq<Row>, i: int, d: int) {
    0 <= i <= |a| && Rows(text) == pre + a[i..] && |pre| == i + d
  }

  lemma WrittenAtStart(text: string)
    ensures Written(text, [], Rows(text), 0, 0)
  {
    assert [] + Rows(text)[0..] == Rows(text);
  }

  /** Edits of a patch reach the end of both texts or of neither. */
  lemma {:induction false} EndsTogether<T>(p: seq<Edit>, a: seq<T>, b: seq<T>, i: int, j: int, e: Edit)
    requires Aligned(p, a, b, i, j) && InOrder(p) && e in p
    ensures e.was.end == |a| <==> e.now.end == |b|
  {
    if e == p[0] {
      if |p| == 1 {
        assert |a[e.was.end..]| == |b[e.now.end..]|;
      } else {
        HeadShape(p[1..], a, b, p[0].was.end, p[0].now.end);
        assert p[1..][0] == p[1];
      }
    } else {
      EndsTogether(p[1..], a, b, p[0].was.end, p[0].now.end, e);
    }
  }

  /** The edits start at real rows and reach the end of both texts or of neither. */
  ghost predicate EditsReal<T>(es: seq<Edit>, b: seq<T>, t: seq<T>) {
    forall e :: e in es ==> e.was.start < |b| && e.now.start < |t| && (e.was.end == |b| <==> e.now.end == |t|)
  }

  lemma EditsAreReal<T>(es: seq<Edit>, b: seq<T>, t: seq<T>)
    requires Leads(es, b, t) && Separated(es) && RealStarts(es, b, t)
    ensures EditsReal(es, b, t)
  {
    AlignedInOrder(es, b, t, 0, 0);
    forall e | e in es
      ensures e.was.end == |b| <==> e.now.end == |t|
    {
      EndsTogether(es, b, t, 0, 0, e);
    }
  }

  lemma EditsRealTail<T>(es: seq<Edit>, b: seq<T>, t: seq<T>)
    requires es != [] && EditsReal(es, b, t)
    ensures EditsReal(es[1..], b, t)
  {
  }

  lemma FirstReal<T>(es: seq<Edit>, b: seq<T>, t: seq<T>)
    requires es != [] && EditsReal(es, b, t)
    ensures es[0].was.start < |b| && es[0].now.start < |t| && (es[0].was.end == |b| <==> es[0].now.end == |t|)
    ensures EditsReal([es[0]], b, t)
  {
    assert es[0] in es;
  }

  lemma SpliceRest<T>(pre: seq<T>, a: seq<T>, i: int, d: int, x: int, y: int, w: seq<T>)
    requires |pre| == i + d && 0 <= i <= x <= y <= |a|
    ensures 0 <= x + d <= y + d <= |pre + a[i..]|
    ensures Splice(pre + a[i..], Range(x + d, y + d), w) == pre + a[i..x] + w + a[y..]
    ensures |pre + a[i..]| == |a| + d
  {
    var s := pre + a[i..];
    assert s[..x + d] == pre + a[i..x];
    assert s[y + d..] == a[y..];
  }

  /** One application of a carried edit: replacing characters splices the rows. */
  lemma Applies(text: string, newText: string, e: Edit, pre: seq<Row>, a: seq<Row>, i: int, d: int, x: int, y: int)
    requires Written(text, pre, a, i, d) && i <= x <= y <= |a| && x < |a|
    requires y - x == e.was.Len()
    requires 0 <= e.now.start <= e.now.end <= |Rows(newText)| && e.now.start < |Rows(newText)|
    requires y == |a| <==> e.now.end == |Rows(newText)|
    ensures Written(ReplaceRows(text, Range(x + d, y + d), RowText(newText, e.now)),
                    Grown(pre, a, i, x, Rows(newText), e.now), a, y, d + e.Delta())
  {
    hide Rows, ReplaceRows, RowText;
    SpliceRest(pre, a, i, d, x, y, Rows(newText)[e.now.start..e.now.end]);
    ReplaceIsSplice(text, Range(x + d, y + d), newText, e.now);
  }

  lemma ShiftIs(r: Range, s: int, d: int)
    ensures r.Shift(d + s) == Range(r.start + s + d, r.end + s + d) && r.Len() == r.end - r.start
  {
  }

  // ------------------------------------------------------------------ taking over picked edits

  /** The loops that keep edits have consumed a prefix of the patch: `q` and `picks` are what is left,
      and the text will become `goal`. */
  ghost predicate Keeping(goal: seq<Row>, q: seq<Edit>, picks: seq<bool>, a: seq<Row>, b: seq<Row>,
                          text: string, pre: seq<Row>, i: int, j: int, d: int) {
    && Aligned(q, a, b, i, j) && InOrder(q) && EditsReal(q, a, b) && |picks| == |q|
    && Written(text, pre, a, i, d)
    && goal == pre + Pick(q, a, b, picks, i)
  }

  lemma KeepingStarts(p: seq<Edit>, picks: seq<bool>, text: string, b: seq<Row>)
    requires Leads(p, Rows(text), b) && Separated(p) && RealStarts(p, Rows(text), b) && |picks| == |p|
    ensures Keeping(Pick(p, Rows(text), b, picks, 0), p, picks, Rows(text), b, text, [], 0, 0, 0)
  {
    AlignedInOrder(p, Rows(text), b, 0, 0);
    EditsAreReal(p, Rows(text), b);
    WrittenAtStart(text);
    var goal := Pick(p, Rows(text), b, picks, 0);
    assert [] + goal == goal;
  }

  lemma KeepingEnds(goal: seq<Row>, a: seq<Row>, b: seq<Row>, text: string, pre: seq<Row>, i: int, j: int, d: int)
    requires Keeping(goal, [], [], a, b, text, pre, i, j, d)
    ensures Rows(text) == goal
  {
  }

  /** The next edit is not picked: its old rows stay. */
  lemma KeepingSkips(goal: seq<Row>, q: seq<Edit>, picks: seq<bool>, a: seq<Row>, b: seq<Row>,
                     text: string, pre: seq<Row>, i: int, j: int, d: int, y: int, pre': seq<Row>)
    requires Keeping(goal, q, picks, a, b, text, pre, i, j, d) && q != [] && !picks[0]
    requires y == q[0].was.end && pre' == Moved(pre, a, i, y)
    ensures Keeping(goal, q[1..], picks[1..], a, b, text, pre', y, q[0].now.end, d)
  {
    hide *;
    KeepingHead(goal, q, picks, a, b, text, pre, i, j, d);
    MovedIs(pre, a, i, y);
    PickSkipped(q, picks, a, b, pre, i, goal, y);
    WrittenMoves(text, pre, a, i, d, y);
    KeepingOf(goal, q[1..], picks[1..], a, b, text, pre', y, q[0].now.end, d);
  }

  lemma MovedIs<T>(pre: seq<T>, a: seq<T>, i: int, y: int)
    requires 0 <= i <= y <= |a|
    ensures Moved(pre, a, i, y) == pre + a[i..y]
  {
  }

  lemma WrittenMoves(text: string, pre: seq<Row>, a: seq<Row>, i: int, d: int, y: int)
    requires Written(text, pre, a, i, d) && i <= y <= |a|
    ensures Written(text, pre + a[i..y], a, y, d)
  {
    SliceCat(a, i, y, |a|);
    ToEnd(a, i);
    ToEnd(a, y);
  }

  lemma PickSkipped<T>(q: seq<Edit>, picks: seq<bool>, a: seq<T>, b: seq<T>, pre: seq<T>, i: int, goal: seq<T>, y: int)
    requires |picks| == |q| > 0 && !picks[0] && y == q[0].was.end
    requires 0 <= i <= q[0].was.start <= y <= |a| && 0 <= q[0].now.start <= q[0].now.end <= |b|
    requires goal == pre + Pick(q, a, b, picks, i)
    ensures goal == pre + a[i..y] + Pick(q[1..], a, b, picks[1..], y)
  {
    SliceCat(a, i, q[0].was.start, y);
    Assoc(pre, a[i..y], Pick(q[1..], a, b, picks[1..], y));
  }

  /** The next edit is picked: its new rows replace its old ones. */
  lemma KeepingTakes(goal: seq<Row>, q: seq<Edit>, picks: seq<bool>, a: seq<Row>, newText: string,
                     text: string, pre: seq<Row>, i: int, j: int, d: int, pre': seq<Row>)
    requires Keeping(goal, q, picks, a, Rows(newText), text, pre, i, j, d) && q != [] && picks[0]
    requires pre' == Grown(pre, a, i, q[0].was.start, Rows(newText), q[0].now)
    ensures Keeping(goal, q[1..], picks[1..], a, Rows(newText),
                    ReplaceRows(text, q[0].was.Shift(d), RowText(newText, q[0].now)),
                    pre', q[0].was.end, q[0].now.end, d + q[0].Delta())
  {
    hide *;
    var e, b := q[0], Rows(newText);
    KeepingHead(goal, q, picks, a, b, text, pre, i, j, d);
    ShiftIs(e.was, 0, d);
    Applies(text, newText, e, pre, a, i, d, e.was.start, e.was.end);
    PickTaken(q, picks, a, b, pre, i, goal);
    KeepingOf(goal, q[1..], picks[1..], a, b, ReplaceRows(text, e.was.Shift(d), RowText(newText, e.now)),
              pre', e.was.end, e.now.end, d + e.Delta());
  }

  lemma KeepingHead(goal: seq<Row>, q: seq<Edit>, picks: seq<bool>, a: seq<Row>, b: seq<Row>,
                    text: string, pre: seq<Row>, i: int, j: int, d: int)
    requires Keeping(goal, q, picks, a, b, text, pre, i, j, d) && q != []
    ensures Written(text, pre, a, i, d) && |picks| == |q| && goal == pre + Pick(q, a, b, picks, i)
    ensures 0 <= i <= q[0].was.start <= q[0].was.end <= |a| && 0 <= q[0].now.start <= q[0].now.end <= |b|
    ensures q[0].was.start < |a| && q[0].now.start < |b| && (q[0].was.end == |a| <==> q[0].now.end == |b|)
    ensures Aligned(q[1..], a, b, q[0].was.end, q[0].now.end) && InOrder(q[1..]) && EditsReal(q[1..], a, b)
  {
    EditsRealTail(q, a, b);
    assert q[0] in q;
    hide Rows, Pick;
  }

  lemma KeepingOf(goal: seq<Row>, q: seq<Edit>, picks: seq<bool>, a: seq<Row>, b: seq<Row>,
                  text: string, pre: seq<Row>, i: int, j: int, d: int)
    requires Aligned(q, a, b, i, j) && InOrder(q) && EditsReal(q, a, b) && |picks| == |q|
    requires Written(text, pre, a, i, d)
    requires goal == pre + Pick(q, a, b, picks, i)
    ensures Keeping(goal, q, picks, a, b, text, pre, i, j, d)
  {
  }

  lemma PickTaken<T>(q: seq<Edit>, picks: seq<bool>, a: seq<T>, b: seq<T>, pre: seq<T>, i: int, goal: seq<T>)
    requires |picks| == |q| > 0 && picks[0]
    requires 0 <= i <= q[0].was.start <= q[0].was.end <= |a| && 0 <= q[0].now.start <= q[0].now.end <= |b|
    requires goal == pre + Pick(q, a, b, picks, i)
    ensures goal == Grown(pre, a, i, q[0].was.start, b, q[0].now) + Pick(q[1..], a, b, picks[1..], q[0].was.end)
  {
    var e := q[0];
    var x, y, z := a[i..e.was.start], b[e.now.start..e.now.end], Pick(q[1..], a, b, picks[1..], e.was.end);
    assert pre + (x + y + z) == pre + x + y + z;
  }

  /** The finished part of the text, with base rows up to `y` added. */
  ghost function Moved<T>(pre: seq<T>, a: seq<T>, i: int, y: int): seq<T> {
    if 0 <= i <= y <= |a| then pre + a[i..y] else []
  }

  lemma NextOf<T>(s: seq<T>, n: int)
    requires 0 <= n < |s|
    ensures s[n..] != [] && s[n..][0] == s[n] && s[n..][1..] == s[n + 1..]
  {
  }

  /** A loop over the edits `p` that keeps those picked has looked at the first `n`: `text` is the
      base so far, `rest` the edits not picked so far, `d` the running delta. */
  ghost predicate KeepLoop(p: seq<Edit>, picks: seq<bool>, base: string, b: seq<Row>, n: int,
                           text: string, rest: seq<Edit>, d: int, pre: seq<Row>, i: int, j: int) {
    && 0 <= n <= |p| == |picks|
    && Keeping(Pick(p, Rows(base), b, picks, 0), p[n..], picks[n..], Rows(base), b, text, pre, i, j, d)
    && Remainder(p, picks, 0) == rest + Remainder(p[n..], picks[n..], d)
  }

  lemma KeepLoopStarts(p: seq<Edit>, picks: seq<bool>, base: string, b: seq<Row>)
    requires Leads(p, Rows(base), b) && Separated(p) && RealStarts(p, Rows(base), b) && |picks| == |p|
    ensures KeepLoop(p, picks, base, b, 0, base, [], 0, [], 0, 0)
  {
    KeepingStarts(p, picks, base, b);
    hide Keeping, Rows, Pick;
    AllOut(p);
    AllOut(picks);
  }

  lemma KeepLoopSkips(p: seq<Edit>, picks: seq<bool>, base: string, b: seq<Row>, n: int,
                      text: string, rest: seq<Edit>, d: int, pre: seq<Row>, i: int, j: int, pre': seq<Row>)
    requires KeepLoop(p, picks, base, b, n, text, rest, d, pre, i, j)
    requires 0 <= n < |p| == |picks| && !picks[n] && pre' == Moved(pre, Rows(base), i, p[n].was.end)
    ensures KeepLoop(p, picks, base, b, n + 1, text, rest + [p[n].ShiftOld(d)], d, pre', p[n].was.end, p[n].now.end)
  {
    hide Keeping, Rows, Pick, Remainder, Moved;
    NextOf(p, n);
    NextOf(picks, n);
    var goal := Pick(p, Rows(base), b, picks, 0);
    KeepingSkips(goal, p[n..], picks[n..], Rows(base), b, text, pre, i, j, d, p[n].was.end, pre');
    RestStep(rest, p, picks, n, d);
  }

  lemma KeepLoopTakes(p: seq<Edit>, picks: seq<bool>, base: string, newText: string, n: int,
                      text: string, rest: seq<Edit>, d: int, pre: seq<Row>, i: int, j: int, pre': seq<Row>)
    requires KeepLoop(p, picks, base, Rows(newText), n, text, rest, d, pre, i, j)
    requires 0 <= n < |p| == |picks| && picks[n]
    requires pre' == Grown(pre, Rows(base), i, p[n].was.start, Rows(newText), p[n].now)
    ensures KeepLoop(p, picks, base, Rows(newText), n + 1,
                     ReplaceRows(text, p[n].was.Shift(d), RowText(newText, p[n].now)),
                     rest, d + p[n].Delta(), pre', p[n].was.end, p[n].now.end)
  {
    hide Keeping, Rows, Pick, Remainder, Grown, ReplaceRows, RowText;
    NextOf(p, n);
    NextOf(picks, n);
    var goal := Pick(p, Rows(base), Rows(newText), picks, 0);
    KeepingTakes(goal, p[n..], picks[n..], Rows(base), newText, text, pre, i, j, d, pre');
    RestStep(rest, p, picks, n, d);
  }

  /** At the end of the loop the base is what the picks say, and the rest is what remains. */
  lemma KeepLoopEnds(p: seq<Edit>, picks: seq<bool>, base: string, b: seq<Row>, n: int,
                     text: string, rest: seq<Edit>, d: int, pre: seq<Row>, i: int, j: int)
    requires KeepLoop(p, picks, base, b, n, text, rest, d, pre, i, j) && n == |p|
    ensures |picks| == |p| && Rows(text) == Pick(p, Rows(base), b, picks, 0) && rest == Remainder(p, picks, 0)
  {
    hide Keeping, Rows, Pick;
    AllOut(p);
    AllOut(picks);
    KeepingEnds(Pick(p, Rows(base), b, picks, 0), Rows(base), b, text, pre, i, j, d);
  }

  lemma RestStep(rest: seq<Edit>, p: seq<Edit>, picks: seq<bool>, n: int, d: int)
    requires 0 <= n < |p| == |picks|
    ensures rest + Remainder(p[n..], picks[n..], d)
            == if picks[n] then rest + Remainder(p[n + 1..], picks[n + 1..], d + p[n].Delta())
               else rest + [p[n].ShiftOld(d)] + Remainder(p[n + 1..], picks[n + 1..], d)
  {
    NextOf(p, n);
    NextOf(picks, n);
    Assoc(rest, [p[n].ShiftOld(d)], Remainder(p[n + 1..], picks[n + 1..], d));
  }
}
