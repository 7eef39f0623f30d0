/** Lifting a character edit takes no more rows than it must, stated in terms of the two texts: the
    row of an offset is the number of line feeds in front of it. */
module Tightness {
  import opened Patches
  import opened Ropes
  import opened RowLifting

  function Feeds(s: string): nat {
    if s == "" then 0 else (if s[0] == '\n' then 1 else 0) + Feeds(s[1..])
  }

  /** A line feed stands at the offset. */
  predicate LineEndsAt(s: string, o: int) {
    0 <= o < |s| && s[o] == '\n'
  }

  /** The offset is that of the text or right behind a line feed. */
  predicate LineStartsAt(s: string, o: int) {
    o == 0 || (0 < o <= |s| && s[o - 1] == '\n')
  }

  lemma {:induction false} FeedsOfRows(s: string)
    ensures |Rows(s)| == Feeds(s) + 1
    ensures Rows(s)[|Rows(s)| - 1] == "" <==> LineStartsAt(s, |s|)
  {
    if s != "" {
      FeedsOfRows(s[1..]);
      RowsOf(s);
      assert |s| > 1 ==> s[1..][|s| - 2] == s[|s| - 1];
      hide Rows;
    } else {
      RowsOfNothing();
    }
  }

  lemma {:induction false} FeedsCat(x: string, y: string)
    ensures Feeds(x + y) == Feeds(x) + Feeds(y)
  {
    if x == "" {
      assert x + y == y;
    } else {
      assert (x + y)[1..] == x[1..] + y;
      FeedsCat(x[1..], y);
    }
  }

  lemma FeedsUpTo(s: string, o: int, o': int)
    requires 0 <= o <= o' <= |s|
    ensures Feeds(s[..o']) == Feeds(s[..o]) + Feeds(s[o..o'])
  {
    assert s[..o'] == s[..o] + s[o..o'];
    FeedsCat(s[..o], s[o..o']);
  }

  lemma PointInText(s: string, o: int)
    requires 0 <= o <= |s|
    ensures PointAt(s, o).row == Feeds(s[..o])
    ensures PointAt(s, o).column == 0 <==> LineStartsAt(s, o)
  {
    FeedsOfRows(s[..o]);
    hide Rows;
    assert o > 0 ==> s[..o][o - 1] == s[o - 1];
  }

  function FeedsBefore(s: string, o: int): nat {
    if 0 <= o <= |s| then Feeds(s[..o]) else 0
  }

  /** The row edit of a character edit, in all cases. */
  lemma LiftInText(c: Edit, s: string, t: string)
    requires InBounds(c, s, t)
    ensures var (r, q) := (FeedsBefore(s, c.was.start), FeedsBefore(s, c.was.end));
            var (r', q') := (FeedsBefore(t, c.now.start), FeedsBefore(t, c.now.end));
            Lift(c, s, t)
            == if LineEndsAt(s, c.was.start) && LineEndsAt(t, c.now.start) then
                 Edit(Range(r + 1, q + 1), Range(r' + 1, q' + 1))
               else if LineStartsAt(s, c.was.start) && LineStartsAt(s, c.was.end) && LineStartsAt(t, c.now.end) then
                 Edit(Range(r, q), Range(r', q'))
               else Edit(Range(r, q + 1), Range(r', q' + 1))
  {
    PointInText(s, c.was.start);
    PointInText(s, c.was.end);
    PointInText(t, c.now.start);
    PointInText(t, c.now.end);
    LineEnd(s, c.was.start);
    PointRoundTrip(t, c.now.start);
    hide Feeds, PointAt, MaxPoint, LineLen, PointToOffset;
  }

  /** If a change starts where a line of the old text ends, and a line feed is there in the new text too,
      the row it starts in belongs to neither side. */
  lemma StartRowStays(c: Edit, s: string, t: string)
    requires InBounds(c, s, t) && LineEndsAt(s, c.was.start) && LineEndsAt(t, c.now.start)
    ensures Lift(c, s, t).was.start == FeedsBefore(s, c.was.start) + 1
    ensures Lift(c, s, t).now.start == FeedsBefore(t, c.now.start) + 1
  {
    LiftInText(c, s, t);
    hide Lift;
  }

  /** Replacing `x` by `y` between `p` and `q`. */
  function Replacing(p: string, x: string, y: string): Edit {
    Edit(Range(|p|, |p| + |x|), Range(|p|, |p| + |y|))
  }

  /** A line feed follows right behind `p`. */
  predicate StartsWithFeed(x: string, q: string) {
    x + q != "" && (x + q)[0] == '\n'
  }

  /** Nothing, or whole lines. */
  predicate EndsWithFeed(x: string) {
    x == "" || x[|x| - 1] == '\n'
  }

  /** The rows that replacing a piece of text takes: as many as the line feeds of both pieces say, and one
      more on both sides unless they are whole lines. */
  lemma ReplacedPiece(p: string, x: string, y: string, q: string)
    ensures InBounds(Replacing(p, x, y), p + x + q, p + y + q)
    ensures var (r, n, k) := (Feeds(p), Feeds(x), Feeds(y));
            Lift(Replacing(p, x, y), p + x + q, p + y + q)
            == if StartsWithFeed(x, q) && StartsWithFeed(y, q) then
                 Edit(Range(r + 1, r + 1 + n), Range(r + 1, r + 1 + k))
               else if EndsWithFeed(p) && EndsWithFeed(x) && EndsWithFeed(y) then
                 Edit(Range(r, r + n), Range(r, r + k))
               else Edit(Range(r, r + n + 1), Range(r, r + k + 1))
  {
    PieceInText(p, x, q);
    PieceInText(p, y, q);
    hide Feeds, FeedsBefore, LineEndsAt, LineStartsAt, StartsWithFeed, EndsWithFeed, Lift;
    LiftInText(Replacing(p, x, y), p + x + q, p + y + q);
  }

  lemma PieceInText(p: string, x: string, q: string)
    ensures var s := p + x + q;
            && FeedsBefore(s, |p|) == Feeds(p) && FeedsBefore(s, |p| + |x|) == Feeds(p) + Feeds(x)
            && (LineEndsAt(s, |p|) <==> StartsWithFeed(x, q))
            && (LineStartsAt(s, |p|) <==> EndsWithFeed(p))
            && (EndsWithFeed(p) ==> (LineStartsAt(s, |p| + |x|) <==> EndsWithFeed(x)))
  {
    var s := p + x + q;
    assert s[..|p|] == p && s[..|p| + |x|] == p + x && s[|p|..] == x + q;
    FeedsCat(p, x);
    hide Feeds;
    assert x + q != "" ==> (x + q)[0] == s[|p|];
  }

  /** Rows inserted behind a row that is not the last: exactly they are reported. */
  lemma RowsInsertedBehind(p: string, y: string, q: string)
    requires StartsWithFeed("", q) && StartsWithFeed(y, "")
    ensures InBounds(Replacing(p, "", y), p + q, p + y + q)
    ensures Lift(Replacing(p, "", y), p + q, p + y + q)
            == Edit(Range(Feeds(p) + 1, Feeds(p) + 1), Range(Feeds(p) + 1, Feeds(p) + 1 + Feeds(y)))
  {
    hide *;
    ReplacedPiece(p, "", y, q);
    InsertedPiece(p, y, q);
  }

  lemma InsertedPiece(p: string, y: string, q: string)
    requires StartsWithFeed(y, "")
    ensures StartsWithFeed(y, q) && Feeds("") == 0 && p + "" + q == p + q
  {
    assert (y + "")[0] == (y + q)[0];
  }

  /** A change inside a row takes that row only. */
  lemma ChangedInside(p: string, x: string, y: string, q: string)
    requires Feeds(x) == 0 && Feeds(y) == 0 && x + y != ""
    ensures InBounds(Replacing(p, x, y), p + x + q, p + y + q)
    ensures Lift(Replacing(p, x, y), p + x + q, p + y + q)
            == Edit(Range(Feeds(p), Feeds(p) + 1), Range(Feeds(p), Feeds(p) + 1))
  {
    ReplacedPiece(p, x, y, q);
    if x != "" {
      NoFeed(x);
    }
    if y != "" {
      NoFeed(y);
    }
    hide Lift, Feeds;
    assert x != "" ==> (x + q)[0] == x[0];
    assert y != "" ==> (y + q)[0] == y[0];
  }

  lemma {:induction false} NoFeed(x: string)
    requires Feeds(x) == 0 && x != ""
    ensures x[0] != '\n' && x[|x| - 1] != '\n'
  {
    if |x| > 1 {
      NoFeed(x[1..]);
    }
  }

  // ------------------------------------------------------------------ joining adds no rows

  ghost predicate InOldRows(l: seq<Edit>, n: int) {
    exists e :: e in l && e.was.Contains(n)
  }

  ghost predicate InNewRows(l: seq<Edit>, n: int) {
    exists e :: e in l && e.now.Contains(n)
  }

  /** The second edit neither starts nor ends before the first, and they are as far apart on both sides. */
  predicate Advance(e: Edit, f: Edit) {
    && e.was.start <= f.was.start && e.was.end <= f.was.end
    && e.now.start <= f.now.start && e.now.end <= f.now.end
    && f.was.start - e.was.end == f.now.start - e.now.end
  }

  ghost predicate Advances(l: seq<Edit>) {
    l != [] ==>
      && l[0].was.start <= l[0].was.end && l[0].now.start <= l[0].now.end
      && (|l| > 1 ==> Advance(l[0], l[1])) && Advances(l[1..])
  }

  lemma InRowsCons(e: Edit, l: seq<Edit>, n: int)
    ensures InOldRows([e] + l, n) <==> e.was.Contains(n) || InOldRows(l, n)
    ensures InNewRows([e] + l, n) <==> e.now.Contains(n) || InNewRows(l, n)
  {
    assert forall f :: f in [e] + l <==> f == e || f in l;
    if e.was.Contains(n) || e.now.Contains(n) {
      assert e in [e] + l;
    }
  }

  lemma {:induction false} JoinedRowsFrom(cur: Edit, rest: seq<Edit>, n: int)
    requires cur.was.start <= cur.was.end && cur.now.start <= cur.now.end
    requires Advances(rest) && (rest != [] ==> Advance(cur, rest[0]))
    ensures InOldRows(CoalesceFrom(cur, rest), n) <==> cur.was.Contains(n) || InOldRows(rest, n)
    ensures InNewRows(CoalesceFrom(cur, rest), n) <==> cur.now.Contains(n) || InNewRows(rest, n)
    decreases rest
  {
    if rest == [] {
      InRowsCons(cur, [], n);
      assert [cur] + [] == [cur];
    } else {
      var f := rest[0];
      assert rest == [f] + rest[1..];
      InRowsCons(f, rest[1..], n);
      assert |rest| > 1 ==> rest[1..][0] == rest[1];
      hide InOldRows, InNewRows;
      if cur.was.end >= f.was.start {
        JoinedRowsFrom(Extend(cur, f), rest[1..], n);
      } else {
        JoinedRowsFrom(f, rest[1..], n);
        InRowsCons(cur, CoalesceFrom(f, rest[1..]), n);
      }
    }
  }

  /** The lifted edits of separated character edits advance. */
  lemma LiftsAdvance(c: Edit, d: Edit, s: string, t: string)
    requires InBounds(c, s, t) && InBounds(d, s, t) && c.was.end < d.was.start && c.now.end < d.now.start
    requires s[c.was.end..d.was.start] == t[c.now.end..d.now.start]
    ensures Advance(Lift(c, s, t), Lift(d, s, t))
    ensures Lift(c, s, t).was.start <= Lift(c, s, t).was.end && Lift(c, s, t).now.start <= Lift(c, s, t).now.end
  {
    hide *;
    var e, f := Lift(c, s, t), Lift(d, s, t);
    BoundsAre(c, s, t);
    BoundsAre(d, s, t);
    LiftEnds(c, s, t);
    LiftNext(d, s, t, c.was.end, c.now.end, e.was.end, e.now.end);
    LiftStart(c, s, t);
    LiftStart(d, s, t);
    FeedsGrow(s, c.was.start, d.was.start);
    FeedsGrow(t, c.now.start, d.now.start);
    AdvanceBy(e, f);
  }

  lemma BoundsAre(c: Edit, s: string, t: string)
    requires InBounds(c, s, t)
    ensures 0 <= c.was.start <= c.was.end <= |s| && 0 <= c.now.start <= c.now.end <= |t|
  {
  }

  lemma FeedsGrow(s: string, o: int, o': int)
    requires 0 <= o <= o' <= |s|
    ensures FeedsBefore(s, o) <= FeedsBefore(s, o')
    ensures o < o' && LineEndsAt(s, o) ==> FeedsBefore(s, o) + 1 <= FeedsBefore(s, o')
  {
    FeedsUpTo(s, o, o');
    if o < o' && s[o] == '\n' {
      assert s[o..o'][0] == '\n';
    }
  }

  lemma LiftStart(c: Edit, s: string, t: string)
    requires InBounds(c, s, t)
    ensures var (e, r, r') := (Lift(c, s, t), FeedsBefore(s, c.was.start), FeedsBefore(t, c.now.start));
            && (e.was.start == r || (e.was.start == r + 1 && LineEndsAt(s, c.was.start)))
            && (e.now.start == r' || (e.now.start == r' + 1 && LineEndsAt(t, c.now.start)))
            && e.was.start <= e.was.end && e.now.start <= e.now.end
  {
    LiftInText(c, s, t);
    FeedsGrow(s, c.was.start, c.was.end);
    FeedsGrow(t, c.now.start, c.now.end);
    hide Lift, FeedsBefore, LineEndsAt, LineStartsAt;
  }

  lemma AdvanceBy(e: Edit, f: Edit)
    requires e.was.start <= f.was.start && e.was.end <= f.was.end
    requires e.now.start <= f.now.start && e.now.end <= f.now.end
    requires f.was.start - e.was.end == f.now.start - e.now.end
    ensures Advance(e, f)
  {
  }

  lemma {:induction false} AllLiftsAdvance(cs: seq<Edit>, s: string, t: string, i: int, j: int)
    requires Aligned(cs, s, t, i, j) && InOrder(cs) && AllInBounds(cs, s, t)
    ensures Advances(LiftAll(cs, s, t))
    decreases cs
  {
    if cs != [] {
      var c, l := cs[0], LiftAll(cs, s, t);
      assert c in cs && l[0] == Lift(c, s, t) && l[1..] == LiftAll(cs[1..], s, t);
      AllLiftsAdvance(cs[1..], s, t, c.was.end, c.now.end);
      LiftStart(c, s, t);
      if |cs| > 1 {
        assert cs[1..][0] == cs[1] && cs[1] in cs && l[1] == Lift(cs[1], s, t);
        hide Lift, LiftAll;
        LiftsAdvance(c, cs[1], s, t);
      }
    }
  }

  /** Joining takes no row that was not taken before, on either side. */
  lemma JoiningAddsNoRows(cs: seq<Edit>, s: string, t: string, n: int)
    requires Leads(cs, s, t) && Separated(cs)
    ensures AllInBounds(cs, s, t)
    ensures InOldRows(Coalesce(LiftAll(cs, s, t)), n) <==> InOldRows(LiftAll(cs, s, t), n)
    ensures InNewRows(Coalesce(LiftAll(cs, s, t)), n) <==> InNewRows(LiftAll(cs, s, t), n)
  {
    hide *;
    LiftLeads(cs, s, t);
    ChangesInOrder(cs, s, t);
    AllLiftsAdvance(cs, s, t, 0, 0);
    JoinedRows(LiftAll(cs, s, t), n);
  }

  lemma ChangesInOrder(cs: seq<Edit>, s: string, t: string)
    requires Leads(cs, s, t) && Separated(cs)
    ensures Aligned(cs, s, t, 0, 0) && InOrder(cs)
  {
    AlignedInOrder(cs, s, t, 0, 0);
  }

  lemma JoinedRows(l: seq<Edit>, n: int)
    requires Advances(l)
    ensures InOldRows(Coalesce(l), n) <==> InOldRows(l, n)
    ensures InNewRows(Coalesce(l), n) <==> InNewRows(l, n)
  {
    if l != [] {
      assert l == [l[0]] + l[1..];
      assert |l| > 1 ==> l[1..][0] == l[1];
      InRowsCons(l[0], l[1..], n);
      JoinedRowsFrom(l[0], l[1..], n);
    }
  }
}
