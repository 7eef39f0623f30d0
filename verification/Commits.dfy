/** Accepting edits that a commit contains. */
module Commits {
  import opened Patches
  import opened Ropes
  import opened Splicing

  /** The edits of a line diff: in order, with at least one common row between two of them. */
  ghost predicate RowsApart(es: seq<Edit>) {
    && (forall e :: e in es ==> e.was.start <= e.was.end)
    && forall m, n :: 0 <= m < n < |es| ==> es[m].was.end < es[n].was.start
  }

  /** A committed edit replaces the same base rows by the same text. */
  predicate Matches(u: Edit, c: Edit, snapshot: string, gitBase: string) {
    c.was == u.was && RowText(snapshot, u.now) == RowText(gitBase, c.now)
  }

  /** The unreviewed edits that some committed edit matches. */
  function Accepted(edits: seq<Edit>, committed: seq<Edit>, snapshot: string, gitBase: string): (picks: seq<bool>)
    ensures |picks| == |edits|
    ensures forall k :: 0 <= k < |edits| ==>
              (picks[k] <==> exists c :: c in committed && Matches(edits[k], c, snapshot, gitBase))
  {
    seq(|edits|, k requires 0 <= k < |edits| => exists c :: c in committed && Matches(edits[k], c, snapshot, gitBase))
  }

  /** The loops have looked at the edits before `m` and the committed edits before `n`: the edits
      from `m` on come after those committed edits. */
  ghost predicate Past(edits: seq<Edit>, committed: seq<Edit>, m: int, n: int) {
    && 0 <= m <= |edits| && 0 <= n <= |committed|
    && forall k, j :: m <= k < |edits| && 0 <= j < n ==>
         edits[k].was.start >= committed[j].was.end && edits[k].was != committed[j].was
  }

  lemma PastStep(edits: seq<Edit>, committed: seq<Edit>, m: int, n: int)
    requires Past(edits, committed, m, n) && m < |edits|
    ensures Past(edits, committed, m + 1, n)
  {
  }

  /** Nothing is left that could match the committed edit `n`. */
  lemma PastCommitted(edits: seq<Edit>, committed: seq<Edit>, m: int, n: int)
    requires Past(edits, committed, m, n) && n < |committed|
    requires RowsApart(edits) && RowsApart(committed)
    requires m < |edits| ==> edits[m].was != committed[n].was && edits[m].was.start >= committed[n].was.end
    ensures Past(edits, committed, m, n + 1)
  {
    assert committed[n] in committed;
    forall k | m < k < |edits|
      ensures edits[k].was.start > committed[n].was.end && edits[k].was != committed[n].was
    {
      assert edits[m] in edits && edits[m].was.end < edits[k].was.start;
    }
  }

  /** The comparison with the committed edit at hand decides about an edit once and for all. */
  lemma Decided(edits: seq<Edit>, committed: seq<Edit>, m: int, n: int, snapshot: string, gitBase: string)
    requires Past(edits, committed, m, n) && m < |edits| && n < |committed|
    requires RowsApart(edits) && RowsApart(committed)
    requires edits[m].was == committed[n].was || edits[m].was.start < committed[n].was.end
    ensures |Accepted(edits, committed, snapshot, gitBase)| == |edits|
    ensures Accepted(edits, committed, snapshot, gitBase)[m] == Matches(edits[m], committed[n], snapshot, gitBase)
  {
    hide RowText;
    var c, u := committed[n], edits[m];
    assert c in committed;
    forall j | 0 <= j < |committed| && j != n
      ensures committed[j].was != u.was
    {
      if j > n {
        assert c.was.end < committed[j].was.start;
      }
    }
  }

  /** Edits that the loops never reach match nothing. */
  lemma NeverReached(edits: seq<Edit>, committed: seq<Edit>, m: int, snapshot: string, gitBase: string)
    requires Past(edits, committed, m, |committed|)
    ensures |Accepted(edits, committed, snapshot, gitBase)| == |edits|
    ensures forall k :: m <= k < |edits| ==> !Accepted(edits, committed, snapshot, gitBase)[k]
  {
    hide RowText;
  }

  /** Without further picks the text is finished. */
  lemma {:induction false} NothingElsePicked(p: seq<Edit>, picks: seq<bool>, base: string, b: seq<Row>, n: int,
                                            text: string, rest: seq<Edit>, d: int, pre: seq<Row>, i: int, j: int)
    requires KeepLoop(p, picks, base, b, n, text, rest, d, pre, i, j) && 0 <= n <= |p| == |picks|
    requires forall k :: n <= k < |p| ==> !picks[k]
    ensures Rows(text) == Pick(p, Rows(base), b, picks, 0)
    decreases |p| - n
  {
    hide *;
    if n == |p| {
      KeepLoopEnds(p, picks, base, b, n, text, rest, d, pre, i, j);
    } else {
      var pre' := Moved(pre, Rows(base), i, p[n].was.end);
      KeepLoopSkips(p, picks, base, b, n, text, rest, d, pre, i, j, pre');
      NothingElsePicked(p, picks, base, b, n + 1, text, rest + [p[n].ShiftOld(d)], d, pre', p[n].was.end, p[n].now.end);
    }
  }

  lemma BaseRowsApart(p: seq<Edit>, a: seq<Row>, b: seq<Row>)
    requires Leads(p, a, b) && Separated(p)
    ensures RowsApart(p)
  {
    forall e | e in p
      ensures e.was.start <= e.was.end
    {
      var k :| 0 <= k < |p| && p[k] == e;
      AfterFrontier(p, a, b, 0, 0, k);
    }
  }

  /** The loops of `keep_committed_edits`: one pass over both lists folds into the base exactly the
      unreviewed edits that some committed edit matches. */
  method KeepCommittedEdits(base: string, snapshot: string, gitBase: string, unreviewed: seq<Edit>,
                            committed: seq<Edit>)
    returns (newBase: string)
    requires Leads(unreviewed, Rows(base), Rows(snapshot)) && Separated(unreviewed)
    requires RealStarts(unreviewed, Rows(base), Rows(snapshot))
    requires RowsApart(committed)
    ensures Rows(newBase)
            == Pick(unreviewed, Rows(base), Rows(snapshot), Accepted(unreviewed, committed, snapshot, gitBase), 0)
  {
    hide *;
    ghost var picks := Accepted(unreviewed, committed, snapshot, gitBase);
    ghost var rest: seq<Edit>, pre: seq<Row>, i, j := [], [], 0, 0;
    var m, rowDelta := 0, 0;
    newBase := base;
    BaseRowsApart(unreviewed, Rows(base), Rows(snapshot));
    KeepLoopStarts(unreviewed, picks, base, Rows(snapshot));
    PastStart(unreviewed, committed);
    for n := 0 to |committed|
      invariant 0 <= m <= |unreviewed| && Past(unreviewed, committed, m, n)
      invariant KeepLoop(unreviewed, picks, base, Rows(snapshot), m, newBase, rest, rowDelta, pre, i, j)
    {
      var c := committed[n];
      while m < |unreviewed|
        invariant 0 <= m <= |unreviewed| && Past(unreviewed, committed, m, n)
        invariant KeepLoop(unreviewed, picks, base, Rows(snapshot), m, newBase, rest, rowDelta, pre, i, j)
      {
        var u := unreviewed[m];
        if c.was == u.was {
          Decided(unreviewed, committed, m, n, snapshot, gitBase);
          MatchesIs(u, c, snapshot, gitBase);
          var unreviewedNew, committedNew := RowText(snapshot, u.now), RowText(gitBase, c.now);
          if unreviewedNew == committedNew {
            ghost var pre' := Grown(pre, Rows(base), i, u.was.start, Rows(snapshot), u.now);
            KeepLoopTakes(unreviewed, picks, base, snapshot, m, newBase, rest, rowDelta, pre, i, j, pre');
            newBase := ReplaceRows(newBase, u.was.Shift(rowDelta), unreviewedNew);
            rowDelta := rowDelta + u.Delta();
            pre := pre';
          } else {
            ghost var pre' := Moved(pre, Rows(base), i, u.was.end);
            KeepLoopSkips(unreviewed, picks, base, Rows(snapshot), m, newBase, rest, rowDelta, pre, i, j, pre');
            rest, pre := rest + [u.ShiftOld(rowDelta)], pre';
          }
        } else if u.was.start >= c.was.end {
          break;
        } else {
          Decided(unreviewed, committed, m, n, snapshot, gitBase);
          MatchesIs(u, c, snapshot, gitBase);
          ghost var pre' := Moved(pre, Rows(base), i, u.was.end);
          KeepLoopSkips(unreviewed, picks, base, Rows(snapshot), m, newBase, rest, rowDelta, pre, i, j, pre');
          rest, pre := rest + [u.ShiftOld(rowDelta)], pre';
        }
        PastStep(unreviewed, committed, m, n);
        i, j, m := u.was.end, u.now.end, m + 1;
      }
      PastCommitted(unreviewed, committed, m, n);
    }
    NeverReached(unreviewed, committed, m, snapshot, gitBase);
    NothingElsePicked(unreviewed, picks, base, Rows(snapshot), m, newBase, rest, rowDelta, pre, i, j);
  }

  lemma PastStart(edits: seq<Edit>, committed: seq<Edit>)
    ensures Past(edits, committed, 0, 0)
  {
  }

  lemma MatchesIs(u: Edit, c: Edit, snapshot: string, gitBase: string)
    ensures Matches(u, c, snapshot, gitBase) <==> c.was == u.was && RowText(snapshot, u.now) == RowText(gitBase, c.now)
  {
  }

  /** A commit of everything under review leaves nothing to review: when the committed text is the
      snapshot, any line diff that reports the unreviewed edits themselves accepts all of them. */
  lemma CommitOfSnapshot(base: string, snapshot: string, unreviewed: seq<Edit>)
    requires Leads(unreviewed, Rows(base), Rows(snapshot))
    ensures Pick(unreviewed, Rows(base), Rows(snapshot), Accepted(unreviewed, unreviewed, snapshot, snapshot), 0)
            == Rows(snapshot)
  {
    hide *;
    AllAccepted(unreviewed, snapshot);
    PickWhole(unreviewed, Rows(base), Rows(snapshot));
  }

  lemma AllAccepted(unreviewed: seq<Edit>, snapshot: string)
    ensures Accepted(unreviewed, unreviewed, snapshot, snapshot) == AllOf(|unreviewed|, true)
  {
    hide RowText;
    forall k | 0 <= k < |unreviewed|
      ensures Accepted(unreviewed, unreviewed, snapshot, snapshot)[k]
    {
      assert unreviewed[k] in unreviewed && Matches(unreviewed[k], unreviewed[k], snapshot, snapshot);
    }
  }
}
