/** The excerpts of a pending diff: hunks and revealed ranges, sorted and merged. */
module ExcerptRanges {
  datatype Point = Point(row: int, column: int) {
    predicate AtMost(other: Point) {
      row < other.row || (row == other.row && column <= other.column)
    }

    function Max(other: Point): Point {
      if this.AtMost(other) then other else this
    }
  }

  datatype Excerpt = Excerpt(start: Point, end: Point) {
    /** Both ends belong to the range. */
    predicate Covers(p: Point) {
      start.AtMost(p) && p.AtMost(end)
    }

    /** Earlier start first; of two with the same start, the longer one. */
    predicate Precedes(other: Excerpt) {
      start.AtMost(other.start) && (start == other.start ==> other.end.AtMost(end))
    }
  }

  ghost predicate CoveredBy(l: seq<Excerpt>, p: Point) {
    exists r :: r in l && r.Covers(p)
  }

  // ------------------------------------------------------------------ sorting

  function Insert(r: Excerpt, l: seq<Excerpt>): (s: seq<Excerpt>)
    ensures multiset(s) == multiset{r} + multiset(l)
  {
    if l == [] then [r]
    else if r.Precedes(l[0]) then [r] + l
    else
      assert l == [l[0]] + l[1..];
      [l[0]] + Insert(r, l[1..])
  }

  function Sorted(l: seq<Excerpt>): (s: seq<Excerpt>)
    ensures multiset(s) == multiset(l)
  {
    if l == [] then []
    else
      assert l == [l[0]] + l[1..];
      Insert(l[0], Sorted(l[1..]))
  }

  ghost predicate IsSorted(l: seq<Excerpt>) {
    l != [] ==> (forall r :: r in l ==> l[0].Precedes(r)) && IsSorted(l[1..])
  }

  lemma {:induction false} InsertSorts(r: Excerpt, l: seq<Excerpt>)
    requires IsSorted(l)
    ensures IsSorted(Insert(r, l))
  {
    if l != [] {
      if r.Precedes(l[0]) {
        assert ([r] + l)[1..] == l;
      } else {
        InsertSorts(r, l[1..]);
        var s := Insert(r, l[1..]);
        assert ([l[0]] + s)[1..] == s;
        forall x | x in s
          ensures l[0].Precedes(x)
        {
          assert x in multiset(s);
        }
      }
    }
  }

  lemma {:induction false} SortedIsSorted(l: seq<Excerpt>)
    ensures IsSorted(Sorted(l))
  {
    if l != [] {
      SortedIsSorted(l[1..]);
      InsertSorts(l[0], Sorted(l[1..]));
    }
  }

  /** There is only one way to sort: the order is total, and ranges that tie are equal. */
  lemma {:induction false} SortingIsUnique(a: seq<Excerpt>, b: seq<Excerpt>)
    requires IsSorted(a) && IsSorted(b) && multiset(a) == multiset(b)
    ensures a == b
    decreases a
  {
    hide *;
    SameLength(a, b);
    if a != [] {
      SameMembers(a, b);
      SmallestFirst(a, b);
      TailMembers(a);
      TailMembers(b);
      SortingIsUnique(a[1..], b[1..]);
      assert a == [a[0]] + a[1..] && b == [b[0]] + b[1..];
    }
  }

  lemma SameLength<T>(a: seq<T>, b: seq<T>)
    requires multiset(a) == multiset(b)
    ensures |a| == |b|
  {
    assert |a| == |multiset(a)| == |multiset(b)| == |b|;
  }

  lemma SmallestFirst(a: seq<Excerpt>, b: seq<Excerpt>)
    requires a != [] && b != [] && IsSorted(a) && IsSorted(b)
    requires forall r :: r in a <==> r in b
    ensures a[0] == b[0] && IsSorted(a[1..]) && IsSorted(b[1..])
  {
    assert a[0] in b && b[0] in a;
    assert a[0].Precedes(b[0]) && b[0].Precedes(a[0]);
  }

  lemma TailMembers<T>(a: seq<T>)
    requires a != []
    ensures multiset(a[1..]) == multiset(a) - multiset{a[0]}
  {
    assert a == [a[0]] + a[1..];
  }

  // ------------------------------------------------------------------ merging

  function MergeFrom(cur: Excerpt, rest: seq<Excerpt>): seq<Excerpt>
    decreases rest
  {
    if rest == [] then [cur]
    else if rest[0].start.AtMost(cur.end) then MergeFrom(Excerpt(cur.start, cur.end.Max(rest[0].end)), rest[1..])
    else [cur] + MergeFrom(rest[0], rest[1..])
  }

  function Merge(l: seq<Excerpt>): seq<Excerpt> {
    if l == [] then [] else MergeFrom(l[0], l[1..])
  }

  /** Each range ends strictly before the next one starts. */
  ghost predicate StrictlyApart(l: seq<Excerpt>) {
    |l| > 1 ==> !l[1].start.AtMost(l[0].end) && StrictlyApart(l[1..])
  }

  lemma {:induction false} MergeFromApart(cur: Excerpt, rest: seq<Excerpt>)
    requires IsSorted(rest)
    ensures var m := MergeFrom(cur, rest); m != [] && m[0].start == cur.start && StrictlyApart(m)
    decreases rest
  {
    if rest != [] {
      if rest[0].start.AtMost(cur.end) {
        MergeFromApart(Excerpt(cur.start, cur.end.Max(rest[0].end)), rest[1..]);
      } else {
        MergeFromApart(rest[0], rest[1..]);
        var m := MergeFrom(rest[0], rest[1..]);
        assert ([cur] + m)[1..] == m;
      }
    }
  }

  lemma {:induction false} MergeFromCovers(cur: Excerpt, rest: seq<Excerpt>, p: Point)
    requires IsSorted(rest) && forall r :: r in rest ==> cur.start.AtMost(r.start)
    ensures CoveredBy(MergeFrom(cur, rest), p) <==> cur.Covers(p) || CoveredBy(rest, p)
    decreases rest
  {
    hide IsSorted;
    if rest != [] {
      SortedTail(rest);
      CoveredSplit(rest[0], rest[1..], p);
      assert [rest[0]] + rest[1..] == rest;
      if rest[0].start.AtMost(cur.end) {
        MergeFromCovers(Excerpt(cur.start, cur.end.Max(rest[0].end)), rest[1..], p);
      } else {
        MergeFromCovers(rest[0], rest[1..], p);
        CoveredSplit(cur, MergeFrom(rest[0], rest[1..]), p);
      }
    } else {
      CoveredSplit(cur, [], p);
      assert [cur] + [] == [cur];
    }
  }

  lemma SortedTail(l: seq<Excerpt>)
    requires l != [] && IsSorted(l)
    ensures IsSorted(l[1..]) && forall r :: r in l[1..] ==> l[0].start.AtMost(r.start)
  {
    forall r | r in l[1..]
      ensures l[0].start.AtMost(r.start)
    {
      assert r in l && l[0].Precedes(r);
    }
  }

  lemma CoveredSplit(r: Excerpt, l: seq<Excerpt>, p: Point)
    ensures CoveredBy([r] + l, p) <==> r.Covers(p) || CoveredBy(l, p)
  {
    if r.Covers(p) {
      assert r in [r] + l;
    }
    if CoveredBy(l, p) {
      var x :| x in l && x.Covers(p);
      assert x in [r] + l;
    }
  }

  /** Every merged range starts where some given range starts and ends where one ends. */
  lemma {:induction false} MergeFromEnds(cur: Excerpt, rest: seq<Excerpt>, m: Excerpt)
    requires m in MergeFrom(cur, rest)
    ensures m.start == cur.start || exists r :: r in rest && r.start == m.start
    ensures m.end == cur.end || exists r :: r in rest && r.end == m.end
    decreases rest
  {
    if rest != [] {
      assert rest[0] in rest;
      if rest[0].start.AtMost(cur.end) {
        MergeFromEnds(Excerpt(cur.start, cur.end.Max(rest[0].end)), rest[1..], m);
      } else if m != cur {
        MergeFromEnds(rest[0], rest[1..], m);
      }
    }
  }

  /** Merging is canonical: whatever order the ranges come in, the result is the same; it is sorted
      and strictly separated, covers the same points, and adds no ends of its own. */
  lemma MergeIsCanonical(l: seq<Excerpt>, other: seq<Excerpt>)
    requires multiset(l) == multiset(other)
    ensures var m := Merge(Sorted(l));
            && m == Merge(Sorted(other)) && StrictlyApart(m)
            && (forall p :: CoveredBy(m, p) <==> CoveredBy(l, p))
            && forall x :: x in m ==> (exists r :: r in l && r.start == x.start) && exists r :: r in l && r.end == x.end
  {
    var s := Sorted(l);
    SortedIsSorted(l);
    SortedIsSorted(other);
    SortingIsUnique(s, Sorted(other));
    SameMembers(s, l);
    if s != [] {
      SortedTail(s);
      assert s == [s[0]] + s[1..];
      hide Sorted, Insert, MergeFrom, IsSorted, StrictlyApart;
      MergeFromApart(s[0], s[1..]);
      forall p
        ensures CoveredBy(Merge(s), p) <==> CoveredBy(l, p)
      {
        MergeFromCovers(s[0], s[1..], p);
        CoveredSplit(s[0], s[1..], p);
        CoveredSame(s, l, p);
      }
      forall x | x in Merge(s)
        ensures (exists r :: r in l && r.start == x.start) && exists r :: r in l && r.end == x.end
      {
        MergeFromEnds(s[0], s[1..], x);
        assert s[0] in l;
      }
    } else {
      assert |l| == |multiset(l)| == |multiset(s)| == 0;
    }
  }

  lemma SameMembers(a: seq<Excerpt>, b: seq<Excerpt>)
    requires multiset(a) == multiset(b)
    ensures forall r :: r in a <==> r in b
  {
    forall r
      ensures r in a <==> r in b
    {
      assert r in a <==> r in multiset(a);
      assert r in b <==> r in multiset(b);
    }
  }

  lemma CoveredSame(a: seq<Excerpt>, b: seq<Excerpt>, p: Point)
    requires forall r :: r in a <==> r in b
    ensures CoveredBy(a, p) <==> CoveredBy(b, p)
  {
  }

  // ------------------------------------------------------------------ the loops

  lemma MergeAt(s: seq<Excerpt>, n: nat, cur: Excerpt)
    requires n <= |s|
    ensures n < |s| ==> Merge(s[n..]) == MergeFrom(s[n], s[n + 1..])
    ensures n < |s| && s[n].start.AtMost(cur.end) ==>
              MergeFrom(cur, s[n..]) == MergeFrom(Excerpt(cur.start, cur.end.Max(s[n].end)), s[n + 1..])
    ensures n == |s| || !s[n].start.AtMost(cur.end) ==> MergeFrom(cur, s[n..]) == [cur] + Merge(s[n..])
  {
    if n < |s| {
      assert s[n..][0] == s[n] && s[n..][1..] == s[n + 1..];
    }
  }

  /** `excerpt_ranges`: the hunks of the diff and the revealed ranges, sorted, then merged. */
  method GetExcerptRanges(hunks: seq<Excerpt>, revealed: seq<Excerpt>) returns (merged: seq<Excerpt>)
    ensures merged == Merge(Sorted(hunks + revealed))
  {
    var ranges := Sorted(hunks + revealed);
    hide Merge, MergeFrom, Sorted;
    merged := [];
    var n := 0;
    assert ranges[0..] == ranges && ranges[|ranges|..] == [];
    while n < |ranges|
      invariant n <= |ranges| && Merge(ranges) == merged + Merge(ranges[n..])
    {
      var range := ranges[n];
      MergeAt(ranges, n, range);
      n := n + 1;
      while n < |ranges|
        invariant n <= |ranges| && Merge(ranges) == merged + MergeFrom(range, ranges[n..])
      {
        var next := ranges[n];
        MergeAt(ranges, n, range);
        if next.start.AtMost(range.end) {
          range := Excerpt(range.start, range.end.Max(next.end));
          n := n + 1;
        } else {
          break;
        }
      }
      MergeAt(ranges, n, range);
      assert merged + ([range] + Merge(ranges[n..])) == merged + [range] + Merge(ranges[n..]);
      merged := merged + [range];
    }
    MergeNothing();
  }

  lemma MergeNothing()
    ensures Merge([]) == []
  {
  }
}
