/** Editing a buffer: several replacements at once, and the anchors that survive them. */
module Buffers {
  import opened Patches

  datatype Replacement = Replacement(at: Range, text: string) {
    function Delta(): int {
      |text| - at.Len()
    }

    predicate IsTrivial() {
      text == "" && at.IsEmpty()
    }
  }

  /** In order, in bounds and without overlap, from offset `i` of a text of length `n` on. */
  ghost predicate Fits(l: seq<Replacement>, n: int, i: int) {
    if l == [] then 0 <= i <= n
    else 0 <= i <= l[0].at.start <= l[0].at.end <= n && Fits(l[1..], n, l[0].at.end)
  }

  /** No two neighbours touch. */
  ghost predicate Apart(l: seq<Replacement>) {
    |l| > 1 ==> l[0].at.end < l[1].at.start && Apart(l[1..])
  }

  /** The text from offset `i` on after all replacements of `l` at once. */
  ghost function ApplyAll(l: seq<Replacement>, s: string, i: int): string
    requires Fits(l, |s|, i)
  {
    if l == [] then s[i..]
    else s[i..l[0].at.start] + l[0].text + ApplyAll(l[1..], s, l[0].at.end)
  }

  ghost function TotalDelta(l: seq<Replacement>): int {
    if l == [] then 0 else l[0].Delta() + TotalDelta(l[1..])
  }

  // ------------------------------------------------------------------ coalescing

  function Merge(r: Replacement, next: Replacement): Replacement {
    Replacement(Range(r.at.start, if r.at.end >= next.at.end then r.at.end else next.at.end), r.text + next.text)
  }

  /** What `Buffer::edit` makes of the replacements after `r`: empty ones are skipped, touching ones
      are joined. */
  ghost function GatherFrom(r: Replacement, l: seq<Replacement>): seq<Replacement>
    decreases l
  {
    if l == [] then [r]
    else if l[0].IsTrivial() then GatherFrom(r, l[1..])
    else if r.at.end >= l[0].at.start then GatherFrom(Merge(r, l[0]), l[1..])
    else [r] + GatherFrom(l[0], l[1..])
  }

  ghost function Gather(l: seq<Replacement>): seq<Replacement> {
    if l == [] then []
    else if l[0].IsTrivial() then Gather(l[1..])
    else GatherFrom(l[0], l[1..])
  }

  /** Joining replacements that fit does not change the result. */
  lemma {:induction false} GatherFromKeeps(r: Replacement, l: seq<Replacement>, s: string, i: int)
    requires 0 <= i <= r.at.start <= r.at.end <= |s| && Fits(l, |s|, r.at.end)
    ensures Fits(GatherFrom(r, l), |s|, i)
    ensures ApplyAll(GatherFrom(r, l), s, i) == s[i..r.at.start] + r.text + ApplyAll(l, s, r.at.end)
    ensures TotalDelta(GatherFrom(r, l)) == r.Delta() + TotalDelta(l)
    decreases l
  {
    hide ApplyAll;
    if l == [] {
      Alone(r, s, i);
    } else {
      var n, l' := l[0], l[1..];
      if n.IsTrivial() {
        FitsEarlier(l', |s|, n.at.end, r.at.end);
        GatherFromKeeps(r, l', s, i);
        SkipTrivial(l, s, r.at.end);
      } else if r.at.end >= n.at.start {
        GatherFromKeeps(Merge(r, n), l', s, i);
        JoinText(r, l, s, i);
      } else {
        GatherFromKeeps(n, l', s, r.at.end);
        Unroll(l, s, r.at.end);
        Cons(r, GatherFrom(n, l'), s, i);
      }
    }
  }

  lemma Alone(r: Replacement, s: string, i: int)
    requires 0 <= i <= r.at.start <= r.at.end <= |s|
    ensures Fits([r], |s|, i) && TotalDelta([r]) == r.Delta()
    ensures ApplyAll([r], s, i) == s[i..r.at.start] + r.text + ApplyAll([], s, r.at.end)
  {
    assert [r][1..] == [];
  }

  lemma Unroll(l: seq<Replacement>, s: string, i: int)
    requires l != [] && Fits(l, |s|, i)
    ensures 0 <= i <= l[0].at.start <= l[0].at.end <= |s| && Fits(l[1..], |s|, l[0].at.end)
    ensures ApplyAll(l, s, i) == s[i..l[0].at.start] + l[0].text + ApplyAll(l[1..], s, l[0].at.end)
  {
  }

  lemma Cons(r: Replacement, l: seq<Replacement>, s: string, i: int)
    requires 0 <= i <= r.at.start <= r.at.end <= |s| && Fits(l, |s|, r.at.end)
    ensures Fits([r] + l, |s|, i) && TotalDelta([r] + l) == r.Delta() + TotalDelta(l)
    ensures ApplyAll([r] + l, s, i) == s[i..r.at.start] + r.text + ApplyAll(l, s, r.at.end)
  {
    assert ([r] + l)[1..] == l;
  }

  lemma SkipTrivial(l: seq<Replacement>, s: string, i: int)
    requires l != [] && Fits(l, |s|, i) && l[0].IsTrivial()
    ensures Fits(l[1..], |s|, i) && ApplyAll(l[1..], s, i) == ApplyAll(l, s, i)
  {
    FitsEarlier(l[1..], |s|, l[0].at.end, i);
    SkipTo(l[1..], s, i, l[0].at.end);
    assert s[i..l[0].at.start] + l[0].text == s[i..l[0].at.end];
  }

  lemma JoinText(r: Replacement, l: seq<Replacement>, s: string, i: int)
    requires 0 <= i <= r.at.start <= r.at.end <= |s| && l != [] && Fits(l, |s|, r.at.end)
    requires r.at.end >= l[0].at.start
    ensures s[i..r.at.start] + (r.text + l[0].text) + ApplyAll(l[1..], s, l[0].at.end)
            == s[i..r.at.start] + r.text + ApplyAll(l, s, r.at.end)
  {
    FitsHead(l, |s|, r.at.end);
    Unroll(l, s, r.at.end);
    hide *;
    NothingBefore(s, r.at.end, l[0].text, ApplyAll(l[1..], s, l[0].at.end));
    JoinOver(s[i..r.at.start], r.text, l[0].text, ApplyAll(l[1..], s, l[0].at.end));
  }

  lemma FitsHead(l: seq<Replacement>, n: int, i: int)
    requires l != [] && Fits(l, n, i)
    ensures 0 <= i <= l[0].at.start <= l[0].at.end <= n && Fits(l[1..], n, l[0].at.end)
  {
  }

  lemma NothingBefore(s: string, i: int, x: string, y: string)
    requires 0 <= i <= |s|
    ensures s[i..i] + x + y == x + y
  {
  }

  lemma JoinOver(x: string, y: string, z: string, w: string)
    ensures x + (y + z) + w == x + y + (z + w)
  {
  }

  lemma FitsEarlier(l: seq<Replacement>, n: int, i: int, i': int)
    requires Fits(l, n, i) && 0 <= i' <= i
    ensures Fits(l, n, i')
  {
  }

  /** Characters before the first replacement are copied. */
  lemma SkipTo(l: seq<Replacement>, s: string, i: int, i': int)
    requires Fits(l, |s|, i') && 0 <= i <= i'
    ensures Fits(l, |s|, i)
    ensures ApplyAll(l, s, i) == s[i..i'] + ApplyAll(l, s, i')
  {
    if l == [] {
      assert s[i..] == s[i..i'] + s[i'..];
    } else {
      SliceCat(s, i, i', l[0].at.start);
      Assoc(s[i..i'], s[i'..l[0].at.start] + l[0].text, ApplyAll(l[1..], s, l[0].at.end));
      Assoc(s[i..i'], s[i'..l[0].at.start], l[0].text);
    }
  }

  lemma {:induction false} GatherKeeps(l: seq<Replacement>, s: string, i: int)
    requires Fits(l, |s|, i)
    ensures Fits(Gather(l), |s|, i)
    ensures ApplyAll(Gather(l), s, i) == ApplyAll(l, s, i)
    ensures TotalDelta(Gather(l)) == TotalDelta(l)
  {
    if l != [] {
      if l[0].IsTrivial() {
        FitsEarlier(l[1..], |s|, l[0].at.end, i);
        GatherKeeps(l[1..], s, i);
        SkipTo(l[1..], s, i, l[0].at.end);
        assert s[i..l[0].at.start] + "" == s[i..l[0].at.end];
      } else {
        GatherFromKeeps(l[0], l[1..], s, i);
      }
    }
  }

  /** A reversed range is turned round. */
  function Upright(r: Replacement): Replacement {
    if r.at.start > r.at.end then Replacement(Range(r.at.end, r.at.start), r.text) else r
  }

  function AllUpright(l: seq<Replacement>): (r: seq<Replacement>)
    ensures |r| == |l| && forall n :: 0 <= n < |l| ==> r[n] == Upright(l[n])
  {
    if l == [] then [] else [Upright(l[0])] + AllUpright(l[1..])
  }

  /** All ends lie in a text of length `n`. */
  ghost predicate InBuffer(l: seq<Replacement>, n: int) {
    forall r :: r in l ==> 0 <= r.at.start <= n && 0 <= r.at.end <= n
  }

  /** What `Buffer::edit` makes of the text, in whatever order or overlap the ranges come. */
  ghost function Edited(s: string, l: seq<Replacement>): string {
    var g := Gather(AllUpright(l));
    if Fits(g, |s|, 0) then ApplyAll(g, s, 0) else s
  }

  lemma {:induction false} GatherFromFits(r: Replacement, l: seq<Replacement>, n: int, i: int)
    requires 0 <= i <= r.at.start <= r.at.end <= n
    requires forall x :: x in l ==> 0 <= x.at.start <= x.at.end <= n
    ensures Fits(GatherFrom(r, l), n, i)
    decreases l
  {
    if l == [] {
      assert [r][1..] == [];
    } else {
      assert l[0] in l;
      if l[0].IsTrivial() {
        GatherFromFits(r, l[1..], n, i);
      } else if r.at.end >= l[0].at.start {
        GatherFromFits(Merge(r, l[0]), l[1..], n, i);
      } else {
        GatherFromFits(l[0], l[1..], n, r.at.end);
        assert ([r] + GatherFrom(l[0], l[1..]))[1..] == GatherFrom(l[0], l[1..]);
      }
    }
  }

  lemma {:induction false} GatherFits(l: seq<Replacement>, n: int)
    requires 0 <= n && forall x :: x in l ==> 0 <= x.at.start <= x.at.end <= n
    ensures Fits(Gather(l), n, 0)
  {
    if l != [] {
      assert l[0] in l;
      if l[0].IsTrivial() {
        GatherFits(l[1..], n);
      } else {
        GatherFromFits(l[0], l[1..], n, 0);
      }
    }
  }

  lemma UprightFits(l: seq<Replacement>, n: int)
    requires 0 <= n && InBuffer(l, n)
    ensures Fits(Gather(AllUpright(l)), n, 0)
  {
    var u := AllUpright(l);
    forall x | x in u
      ensures 0 <= x.at.start <= x.at.end <= n
    {
      var k :| 0 <= k < |u| && u[k] == x;
      assert l[k] in l;
    }
    GatherFits(u, n);
  }

  /** Replacements in order are applied as they are. */
  lemma {:induction false} FitsUpright(l: seq<Replacement>, n: int, i: int)
    requires Fits(l, n, i)
    ensures AllUpright(l) == l && InBuffer(l, n) && 0 <= i <= n
  {
    if l != [] {
      FitsUpright(l[1..], n, l[0].at.end);
      assert l == [l[0]] + l[1..];
    }
  }

  lemma EditedInOrder(s: string, l: seq<Replacement>)
    requires Fits(l, |s|, 0)
    ensures AllUpright(l) == l && InBuffer(l, |s|) && Edited(s, l) == ApplyAll(l, s, 0)
  {
    FitsUpright(l, |s|, 0);
    GatherKeeps(l, s, 0);
  }

  /** `Buffer::edit`: gathers the replacements, then applies them; without any, nothing is edited. */
  method EditBuffer(s: string, l: seq<Replacement>) returns (s': string, edited: bool)
    requires InBuffer(l, |s|)
    ensures s' == Edited(s, l) && edited == !AllTrivial(AllUpright(l))
    ensures Fits(l, |s|, 0) ==> s' == ApplyAll(l, s, 0) && edited == !AllTrivial(l)
  {
    hide *;
    ghost var u := AllUpright(l);
    var edits: seq<Replacement> := [];
    GatherStart(u);
    for n := 0 to |l|
      invariant 0 <= n <= |l|
      invariant Gathered(edits, u, n)
    {
      var r := l[n];
      if r.at.start > r.at.end {
        r := Replacement(Range(r.at.end, r.at.start), r.text);
      }
      UprightAt(l, n);
      GatherStep(edits, u, n);
      if r.text != "" || r.at.start < r.at.end {
        if edits != [] && edits[|edits| - 1].at.end >= r.at.start {
          edits := edits[..|edits| - 1] + [Merge(edits[|edits| - 1], r)];
        } else {
          edits := edits + [r];
        }
      }
    }
    GatherDone(edits, u);
    UprightFits(l, |s|);
    GatherNothing(u);
    EditedIs(s, l);
    if Fits(l, |s|, 0) {
      EditedInOrder(s, l);
    }
    edited := edits != [];
    s' := ApplyEdits(s, edits);
  }

  lemma UprightAt(l: seq<Replacement>, n: int)
    requires 0 <= n < |l|
    ensures AllUpright(l)[n] == if l[n].at.start > l[n].at.end
            then Replacement(Range(l[n].at.end, l[n].at.start), l[n].text) else l[n]
  {
  }

  lemma EditedIs(s: string, l: seq<Replacement>)
    requires Fits(Gather(AllUpright(l)), |s|, 0)
    ensures Edited(s, l) == ApplyAll(Gather(AllUpright(l)), s, 0)
  {
  }

  predicate AllTrivial(l: seq<Replacement>) {
    forall r :: r in l ==> r.IsTrivial()
  }

  lemma {:induction false} GatherNothing(l: seq<Replacement>)
    ensures Gather(l) == [] <==> AllTrivial(l)
  {
    if l != [] {
      if l[0].IsTrivial() {
        GatherNothing(l[1..]);
        assert l == [l[0]] + l[1..];
      } else {
        assert l[0] in l;
        GatherSome(l[0], l[1..]);
      }
    }
  }

  lemma {:induction false} GatherSome(r: Replacement, l: seq<Replacement>)
    ensures GatherFrom(r, l) != []
    decreases l
  {
    if l != [] {
      GatherSome(r, l[1..]);
      GatherSome(Merge(r, l[0]), l[1..]);
    }
  }

  /** After `n` replacements, the last one collected is still open. */
  ghost predicate Gathered(edits: seq<Replacement>, l: seq<Replacement>, n: int) {
    0 <= n <= |l| &&
    if edits == [] then Gather(l) == Gather(l[n..])
    else Gather(l) == edits[..|edits| - 1] + GatherFrom(edits[|edits| - 1], l[n..])
  }

  lemma GatherStart(l: seq<Replacement>)
    ensures Gathered([], l, 0)
  {
    assert l[0..] == l;
  }

  lemma GatherStep(edits: seq<Replacement>, l: seq<Replacement>, n: int)
    requires 0 <= n < |l| && Gathered(edits, l, n)
    ensures var r := l[n];
            if r.text == "" && r.at.start >= r.at.end then Gathered(edits, l, n + 1)
            else if edits != [] && edits[|edits| - 1].at.end >= r.at.start then
              Gathered(edits[..|edits| - 1] + [Merge(edits[|edits| - 1], r)], l, n + 1)
            else Gathered(edits + [r], l, n + 1)
  {
    assert l[n..][0] == l[n] && l[n..][1..] == l[n + 1..];
    if edits != [] {
      var k := |edits| - 1;
      assert (edits + [l[n]])[..|edits|] == edits;
      assert edits == edits[..k] + [edits[k]];
      assert edits[..k] + ([edits[k]] + GatherFrom(l[n], l[n + 1..])) == edits + GatherFrom(l[n], l[n + 1..]);
    }
  }

  lemma GatherDone(edits: seq<Replacement>, l: seq<Replacement>)
    requires Gathered(edits, l, |l|)
    ensures edits == Gather(l)
  {
    assert l[|l|..] == [];
    if edits != [] {
      assert edits == edits[..|edits| - 1] + [edits[|edits| - 1]];
    }
  }

  method ApplyEdits(s: string, l: seq<Replacement>) returns (s': string)
    requires Fits(l, |s|, 0)
    ensures s' == ApplyAll(l, s, 0)
  {
    hide *;
    s' := "";
    var i := 0;
    ApplyingStarts(l, s);
    for n := 0 to |l|
      invariant 0 <= i <= |s| && Applying(l, s, n, s', i)
    {
      ApplyingNext(l, s, n, s', i);
      s' := s' + s[i..l[n].at.start] + l[n].text;
      i := l[n].at.end;
    }
    ApplyingEnds(l, s, s', i);
    s' := s' + s[i..];
  }

  /** After `n` replacements `s'` is the text up to what stood at offset `i`. */
  ghost predicate Applying(l: seq<Replacement>, s: string, n: int, s': string, i: int) {
    && 0 <= n <= |l| && Fits(l, |s|, 0) && Fits(l[n..], |s|, i)
    && ApplyAll(l, s, 0) == s' + ApplyAll(l[n..], s, i)
  }

  lemma ApplyingStarts(l: seq<Replacement>, s: string)
    requires Fits(l, |s|, 0)
    ensures Applying(l, s, 0, "", 0)
  {
    AllOut(l);
  }

  lemma ApplyingNext(l: seq<Replacement>, s: string, n: int, s': string, i: int)
    requires 0 <= n < |l| && Applying(l, s, n, s', i)
    ensures 0 <= i <= l[n].at.start <= l[n].at.end <= |s|
    ensures Applying(l, s, n + 1, s' + s[i..l[n].at.start] + l[n].text, l[n].at.end)
  {
    assert l[n..][0] == l[n] && l[n..][1..] == l[n + 1..];
    FitsHead(l[n..], |s|, i);
    Unroll(l[n..], s, i);
    hide Fits, ApplyAll;
    var x, y, z := s[i..l[n].at.start], l[n].text, ApplyAll(l[n + 1..], s, l[n].at.end);
    Assoc(s', x + y, z);
    Assoc(s', x, y);
  }

  lemma ApplyingEnds(l: seq<Replacement>, s: string, s': string, i: int)
    requires 0 <= i <= |s| && Applying(l, s, |l|, s', i)
    ensures ApplyAll(l, s, 0) == s' + s[i..]
  {
    assert l[|l|..] == [];
  }

  // ------------------------------------------------------------------ anchors

  /** Where an anchor before the character at `o` (`anchor_before`) is after the replacements: right
      after the character in front of it. New text goes in front of the text it replaces. */
  function ResolveBefore(l: seq<Replacement>, o: int): int {
    if l == [] || o <= l[0].at.start then o
    else if o <= l[0].at.end then l[0].at.start + |l[0].text|
    else l[0].Delta() + ResolveBefore(l[1..], o)
  }

  /** Where an anchor after that point (`anchor_after`) is: right before the character behind it. */
  function ResolveAfter(l: seq<Replacement>, o: int): int {
    if l == [] || o < l[0].at.start then o
    else if o < l[0].at.end then l[0].at.start + |l[0].text|
    else l[0].Delta() + ResolveAfter(l[1..], o)
  }

  /** Every replacement ends at or before `o`. */
  ghost predicate AllEndBy(l: seq<Replacement>, o: int) {
    l != [] ==> l[0].at.start <= l[0].at.end <= o && AllEndBy(l[1..], o)
  }

  /** Replacements that end by `o` move an anchor at `o` as far as they change lengths; an anchor
      before `o` needs the character in front of it to survive. */
  lemma {:induction false} ResolvePast(done: seq<Replacement>, rest: seq<Replacement>, o: int)
    ensures AllEndBy(done, o) ==> ResolveAfter(done + rest, o) == TotalDelta(done) + ResolveAfter(rest, o)
    ensures AllEndBy(done, o - 1) ==> ResolveBefore(done + rest, o) == TotalDelta(done) + ResolveBefore(rest, o)
  {
    if done == [] {
      assert done + rest == rest;
    } else {
      assert (done + rest)[1..] == done[1..] + rest;
      ResolvePast(done[1..], rest, o);
    }
  }

  // ------------------------------------------------------------------ one list after the other

  lemma {:induction false} ApplyLength(l: seq<Replacement>, s: string, i: int)
    requires Fits(l, |s|, i)
    ensures |ApplyAll(l, s, i)| == |s| - i + TotalDelta(l)
  {
    if l != [] {
      ApplyLength(l[1..], s, l[0].at.end);
    }
  }

  /** Replacements that end by `k`, followed by others from `k` on, work on two separate parts. */
  lemma {:induction false} ApplyInTwo(done: seq<Replacement>, rest: seq<Replacement>, s: string, i: int, k: int)
    requires 0 <= i <= k <= |s| && Fits(done, k, i) && Fits(rest, |s|, k)
    ensures Fits(done + rest, |s|, i)
    ensures ApplyAll(done + rest, s, i) == ApplyAll(done, s[..k], i) + ApplyAll(rest, s, k)
  {
    if done == [] {
      assert done + rest == rest;
      FitsEarlier(rest, |s|, k, i);
      SkipTo(rest, s, i, k);
      assert s[..k][i..] == s[i..k];
    } else {
      var r := done[0];
      assert (done + rest)[1..] == done[1..] + rest;
      ApplyInTwo(done[1..], rest, s, r.at.end, k);
      Assoc(s[i..r.at.start] + r.text, ApplyAll(done[1..], s[..k], r.at.end), ApplyAll(rest, s, k));
      assert s[..k][i..r.at.start] == s[i..r.at.start];
    }
  }

  function ShiftAll(l: seq<Replacement>, d: int): (r: seq<Replacement>)
    ensures |r| == |l|
  {
    if l == [] then [] else [Replacement(l[0].at.Shift(d), l[0].text)] + ShiftAll(l[1..], d)
  }

  /** Only the text from `i` on matters. */
  lemma {:induction false} ApplyShifted(l: seq<Replacement>, s: string, i: int, s': string, d: int)
    requires Fits(l, |s|, i) && 0 <= i + d <= |s'| && s'[i + d..] == s[i..]
    ensures Fits(ShiftAll(l, d), |s'|, i + d)
    ensures ApplyAll(ShiftAll(l, d), s', i + d) == ApplyAll(l, s, i)
  {
    hide *;
    FitsBounds(l, |s|, i);
    if l == [] {
      NothingMore(s, i);
      NothingMore(s', i + d);
      ShiftNothing(d);
    } else {
      Unroll(l, s, i);
      var x, y := l[0].at.start, l[0].at.end;
      TailsAgree(s, i, s', d, x, y);
      ApplyShifted(l[1..], s, y, s', d);
      ShiftedStep(l, s, i, s', d, i + d, x + d, y + d);
    }
  }

  lemma ShiftNothing(d: int)
    ensures ShiftAll([], d) == []
  {
  }

  lemma ShiftedStep(l: seq<Replacement>, s: string, i: int, s': string, d: int, i': int, x': int, y': int)
    requires l != [] && Fits(l, |s|, i) && 0 <= i' <= x' <= y' <= |s'|
    requires x' == l[0].at.start + d && y' == l[0].at.end + d
    requires s'[i'..x'] == s[i..l[0].at.start]
    requires Fits(ShiftAll(l[1..], d), |s'|, y')
    requires ApplyAll(ShiftAll(l[1..], d), s', y') == ApplyAll(l[1..], s, l[0].at.end)
    ensures Fits(ShiftAll(l, d), |s'|, i') && ApplyAll(ShiftAll(l, d), s', i') == ApplyAll(l, s, i)
  {
    hide *;
    ShiftHead(l, d);
    Unroll(l, s, i);
    Cons(Replacement(Range(x', y'), l[0].text), ShiftAll(l[1..], d), s', i');
  }

  lemma FitsBounds(l: seq<Replacement>, n: int, i: int)
    requires Fits(l, n, i)
    ensures 0 <= i <= n
  {
  }

  lemma ShiftHead(l: seq<Replacement>, d: int)
    requires l != []
    ensures ShiftAll(l, d)
            == [Replacement(Range(l[0].at.start + d, l[0].at.end + d), l[0].text)] + ShiftAll(l[1..], d)
  {
  }

  lemma TailsAgree(s: string, i: int, s': string, d: int, x: int, y: int)
    requires 0 <= i <= x <= y <= |s| && 0 <= i + d <= |s'| && s'[i + d..] == s[i..]
    ensures |s'| == |s| + d && s'[i + d..x + d] == s[i..x] && s'[y + d..] == s[y..]
  {
    assert |s'[i + d..]| == |s[i..]|;
    assert s'[i + d..x + d] == s'[i + d..][..x - i] && s'[y + d..] == s'[i + d..][y - i..];
    assert s[i..x] == s[i..][..x - i] && s[y..] == s[i..][y - i..];
  }

  /** Applying `rest` after `done`, at the places where its anchors have moved to, is the same as
      applying both at once. */
  lemma ApplyLater(done: seq<Replacement>, rest: seq<Replacement>, s: string, k: int)
    requires 0 <= k <= |s| && Fits(done, k, 0) && Fits(rest, |s|, k)
    ensures Fits(done, |s|, 0) && Fits(done + rest, |s|, 0)
    ensures var (d, s') := (TotalDelta(done), ApplyAll(done, s, 0));
            Fits(ShiftAll(rest, d), |s'|, 0) && ApplyAll(ShiftAll(rest, d), s', 0) == ApplyAll(done + rest, s, 0)
  {
    hide *;
    FirstPart(done, s, k);
    var d, s' := TotalDelta(done), ApplyAll(done, s, 0);
    ApplyInTwo(done, rest, s, 0, k);
    ApplyShifted(rest, s, k, s', d);
    FitsEarlier(ShiftAll(rest, d), |s'|, k + d, 0);
    SkipTo(ShiftAll(rest, d), s', 0, k + d);
  }

  lemma FirstPart(done: seq<Replacement>, s: string, k: int)
    requires 0 <= k <= |s| && Fits(done, k, 0)
    ensures Fits(done, |s|, 0)
    ensures var (d, s') := (TotalDelta(done), ApplyAll(done, s, 0));
            0 <= k + d <= |s'| && s'[0..k + d] == ApplyAll(done, s[..k], 0) && s'[k + d..] == s[k..]
  {
    NothingMore(s, k);
    hide *;
    ApplyInTwo(done, [], s, 0, k);
    assert done + [] == done;
    ApplyLength(done, s[..k], 0);
  }

  lemma NothingMore(s: string, k: int)
    requires 0 <= k <= |s|
    ensures Fits([], |s|, k) && ApplyAll([], s, k) == s[k..]
  {
  }

  // ------------------------------------------------------------------ where a list ends

  function EndOf(l: seq<Replacement>, i: int): int {
    if l == [] then i else EndOf(l[1..], l[0].at.end)
  }

  lemma {:induction false} FitsInTwo(done: seq<Replacement>, rest: seq<Replacement>, n: int, i: int)
    requires Fits(done + rest, n, i)
    ensures i <= EndOf(done, i) <= n && Fits(done, EndOf(done, i), i) && Fits(rest, n, EndOf(done, i))
  {
    if done == [] {
      assert done + rest == rest;
      FitsBounds(rest, n, i);
    } else {
      assert (done + rest)[1..] == done[1..] + rest;
      FitsInTwo(done[1..], rest, n, done[0].at.end);
    }
  }

  lemma {:induction false} FitsEndsBy(l: seq<Replacement>, n: int, i: int)
    requires Fits(l, n, i)
    ensures AllEndBy(l, n)
  {
    if l != [] {
      FitsEndsBy(l[1..], n, l[0].at.end);
      FitsBounds(l[1..], n, l[0].at.end);
    }
  }

  lemma FitsPrefix(l: seq<Replacement>, rest: seq<Replacement>, n: int)
    requires Fits(l + rest, n, 0)
    ensures Fits(l, n, 0)
  {
    FitsInTwo(l, rest, n, 0);
    FitsLonger(l, EndOf(l, 0), n, 0);
  }

  lemma {:induction false} FitsLonger(l: seq<Replacement>, n: int, n': int, i: int)
    requires Fits(l, n, i) && n <= n'
    ensures Fits(l, n', i)
  {
    if l != [] {
      FitsLonger(l[1..], n, n', l[0].at.end);
    }
  }

  lemma EndEarlier(l: seq<Replacement>, o: int, o': int)
    requires AllEndBy(l, o) && o <= o'
    ensures AllEndBy(l, o')
  {
  }

  /** Trivial replacements change nothing. */
  lemma TrivialChangesNothing(l: seq<Replacement>, s: string)
    requires AllTrivial(AllUpright(l))
    ensures Edited(s, l) == s
  {
    GatherNothing(AllUpright(l));
    AllOut(s);
  }
}
