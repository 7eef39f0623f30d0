/** Streaming an edit into a buffer: operations on the matched text become edits anchored in the
    snapshot it was matched in, and the buffer receives them batch by batch.

    Offsets count characters where the source counts bytes. */
module EditAgent {
  import opened Patches
  import opened Buffers

  datatype CharOperation = Insert(text: string) | Delete(bytes: nat) | Keep(bytes: nat)

  /** The operations stay inside the text that is left to match, and none deletes nothing. */
  predicate ValidFor(ops: seq<CharOperation>, found: string) {
    ops != [] ==>
      match ops[0]
      case Insert(_) => ValidFor(ops[1..], found)
      case Delete(n) => 0 < n <= |found| && ValidFor(ops[1..], found[n..])
      case Keep(n) => n <= |found| && ValidFor(ops[1..], found[n..])
  }

  /** What the operations make of the text; what they do not reach stays. */
  function Rewritten(ops: seq<CharOperation>, found: string): string
    requires ValidFor(ops, found)
  {
    if ops == [] then found
    else
      match ops[0]
      case Insert(text) => text + Rewritten(ops[1..], found)
      case Delete(n) => Rewritten(ops[1..], found[n..])
      case Keep(n) => found[..n] + Rewritten(ops[1..], found[n..])
  }

  /** What a single operation makes of the text in front of it. */
  lemma OperationIs(ops: seq<CharOperation>, found: string)
    requires |ops| == 1 && ValidFor(ops, found)
    ensures ops[0].Insert? ==> Rewritten(ops, found) == ops[0].text + found
    ensures ops[0].Delete? ==> Rewritten(ops, found) == found[ops[0].bytes..]
    ensures ops[0].Keep? ==> Rewritten(ops, found) == found
  {
    assert ops[1..] == [];
    if ops[0].Keep? {
      assert found[..ops[0].bytes] + found[ops[0].bytes..] == found;
    }
  }

  /** The operations may be cut anywhere: the first ones write their own piece, and the others work on the
      text from where those left the cursor. */
  lemma {:induction false} RewrittenInTwo(xs: seq<CharOperation>, ys: seq<CharOperation>, found: string)
    requires ValidFor(xs, found) && Consumed(xs) <= |found| && ValidFor(ys, found[Consumed(xs)..])
    ensures ValidFor(xs + ys, found) && ValidFor(xs, found[..Consumed(xs)])
    ensures Rewritten(xs + ys, found)
            == Rewritten(xs, found[..Consumed(xs)]) + Rewritten(ys, found[Consumed(xs)..])
    decreases xs
  {
    hide *;
    var k := Consumed(xs);
    if xs == [] {
      NoOperationsFirst(ys, found);
    } else {
      var n := if xs[0].Insert? then 0 else xs[0].bytes;
      TailOperations(xs, ys);
      FirstOperation(xs, found);
      FirstOperation(xs, found[..k]);
      FirstOperation(xs + ys, found);
      CutTwice(found, n, k);
      RewrittenInTwo(xs[1..], ys, found[n..]);
      Assoc(Piece(xs[0], found), Rewritten(xs[1..], found[n..][..k - n]), Rewritten(ys, found[k..]));
    }
  }

  /** What one operation writes. */
  function Piece(op: CharOperation, found: string): string {
    match op
    case Insert(text) => text
    case Delete(_) => ""
    case Keep(n) => if n <= |found| then found[..n] else ""
  }

  lemma NoOperationsFirst(ys: seq<CharOperation>, found: string)
    ensures [] + ys == ys && Consumed([]) == 0 && found[0..] == found && found[..0] == ""
    ensures ValidFor([], "") && Rewritten([], "") == "" && "" + found == found
    ensures ValidFor(ys, found) ==> "" + Rewritten(ys, found) == Rewritten(ys, found)
  {
  }

  lemma TailOperations(xs: seq<CharOperation>, ys: seq<CharOperation>)
    requires xs != []
    ensures xs + ys != [] && (xs + ys)[0] == xs[0] && (xs + ys)[1..] == xs[1..] + ys
  {
  }

  lemma FirstOperation(xs: seq<CharOperation>, found: string)
    requires xs != []
    ensures var n := if xs[0].Insert? then 0 else xs[0].bytes;
            && Consumed(xs) == n + Consumed(xs[1..])
            && (ValidFor(xs, found) <==> n <= |found| && (xs[0].Delete? ==> 0 < n) && ValidFor(xs[1..], found[n..]))
            && (ValidFor(xs, found) ==>
                  Rewritten(xs, found) == Piece(xs[0], found) + Rewritten(xs[1..], found[n..]))
            && (n <= Consumed(xs) <= |found| ==> Piece(xs[0], found[..Consumed(xs)]) == Piece(xs[0], found))
  {
    assert found[0..] == found;
    if xs[0].Delete? && ValidFor(xs, found) {
      var rest := Rewritten(xs[1..], found[xs[0].bytes..]);
      assert "" + rest == rest;
    }
  }

  lemma CutTwice(found: string, n: int, k: int)
    requires 0 <= n <= k <= |found|
    ensures found[n..][k - n..] == found[k..] && found[n..][..k - n] == found[..k][n..]
  {
  }

  // ------------------------------------------------------------------ from operations to edits

  /** How far the operations move the cursor. */
  function Consumed(ops: seq<CharOperation>): nat {
    if ops == [] then 0
    else (match ops[0] case Insert(_) => 0 case Delete(n) => n case Keep(n) => n) + Consumed(ops[1..])
  }

  /** The anchored edits of the operations, from the cursor `i` on, at offsets of the snapshot. */
  function EditsOf(ops: seq<CharOperation>, i: int): seq<Replacement> {
    if ops == [] then []
    else
      match ops[0]
      case Insert(text) => [Replacement(Range(i, i), text)] + EditsOf(ops[1..], i)
      case Delete(n) => [Replacement(Range(i, i + n), "")] + EditsOf(ops[1..], i + n)
      case Keep(n) => EditsOf(ops[1..], i + n)
  }

  /** Applied at once, the edits turn the matched text into the rewritten text and leave what
      follows it alone. */
  lemma {:induction false} EditsRewrite(ops: seq<CharOperation>, s: string, i: int, end: int)
    requires 0 <= i <= end <= |s| && ValidFor(ops, s[i..end])
    ensures Fits(EditsOf(ops, i), end, i) && Fits(EditsOf(ops, i), |s|, i)
    ensures ApplyAll(EditsOf(ops, i), s, i) == Rewritten(ops, s[i..end]) + s[end..]
    decreases ops
  {
    hide *;
    if ops == [] {
      NoOperations(s, i, end);
    } else {
      match ops[0] {
        case Insert(text) =>
          InsertHead(ops, s[i..end], i, text);
          EditsRewrite(ops[1..], s, i, end);
          FirstEdit(Replacement(Range(i, i), text), EditsOf(ops[1..], i), s, end, i, Rewritten(ops[1..], s[i..end]));
        case Delete(n) =>
          DeleteHead(ops, s, i, end, n);
          EditsRewrite(ops[1..], s, i + n, end);
          FirstEdit(Replacement(Range(i, i + n), ""), EditsOf(ops[1..], i + n), s, end, i,
                    Rewritten(ops[1..], s[i + n..end]));
          assert "" + Rewritten(ops[1..], s[i + n..end]) == Rewritten(ops[1..], s[i + n..end]);
        case Keep(n) =>
          KeepHead(ops, s, i, end, n);
          EditsRewrite(ops[1..], s, i + n, end);
          FitsEarlier(EditsOf(ops[1..], i + n), end, i + n, i);
          SkipTo(EditsOf(ops[1..], i + n), s, i, i + n);
          Assoc(s[i..i + n], Rewritten(ops[1..], s[i + n..end]), s[end..]);
      }
    }
  }

  lemma NoOperations(s: string, i: int, end: int)
    requires 0 <= i <= end <= |s|
    ensures EditsOf([], i) == [] && Fits([], end, i) && Fits([], |s|, i) && ValidFor([], s[i..end])
    ensures ApplyAll([], s, i) == Rewritten([], s[i..end]) + s[end..]
  {
  }

  lemma InsertHead(ops: seq<CharOperation>, found: string, i: int, text: string)
    requires ops != [] && ops[0] == Insert(text) && ValidFor(ops, found)
    ensures ValidFor(ops[1..], found) && Rewritten(ops, found) == text + Rewritten(ops[1..], found)
    ensures EditsOf(ops, i) == [Replacement(Range(i, i), text)] + EditsOf(ops[1..], i)
  {
  }

  lemma DeleteHead(ops: seq<CharOperation>, s: string, i: int, end: int, n: nat)
    requires 0 <= i <= end <= |s| && ops != [] && ops[0] == Delete(n) && ValidFor(ops, s[i..end])
    ensures i < i + n <= end && ValidFor(ops[1..], s[i + n..end])
    ensures Rewritten(ops, s[i..end]) == Rewritten(ops[1..], s[i + n..end])
    ensures EditsOf(ops, i) == [Replacement(Range(i, i + n), "")] + EditsOf(ops[1..], i + n)
  {
    assert s[i..end][n..] == s[i + n..end];
  }

  lemma KeepHead(ops: seq<CharOperation>, s: string, i: int, end: int, n: nat)
    requires 0 <= i <= end <= |s| && ops != [] && ops[0] == Keep(n) && ValidFor(ops, s[i..end])
    ensures i + n <= end && ValidFor(ops[1..], s[i + n..end])
    ensures Rewritten(ops, s[i..end]) == s[i..i + n] + Rewritten(ops[1..], s[i + n..end])
    ensures EditsOf(ops, i) == EditsOf(ops[1..], i + n)
  {
    assert s[i..end][n..] == s[i + n..end] && s[i..end][..n] == s[i..i + n];
  }

  /** An edit at the cursor, in front of edits whose result is known. */
  lemma FirstEdit(r: Replacement, l: seq<Replacement>, s: string, end: int, i: int, rest: string)
    requires 0 <= i == r.at.start <= r.at.end <= end <= |s|
    requires Fits(l, end, r.at.end) && Fits(l, |s|, r.at.end) && ApplyAll(l, s, r.at.end) == rest + s[end..]
    ensures Fits([r] + l, end, i) && Fits([r] + l, |s|, i)
    ensures ApplyAll([r] + l, s, i) == (r.text + rest) + s[end..]
  {
    assert ([r] + l)[1..] == l;
    hide ApplyAll;
    Cons(r, l, s, i);
    Assoc(r.text, rest, s[end..]);
    assert s[i..i] + r.text == r.text;
  }

  /** The loop of `compute_edits` over the operations of one chunk of new text: the cursor stays in
      the matched range and every edit lies between its old and its new place. */
  method ComputeEdits(ops: seq<CharOperation>, start: int, ghost s: string, ghost end: int)
    returns (edits: seq<Replacement>, editStart: int)
    requires 0 <= start <= end <= |s| && ValidFor(ops, s[start..end])
    ensures edits == EditsOf(ops, start)
    ensures start <= editStart == start + Consumed(ops) <= end
    ensures Fits(edits, editStart, start)
  {
    edits, editStart := [], start;
    EditsWithin(ops, s[start..end], start);
    for n := 0 to |ops|
      invariant start <= editStart
      invariant EditsOf(ops, start) == edits + EditsOf(ops[n..], editStart)
      invariant start + Consumed(ops) == editStart + Consumed(ops[n..])
    {
      assert ops[n..][0] == ops[n] && ops[n..][1..] == ops[n + 1..];
      match ops[n] {
        case Insert(text) =>
          Assoc(edits, [Replacement(Range(editStart, editStart), text)], EditsOf(ops[n + 1..], editStart));
          edits := edits + [Replacement(Range(editStart, editStart), text)];
        case Delete(bytes) =>
          var editEnd := editStart + bytes;
          Assoc(edits, [Replacement(Range(editStart, editEnd), "")], EditsOf(ops[n + 1..], editEnd));
          edits := edits + [Replacement(Range(editStart, editEnd), "")];
          editStart := editEnd;
        case Keep(bytes) => editStart := editStart + bytes;
      }
    }
  }

  lemma {:induction false} EditsWithin(ops: seq<CharOperation>, found: string, i: int)
    requires 0 <= i && ValidFor(ops, found)
    ensures Consumed(ops) <= |found| && Fits(EditsOf(ops, i), i + Consumed(ops), i)
    decreases ops
  {
    if ops != [] {
      var rest := ops[1..];
      match ops[0] {
        case Insert(text) =>
          EditsWithin(rest, found, i);
          assert ([Replacement(Range(i, i), text)] + EditsOf(rest, i))[1..] == EditsOf(rest, i);
        case Delete(n) =>
          EditsWithin(rest, found[n..], i + n);
          assert ([Replacement(Range(i, i + n), "")] + EditsOf(rest, i + n))[1..] == EditsOf(rest, i + n);
        case Keep(n) =>
          EditsWithin(rest, found[n..], i + n);
          FitsEarlier(EditsOf(rest, i + n), i + Consumed(ops), i + n, i);
      }
    }
  }

  // ------------------------------------------------------------------ batches

  /** Where an anchored edit is in the buffer after the edits `done`: an insertion is anchored after
      its place, a deletion after its start and before its end. */
  function Place(done: seq<Replacement>, r: Replacement): Replacement {
    var start := ResolveAfter(done, r.at.start);
    Replacement(Range(start, if r.at.IsEmpty() then start else ResolveBefore(done, r.at.end)), r.text)
  }

  function PlaceAll(done: seq<Replacement>, batch: seq<Replacement>): (r: seq<Replacement>)
    ensures |r| == |batch|
  {
    if batch == [] then [] else [Place(done, batch[0])] + PlaceAll(done, batch[1..])
  }

  function Flatten(batches: seq<seq<Replacement>>): seq<Replacement> {
    if batches == [] then [] else batches[0] + Flatten(batches[1..])
  }

  /** The anchors of later edits have moved by as much as the edits before them change lengths. */
  lemma {:induction false} PlacedIsShifted(done: seq<Replacement>, batch: seq<Replacement>, n: int, k: int)
    requires AllEndBy(done, k) && Fits(batch, n, k)
    ensures PlaceAll(done, batch) == ShiftAll(batch, TotalDelta(done))
  {
    if batch != [] {
      var r := batch[0];
      EndEarlier(done, k, r.at.start);
      ResolvePast(done, [], r.at.start);
      ResolvePast(done, [], r.at.end);
      assert done + [] == done;
      if !r.at.IsEmpty() {
        EndEarlier(done, k, r.at.end - 1);
      }
      EndEarlier(done, k, r.at.end);
      PlacedIsShifted(done, batch[1..], n, r.at.end);
    }
  }

  /** One more batch. */
  lemma BatchApplies(done: seq<Replacement>, batch: seq<Replacement>, s: string)
    requires Fits(done + batch, |s|, 0)
    ensures Fits(done, |s|, 0)
    ensures var s' := ApplyAll(done, s, 0);
            Fits(PlaceAll(done, batch), |s'|, 0)
              && ApplyAll(PlaceAll(done, batch), s', 0) == ApplyAll(done + batch, s, 0)
  {
    hide *;
    FitsInTwo(done, batch, |s|, 0);
    var k := EndOf(done, 0);
    FitsEndsBy(done, k, 0);
    PlacedIsShifted(done, batch, |s|, k);
    ApplyLater(done, batch, s, k);
  }

  /** The loop of `apply_edit_chunks`: however the edits are cut into batches, applying the batches
      one after the other, each edit where its anchors are by then, is applying all edits at once. */
  method ApplyBatches(s: string, batches: seq<seq<Replacement>>) returns (text: string)
    requires Fits(Flatten(batches), |s|, 0)
    ensures text == ApplyAll(Flatten(batches), s, 0)
  {
    hide *;
    var done: seq<Replacement> := [];
    text := s;
    BatchesStart(s, batches);
    for n := 0 to |batches|
      invariant Batching(s, batches, n, done, text)
    {
      var edits := batches[n];
      BatchStep(s, batches, n, done, text);
      if edits != [] {
        FitsUpright(PlaceAll(done, edits), |text|, 0);
        var edited;
        text, edited := EditBuffer(text, PlaceAll(done, edits));
        done := done + edits;
      }
    }
    BatchesEnd(s, batches, done, text);
  }

  ghost predicate Batching(s: string, batches: seq<seq<Replacement>>, n: int, done: seq<Replacement>, text: string) {
    && 0 <= n <= |batches| && Flatten(batches) == done + Flatten(batches[n..])
    && Fits(Flatten(batches), |s|, 0) && Fits(done, |s|, 0)
    && text == ApplyAll(done, s, 0)
  }

  lemma BatchesStart(s: string, batches: seq<seq<Replacement>>)
    requires Fits(Flatten(batches), |s|, 0)
    ensures Batching(s, batches, 0, [], s)
  {
    assert batches[0..] == batches && s[0..] == s;
  }

  lemma BatchStep(s: string, batches: seq<seq<Replacement>>, n: int, done: seq<Replacement>, text: string)
    requires 0 <= n < |batches| && Batching(s, batches, n, done, text)
    ensures Fits(PlaceAll(done, batches[n]), |text|, 0)
    ensures batches[n] == [] ==> Batching(s, batches, n + 1, done, text)
    ensures Batching(s, batches, n + 1, done + batches[n], ApplyAll(PlaceAll(done, batches[n]), text, 0))
  {
    hide Fits, ApplyAll, PlaceAll;
    assert batches[n..][0] == batches[n] && batches[n..][1..] == batches[n + 1..];
    Assoc(done, batches[n], Flatten(batches[n + 1..]));
    FitsPrefix(done + batches[n], Flatten(batches[n + 1..]), |s|);
    BatchApplies(done, batches[n], s);
    if batches[n] == [] {
      assert done + [] == done;
      assert [] + Flatten(batches[n + 1..]) == Flatten(batches[n + 1..]);
    }
  }

  lemma BatchesEnd(s: string, batches: seq<seq<Replacement>>, done: seq<Replacement>, text: string)
    requires Batching(s, batches, |batches|, done, text)
    ensures done == Flatten(batches) && text == ApplyAll(Flatten(batches), s, 0)
  {
    assert batches[|batches|..] == [];
  }

  /** Any operations, any batches: the buffer ends up with the text before the match, the rewritten
      match, and the text after it. */
  lemma StreamedEdit(ops: seq<CharOperation>, s: string, spot: Range, batches: seq<seq<Replacement>>)
    requires 0 <= spot.start <= spot.end <= |s| && ValidFor(ops, s[spot.start..spot.end])
    requires Flatten(batches) == EditsOf(ops, spot.start)
    ensures Fits(Flatten(batches), |s|, 0)
    ensures ApplyAll(Flatten(batches), s, 0)
            == s[..spot.start] + Rewritten(ops, s[spot.start..spot.end]) + s[spot.end..]
  {
    EditsRewrite(ops, s, spot.start, spot.end);
    hide *;
    var l := EditsOf(ops, spot.start);
    FitsEarlier(l, |s|, spot.start, 0);
    SkipTo(l, s, 0, spot.start);
    Assoc(s[..spot.start], Rewritten(ops, s[spot.start..spot.end]), s[spot.end..]);
    assert s[0..spot.start] == s[..spot.start];
  }

  /** At every moment in between, nothing outside of the match has changed. */
  lemma OnlyTheMatchChanges(done: seq<Replacement>, s: string, spot: Range)
    requires 0 <= spot.start <= spot.end <= |s| && Fits(done, spot.end, spot.start)
    ensures Fits(done, |s|, 0)
    ensures ApplyAll(done, s, 0) == s[..spot.start] + ApplyAll(done, s[..spot.end], spot.start) + s[spot.end..]
  {
    hide *;
    NothingMore(s, spot.end);
    ApplyInTwo(done, [], s, spot.start, spot.end);
    assert done + [] == done;
    FitsEarlier(done, |s|, spot.start, 0);
    SkipTo(done, s, 0, spot.start);
    assert s[0..spot.start] == s[..spot.start];
    Assoc(s[..spot.start], ApplyAll(done, s[..spot.end], spot.start), s[spot.end..]);
  }
}
