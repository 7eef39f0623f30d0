/** What becomes of a keep or a rejection once the update it schedules has been processed. */
module Outcomes {
  import opened Options
  import opened Patches
  import opened Ropes
  import opened Rebase
  import opened RowLifting
  import opened Buffers
  import opened Review
  import opened Commits
  import opened LogStates
  import opened LogInvariant
  import opened Rejections

  // ------------------------------------------------------------------ when a keep lasts

  /** `kept` is what keeping some or all edits of `t` makes of it. */
  ghost predicate IsKeep(t: Tracked, text: string, kept: Tracked) {
    (exists range :: KeptSome(t, range, text, kept)) || kept == KeptWhole(t, text)
  }

  /** The next write-back of `t` installs the base `x`: that of the update under way or, if there is
      none, one that the action `next` captures. */
  ghost predicate Installs(t: Tracked, next: Action, x: string) {
    if t.pending.Some? then x == t.pending.value.base
    else
      match next
      case Capture(_, edits) =>
        t.queue != [] && Reports(edits, t.snapshot, t.queue[0].text)
        && exists c :: Captured(t, edits, c) && c.pending.value.base == x
      case Commit(_, gitBase, committed) =>
        RowsApart(committed) && exists c :: CommitCaptured(t, gitBase, committed, c) && c.pending.value.base == x
      case _ => false
  }

  /** A write-back of buffer `b` takes the log from `s` to `s'` and leaves the base `x`. */
  ghost predicate WritesBack(s: State, b: int, hunks: seq<Edit>, s': State, x: string) {
    Enabled(s, WriteBack(b, hunks)) && Next(s, WriteBack(b, hunks), s') && b in s'.log && s'.log[b].base == x
  }

  /** The action `next`, when no update of buffer `b` is under way, and then a write-back can leave `x`. */
  ghost predicate CanLeave(s: State, b: int, next: Action, x: string)
    requires b in s.log
  {
    if s.log[b].pending.Some? then exists hunks, s' :: WritesBack(s, b, hunks, s', x)
    else exists m, hunks, s' :: Enabled(s, next) && Next(s, next, m) && WritesBack(m, b, hunks, s', x)
  }

  /** In terms of steps: what is installed is what a write-back leaves. */
  lemma InstallsIffLeaves(s: State, b: int, next: Action, x: string)
    requires b in s.log && b in s.texts && (next.KeepAll? || next.b == b)
    ensures Installs(s.log[b], next, x) <==> CanLeave(s, b, next, x)
  {
    hide *;
    var t := s.log[b];
    if t.pending.Some? {
      LeavesPending(s, b, next, x);
    } else {
      if Installs(t, next, x) {
        var c := InstallingCapture(t, next, x);
        TakesCapture(s, b, next, x, c);
        var m := s.(log := s.log[b := c]);
        var hunks, s' := SomeWriteBack(m, b);
        LeavesBy(s, b, next, x, m, hunks, s');
      }
      if CanLeave(s, b, next, x) {
        var m, hunks, s' := LeavingSteps(s, b, next, x);
        WrittenBackBase(m, b, hunks, s', x);
        StepThatPends(s, b, next, m);
        InstalledBy(t, next, x, m.log[b]);
      }
    }
  }

  /** Any two texts have a diff. */
  lemma SomeDiff(s: string, t: string) returns (hunks: seq<Edit>)
    ensures IsDiff(hunks, s, t)
  {
    if s == t {
      hunks := [];
      assert s[0..] == t[0..];
    } else {
      var e := Edit(Range(0, |s|), Range(0, |t|));
      hunks := [e];
      AllOut(s);
      AllOut(t);
      assert Aligned([], s, t, |s|, |t|);
      Prepend(e, [], s, t, 0, 0);
      assert [e] + [] == [e];
      assert |s| > 0 || |t| > 0;
    }
  }

  lemma SomeWriteBack(s: State, b: int) returns (hunks: seq<Edit>, s': State)
    requires b in s.log && b in s.texts && s.log[b].pending.Some?
    ensures WritesBack(s, b, hunks, s', s.log[b].pending.value.base)
  {
    hide IsDiff, RowPatch;
    hunks := SomeDiff(s.log[b].pending.value.base, s.log[b].pending.value.text);
    s' := s.(log := s.log[b := WrittenBack(s.log[b], hunks)]);
  }

  lemma WrittenBackBase(s: State, b: int, hunks: seq<Edit>, s': State, x: string)
    requires WritesBack(s, b, hunks, s', x)
    ensures b in s.log && s.log[b].pending.Some? && s.log[b].pending.value.base == x
  {
    hide IsDiff, RowPatch;
  }

  lemma LeavesPending(s: State, b: int, next: Action, x: string)
    requires b in s.log && b in s.texts && s.log[b].pending.Some?
    ensures Installs(s.log[b], next, x) <==> CanLeave(s, b, next, x)
  {
    hide Next, Enabled, WritesBack;
    var hunks, s' := SomeWriteBack(s, b);
    if CanLeave(s, b, next, x) {
      var hunks, s' :| WritesBack(s, b, hunks, s', x);
      WrittenBackBase(s, b, hunks, s', x);
    }
  }

  /** The state of the buffer after the capture that installs `x`. */
  ghost predicate CapturesBase(t: Tracked, next: Action, x: string, c: Tracked) {
    match next
    case Capture(_, edits) =>
      t.queue != [] && Reports(edits, t.snapshot, t.queue[0].text) && Captured(t, edits, c) && c.pending.value.base == x
    case Commit(_, gitBase, committed) =>
      RowsApart(committed) && CommitCaptured(t, gitBase, committed, c) && c.pending.value.base == x
    case _ => false
  }

  lemma InstallingCapture(t: Tracked, next: Action, x: string) returns (c: Tracked)
    requires t.pending.None? && Installs(t, next, x)
    ensures CapturesBase(t, next, x, c)
  {
    hide Rows, RebasedRows, RowPatch, Pick, Accepted, Reports, RowsApart;
    match next
    case Capture(_, edits) => c :| Captured(t, edits, c) && c.pending.value.base == x;
    case Commit(_, gitBase, committed) => c :| CommitCaptured(t, gitBase, committed, c) && c.pending.value.base == x;
  }

  lemma InstalledBy(t: Tracked, next: Action, x: string, c: Tracked)
    requires t.pending.None? && CapturesBase(t, next, x, c)
    ensures Installs(t, next, x)
  {
    hide Captured, CommitCaptured, Reports, RowsApart;
  }

  lemma TakesCapture(s: State, b: int, next: Action, x: string, c: Tracked)
    requires b in s.log && b in s.texts && s.log[b].pending.None? && (next.KeepAll? || next.b == b)
    requires CapturesBase(s.log[b], next, x, c)
    ensures Enabled(s, next) && Next(s, next, s.(log := s.log[b := c])) && c.pending.Some? && c.pending.value.base == x
  {
    hide Rows, RebasedRows, RowPatch, Pick, Accepted, Reports, RowsApart;
  }

  lemma LeavesBy(s: State, b: int, next: Action, x: string, m: State, hunks: seq<Edit>, s': State)
    requires b in s.log && s.log[b].pending.None?
    requires Enabled(s, next) && Next(s, next, m) && WritesBack(m, b, hunks, s', x)
    ensures CanLeave(s, b, next, x)
  {
    hide Enabled, Next, WritesBack;
  }

  lemma LeavingSteps(s: State, b: int, next: Action, x: string) returns (m: State, hunks: seq<Edit>, s': State)
    requires b in s.log && s.log[b].pending.None? && CanLeave(s, b, next, x)
    ensures Enabled(s, next) && Next(s, next, m) && WritesBack(m, b, hunks, s', x)
  {
    hide Enabled, Next, WritesBack;
    m, hunks, s' :| Enabled(s, next) && Next(s, next, m) && WritesBack(m, b, hunks, s', x);
  }

  /** An update gets under way by a capture only. */
  lemma StepThatPends(s: State, b: int, next: Action, m: State)
    requires b in s.log && b in s.texts && s.log[b].pending.None? && (next.KeepAll? || next.b == b)
    requires Enabled(s, next) && Next(s, next, m) && b in m.log && m.log[b].pending.Some?
    ensures CapturesBase(s.log[b], next, m.log[b].pending.value.base, m.log[b])
  {
    hide Rows, RebasedRows, RowPatch, Pick, Accepted, Reports, RowsApart, Fits, ApplyAll, AllTrivial, AllUpright,
         Edited,
         RejectionOf, InText, InBuffer, IsDiff, Remainder, Kept;
  }

  lemma KeepChangesLittle(t: Tracked, text: string, kept: Tracked)
    requires IsKeep(t, text, kept)
    ensures kept.pending == t.pending && kept.snapshot == t.snapshot && kept.queue == t.queue + [Change(User, text)]
  {
    hide Rows, Pick, Remainder, Kept;
  }

  lemma KeepKeepsInv(t: Tracked, text: string, kept: Tracked)
    requires TrackedInv(t, text) && IsKeep(t, text, kept)
    ensures TrackedInv(kept, text)
  {
    if kept == KeptWhole(t, text) {
      KeptWholeInv(t, text);
    } else {
      hide TrackedInv, KeptSome;
      var range :| KeptSome(t, range, text, kept);
      KeptInv(t, text, range, kept);
    }
  }

  /** A keep is lost exactly if it comes between the capture and the write-back of an update: only
      then does the next write-back not depend on the base and the edits that the keep left. */
  lemma KeepIsForgottenIffPending(t: Tracked, text: string, kept: Tracked)
    requires TrackedInv(t, text) && IsKeep(t, text, kept)
    ensures t.pending.Some? <==>
            forall base, edits, next, x ::
              Installs(kept.(base := base, edits := edits), next, x) <==> Installs(kept, next, x)
  {
    KeepChangesLittle(t, text, kept);
    KeepKeepsInv(t, text, kept);
    if t.pending.None? {
      var other := kept.base + "x";
      var next := Commit(0, "", []);
      CommitOfNothing(kept, text);
      NothingToCommit(kept, other);
      assert !(Installs(kept.(base := other, edits := []), next, kept.base) <==> Installs(kept, next, kept.base));
    }
  }

  lemma CommitOfNothing(t: Tracked, text: string)
    requires TrackedInv(t, text) && t.pending.None?
    ensures Installs(t, Commit(0, "", []), t.base)
  {
    hide *;
    InvParts(t, text);
    NoneAccepted(t.edits, t.snapshot);
    PickWhole(t.edits, Rows(t.base), Rows(t.snapshot));
    var c := t.(pending := Some(Update(t.base, t.snapshot)));
    EmptyCommit(t, c);
    InstalledBy(t, Commit(0, "", []), t.base, c);
  }

  lemma EmptyCommit(t: Tracked, c: Tracked)
    requires c == t.(pending := Some(Update(t.base, t.snapshot)))
    requires Rows(t.base) == Pick(t.edits, Rows(t.base), Rows(t.snapshot), Accepted(t.edits, [], t.snapshot, ""), 0)
    ensures CapturesBase(t, Commit(0, "", []), t.base, c)
  {
    hide Rows, Pick, Accepted;
  }

  lemma NoneAccepted(edits: seq<Edit>, snapshot: string)
    ensures Accepted(edits, [], snapshot, "") == AllOf(|edits|, false)
  {
  }

  lemma NothingToCommit(t: Tracked, other: string)
    requires t.pending.None? && other != t.base
    ensures !Installs(t.(base := other, edits := []), Commit(0, "", []), t.base)
  {
    hide Rows, Accepted;
    AllOut(Rows(other));
    forall c | CommitCaptured(t.(base := other, edits := []), "", [], c)
      ensures c.pending.value.base == other
    {
      RowsInjective(c.pending.value.base, other);
    }
  }

  /** What the next write-back after a keep installs. With an update under way it is the base of that
      update, so the kept base survives only if the two are equal. Otherwise it is computed from the
      kept base: the same for a change by the agent, and rebased past the edits that the keep left for
      one by the user. */
  lemma AfterKeep(t: Tracked, text: string, kept: Tracked, edits: seq<Edit>, x: string)
    requires IsKeep(t, text, kept)
    ensures kept.queue != []
    ensures t.pending.Some? ==> forall next :: Installs(kept, next, kept.base) <==> t.pending.value.base == kept.base
    ensures t.pending.None? && kept.queue[0].author.Agent? ==>
              (Installs(kept, Capture(0, edits), x) <==>
               Reports(edits, t.snapshot, kept.queue[0].text) && x == kept.base)
    ensures t.pending.None? && kept.queue[0].author.User? ==>
              (Installs(kept, Capture(0, edits), x) <==>
               Reports(edits, t.snapshot, kept.queue[0].text)
               && Rows(x) == RebasedRows(kept.edits, RowPatch(edits, t.snapshot, kept.queue[0].text), Rows(kept.base),
                                      Rows(kept.queue[0].text)))
  {
    KeepChangesLittle(t, text, kept);
    hide Rows, RebasedRows, RowPatch, IsKeep, Reports;
    var change := kept.queue[0];
    var c := kept.(queue := kept.queue[1..], pending := Some(Update(x, change.text)));
    assert Captured(kept, edits, c) <==>
           if change.author.Agent? then x == kept.base
           else Rows(x) == RebasedRows(kept.edits, RowPatch(edits, kept.snapshot, change.text), Rows(kept.base),
                                       Rows(change.text));
  }

  // ------------------------------------------------------------------ what was kept stays kept

  /** From the first user edit on, rows move behind what it writes. */
  lemma {:induction false} MovesBehind(es: seq<Edit>, c: int, m: int)
    requires InOrder(es) && Placed(es, c) && es != [] && es[0].was.end <= m
    ensures m + c + RowShift(es, m) >= es[0].now.end
  {
    if es[1..] != [] && es[1..][0].was.end <= m {
      MovesBehind(es[1..], c + es[0].Delta(), m);
    }
  }

  /** Rows that the user leaves alone keep their order. */
  lemma {:induction false} RowsKeepOrder(es: seq<Edit>, c: int, m: int, m': int)
    requires InOrder(es) && Placed(es, c) && Untouched(es, m) && Untouched(es, m') && m < m'
    ensures RowShift(es, m) + m < RowShift(es, m') + m'
  {
    if es != [] {
      assert es[0] in es;
      if m >= es[0].was.end {
        RowsKeepOrder(es[1..], c + es[0].Delta(), m, m');
      } else if m' >= es[0].was.end {
        MovesBehind(es, c, m');
      }
    }
  }

  /** A row that the user leaves alone is not one that the user writes. */
  lemma {:induction false} MovedNotWritten(es: seq<Edit>, c: int, m: int, e: Edit)
    requires InOrder(es) && Placed(es, c) && Untouched(es, m) && e in es
    ensures !e.now.Contains(m + c + RowShift(es, m))
  {
    assert es[0] in es;
    if m < es[0].was.end {
      FirstWritten(es, e);
    } else {
      MovesBehind(es, c, m);
      if e != es[0] {
        assert e in es[1..];
        MovedNotWritten(es[1..], c + es[0].Delta(), m, e);
      }
    }
  }

  lemma {:induction false} FirstWritten(es: seq<Edit>, e: Edit)
    requires InOrder(es) && e in es
    ensures es[0].now.start <= e.now.start
  {
    if e != es[0] {
      assert e in es[1..];
      FirstWritten(es[1..], e);
    }
  }

  lemma {:induction false} WrittenOnce(es: seq<Edit>, e: Edit, e': Edit, n: int)
    requires InOrder(es) && e in es && e' in es && e.now.Contains(n) && e'.now.Contains(n)
    ensures e == e'
  {
    if e in es[1..] && e' in es[1..] {
      WrittenOnce(es[1..], e, e', n);
    } else if e in es[1..] {
      FirstWritten(es[1..], e);
    } else if e' in es[1..] {
      FirstWritten(es[1..], e');
    }
  }

  /** After a keep, the rows of the edits that were kept belong to no edit any more. */
  lemma {:induction false} KeptOutside(p: seq<Edit>, picks: seq<bool>, d: int, k: int, m: int)
    requires Separated(p) && |picks| == |p| && 0 <= k < |p| && picks[k] && p[k].now.Contains(m)
    ensures Outside(Remainder(p, picks, d), m)
  {
    var rest := Remainder(p[1..], picks[1..], if picks[0] then d + p[0].Delta() else d);
    if k == 0 {
      forall r | r in rest
        ensures !r.now.Contains(m)
      {
        RemainderFrom(p[1..], picks[1..], d + p[0].Delta(), r);
        var e :| e in p[1..] && e.now == r.now;
      }
    } else {
      KeptOutside(p[1..], picks[1..], if picks[0] then d + p[0].Delta() else d, k - 1, m);
      assert p[0].now.end < p[k].now.start;
    }
  }

  /** Kept row `m` of the snapshot is not under review in `rest` afterwards: not where it moved to if the
      user left it alone, and not in what replaced it unless that conflicts with an edit of `left`, the
      edits not kept. */
  ghost predicate StaysKept(left: seq<Edit>, es: seq<Edit>, rest: seq<Edit>, m: int) {
    && (Untouched(es, m) ==> Outside(rest, m + RowShift(es, m)))
    && forall e, n :: e in es && e.was.Contains(m) && NoConflict(left, e) && e.now.Contains(n) ==> Outside(rest, n)
  }

  /** When no update is under way, a keep lasts through a change by the user: no kept row is under review
      in the residual unless a conflicting user edit replaced it. */
  lemma KeptRowsStayKept(t: Tracked, range: Range, text: string, kept: Tracked, edits: seq<Edit>, c: Tracked, u: Edit,
                         m: int)
    requires TrackedInv(t, text) && t.pending.None? && KeptSome(t, range, text, kept) && kept.queue != []
    requires kept.queue[0].author.User? && Reports(edits, t.snapshot, kept.queue[0].text) && Captured(kept, edits, c)
    requires u in t.edits && Touches(range, u.now) && u.now.Contains(m)
    ensures var es := RowPatch(edits, t.snapshot, kept.queue[0].text);
            var rest := Residual(kept.edits, es, 0, 0, 0);
            && Leads(rest, Rows(c.pending.value.base), Rows(kept.queue[0].text))
            && StaysKept(kept.edits, es, rest, m)
  {
    hide *;
    var s, s' := t.snapshot, kept.queue[0].text;
    var es := RowPatch(edits, s, s');
    KeepIs(t, range, text, kept);
    KeepChangesLittle(t, text, kept);
    KeepKeepsInv(t, text, kept);
    InvParts(t, text);
    InvParts(kept, text);
    KeptRowsOutside(t, range, text, kept, u, m);
    RowPatchLeads(edits, s, s');
    CapturedRows(kept, edits, c);
    RebaseIsConfined(kept.edits, es, Rows(kept.base), Rows(s), Rows(s'));
    ListsPlaced(kept.edits, es, Rows(kept.base), Rows(s), Rows(s'));
    ConfinedKeeps(kept.edits, es, Residual(kept.edits, es, 0, 0, 0), m);
  }

  lemma KeepIs(t: Tracked, range: Range, text: string, kept: Tracked)
    requires KeptSome(t, range, text, kept)
    ensures IsKeep(t, text, kept)
  {
  }

  lemma CapturedRows(t: Tracked, edits: seq<Edit>, c: Tracked)
    requires t.queue != [] && t.queue[0].author.User? && Captured(t, edits, c)
    ensures c.pending.Some?
    ensures Rows(c.pending.value.base)
            == RebasedRows(t.edits, RowPatch(edits, t.snapshot, t.queue[0].text), Rows(t.base), Rows(t.queue[0].text))
  {
  }

  lemma KeptRowsOutside(t: Tracked, range: Range, text: string, kept: Tracked, u: Edit, m: int)
    requires Separated(t.edits) && KeptSome(t, range, text, kept)
    requires u in t.edits && Touches(range, u.now) && u.now.Contains(m)
    ensures Outside(kept.edits, m)
  {
    hide Rows, Pick, Remainder, Outside, Separated;
    var k :| 0 <= k < |t.edits| && t.edits[k] == u;
    KeptOutside(t.edits, Kept(t.edits, range), 0, k, m);
  }

  lemma ConfinedKeeps(left: seq<Edit>, es: seq<Edit>, rest: seq<Edit>, m: int)
    requires InOrder(es) && Placed(es, 0) && Outside(left, m)
    requires forall q, n :: q in rest && q.now.Contains(n) ==> Justified(left, es, 0, 0, n)
    ensures StaysKept(left, es, rest, m)
  {
    hide InOrder, Placed, NoConflict, RowShift, Untouched;
    if Untouched(es, m) {
      forall q | q in rest
        ensures !q.now.Contains(m + RowShift(es, m))
      {
        if q.now.Contains(m + RowShift(es, m)) {
          NotJustified(left, es, m);
        }
      }
    }
    forall e, n, q | e in es && e.was.Contains(m) && NoConflict(left, e) && e.now.Contains(n) && q in rest
      ensures !q.now.Contains(n)
    {
      if q.now.Contains(n) {
        NotWrittenFreely(left, es, e, n);
      }
    }
  }

  lemma NotJustified(left: seq<Edit>, es: seq<Edit>, m: int)
    requires InOrder(es) && Placed(es, 0) && Outside(left, m) && Untouched(es, m)
    ensures !Justified(left, es, 0, 0, m + RowShift(es, m))
  {
    hide InOrder, Placed, NoConflict, RowShift, Untouched;
    var n := m + RowShift(es, m);
    if WrittenInConflict(left, es, n) {
      var e :| e in es && !NoConflict(left, e) && e.now.Contains(n);
      MovedNotWritten(es, 0, m, e);
    }
    if StillUnderReview(left, es, 0, 0, n) {
      var u, m' :| u in left && u.now.Contains(m') && 0 <= m' && Untouched(es, m') && n == m' + 0 + RowShift(es, m');
      if m < m' {
        RowsKeepOrder(es, 0, m, m');
      } else if m' < m {
        RowsKeepOrder(es, 0, m', m);
      }
    }
  }

  lemma NotWrittenFreely(left: seq<Edit>, es: seq<Edit>, e: Edit, n: int)
    requires InOrder(es) && Placed(es, 0) && e in es && NoConflict(left, e) && e.now.Contains(n)
    ensures !Justified(left, es, 0, 0, n)
  {
    hide InOrder, Placed, NoConflict, RowShift, Untouched;
    if WrittenInConflict(left, es, n) {
      var e' :| e' in es && !NoConflict(left, e') && e'.now.Contains(n);
      WrittenOnce(es, e, e', n);
    }
    if StillUnderReview(left, es, 0, 0, n) {
      var u, m :| u in left && u.now.Contains(m) && 0 <= m && Untouched(es, m) && n == m + 0 + RowShift(es, m);
      MovedNotWritten(es, 0, m, e);
    }
  }

  /** A keep between the capture and the write-back of an update changes nothing of what the
      write-back leaves, but for the queue and the status. */
  lemma WriteBackForgetsKeep(t: Tracked, text: string, kept: Tracked, hunks: seq<Edit>)
    requires t.pending.Some? && IsKeep(t, text, kept)
    ensures WrittenBack(kept, hunks)
            == WrittenBack(t, hunks).(queue := WrittenBack(kept, hunks).queue,
                                      status := WrittenBack(kept, hunks).status)
  {
    hide Rows, Pick, Remainder, Kept, RowPatch;
  }

  /** At rest a keep lasts to the end: after its own update the base is still the kept one. */
  lemma KeepLasts(t: Tracked, text: string, kept: Tracked, captured: Tracked, hunks: seq<Edit>)
    requires TrackedInv(t, text) && t.Quiet() && IsKeep(t, text, kept)
    requires Captured(kept, [], captured) && IsDiff(hunks, captured.pending.value.base, text)
    ensures var after := WrittenBack(captured, hunks);
            after.Quiet() && TrackedInv(after, text) && after.base == kept.base
    ensures kept == KeptWhole(t, text) ==> WrittenBack(captured, hunks) == Fresh(text).(status := kept.status)
  {
    KeepChangesLittle(t, text, kept);
    KeepKeepsInv(t, text, kept);
    hide Rows, Leads, Separated, RealStarts, IsKeep, KeptSome;
    assert kept.queue == [Change(User, text)] && t.snapshot == text;
    NoReport(t.snapshot, text);
    NothingCarried(kept.edits, Rows(kept.base), Rows(text));
    RowsInjective(captured.pending.value.base, kept.base);
    CapturedInv(kept, text, [], captured);
    WrittenBackInv(captured, text, hunks);
    NoReport(text, text);
  }

  lemma NoReport(s: string, t: string)
    ensures RowPatch([], s, t) == []
  {
    assert AllInBounds([], s, t) && LiftAll([], s, t) == [];
  }

  lemma NothingCarried<T>(p: seq<Edit>, a: seq<T>, t: seq<T>)
    ensures RebasedRows(p, [], a, t) == a
  {
    assert Carried(p, [], 0) == [];
    assert a[0..] == a;
  }

  /** One row replaced by one row. */
  function OneRowEdit(): Edit {
    Edit(Range(0, 1), Range(0, 1))
  }

  /** Under review: the agent turned "a" into "b"; an update is under way. */
  function BeforeKeep(): Tracked {
    Tracked("a", "b", [OneRowEdit()], Modified, [], Some(Update("a", "b")))
  }

  function KeptMeanwhile(): Tracked {
    Tracked("b", "b", [], Modified, [Change(User, "b")], Some(Update("a", "b")))
  }

  /** Keeping an edit while the update that would rewrite the base is under way, step by step: the
      edit is folded into the base, and afterwards it is under review again. */
  lemma KeepIsLost()
    ensures TrackedInv(BeforeKeep(), "b") && KeptSome(BeforeKeep(), Range(0, 0), "b", KeptMeanwhile())
    ensures IsDiff([OneRowEdit()], "a", "b")
    ensures WrittenBack(KeptMeanwhile(), [OneRowEdit()]) == BeforeKeep().(queue := [Change(User, "b")], pending := None)
  {
    OneLine('a');
    OneLine('b');
    WholeLeads(Rows("a"), Rows("b"));
    KeepTheOnly();
    CharWhole("a", "b");
    LiftWhole("a", "b");
  }

  lemma KeepTheOnly()
    requires Rows("a") == ["a"] && Rows("b") == ["b"]
    ensures KeptSome(BeforeKeep(), Range(0, 0), "b", KeptMeanwhile())
  {
    hide Rows;
    var e := OneRowEdit();
    assert Kept([e], Range(0, 0)) == [true];
    assert [e][1..] == [] && [true][1..] == [];
    assert Pick([], Rows("a"), Rows("b"), [], 1) == [];
    assert Rows("b")[0..1] == ["b"];
    assert Pick([e], Rows("a"), Rows("b"), [true], 0) == ["b"];
    assert Remainder([e], [true], 0) == [];
  }

  lemma OneLine(c: char)
    requires c != '\n'
    ensures Rows([c]) == [[c]]
  {
    assert [c][1..] == "" && [c] + "" == [c];
    assert Rows("") == [""] && [""][1..] == [];
  }

  lemma CharWhole(s: string, t: string)
    requires |s| == 1 && |t| == 1 && s != t
    ensures IsDiff([OneRowEdit()], s, t)
  {
    var e := OneRowEdit();
    assert Aligned([], s, t, 1, 1);
    Prepend(e, [], s, t, 0, 0);
    assert [e] + [] == [e];
  }

  lemma LiftWhole(s: string, t: string)
    requires |s| == 1 && |t| == 1 && Rows(s) == [s] && Rows(t) == [t]
    ensures RowPatch([OneRowEdit()], s, t) == [OneRowEdit()]
  {
    var e := OneRowEdit();
    assert s[..0] == "" && t[..0] == "" && s[..1] == s && t[..1] == t;
    assert Rows("") == [""];
    assert PointAt(s, 0) == Point(0, 0) && PointAt(s, 1) == Point(0, 1);
    assert PointAt(t, 0) == Point(0, 0) && PointAt(t, 1) == Point(0, 1);
    assert LineLen(s, 0) == 1;
    assert Lift(e, s, t) == e;
    assert LiftAll([e], s, t) == [e] by {
      assert [e][1..] == [];
    }
    assert Coalesce([e]) == [e] by {
      assert [e][1..] == [];
    }
  }

  // ------------------------------------------------------------------ when a rejection settles

  /** At rest, edits are rejected; the buffer becomes `text`, the log notices, captures the change and
      writes it back. */
  ghost predicate Rejection(t: Tracked, kept: seq<bool>, text: string, captured: Tracked, hunks: seq<Edit>) {
    && t.Quiet() && TrackedInv(t, t.snapshot) && |kept| == |t.edits|
    && RejectingGives(t.base, t.snapshot, t.edits, Negated(kept), text)
    && Captured(t.Schedule(User, text), RejectionReport(Remainder(t.edits, kept, 0), t.snapshot, text), captured)
    && IsDiff(hunks, captured.pending.value.base, text)
  }

  /** How much longer each rejection that slips, and is not caught, makes the base. */
  function DriftsOf(t: Tracked, kept: seq<bool>): seq<int>
    requires |kept| == |t.edits|
  {
    Drifts(t.edits, kept, Rows(t.base), Rows(t.snapshot))
  }

  /** The rows of the base with another copy of some of them for each such rejection. */
  ghost function Repeated(t: Tracked, kept: seq<bool>): seq<Row>
    requires |kept| == |t.edits|
  {
    Overlay(Repeats(t.edits, kept, Rows(t.base), Rows(t.snapshot), false), Rows(t.base), Rows(t.base), 0)
  }

  /** Rejecting any of the unreviewed edits, from the buffer to the write-back. The base afterwards has
      another copy of some rows for each rejection that slips and is not caught. It is the base before if
      each of these replaces as many rows as there were; and if they do not partly lengthen and partly
      shorten it, only then. When all edits were rejected, nothing is left to review exactly if the base is
      the same. */
  lemma RejectionSettles(t: Tracked, kept: seq<bool>, text: string, captured: Tracked, hunks: seq<Edit>)
    requires Rejection(t, kept, text, captured, hunks)
    ensures Reports(RejectionReport(Remainder(t.edits, kept, 0), t.snapshot, text), t.snapshot, text)
    ensures |kept| == |t.edits| && Rows(WrittenBack(captured, hunks).base) == Repeated(t, kept)
    ensures WrittenBack(captured, hunks).base == t.base <==> Repeated(t, kept) == Rows(t.base)
    ensures |Rows(WrittenBack(captured, hunks).base)| == |Rows(t.base)| + Sum(DriftsOf(t, kept))
    ensures AllZero(DriftsOf(t, kept)) ==> WrittenBack(captured, hunks).base == t.base
    ensures OneSided(DriftsOf(t, kept)) ==>
            (WrittenBack(captured, hunks).base == t.base <==> AllZero(DriftsOf(t, kept)))
    ensures text == t.base ==>
            (WrittenBack(captured, hunks).edits == [] <==> WrittenBack(captured, hunks).base == t.base)
  {
    hide *;
    var a, b := Rows(t.base), Rows(t.snapshot);
    RejectionParts(t, kept, text, captured, hunks);
    RejectionReported(t.edits, kept, t.base, t.snapshot, text);
    ReportOfRejection(t.edits, kept, t.base, t.snapshot, text);
    RejectionDrift(t.edits, kept, a, b, Rows(text));
    CapturedReport(t, kept, text, captured);
    RepeatedIs(t, kept);
    var l := DriftsOf(t, kept);
    BaseByRows(captured, hunks, t.base, a, Rows(captured.pending.value.base), l);
    NothingLeft(captured, hunks, text, captured.pending.value.base);
  }

  /** In terms of steps: at rest the user rejects edits of buffer `b`, the change is captured, and an update
      can be written back. When something is rejected at all, that is such a rejection, of the edits that
      the ranges touch. */
  lemma RejectionInSteps(s: State, b: int, ranges: seq<Range>, s1: State, kept: seq<bool>, report: seq<Edit>,
                         s2: State, hunks: seq<Edit>)
    requires Inv(s) && b in s.log && s.log[b].Quiet() && s.log[b].status.Modified?
    requires var at := AllCharsOf(s.log[b].edits, s.log[b].snapshot);
             && Enabled(s, Reject(b, at, ranges)) && Next(s, Reject(b, at, ranges), s1)
             && Negated(kept) == Scan(AllRowsAt(s.log[b].snapshot, at), ranges)
    requires b in s1.texts && b in s1.log && s1.log[b] != s.log[b] && |kept| == |s.log[b].edits|
    requires report == RejectionReport(Remainder(s.log[b].edits, kept, 0), s.log[b].snapshot, s1.texts[b])
    requires Enabled(s1, Capture(b, report)) && Next(s1, Capture(b, report), s2)
    requires Enabled(s2, WriteBack(b, hunks))
    ensures b in s2.log && Rejection(s.log[b], kept, s1.texts[b], s2.log[b], hunks)
  {
    hide Rows, RebasedRows, RowPatch, Leads, Separated, RealStarts, IsDiff, Reports, Scan, AllRowsAt, AllCharsOf,
         Reverts, Fits, ApplyAll, AllTrivial, InText, RejectionReport, Remainder, Negated;
  }

  lemma RejectionParts(t: Tracked, kept: seq<bool>, text: string, captured: Tracked, hunks: seq<Edit>)
    requires Rejection(t, kept, text, captured, hunks)
    ensures |kept| == |t.edits| && t.queue == [] && t.pending.None?
    ensures Leads(t.edits, Rows(t.base), Rows(t.snapshot)) && Separated(t.edits)
    ensures RealStarts(t.edits, Rows(t.base), Rows(t.snapshot))
    ensures RejectingGives(t.base, t.snapshot, t.edits, Negated(kept), text)
    ensures t.Schedule(User, text).queue == [Change(User, text)]
    ensures Captured(t.Schedule(User, text), RejectionReport(Remainder(t.edits, kept, 0), t.snapshot, text), captured)
    ensures captured.pending.Some? && captured.pending.value.text == text
    ensures IsDiff(hunks, captured.pending.value.base, text)
    ensures DriftsOf(t, kept) == Drifts(t.edits, kept, Rows(t.base), Rows(t.snapshot))
  {
    hide Rows, Leads, Separated, RealStarts, RejectingGives, RejectionReport, IsDiff, Drifts, RebasedRows, RowPatch;
  }

  lemma RepeatedIs(t: Tracked, kept: seq<bool>)
    requires |kept| == |t.edits|
    ensures Repeated(t, kept)
            == Overlay(Repeats(t.edits, kept, Rows(t.base), Rows(t.snapshot), false), Rows(t.base), Rows(t.base), 0)
  {
  }

  lemma CapturedReport(t: Tracked, kept: seq<bool>, text: string, captured: Tracked)
    requires |kept| == |t.edits| && t.Schedule(User, text).queue == [Change(User, text)]
    requires var cs := RejectionReport(Remainder(t.edits, kept, 0), t.snapshot, text);
             && Captured(t.Schedule(User, text), cs, captured)
             && Leads(cs, t.snapshot, text) && Separated(cs) && AllInBounds(cs, t.snapshot, text)
             && Coalesce(LiftAll(cs, t.snapshot, text))
                == RejectionEdits(t.edits, kept, Rows(text), Rows(t.snapshot), 0)
    ensures Rows(captured.pending.value.base)
            == RebasedRows(t.edits, RejectionEdits(t.edits, kept, Rows(text), Rows(t.snapshot), 0), Rows(t.base),
                           Rows(text))
    ensures Reports(RejectionReport(Remainder(t.edits, kept, 0), t.snapshot, text), t.snapshot, text)
  {
    hide Rows, Leads, Separated, AllInBounds, RejectionReport, RejectionEdits, RebasedRows, Coalesce, LiftAll,
         Remainder;
  }

  lemma BaseByRows(captured: Tracked, hunks: seq<Edit>, base: string, a: seq<Row>, r: seq<Row>, l: seq<int>)
    requires captured.pending.Some? && a == Rows(base) && r == Rows(captured.pending.value.base)
    requires |r| == |a| + Sum(l)
    ensures Rows(WrittenBack(captured, hunks).base) == r && |r| == |a| + Sum(l)
    ensures WrittenBack(captured, hunks).base == base <==> r == a
  {
    hide Rows, Sum, RowPatch;
    if r == a {
      RowsInjective(base, captured.pending.value.base);
    }
  }

  lemma NothingLeft(captured: Tracked, hunks: seq<Edit>, text: string, base: string)
    requires captured.pending.Some? && captured.pending.value.text == text && captured.pending.value.base == base
    requires IsDiff(hunks, base, text)
    ensures WrittenBack(captured, hunks).base == base
    ensures WrittenBack(captured, hunks).edits == [] <==> base == text
  {
    hide Rows, Reports, Coalesce, LiftAll, AllInBounds;
    NoReport(base, text);
    RowPatchLeads(hunks, base, text);
    if RowPatch(hunks, base, text) == [] {
      AllOut(Rows(base));
      AllOut(Rows(text));
      RowsInjective(base, text);
    }
  }

  // ------------------------------------------------------------------ examples

  /** A base with three blank rows in the middle, and the snapshot after the agent deleted one. */
  const ThreeBlanks := "p\n\n\n\nb"
  const TwoBlanks := "p\n\n\nb"

  lemma BlankRows()
    ensures Rows(ThreeBlanks) == ["p", "", "", "", "b"] && Rows(TwoBlanks) == ["p", "", "", "b"]
  {
    OneLine('b');
    BreakBefore("b");
    BreakBefore("\nb");
    BreakBefore("\n\nb");
    BreakBefore("\n\n\nb");
    LetterBefore("\n\n\n\nb");
    LetterBefore("\n\n\nb");
    assert "p" + "" == "p";
  }

  lemma BreakBefore(s: string)
    ensures Rows("\n" + s) == [""] + Rows(s)
  {
    assert ("\n" + s)[1..] == s;
  }

  lemma LetterBefore(s: string)
    ensures Rows("p" + s) == ["p" + Rows(s)[0]] + Rows(s)[1..]
  {
    assert ("p" + s)[1..] == s;
  }

  /** The line hunk that deletes blank row `row`. */
  function BlankHunk(row: int): Edit {
    RowsReplaced(ThreeBlanks, TwoBlanks, Edit(Range(row, row), Range(row, row + 1)))
  }

  /** Every line hunk that deletes one of the blank rows is a diff of the two texts. Deleting the first
      is lifted to the second, where a rejection slips; deleting the last is lifted to itself, where
      it does not. */
  lemma BlankHunks()
    ensures IsDiff([BlankHunk(1)], ThreeBlanks, TwoBlanks) && IsDiff([BlankHunk(3)], ThreeBlanks, TwoBlanks)
    ensures RowPatch([BlankHunk(1)], ThreeBlanks, TwoBlanks) == [Edit(Range(2, 3), Range(2, 2))]
    ensures RowPatch([BlankHunk(3)], ThreeBlanks, TwoBlanks) == [Edit(Range(3, 4), Range(3, 3))]
    ensures Drifts([Edit(Range(2, 3), Range(2, 2))], [false], Rows(ThreeBlanks), Rows(TwoBlanks)) == [1]
    ensures Drifts([Edit(Range(3, 4), Range(3, 3))], [false], Rows(ThreeBlanks), Rows(TwoBlanks)) == []
  {
    hide *;
    BlankRows();
    BlankHunkIs(1);
    BlankHunkIs(3);
    BlankLift(1, Edit(Range(2, 3), Range(2, 2)), Rows(ThreeBlanks), Rows(TwoBlanks));
    BlankLift(3, Edit(Range(3, 4), Range(3, 3)), Rows(ThreeBlanks), Rows(TwoBlanks));
  }

  lemma BlankLift(row: int, u: Edit, a: seq<Row>, b: seq<Row>)
    requires a == ["p", "", "", "", "b"] && b == ["p", "", "", "b"]
    requires (row == 1 && u == Edit(Range(2, 3), Range(2, 2))) || (row == 3 && u == Edit(Range(3, 4), Range(3, 3)))
    ensures Coalesce(LiftedRejections([Edit(Range(row, row), Range(row, row + 1))], b, a)) == [u]
    ensures Drifts([u], [false], a, b) == if row == 1 then [1] else []
  {
    SingleLift(Edit(Range(row, row), Range(row, row + 1)), b, a);
    SingleDrift(u, a, b);
    hide Drifts, Coalesce, LiftedRejections;
  }

  lemma SingleDrift(u: Edit, a: seq<Row>, b: seq<Row>)
    ensures Drifts([u], [false], a, b) == if Slips(u, a, b) then [-u.Delta()] else []
  {
    assert [u][1..] == [] && [false][1..] == [];
    assert Repeats([], [], a, b, CatchesNext([u], [false], a, b)) == [];
    hide Slips, Shifted;
    assert [RepeatOf(u, b)][1..] == [] && RepeatOf(u, b).Delta() == -u.Delta();
  }

  lemma SingleLift(v: Edit, t: seq<Row>, b: seq<Row>)
    ensures Coalesce(LiftedRejections([v], t, b)) == [LiftedRejection(v, t, b)]
  {
    assert [v][1..] == [];
    var e := LiftedRejection(v, t, b);
    assert LiftedRejections([v], t, b) == [e] && [e][1..] == [];
  }

  lemma BlankHunkIs(row: int)
    requires row == 1 || row == 3
    requires Rows(ThreeBlanks) == ["p", "", "", "", "b"] && Rows(TwoBlanks) == ["p", "", "", "b"]
    ensures IsDiff([BlankHunk(row)], ThreeBlanks, TwoBlanks)
    ensures RowPatch([BlankHunk(row)], ThreeBlanks, TwoBlanks)
            == Coalesce(LiftedRejections([Edit(Range(row, row), Range(row, row + 1))], Rows(TwoBlanks),
                                         Rows(ThreeBlanks)))
  {
    hide Rows, LiftedRejections, Coalesce, IsDiff, RowPatch;
    var v := Edit(Range(row, row), Range(row, row + 1));
    BlankPatch(v, row);
    SingleReport(v);
    OffsetsApart(ThreeBlanks, row, row + 1);
    assert ThreeBlanks != TwoBlanks by {
      assert |ThreeBlanks| != |TwoBlanks|;
    }
    LineHunks([v], ThreeBlanks, TwoBlanks);
  }

  lemma SingleReport(v: Edit)
    ensures RejectionReport([v], ThreeBlanks, TwoBlanks) == [RowsReplaced(ThreeBlanks, TwoBlanks, v)]
  {
    assert [v][1..] == [];
  }

  lemma BlankPatch(v: Edit, row: int)
    requires (row == 1 || row == 3) && v == Edit(Range(row, row), Range(row, row + 1))
    requires Rows(ThreeBlanks) == ["p", "", "", "", "b"] && Rows(TwoBlanks) == ["p", "", "", "b"]
    ensures Aligned([v], Rows(TwoBlanks), Rows(ThreeBlanks), 0, 0) && InOrder([v])
    ensures AllReal([v], Rows(TwoBlanks), Rows(ThreeBlanks))
  {
    hide Rows;
    var t, b := Rows(TwoBlanks), Rows(ThreeBlanks);
    assert t[0..row] == b[0..row] && t[row..] == b[row + 1..];
    assert Aligned([], t, b, row, row + 1);
    Prepend(v, [], t, b, 0, 0);
    assert [v] + [] == [v] && [v][1..] == [] && InOrder([v][1..]);
  }

  /** The agent deletes one of three blank rows, and the user rejects that. If the diff reported the
      first of them as deleted, the base ends up with a blank row too many, which is shown as deleted;
      if it reported the last, the rejection settles. */
  lemma RejectedBlankComesBack(t: Tracked, row: int, captured: Tracked, hunks: seq<Edit>)
    requires row == 1 || row == 3
    requires t == Tracked(ThreeBlanks, TwoBlanks, RowPatch([BlankHunk(row)], ThreeBlanks, TwoBlanks), Modified, [],
                          None)
    requires Rejection(t, AllOf(|t.edits|, false), ThreeBlanks, captured, hunks)
    ensures row == 1 ==> |Rows(WrittenBack(captured, hunks).base)| == 6 && WrittenBack(captured, hunks).edits != []
    ensures row == 3 ==> WrittenBack(captured, hunks).base == ThreeBlanks && WrittenBack(captured, hunks).edits == []
  {
    BlankHunks();
    BlankRows();
    hide *;
    OneKept(t.edits);
    DriftsAre(t, [false]);
    RejectionSettles(t, [false], ThreeBlanks, captured, hunks);
    SumOfOne(1);
    NoDrift();
  }

  lemma OneKept(l: seq<Edit>)
    ensures |l| == 1 ==> AllOf(|l|, false) == [false]
  {
  }

  lemma DriftsAre(t: Tracked, kept: seq<bool>)
    ensures |kept| == |t.edits| ==> DriftsOf(t, kept) == Drifts(t.edits, kept, Rows(t.base), Rows(t.snapshot))
  {
  }

  lemma SumOfOne(x: int)
    ensures Sum([x]) == x
  {
    assert [x][1..] == [];
  }

  lemma NoDrift()
    ensures Sum([]) == 0 && AllZero([])
  {
  }

  /** At rest after the agent deleted a blank row, rejecting that gives the base back, so the rejection
      above does take place. */
  lemma BlankRejection(t: Tracked, row: int)
    requires row == 1 || row == 3
    requires t == Tracked(ThreeBlanks, TwoBlanks, RowPatch([BlankHunk(row)], ThreeBlanks, TwoBlanks), Modified, [],
                          None)
    ensures t.Quiet() && TrackedInv(t, t.snapshot)
    ensures RejectingGives(t.base, t.snapshot, t.edits, AllOf(|t.edits|, true), t.base)
  {
    BlankHunks();
    hide Rows, Leads, Separated, RealStarts, RowPatch, RejectingGives;
    RowPatchLeads([BlankHunk(row)], ThreeBlanks, TwoBlanks);
    RejectAllIsBase(t.base, t.snapshot, t.edits);
  }

  /** Blank rows but for the last, which the agent replaced. It also deleted a blank row and inserted
      another. */
  const BlanksX := "\n\n\n\n\n\n\nx"
  const BlanksY := "\n\n\n\n\n\n\ny"

  /** The line hunks, from the snapshot to the base: the first row was deleted, the third inserted. */
  function CancelHunks(): seq<Edit> {
    [Edit(Range(0, 0), Range(0, 1)), Edit(Range(2, 3), Range(3, 3)), Edit(Range(7, 8), Range(7, 8))]
  }

  function CancelEdits(): seq<Edit> {
    [Edit(Range(1, 2), Range(1, 1)), Edit(Range(4, 4), Range(3, 4)), Edit(Range(7, 8), Range(7, 8))]
  }

  function CancelState(): Tracked {
    Tracked(BlanksX, BlanksY, CancelEdits(), Modified, [], None)
  }

  /** A line hunk list that a diff of the two texts may report is lifted to these edits. */
  lemma CancelPatch()
    ensures var cs := RejectionReport(CancelHunks(), BlanksX, BlanksY);
            IsDiff(cs, BlanksX, BlanksY) && RowPatch(cs, BlanksX, BlanksY) == CancelEdits()
  {
    hide *;
    CancelRows();
    var a, b := Rows(BlanksX), Rows(BlanksY);
    CancelHunksLead(a, b);
    CancelHunksLift(a, b);
    CancelTexts();
    LineHunks(CancelHunks(), BlanksX, BlanksY);
  }

  lemma CancelRows()
    ensures Rows(BlanksX) == ["", "", "", "", "", "", "", "x"] && Rows(BlanksY) == ["", "", "", "", "", "", "", "y"]
  {
    hide *;
    OneLine('x');
    OneLine('y');
    SevenBreaks("x");
    SevenBreaks("y");
    BlanksAre();
  }

  lemma BlanksAre()
    ensures BlanksX == "\n\n\n\n\n\n\n" + "x" && BlanksY == "\n\n\n\n\n\n\n" + "y"
  {
  }

  lemma SevenBreaks(s: string)
    ensures Rows("\n\n\n\n\n\n\n" + s) == ["", "", "", "", "", "", ""] + Rows(s)
  {
    hide Rows;
    TwoBreaks("\n" + s);
    TwoBreaks("\n\n\n" + s);
    TwoBreaks("\n\n\n\n\n" + s);
    BreakBefore(s);
    assert "\n\n" + ("\n" + s) == "\n\n\n" + s && "\n\n" + ("\n\n\n" + s) == "\n\n\n\n\n" + s;
    assert "\n\n" + ("\n\n\n\n\n" + s) == "\n\n\n\n\n\n\n" + s;
  }

  lemma TwoBreaks(s: string)
    ensures Rows("\n\n" + s) == ["", ""] + Rows(s)
  {
    BreakBefore(s);
    BreakBefore("\n" + s);
    hide Rows;
    assert "\n" + ("\n" + s) == "\n\n" + s;
  }

  lemma CancelTexts()
    ensures BlanksX != BlanksY
    ensures forall c :: c in RejectionReport(CancelHunks(), BlanksX, BlanksY) ==> NonEmpty(c)
  {
    CancelRows();
    assert BlanksX[7] != BlanksY[7];
    hide Rows, Offset;
    OffsetsApart(BlanksX, 0, 1);
    OffsetsApart(BlanksY, 2, 3);
    RowStart(BlanksX, 7);
    OffsetPastEnd(BlanksX, 8);
    var cs := RejectionReport(CancelHunks(), BlanksX, BlanksY);
    forall c | c in cs
      ensures NonEmpty(c)
    {
      var k :| 0 <= k < 3 && c == cs[k];
    }
  }

  lemma ThreeTails<T>(x: T, y: T, z: T)
    ensures [x, y, z][1..] == [y, z] && [y, z][1..] == [z] && [z][1..] == []
    ensures [x] + [y, z] == [x, y, z] && [y] + [z] == [y, z] && [z] + [] == [z]
  {
  }

  lemma CancelHunksLead(a: seq<Row>, b: seq<Row>)
    requires a == ["", "", "", "", "", "", "", "x"] && b == ["", "", "", "", "", "", "", "y"]
    ensures Aligned(CancelHunks(), b, a, 0, 0) && InOrder(CancelHunks()) && AllReal(CancelHunks(), b, a)
  {
    var l := CancelHunks();
    ThreeTails(l[0], l[1], l[2]);
    assert Aligned([], b, a, 8, 8);
    hide Aligned;
    Prepend(l[2], [], b, a, 3, 3);
    Prepend(l[1], [l[2]], b, a, 0, 1);
    Prepend(l[0], [l[1], l[2]], b, a, 0, 0);
  }

  lemma CancelHunksLift(a: seq<Row>, b: seq<Row>)
    requires a == ["", "", "", "", "", "", "", "x"] && b == ["", "", "", "", "", "", "", "y"]
    ensures Coalesce(LiftedRejections(CancelHunks(), b, a)) == CancelEdits()
  {
    var l, p := CancelHunks(), CancelEdits();
    ThreeTails(l[0], l[1], l[2]);
    ThreeTails(p[0], p[1], p[2]);
    assert LiftedRejection(l[0], b, a) == p[0] && LiftedRejection(l[1], b, a) == p[1]
           && LiftedRejection(l[2], b, a) == p[2];
    hide LiftedRejection;
    assert LiftedRejections([], b, a) == [];
    assert LiftedRejections([l[2]], b, a) == [p[2]];
    assert LiftedRejections([l[1], l[2]], b, a) == [p[1], p[2]];
    assert LiftedRejections(l, b, a) == p;
    hide LiftedRejections;
    assert CoalesceFrom(p[2], []) == [p[2]];
    assert CoalesceFrom(p[1], [p[2]]) == [p[1], p[2]];
  }

  /** Whole rows replaced, as a line diff reports them. */
  lemma LineHunks(q: seq<Edit>, s: string, text: string)
    requires Aligned(q, Rows(text), Rows(s), 0, 0) && InOrder(q) && AllReal(q, Rows(text), Rows(s)) && s != text
    requires forall c :: c in RejectionReport(q, s, text) ==> NonEmpty(c)
    ensures IsDiff(RejectionReport(q, s, text), s, text)
    ensures RowPatch(RejectionReport(q, s, text), s, text) == Coalesce(LiftedRejections(q, Rows(text), Rows(s)))
  {
    hide Rows, LiftedRejections, Coalesce, RejectionReport, Aligned, InOrder, AllReal, NonEmpty;
    ReportLifted(q, s, text);
    ReportAligned(q, s, text, 0, 0);
    EmptyOffset(s);
    EmptyOffset(text);
    InOrderSeparated(RejectionReport(q, s, text));
  }

  /** Rejecting the first two edits and keeping the last: both rejections slip, one lengthens the base and
      one shortens it, and among blank rows the base stays the same. */
  lemma DriftsCanCancel(captured: Tracked, hunks: seq<Edit>)
    requires Rejection(CancelState(), [false, false, true], BlanksY, captured, hunks)
    ensures DriftsOf(CancelState(), [false, false, true]) == [1, -1]
    ensures WrittenBack(captured, hunks).base == BlanksX
  {
    hide *;
    var kept := [false, false, true];
    CancelRows();
    CancelStateIs();
    RejectionSettles(CancelState(), kept, BlanksY, captured, hunks);
    DriftsAre(CancelState(), kept);
    RepeatedIs(CancelState(), kept);
    DriftsAreDeltas(CancelEdits(), kept, Rows(BlanksX), Rows(BlanksY));
    CancelRepeats(Rows(BlanksX), Rows(BlanksY));
    CancelOverlay(Rows(BlanksX));
  }

  lemma CancelStateIs()
    ensures CancelState() == Tracked(BlanksX, BlanksY, CancelEdits(), Modified, [], None) && |CancelEdits()| == 3
  {
  }

  lemma CancelRepeats(a: seq<Row>, b: seq<Row>)
    requires a == ["", "", "", "", "", "", "", "x"] && b == ["", "", "", "", "", "", "", "y"]
    ensures |CancelEdits()| == 3
    ensures Repeats(CancelEdits(), [false, false, true], a, b, false)
            == [Edit(Range(3, 3), Range(2, 3)), Edit(Range(4, 5), Range(5, 5))]
    ensures Deltas([Edit(Range(3, 3), Range(2, 3)), Edit(Range(4, 5), Range(5, 5))]) == [1, -1]
  {
    var p := CancelEdits();
    ThreeTails(p[0], p[1], p[2]);
    ThreeTails(false, false, true);
    assert Slips(p[0], a, b) && Slips(p[1], a, b) && Shifted(p[1], a, b);
    assert RepeatOf(p[0], b) == Edit(Range(3, 3), Range(2, 3)) && RepeatOf(p[1], b) == Edit(Range(4, 5), Range(5, 5));
    hide Slips, Shifted, RepeatOf;
    RepeatsHead(p, [false, false, true], a, b, false);
    RepeatsHead([p[1], p[2]], [false, true], a, b, CatchesNext(p, [false, false, true], a, b));
    RepeatsHead([p[2]], [true], a, b, CatchesNext([p[1], p[2]], [false, true], a, b));
    hide Repeats;
    var m := [Edit(Range(3, 3), Range(2, 3)), Edit(Range(4, 5), Range(5, 5))];
    assert m[1..] == [m[1]] && m[1..][1..] == [];
  }

  lemma CancelOverlay(a: seq<Row>)
    requires a == ["", "", "", "", "", "", "", "x"]
    ensures Overlay([Edit(Range(3, 3), Range(2, 3)), Edit(Range(4, 5), Range(5, 5))], a, a, 0) == a
  {
    var r, w := Edit(Range(3, 3), Range(2, 3)), Edit(Range(4, 5), Range(5, 5));
    OverlayHead(r, [w], a, a, 0);
    OverlayHead(w, [], a, a, 3);
    OverlayEnds(a, a, 5);
    assert [r] + [w] == [r, w] && [w] + [] == [w];
    hide *;
    CancelSlices(a, a);
    assert a[0..3] + a[2..3] + (a[3..4] + a[5..5] + a[5..]) == a;
  }

  lemma CancelSlices(a: seq<Row>, b: seq<Row>)
    requires a == ["", "", "", "", "", "", "", "x"] && |b| == 8
    ensures a[0..1] == a[1..2] == a[2..3] == a[3..4] == [""] && a[4..4] == a[5..5] == []
    ensures a[2..4] == ["", ""] && a[0..3] == a[4..7] == ["", "", ""] && a[5..] == ["", "", "x"] && b[7..8] == [b[7]]
  {
  }

  /** That rejection takes place: at rest, it gives the snapshot again. */
  lemma CancelRejection()
    ensures CancelState().Quiet() && TrackedInv(CancelState(), CancelState().snapshot)
    ensures RejectingGives(BlanksX, BlanksY, CancelEdits(), Negated([false, false, true]), BlanksY)
  {
    hide *;
    var kept, p, a, b := [false, false, true], CancelEdits(), Rows(BlanksX), Rows(BlanksY);
    var cs := RejectionReport(CancelHunks(), BlanksX, BlanksY);
    CancelPatch();
    DiffReports(cs, BlanksX, BlanksY);
    RowPatchLeads(cs, BlanksX, BlanksY);
    RestingState(BlanksX, BlanksY, p);
    CancelStateIs();
    CancelRows();
    CancelPick(a, b);
    KeepAndRejectMeet(BlanksX, BlanksY, p, kept, BlanksY);
  }

  lemma DiffReports(cs: seq<Edit>, s: string, t: string)
    requires IsDiff(cs, s, t)
    ensures Reports(cs, s, t)
  {
  }

  lemma RestingState(base: string, s: string, p: seq<Edit>)
    requires Leads(p, Rows(base), Rows(s)) && Separated(p) && RealStarts(p, Rows(base), Rows(s))
    ensures var t := Tracked(base, s, p, Modified, [], None); t.Quiet() && TrackedInv(t, s)
  {
  }

  lemma CancelPick(a: seq<Row>, b: seq<Row>)
    requires a == ["", "", "", "", "", "", "", "x"] && b == ["", "", "", "", "", "", "", "y"]
    ensures |CancelEdits()| == 3 && Pick(CancelEdits(), a, b, [false, false, true], 0) == b
  {
    var p := CancelEdits();
    ThreeTails(p[0], p[1], p[2]);
    ThreeTails(false, false, true);
    assert Pick([], a, b, [], 8) == [];
    assert Pick([p[2]], a, b, [true], 4) == a[4..7] + b[7..8] + [];
    assert Pick([p[1], p[2]], a, b, [false, true], 2) == a[2..4] + a[4..4] + (a[4..7] + b[7..8] + []);
    assert Pick(p, a, b, [false, false, true], 0) == a[0..1] + a[1..2] + (a[2..4] + a[4..4] + (a[4..7] + b[7..8] + []));
    hide *;
    CancelSlices(a, b);
    assert a[0..1] + a[1..2] + (a[2..4] + a[4..4] + (a[4..7] + b[7..8] + [])) == b;
  }
}
