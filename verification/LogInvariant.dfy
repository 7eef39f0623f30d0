/** What holds in every run of the action log. */
module LogInvariant {
  import opened Options
  import opened Patches
  import opened Ropes
  import opened Rebase
  import opened RowLifting
  import opened Buffers
  import opened Splicing
  import opened Review
  import opened Commits
  import opened LogStates

  // ------------------------------------------------------------------ one tracked buffer

  lemma FreshInv(text: string)
    ensures TrackedInv(Fresh(text), text)
  {
  }

  lemma NewInv(text: string, existing: Option<string>)
    ensures TrackedInv(New(text, existing), text)
  {
    assert Rows("") == [""];
    WholeLeads(Rows(""), Rows(text));
    hide Leads, Separated, RealStarts, Rows;
  }

  lemma WholeLeads(a: seq<Row>, b: seq<Row>)
    requires a != [] && b != []
    ensures var p := [Edit(Range(0, |a|), Range(0, |b|))]; Leads(p, a, b) && Separated(p) && RealStarts(p, a, b)
  {
    var e := Edit(Range(0, |a|), Range(0, |b|));
    assert Aligned([], a, b, |a|, |b|);
    Prepend(e, [], a, b, 0, 0);
    assert [e] + [] == [e];
  }

  lemma ScheduleInv(t: Tracked, text: string, author: Author, text': string)
    requires TrackedInv(t, text)
    ensures TrackedInv(t.Schedule(author, text'), text')
  {
    hide Rows;
  }

  lemma StatusInv(t: Tracked, text: string, status: Status)
    requires TrackedInv(t, text)
    ensures TrackedInv(t.(status := status), text)
  {
    hide Rows;
  }

  lemma CapturedInv(t: Tracked, text: string, edits: seq<Edit>, t': Tracked)
    requires TrackedInv(t, text) && t.queue != [] && t.pending.None? && Captured(t, edits, t')
    ensures TrackedInv(t', text)
  {
    hide Rows, Leads, Separated, RealStarts, RebasedRows;
    assert t.queue == [t.queue[0]] + t.queue[1..];
  }

  lemma CommitInv(t: Tracked, text: string, gitBase: string, committed: seq<Edit>, t': Tracked)
    requires TrackedInv(t, text) && t.pending.None? && CommitCaptured(t, gitBase, committed, t')
    ensures TrackedInv(t', text)
  {
    hide Rows, Leads, Separated, RealStarts, Pick, Accepted;
  }

  /** A write-back installs whatever the pending update holds: the invariant of the unreviewed edits
      is established anew, not inherited. */
  lemma WrittenBackInv(t: Tracked, text: string, hunks: seq<Edit>)
    requires t.Latest() == text && t.pending.Some?
    requires IsDiff(hunks, t.pending.value.base, t.pending.value.text)
    ensures TrackedInv(WrittenBack(t, hunks), text)
  {
    RowPatchLeads(hunks, t.pending.value.base, t.pending.value.text);
    hide Rows, Leads, Separated, RealStarts, RowPatch, IsDiff;
  }

  lemma RowPatchLeads(cs: seq<Edit>, s: string, t: string)
    requires Reports(cs, s, t)
    ensures var p := RowPatch(cs, s, t); Leads(p, Rows(s), Rows(t)) && Separated(p) && RealStarts(p, Rows(s), Rows(t))
  {
    LiftLeads(cs, s, t);
    hide Rows, Leads, Separated, RealStarts, Coalesce, LiftAll;
  }

  lemma KeptInv(t: Tracked, text: string, range: Range, t': Tracked)
    requires TrackedInv(t, text) && KeptSome(t, range, text, t')
    ensures TrackedInv(t', text)
  {
    RemainderKeepsShape(t.edits, Rows(t.base), Rows(t.snapshot), Kept(t.edits, range));
    hide Rows, Leads, Separated, RealStarts, Pick, Remainder, Kept;
  }

  lemma KeptWholeInv(t: Tracked, text: string)
    ensures TrackedInv(KeptWhole(t, text), text)
  {
    hide Rows;
  }

  // ------------------------------------------------------------------ the whole log

  lemma InvAt(s: State, b: int)
    requires Inv(s) && b in s.log
    ensures b in s.texts && TrackedInv(s.log[b], s.texts[b])
  {
  }

  /** One tracked buffer and its text change, the others stay. */
  lemma PutInv(s: State, b: int, text: string, t: Tracked)
    requires Inv(s) && TrackedInv(t, text)
    ensures Inv(State(s.texts[b := text], s.log[b := t]))
  {
    hide TrackedInv;
  }

  lemma PutSameText(s: State, b: int, t: Tracked)
    requires Inv(s) && b in s.texts && TrackedInv(t, s.texts[b])
    ensures Inv(s.(log := s.log[b := t]))
  {
    hide TrackedInv;
  }

  /** A buffer is no longer tracked; its text may change. */
  lemma DropInv(s: State, b: int, text: string)
    requires Inv(s)
    ensures Inv(State(s.texts[b := text], s.log - {b})) && Inv(s.(log := s.log - {b}))
  {
    hide TrackedInv;
  }

  lemma TrackInv(s: State, b: int, text: string)
    requires Inv(s) && (b in s.log || (b in s.texts && s.texts[b] == text))
    ensures Inv(s.(log := TrackIfAbsent(s.log, b, text)))
  {
    FreshInv(text);
    hide TrackedInv;
  }

  /** An edit that the log is told of, or notices. */
  lemma NoticedInv(s: State, b: int, text: string)
    requires Inv(s)
    ensures Inv(State(s.texts[b := text], Noticed(s.log, b, text)))
  {
    if b in s.log {
      InvAt(s, b);
      ScheduleInv(s.log[b], s.texts[b], User, text);
      PutInv(s, b, text, s.log[b].Schedule(User, text));
    } else {
      hide TrackedInv;
    }
  }

  lemma AgentEditInv(s: State, b: int, text: string, s': State)
    requires Inv(s) && Enabled(s, AgentEdit(b, text)) && Next(s, AgentEdit(b, text), s')
    ensures Inv(s')
  {
    hide TrackedInv;
    var before := if b in s.log then s.texts[b] else text;
    FreshInv(text);
    var t := TrackIfAbsent(s.log, b, text)[b];
    var status := if t.status.Deleted? then Modified else t.status;
    StatusInv(t, before, status);
    ScheduleInv(t.(status := status), before, Agent, text);
    PutInv(s, b, text, t.(status := status).Schedule(Agent, text));
    assert TrackIfAbsent(s.log, b, text)[b := s'.log[b]] == s.log[b := s'.log[b]];
  }

  lemma DeleteInv(s: State, b: int, s': State)
    requires Inv(s) && Enabled(s, Delete(b)) && Next(s, Delete(b), s')
    ensures Inv(s')
  {
    hide TrackedInv;
    var text := s.texts[b];
    TrackInv(s, b, text);
    var s1 := s.(log := TrackIfAbsent(s.log, b, text));
    var t := s1.log[b];
    InvAt(s1, b);
    if t.status.Created? {
      DropInv(s1, b, text);
    } else if t.status.Modified? {
      StatusInv(t, text, Deleted);
      ScheduleInv(t.(status := Deleted), text, Agent, "");
      var t' := t.(status := Deleted).Schedule(Agent, "");
      ScheduleInv(t', "", User, "");
      PutInv(s1, b, "", t');
      PutInv(s1, b, "", t'.Schedule(User, ""));
    }
  }

  lemma KeepInv(s: State, b: int, range: Range, s': State)
    requires Inv(s) && Enabled(s, Keep(b, range)) && Next(s, Keep(b, range), s')
    ensures Inv(s')
  {
    hide TrackedInv, KeptSome;
    if b in s.log {
      InvAt(s, b);
      if s.log[b].status.Deleted? {
        DropInv(s, b, s.texts[b]);
      } else {
        KeptInv(s.log[b], s.texts[b], range, s'.log[b]);
        PutSameText(s, b, s'.log[b]);
      }
    }
  }

  lemma KeepAllInv(s: State, s': State)
    requires Inv(s) && Enabled(s, KeepAll) && Next(s, KeepAll, s')
    ensures Inv(s')
  {
    hide TrackedInv, KeptWhole;
    forall b | b in s'.log
      ensures b in s'.texts && TrackedInv(s'.log[b], s'.texts[b])
    {
      InvAt(s, b);
      KeptWholeInv(s.log[b], s.texts[b]);
    }
  }

  lemma RejectInv(s: State, b: int, at: seq<Range>, ranges: seq<Range>, s': State)
    requires Inv(s) && Enabled(s, Reject(b, at, ranges)) && Next(s, Reject(b, at, ranges), s')
    ensures Inv(s')
  {
    hide TrackedInv, RejectionOf, Noticed, ApplyAll, Fits, AllTrivial;
    if b in s.log {
      var t := s.log[b];
      if t.status.Created? {
        DropInv(s, b, if t.status.existing.Some? then t.status.existing.value else "");
      } else if t.status.Deleted? {
        FreshInv(t.base);
        PutInv(s, b, t.base, Fresh(t.base));
      } else {
        var l := RejectionOf(t, s.texts[b], at, ranges);
        EditedInOrder(s.texts[b], l);
        EditedInv(s, b, l, Edited(s.texts[b], l));
      }
    }
  }

  lemma EditedInv(s: State, b: int, l: seq<Replacement>, text: string)
    requires Inv(s) && b in s.log && b in s.texts && text == Edited(s.texts[b], l)
    ensures Inv(State(s.texts[b := text], if AllTrivial(AllUpright(l)) then s.log else Noticed(s.log, b, text)))
  {
    hide TrackedInv, Noticed, Edited, AllTrivial;
    NoticedInv(s, b, text);
    if AllTrivial(AllUpright(l)) {
      TrivialChangesNothing(l, s.texts[b]);
      assert s.texts[b := text] == s.texts;
    }
  }

  lemma UndoInv(s: State, b: int, restored: seq<Replacement>, s': State)
    requires Inv(s) && Enabled(s, Undo(b, restored)) && Next(s, Undo(b, restored), s')
    ensures Inv(s')
  {
    hide TrackedInv, Noticed, Edited, InBuffer, AllTrivial;
    var text := Edited(s.texts[b], restored);
    if b in s.log {
      EditedInv(s, b, restored, text);
    } else {
      FreshInv(text);
      ScheduleInv(Fresh(text), text, Agent, text);
      PutInv(s, b, text, Fresh(text).Schedule(Agent, text));
    }
  }

  lemma UpdateInv(s: State, a: Action, s': State)
    requires a.Capture? || a.Commit? || a.WriteBack?
    requires Inv(s) && Enabled(s, a) && Next(s, a, s')
    ensures Inv(s')
  {
    hide TrackedInv, Captured, CommitCaptured, WrittenBack, Reports, IsDiff;
    InvAt(s, a.b);
    var t, text := s.log[a.b], s.texts[a.b];
    match a {
      case Capture(b, edits) => CapturedInv(t, text, edits, s'.log[b]);
      case Commit(b, gitBase, committed) => CommitInv(t, text, gitBase, committed, s'.log[b]);
      case WriteBack(b, hunks) =>
        LatestOf(t, text);
        WrittenBackInv(t, text, hunks);
    }
    PutSameText(s, a.b, s'.log[a.b]);
  }

  lemma LatestOf(t: Tracked, text: string)
    requires TrackedInv(t, text)
    ensures t.Latest() == text
  {
  }

  /** Every action keeps the invariant. */
  lemma StepKeepsInv(s: State, a: Action, s': State)
    requires Inv(s) && Enabled(s, a) && Next(s, a, s')
    ensures Inv(s')
  {
    hide Inv, TrackedInv, Captured, CommitCaptured, WrittenBack, KeptSome, RejectionOf, Reports, IsDiff;
    match a {
      case Read(b) => TrackInv(s, b, s.texts[b]);
      case Create(b, onDisk) =>
        NewInv(s.texts[b], Existing(s.log, b, s.texts[b], onDisk));
        PutSameText(s, b, s'.log[b]);
      case AgentEdit(b, text) => AgentEditInv(s, b, text, s');
      case UserEdit(b, text) => NoticedInv(s, b, text);
      case Delete(b) => DeleteInv(s, b, s');
      case Keep(b, range) => KeepInv(s, b, range, s');
      case KeepAll => KeepAllInv(s, s');
      case Reject(b, at, ranges) => RejectInv(s, b, at, ranges, s');
      case Undo(b, restored) => UndoInv(s, b, restored, s');
      case FileDeleted(b) => DropInv(s, b, s.texts[b]);
      case FileRestored(b) =>
        FreshInv(s.texts[b]);
        PutSameText(s, b, Fresh(s.texts[b]));
      case _ => UpdateInv(s, a, s');
    }
  }

  // ------------------------------------------------------------------ runs

  ghost predicate Run(states: seq<State>, actions: seq<Action>) {
    && |states| == |actions| + 1 && states[0].log == map[]
    && forall k :: 0 <= k < |actions| ==>
         Enabled(states[k], actions[k]) && Next(states[k], actions[k], states[k + 1])
  }

  /** In every run, whatever the interleaving and whatever the diffs report, the invariant holds at
      every point. */
  lemma {:induction false} RunKeepsInv(states: seq<State>, actions: seq<Action>, k: nat)
    requires Run(states, actions) && k < |states|
    ensures Inv(states[k])
  {
    if k > 0 {
      RunKeepsInv(states, actions, k - 1);
      StepKeepsInv(states[k - 1], actions[k - 1], states[k]);
    }
  }

  /** When nothing is pending, the snapshot is the buffer, and applying the unreviewed edits to the
      base one after the other gives the buffer. */
  lemma QuietMatches(t: Tracked, text: string)
    requires TrackedInv(t, text) && t.Quiet()
    ensures t.snapshot == text
    ensures ApplyInOrder(t.edits, Rows(t.base), Rows(text)) == Rows(text)
  {
    hide Rows;
    LeadsApplies(t.edits, Rows(t.base), Rows(text));
  }

  /** The same check on characters, as the repository's random test makes it: every edit replaces
      the characters of as many rows as it has old ones, clipped at the end of the text. */
  method ApplyUnreviewed(t: Tracked, text: string) returns (r: string)
    requires TrackedInv(t, text) && t.Quiet()
    ensures r == text
  {
    hide *;
    ghost var p, all := t.edits, AllOf(|t.edits|, true);
    ghost var pre: seq<Row>, i, j, d := [], 0, 0, 0;
    r := t.base;
    QuietMatches(t, text);
    InvParts(t, text);
    KeepLoopStarts(p, all, t.base, Rows(text));
    for n := 0 to |t.edits|
      invariant KeepLoop(p, all, t.base, Rows(text), n, r, [], d, pre, i, j) && i + d == j
    {
      var e := t.edits[n];
      ghost var pre' := Grown(pre, Rows(t.base), i, e.was.start, Rows(text), e.now);
      AllPicked(|p|, n);
      KeepLoopHead(p, all, t.base, Rows(text), n, r, [], d, pre, i, j);
      KeepLoopTakes(p, all, t.base, text, n, r, [], d, pre, i, j, pre');
      r := ReplaceRows(r, Range(e.now.start, e.now.start + e.was.Len()), RowText(text, e.now));
      pre, i, j, d := pre', e.was.end, e.now.end, d + e.Delta();
    }
    KeepLoopEnds(p, all, t.base, Rows(text), |p|, r, [], d, pre, i, j);
    PickWhole(p, Rows(t.base), Rows(text));
    RowsInjective(r, text);
  }

  lemma InvParts(t: Tracked, text: string)
    requires TrackedInv(t, text)
    ensures Leads(t.edits, Rows(t.base), Rows(t.snapshot)) && Separated(t.edits)
    ensures RealStarts(t.edits, Rows(t.base), Rows(t.snapshot))
    ensures t.Latest() == text
  {
    hide Rows;
  }

  lemma AllPicked(n: nat, k: int)
    requires 0 <= k < n
    ensures |AllOf(n, true)| == n && AllOf(n, true)[k]
  {
  }

  lemma KeepLoopHead(p: seq<Edit>, picks: seq<bool>, base: string, b: seq<Row>, n: int,
                     text: string, rest: seq<Edit>, d: int, pre: seq<Row>, i: int, j: int)
    requires KeepLoop(p, picks, base, b, n, text, rest, d, pre, i, j) && 0 <= n < |p| && i + d == j
    ensures p[n].was.Shift(d) == Range(p[n].now.start, p[n].now.start + p[n].was.Len())
    ensures p[n].was.end + (d + p[n].Delta()) == p[n].now.end
  {
    hide *;
    NextOf(p, n);
    KeepLoopAligned(p, picks, base, b, n, text, rest, d, pre, i, j);
    HeadShape(p[n..], Rows(base), b, i, j);
    AtNewPlace(p[n], i, j, d);
  }

  lemma KeepLoopAligned(p: seq<Edit>, picks: seq<bool>, base: string, b: seq<Row>, n: int,
                        text: string, rest: seq<Edit>, d: int, pre: seq<Row>, i: int, j: int)
    requires KeepLoop(p, picks, base, b, n, text, rest, d, pre, i, j)
    ensures Aligned(p[n..], Rows(base), b, i, j)
  {
    hide Aligned, Pick, Remainder, Rows;
  }

  lemma AtNewPlace(e: Edit, i: int, j: int, d: int)
    requires e.was.start - i == e.now.start - j && i + d == j
    ensures e.was.Shift(d) == Range(e.now.start, e.now.start + e.was.Len())
    ensures e.was.end + (d + e.Delta()) == e.now.end
  {
  }

  // ------------------------------------------------------------------ without the agent

  predicate ByAgent(s: State, a: Action) {
    a.Create? || a.AgentEdit? || a.Delete? || (a.Undo? && a.b !in s.log)
  }

  /** Nothing to review, now and in what is scheduled. */
  ghost predicate Clean(t: Tracked) {
    && t.status.Modified? && t.edits == [] && t.base == t.snapshot
    && (t.pending.Some? ==> t.pending.value.base == t.pending.value.text)
    && forall c :: c in t.queue ==> c.author.User?
  }

  ghost predicate AllClean(s: State) {
    forall b :: b in s.log ==> Clean(s.log[b])
  }

  /** With nothing under review, every user edit is carried over, and the base becomes the new text. */
  lemma {:induction false} NothingConflicts<T>(es: seq<Edit>, a: seq<T>, t: seq<T>, i: int, j: int)
    requires Aligned(es, a, t, i, j)
    ensures Overlay(Carried([], es, 0), a, t, i) == t[j..]
    decreases es
  {
    if es != [] {
      var e := es[0];
      assert e.ShiftOld(0) == e;
      assert Carried([], es, 0) == [e] + Carried([], es[1..], 0);
      assert ([e] + Carried([], es[1..], 0))[1..] == Carried([], es[1..], 0);
      NothingConflicts(es[1..], a, t, e.was.end, e.now.end);
      SliceCat3(t, j, e.now.start, e.now.end);
    }
  }

  lemma CleanCapture(t: Tracked, edits: seq<Edit>, t': Tracked)
    requires Clean(t) && t.queue != [] && t.pending.None?
    requires Reports(edits, t.snapshot, t.queue[0].text) && Captured(t, edits, t')
    ensures Clean(t')
  {
    var es, text := RowPatch(edits, t.snapshot, t.queue[0].text), t.queue[0].text;
    assert t.queue[0] in t.queue;
    RowPatchLeads(edits, t.snapshot, text);
    hide Rows, RowPatch, Separated, RealStarts;
    NothingConflicts(es, Rows(t.base), Rows(text), 0, 0);
    AllOut(Rows(text));
    RowsInjective(t'.pending.value.base, text);
  }

  lemma CleanCommit(t: Tracked, gitBase: string, committed: seq<Edit>, t': Tracked)
    requires Clean(t) && CommitCaptured(t, gitBase, committed, t')
    ensures Clean(t')
  {
    hide Rows, Accepted;
    AllOut(Rows(t.base));
    RowsInjective(t'.pending.value.base, t.base);
  }

  lemma CleanWriteBack(t: Tracked, hunks: seq<Edit>)
    requires Clean(t) && t.pending.Some? && IsDiff(hunks, t.pending.value.base, t.pending.value.text)
    ensures Clean(WrittenBack(t, hunks))
  {
    assert hunks == [];
    assert RowPatch([], t.pending.value.base, t.pending.value.text) == [];
  }

  lemma CleanKeep(t: Tracked, range: Range, text: string, t': Tracked)
    requires Clean(t) && KeptSome(t, range, text, t')
    ensures Clean(t')
  {
    hide Rows;
    assert Kept(t.edits, range) == [];
    AllOut(Rows(t.base));
    RowsInjective(t'.base, t.base);
  }

  lemma CleanReject(t: Tracked, text: string, at: seq<Range>, ranges: seq<Range>)
    requires Clean(t) && |at| == |t.edits|
    ensures RejectionOf(t, text, at, ranges) == []
  {
  }

  lemma CleanUpdate(s: State, a: Action, s': State)
    requires a.Capture? || a.Commit? || a.WriteBack?
    requires AllClean(s) && Enabled(s, a) && Next(s, a, s')
    ensures AllClean(s')
  {
    hide Clean, Captured, CommitCaptured, WrittenBack, Reports, IsDiff;
    var t := s.log[a.b];
    assert Clean(t);
    match a {
      case Capture(b, edits) => CleanCapture(t, edits, s'.log[b]);
      case Commit(b, gitBase, committed) => CleanCommit(t, gitBase, committed, s'.log[b]);
      case WriteBack(b, hunks) => CleanWriteBack(t, hunks);
    }
    assert s'.log == s.log[a.b := s'.log[a.b]];
  }

  lemma CleanReview(s: State, a: Action, s': State)
    requires a.Keep? || a.KeepAll? || a.Reject?
    requires AllClean(s) && Inv(s) && Enabled(s, a) && Next(s, a, s')
    ensures AllClean(s')
  {
    hide KeptSome, RejectionOf, TrackedInv;
    match a {
      case Keep(b, range) =>
        if b in s.log {
          CleanKeep(s.log[b], range, s.texts[b], s'.log[b]);
        }
      case KeepAll =>
        forall b | b in s'.log
          ensures Clean(s'.log[b])
        {
          assert b in s.log && b in s.texts;
        }
      case Reject(b, at, ranges) =>
        if b in s.log {
          CleanReject(s.log[b], s.texts[b], at, ranges);
          assert AllTrivial([]);
        }
    }
  }

  /** Actions other than the agent's never put anything under review. */
  lemma StepKeepsClean(s: State, a: Action, s': State)
    requires AllClean(s) && Inv(s) && !ByAgent(s, a) && Enabled(s, a) && Next(s, a, s')
    ensures AllClean(s')
  {
    hide TrackedInv, Captured, CommitCaptured, WrittenBack, KeptSome, RejectionOf, Reports, IsDiff;
    if a.Capture? || a.Commit? || a.WriteBack? {
      CleanUpdate(s, a, s');
    } else if a.Keep? || a.KeepAll? || a.Reject? {
      CleanReview(s, a, s');
    }
  }

  /** In a run in which the agent only reads, no tracked buffer ever has anything to review, however
      the user edits, keeps, rejects and commits, and at rest its base is its text. */
  lemma RunStartsClean(states: seq<State>, actions: seq<Action>)
    requires Run(states, actions)
    ensures |states| == |actions| + 1 && AllClean(states[0])
  {
  }

  lemma RunStep(states: seq<State>, actions: seq<Action>, k: nat)
    requires Run(states, actions) && k < |actions|
    ensures |states| == |actions| + 1 && Enabled(states[k], actions[k]) && Next(states[k], actions[k], states[k + 1])
  {
  }

  lemma {:induction false} UserRunsNeedNoReview(states: seq<State>, actions: seq<Action>, k: nat)
    requires Run(states, actions) && k < |states|
    requires forall m :: 0 <= m < |actions| ==> !ByAgent(states[m], actions[m])
    ensures AllClean(states[k])
    ensures forall b :: b in states[k].log ==>
              b in states[k].texts && (states[k].log[b].Quiet() ==> states[k].log[b].base == states[k].texts[b])
  {
    hide *;
    RunStartsClean(states, actions);
    RunKeepsInv(states, actions, k);
    if k > 0 {
      UserRunsNeedNoReview(states, actions, k - 1);
      RunKeepsInv(states, actions, k - 1);
      RunStep(states, actions, k - 1);
      StepKeepsClean(states[k - 1], actions[k - 1], states[k]);
    }
    CleanAtRest(states[k]);
  }

  lemma CleanAtRest(s: State)
    requires Inv(s) && AllClean(s)
    ensures forall b :: b in s.log ==> b in s.texts && (s.log[b].Quiet() ==> s.log[b].base == s.texts[b])
  {
    hide Rows, Leads, Separated, RealStarts;
  }
}
