/** What becomes of a buffer over several steps of the log: what changes its base, what the agent writes,
    deletes and creates, and what a keep leaves for a later rejection. */
module Histories {
  import opened Options
  import opened Patches
  import opened Ropes
  import opened Rebase
  import opened RowLifting
  import opened Tightness
  import opened NonConflicting
  import opened Buffers
  import opened Review
  import opened Commits
  import opened LogStates
  import opened LogInvariant

  /** Any stretch of a run. */
  ghost predicate Steps(states: seq<State>, actions: seq<Action>) {
    && |states| == |actions| + 1
    && forall k :: 0 <= k < |actions| ==>
         Enabled(states[k], actions[k]) && Next(states[k], actions[k], states[k + 1])
  }

  lemma {:induction false} StepsKeepInv(states: seq<State>, actions: seq<Action>, n: nat)
    requires Steps(states, actions) && n <= |actions| && Inv(states[0])
    ensures Inv(states[n])
  {
    if n > 0 {
      StepsKeepInv(states, actions, n - 1);
      hide Inv, Enabled, Next;
      StepKeepsInv(states[n - 1], actions[n - 1], states[n]);
    }
  }

  // ------------------------------------------------------------------ what changes a base

  /** The action may give buffer `b` another base: a keep; a commit that accepts an edit; the capture of a
      change by the user of which an edit is carried over; or an end or a new start of the tracking. */
  ghost predicate ChangesBase(s: State, a: Action, b: int)
    requires Enabled(s, a) && b in s.log
  {
    if a.KeepAll? then true
    else if a.b != b then false
    else
      match a
      case Keep(_, _) => true
      case Commit(_, gitBase, committed) =>
        true in Accepted(s.log[b].edits, committed, s.log[b].snapshot, gitBase)
      case Capture(_, edits) =>
        && s.log[b].queue[0].author.User?
        && exists e :: e in RowPatch(edits, s.log[b].snapshot, s.log[b].queue[0].text) && NoConflict(s.log[b].edits, e)
      case Create(_, _) => true
      case Delete(_) => s.log[b].status.Created?
      case Reject(_, _, _) => !s.log[b].status.Modified?
      case FileDeleted(_) => !s.log[b].status.Deleted?
      case FileRestored(_) => s.log[b].status.Deleted?
      case _ => false
  }

  /** The base, now and after the update under way. */
  ghost predicate HasBase(t: Tracked, base: string) {
    t.base == base && (t.pending.Some? ==> t.pending.value.base == base)
  }

  lemma CaptureKeepsBase(t: Tracked, edits: seq<Edit>, t': Tracked)
    requires t.queue != [] && Captured(t, edits, t')
    requires t.queue[0].author.User? ==>
               forall e :: e in RowPatch(edits, t.snapshot, t.queue[0].text) ==> !NoConflict(t.edits, e)
    ensures t'.pending.Some? && t'.pending.value.base == t.base
  {
    hide Rows, NoConflict, RowPatch;
    if t.queue[0].author.User? {
      CarriedSome(t.edits, RowPatch(edits, t.snapshot, t.queue[0].text), 0);
      AllOut(Rows(t.base));
      RowsInjective(t.base, t'.pending.value.base);
    }
  }

  lemma CommitKeepsBase(t: Tracked, text: string, gitBase: string, committed: seq<Edit>, t': Tracked)
    requires TrackedInv(t, text) && CommitCaptured(t, gitBase, committed, t')
    requires true !in Accepted(t.edits, committed, t.snapshot, gitBase)
    ensures t'.pending.Some? && t'.pending.value.base == t.base
  {
    InvParts(t, text);
    hide Rows, Accepted, Leads, Separated, RealStarts;
    NoneOf(Accepted(t.edits, committed, t.snapshot, gitBase));
    PickWhole(t.edits, Rows(t.base), Rows(t.snapshot));
    RowsInjective(t.base, t'.pending.value.base);
  }

  lemma NoneOf(picks: seq<bool>)
    requires true !in picks
    ensures picks == AllOf(|picks|, false)
  {
    forall k | 0 <= k < |picks|
      ensures picks[k] == false
    {
      assert picks[k] in picks;
    }
  }

  /** Nothing else changes it. */
  lemma BaseStays(s: State, a: Action, s': State, b: int, base: string)
    requires Inv(s) && Enabled(s, a) && Next(s, a, s') && b in s.log && HasBase(s.log[b], base) && !ChangesBase(s, a, b)
    ensures b in s'.log && HasBase(s'.log[b], base)
  {
    hide Captured, CommitCaptured, TrackedInv;
    hide Rows, RebasedRows, RowPatch, Pick, Accepted, Reports, RowsApart, Fits, ApplyAll, AllTrivial, AllUpright,
         Edited, RejectionOf, InText, InBuffer, IsDiff, Remainder, Kept, NoConflict;
    match a {
      case Capture(c, edits) =>
        if c == b {
          CaptureKeepsBase(s.log[b], edits, s'.log[b]);
          CapturedSame(s.log[b], edits, s'.log[b]);
        }
      case Commit(c, gitBase, committed) =>
        if c == b {
          CommitKeepsBase(s.log[b], s.texts[b], gitBase, committed, s'.log[b]);
          CommittedSame(s.log[b], gitBase, committed, s'.log[b]);
        }
      case _ =>
    }
  }

  lemma CapturedSame(t: Tracked, edits: seq<Edit>, t': Tracked)
    requires t.queue != [] && Captured(t, edits, t')
    ensures t' == t.(queue := t.queue[1..], pending := t'.pending)
    ensures t'.pending.Some? && t'.pending.value.text == t.queue[0].text
  {
    hide Rows, RebasedRows, RowPatch;
  }

  lemma CommittedSame(t: Tracked, gitBase: string, committed: seq<Edit>, t': Tracked)
    requires CommitCaptured(t, gitBase, committed, t')
    ensures t' == t.(pending := t'.pending)
  {
    hide Rows, Pick, Accepted;
  }

  /** So in any stretch of a run without such an action a buffer stays tracked and keeps its base. */
  lemma {:induction false} BaseIsKept(states: seq<State>, actions: seq<Action>, b: int, base: string, n: nat)
    requires Steps(states, actions) && n <= |actions| && Inv(states[0])
    requires b in states[0].log && HasBase(states[0].log[b], base)
    requires forall k :: 0 <= k < n && b in states[k].log ==> !ChangesBase(states[k], actions[k], b)
    ensures b in states[n].log && HasBase(states[n].log[b], base)
  {
    hide Inv, Enabled, Next, HasBase, ChangesBase;
    if n > 0 {
      BaseIsKept(states, actions, b, base, n - 1);
      StepsKeepInv(states, actions, n - 1);
      BaseStays(states[n - 1], actions[n - 1], states[n], b, base);
    }
  }

  // ------------------------------------------------------------------ what the agent writes

  /** The agent reads and edits buffer `b`, its changes are captured and written back, and anything
      happens to other buffers. */
  predicate OfAgent(a: Action, b: int) {
    !a.KeepAll? && (a.b != b || a.Read? || a.AgentEdit? || a.Capture? || a.WriteBack?)
  }

  /** Only changes by the agent are to be processed, and the base is not touched by them. */
  ghost predicate Working(t: Tracked, base: string) {
    HasBase(t, base) && forall c :: c in t.queue ==> c.author.Agent?
  }

  lemma WorkingStep(s: State, a: Action, s': State, b: int, base: string)
    requires Inv(s) && Enabled(s, a) && Next(s, a, s') && b in s.log && Working(s.log[b], base) && OfAgent(a, b)
    ensures b in s'.log && Working(s'.log[b], base)
  {
    hide *;
    WorkChangesNoBase(s, a, b, base);
    BaseStays(s, a, s', b, base);
    WorkSchedules(s, a, s', b, base);
    WorkingBy(s'.log[b], base);
  }

  lemma WorkingBy(t: Tracked, base: string)
    requires HasBase(t, base) && forall c :: c in t.queue ==> c.author.Agent?
    ensures Working(t, base)
  {
  }

  lemma WorkChangesNoBase(s: State, a: Action, b: int, base: string)
    requires Enabled(s, a) && b in s.log && Working(s.log[b], base) && OfAgent(a, b)
    ensures HasBase(s.log[b], base) && !ChangesBase(s, a, b)
  {
    hide RowPatch, NoConflict, Reports, RowsApart, InText, InBuffer, IsDiff, HasBase;
    assert s.log[b].queue != [] ==> s.log[b].queue[0] in s.log[b].queue;
  }

  lemma WorkSchedules(s: State, a: Action, s': State, b: int, base: string)
    requires Enabled(s, a) && Next(s, a, s') && b in s.log && b in s'.log && Working(s.log[b], base) && OfAgent(a, b)
    ensures forall c :: c in s'.log[b].queue ==> c.author.Agent?
  {
    hide Captured, CommitCaptured, HasBase;
    hide Rows, RebasedRows, RowPatch, Pick, Accepted, Reports, RowsApart, Fits, ApplyAll, AllTrivial, AllUpright,
         Edited, RejectionOf, InText, InBuffer, IsDiff, Remainder, Kept;
    if a.Capture? && a.b == b {
      CapturedSame(s.log[b], a.edits, s'.log[b]);
    }
  }

  /** A buffer of which nothing is pending has no scheduled change at all; one that the agent creates is
      new against an empty base; and one that the log first learns of by an edit or an undo has a change by
      the agent. */
  lemma WorkingStarts(s: State, a: Action, s': State, b: int)
    requires Inv(s) && Enabled(s, a) && Next(s, a, s')
    ensures b in s.log && s.log[b].Quiet() ==> Working(s.log[b], s.log[b].base)
    ensures a.Create? && a.b == b ==> b in s'.log && s'.log[b].Quiet() && Working(s'.log[b], "")
    ensures b !in s.log && (a.AgentEdit? || a.Undo?) && a.b == b ==>
              b in s'.texts && b in s'.log && s'.log[b].queue != [] && Working(s'.log[b], s'.texts[b])
  {
    hide Edited, AllTrivial, AllUpright, InBuffer, TrackedInv, Inv;
  }

  lemma {:induction false} WorkingRun(states: seq<State>, actions: seq<Action>, b: int, base: string, n: nat)
    requires Steps(states, actions) && n <= |actions| && Inv(states[0])
    requires b in states[0].log && Working(states[0].log[b], base)
    requires forall k :: 0 <= k < n ==> OfAgent(actions[k], b)
    ensures b in states[n].log && Working(states[n].log[b], base)
  {
    hide Inv, Enabled, Next, Working;
    if n > 0 {
      WorkingRun(states, actions, b, base, n - 1);
      StepsKeepInv(states, actions, n - 1);
      WorkingStep(states[n - 1], actions[n - 1], states[n], b, base);
    }
  }

  /** Whatever the agent writes comes under review: after any stretch of its work the base is what it was
      before, and once everything is processed the unreviewed edits lead from that base to the text of the
      buffer, and there are some unless the two are equal. */
  lemma AgentWorkIsReviewed(states: seq<State>, actions: seq<Action>, b: int, base: string, n: nat)
    requires Steps(states, actions) && n <= |actions| && Inv(states[0])
    requires b in states[0].log && Working(states[0].log[b], base)
    requires forall k :: 0 <= k < n ==> OfAgent(actions[k], b)
    ensures b in states[n].log && b in states[n].texts && states[n].log[b].base == base
    ensures var (t, text) := (states[n].log[b], states[n].texts[b]);
            t.Quiet() ==>
              t.snapshot == text && Leads(t.edits, Rows(base), Rows(text)) && (text != base ==> t.edits != [])
  {
    hide Inv, Enabled, Next, Working, TrackedInv, Leads, Rows;
    WorkingRun(states, actions, b, base, n);
    StepsKeepInv(states, actions, n);
    InvAt(states[n], b);
    WorkingBase(states[n].log[b], base);
    ReviewedAtRest(states[n].log[b], states[n].texts[b]);
  }

  lemma WorkingBase(t: Tracked, base: string)
    requires Working(t, base)
    ensures t.base == base
  {
  }

  lemma ReviewedAtRest(t: Tracked, text: string)
    requires TrackedInv(t, text)
    ensures t.Quiet() ==> t.snapshot == text && Leads(t.edits, Rows(t.base), Rows(text))
    ensures t.Quiet() && t.edits == [] ==> t.base == text
  {
    InvParts(t, text);
    if t.Quiet() && t.edits == [] {
      hide Rows;
      AllOut(Rows(t.base));
      AllOut(Rows(text));
      RowsInjective(t.base, text);
    }
  }

  // ------------------------------------------------------------------ what the agent deletes

  /** The agent deleted the file whose text was `base`, and nothing else is scheduled. */
  ghost predicate Deleting(t: Tracked, base: string) {
    && HasBase(t, base) && t.status.Deleted?
    && (forall c :: c in t.queue ==> c.text == "")
    && (t.pending.Some? ==> t.pending.value.text == "")
    && (t.pending.None? && t.snapshot != "" ==> t.queue != [] && t.queue[0].author.Agent?)
  }

  /** The diff task of buffer `b` runs, and anything happens to other buffers. */
  predicate OfTask(a: Action, b: int) {
    !a.KeepAll? && (a.b != b || a.Capture? || a.WriteBack?)
  }

  /** From an empty text to an empty text nothing is carried over. */
  lemma NothingTyped(p: seq<Edit>, cs: seq<Edit>, a: seq<Row>)
    requires Reports(cs, "", "") && Leads(p, a, Rows("")) && Separated(p)
    ensures RebasedRows(p, RowPatch(cs, "", ""), a, Rows("")) == a
  {
    hide *;
    TrivialReport(cs);
    TrivialPatch(cs);
    RowPatchLeads(cs, "", "");
    TrivialRebase(p, RowPatch(cs, "", ""), a, Rows(""));
  }

  lemma TrivialReport(cs: seq<Edit>)
    requires Reports(cs, "", "")
    ensures cs == [] || cs == [Edit(Range(0, 0), Range(0, 0))]
  {
    if cs != [] {
      HeadShape(cs, "", "", 0, 0);
      if |cs| > 1 {
        AfterFrontier(cs, "", "", 0, 0, 1);
      }
    }
  }

  lemma TrivialPatch(cs: seq<Edit>)
    requires cs == [] || cs == [Edit(Range(0, 0), Range(0, 0))]
    ensures RowPatch(cs, "", "") == cs
  {
    if cs != [] {
      LiftInText(cs[0], "", "");
      hide Lift;
      assert LiftAll(cs, "", "") == [cs[0]];
      assert [cs[0]][1..] == [];
    }
  }

  lemma TrivialRebase(p: seq<Edit>, es: seq<Edit>, a: seq<Row>, b: seq<Row>)
    requires es == [] || es == [Edit(Range(0, 0), Range(0, 0))]
    requires Leads(p, a, b) && Separated(p) && Leads(es, b, b)
    ensures RebasedRows(p, es, a, b) == a
  {
    AlignedInOrder(p, a, b, 0, 0);
    AlignedBounded(es, b, b, 0, 0);
    CarriedFirst(p, es, a, b, b, 0, 0, 0);
    hide Aligned, InOrder, NoConflict, DeltaBefore;
    AllOut(a);
    if es != [] && NoConflict(p, es[0]) {
      var x := -DeltaBefore(p, es[0]);
      assert es[1..] == [] && Carried(p, [], 0) == [];
      assert Carried(p, es, 0) == [Edit(Range(x, x), Range(0, 0))];
      TrivialOverlay(a, b, x);
    }
  }

  lemma TrivialOverlay(a: seq<Row>, b: seq<Row>, x: int)
    requires 0 <= x <= |a|
    ensures Overlay([Edit(Range(x, x), Range(0, 0))], a, b, 0) == a
  {
    assert [Edit(Range(x, x), Range(0, 0))][1..] == [];
  }

  lemma DeletingStep(s: State, a: Action, s': State, b: int, base: string)
    requires Inv(s) && Enabled(s, a) && Next(s, a, s') && b in s.log && Deleting(s.log[b], base) && OfTask(a, b)
    ensures b in s'.log && Deleting(s'.log[b], base)
  {
    hide Captured, CommitCaptured, TrackedInv, Inv;
    hide Rows, RebasedRows, RowPatch, Pick, Accepted, Reports, RowsApart, Fits, ApplyAll, AllTrivial, AllUpright,
         Edited, RejectionOf, InText, InBuffer, IsDiff, Remainder, Kept, NoConflict;
    if a.Capture? && a.b == b {
      var t := s.log[b];
      assert t.queue[0] in t.queue;
      InvAt(s, b);
      CapturedSame(t, a.edits, s'.log[b]);
      DeletingCapture(t, s.texts[b], a.edits, s'.log[b]);
    }
  }

  lemma DeletingCapture(t: Tracked, text: string, edits: seq<Edit>, t': Tracked)
    requires TrackedInv(t, text) && t.queue != [] && t.pending.None? && t.queue[0].text == ""
    requires t.snapshot != "" ==> t.queue[0].author.Agent?
    requires Reports(edits, t.snapshot, t.queue[0].text) && Captured(t, edits, t')
    ensures t'.pending.Some? && t'.pending.value.base == t.base
  {
    InvParts(t, text);
    hide Rows, RebasedRows, RowPatch, Leads, Separated, RealStarts, Reports;
    if t.queue[0].author.User? {
      NothingTyped(t.edits, edits, Rows(t.base));
      RowsInjective(t.base, t'.pending.value.base);
    }
  }

  lemma DeletingStarts(s: State, s': State, b: int)
    requires Enabled(s, Delete(b)) && Next(s, Delete(b), s')
    requires b in s.log && s.log[b].Quiet() && s.log[b].status.Modified?
    ensures b in s'.log && Deleting(s'.log[b], s.log[b].base) && b in s'.texts && s'.texts[b] == ""
  {
  }

  lemma {:induction false} DeletingRun(states: seq<State>, actions: seq<Action>, b: int, base: string, n: nat)
    requires Steps(states, actions) && n <= |actions| && Inv(states[0])
    requires b in states[0].log && Deleting(states[0].log[b], base)
    requires forall k :: 0 <= k < n ==> OfTask(actions[k], b)
    ensures b in states[n].log && Deleting(states[n].log[b], base)
  {
    hide Inv, Enabled, Next, Deleting;
    if n > 0 {
      DeletingRun(states, actions, b, base, n - 1);
      StepsKeepInv(states, actions, n - 1);
      DeletingStep(states[n - 1], actions[n - 1], states[n], b, base);
    }
  }

  /** Rejecting a deletion brings the file back: from a buffer at rest, when the agent deletes it, its diff
      task runs for as long as it likes, and the deletion is rejected in whatever ranges, the text is the
      base from before, and nothing is under review. */
  lemma RejectedDeletionRestores(states: seq<State>, actions: seq<Action>, b: int, n: nat)
    requires Steps(states, actions) && 1 < |actions| == n + 1 && Inv(states[0])
    requires b in states[0].log && states[0].log[b].Quiet() && states[0].log[b].status.Modified?
    requires actions[0] == Delete(b) && (forall k :: 0 < k < n ==> OfTask(actions[k], b))
    requires actions[n].Reject? && actions[n].b == b
    ensures b in states[n + 1].texts && states[n + 1].texts[b] == states[0].log[b].base
    ensures b in states[n + 1].log && states[n + 1].log[b] == Fresh(states[0].log[b].base)
  {
    hide Inv, Enabled, Next, Deleting;
    var base := states[0].log[b].base;
    DeletingStarts(states[0], states[1], b);
    StepKeepsInv(states[0], actions[0], states[1]);
    assert Enabled(states[n], actions[n]) && Next(states[n], actions[n], states[n + 1]);
    StepsTail(states, actions);
    DeletingRun(states[1..], actions[1..], b, base, n - 1);
    DeletionRejected(states[n], actions[n], states[n + 1], b, base);
  }

  lemma StepsTail(states: seq<State>, actions: seq<Action>)
    requires Steps(states, actions) && actions != []
    ensures Steps(states[1..], actions[1..])
  {
    hide Enabled, Next;
    forall k | 0 <= k < |actions[1..]|
      ensures Enabled(states[1..][k], actions[1..][k])
      ensures Next(states[1..][k], actions[1..][k], states[1..][k + 1])
    {
      assert states[1..][k] == states[k + 1] && states[1..][k + 1] == states[k + 2];
      assert actions[1..][k] == actions[k + 1];
    }
  }

  lemma DeletionRejected(s: State, a: Action, s': State, b: int, base: string)
    requires Enabled(s, a) && a.Reject? && a.b == b && Next(s, a, s') && b in s.log && Deleting(s.log[b], base)
    ensures b in s'.texts && s'.texts[b] == base && b in s'.log && s'.log[b] == Fresh(base)
  {
    hide RejectionOf, InText, Fits, ApplyAll, AllTrivial;
  }

  // ------------------------------------------------------------------ what the agent creates

  /** Buffer `b` is read, edited by anyone, or updated, and anything happens to other buffers. */
  predicate KeepsStatus(a: Action, b: int) {
    !a.KeepAll?
    && (a.b != b || a.Read? || a.AgentEdit? || a.UserEdit? || a.Capture? || a.Commit? || a.WriteBack? || a.Undo?)
  }

  lemma CreatedStep(s: State, a: Action, s': State, b: int)
    requires Enabled(s, a) && Next(s, a, s') && b in s.log && s.log[b].status.Created? && KeepsStatus(a, b)
    ensures b in s'.log && s'.log[b].status == s.log[b].status
  {
    hide Rows, RebasedRows, RowPatch, Pick, Accepted, Reports, RowsApart, Fits, ApplyAll, AllTrivial, AllUpright,
         Edited, RejectionOf, InText, InBuffer, IsDiff, Remainder, Kept;
  }

  lemma {:induction false} CreatedRun(states: seq<State>, actions: seq<Action>, b: int, n: nat)
    requires Steps(states, actions) && n <= |actions|
    requires b in states[0].log && states[0].log[b].status.Created?
    requires forall k :: 0 <= k < n ==> KeepsStatus(actions[k], b)
    ensures b in states[n].log && states[n].log[b].status == states[0].log[b].status
  {
    hide Enabled, Next;
    if n > 0 {
      CreatedRun(states, actions, b, n - 1);
      CreatedStep(states[n - 1], actions[n - 1], states[n], b);
    }
  }

  /** Rejecting a creation undoes it: a file that was there gets its former text, which is that on disk or,
      for a buffer that was tracked, its base; creating twice still goes back to the first time; and a file
      that was not there is left as it is. In any case the buffer is no longer tracked. */
  lemma RejectedCreationRestores(states: seq<State>, actions: seq<Action>, b: int, onDisk: bool, n: nat)
    requires Steps(states, actions) && 1 < |actions| == n + 1
    requires actions[0] == Create(b, onDisk) && (forall k :: 0 < k < n ==> KeepsStatus(actions[k], b))
    requires actions[n].Reject? && actions[n].b == b
    ensures b !in states[n + 1].log && b in states[0].texts && b in states[n].texts && b in states[n + 1].texts
    ensures b !in states[0].log ==>
              states[n + 1].texts[b] == if onDisk then states[0].texts[b] else states[n].texts[b]
    ensures b in states[0].log && !states[0].log[b].status.Created? ==> states[n + 1].texts[b] == states[0].log[b].base
    ensures b in states[0].log && states[0].log[b].status.Created? ==>
              states[n + 1].texts[b] == match states[0].log[b].status.existing
                                        case Some(text) => text
                                        case None => states[n].texts[b]
  {
    assert Enabled(states[0], actions[0]) && Next(states[0], actions[0], states[1]);
    assert Enabled(states[n], actions[n]) && Next(states[n], actions[n], states[n + 1]);
    CreationStarts(states[0], states[1], b, onDisk);
    hide Enabled, Next;
    StepsTail(states, actions);
    CreatedRun(states[1..], actions[1..], b, n - 1);
    CreationRejected(states[n], actions[n], states[n + 1], b);
  }

  lemma CreationStarts(s: State, s': State, b: int, onDisk: bool)
    requires Enabled(s, Create(b, onDisk)) && Next(s, Create(b, onDisk), s')
    ensures b in s.texts && b in s'.log && s'.log[b].status.Created?
    ensures b !in s.log ==> s'.log[b].status.existing == if onDisk then Some(s.texts[b]) else None
    ensures b in s.log && !s.log[b].status.Created? ==> s'.log[b].status.existing == Some(s.log[b].base)
    ensures b in s.log && s.log[b].status.Created? ==> s'.log[b].status == s.log[b].status
  {
    hide Rows;
  }

  lemma CreationRejected(s: State, a: Action, s': State, b: int)
    requires Enabled(s, a) && a.Reject? && a.b == b && Next(s, a, s') && b in s.log && s.log[b].status.Created?
    ensures b !in s'.log && b in s.texts && b in s'.texts
    ensures s'.texts[b] == match s.log[b].status.existing case Some(text) => text case None => s.texts[b]
  {
    hide RejectionOf, InText;
  }

  // ------------------------------------------------------------------ what was kept

  /** All edits are kept, or edits of `b` such that nothing of it is left to review. */
  ghost predicate KeepsAllOf(a: Action, s': State, b: int) {
    a.KeepAll? || (a.Keep? && a.b == b && (b in s'.log ==> s'.log[b].edits == []))
  }

  /** After that no buffer is a created or a deleted one, so nothing of what was kept can be rejected. */
  lemma KeptIsSettled(s: State, a: Action, s': State, b: int)
    requires Enabled(s, a) && Next(s, a, s') && KeepsAllOf(a, s', b) && b in s.texts
    ensures b in s'.log ==> s'.log[b].status.Modified? && s'.log[b].edits == []
    ensures s'.texts == s.texts
    ensures forall at, ranges, s'' ::
              Enabled(s', Reject(b, at, ranges)) && Next(s', Reject(b, at, ranges), s'') ==> s''.texts == s'.texts
  {
    KeptStatus(s, a, s', b);
    hide KeepsAllOf;
    forall at, ranges, s'' | Enabled(s', Reject(b, at, ranges)) && Next(s', Reject(b, at, ranges), s'')
      ensures s''.texts == s'.texts
    {
      if b in s'.log {
        NothingToReject(s'.log[b], s'.texts[b], at, ranges);
        assert s'.texts[b := s'.texts[b]] == s'.texts;
      }
    }
  }

  lemma KeptStatus(s: State, a: Action, s': State, b: int)
    requires Enabled(s, a) && Next(s, a, s') && KeepsAllOf(a, s', b) && b in s.texts
    ensures b in s'.log ==> s'.log[b].status.Modified? && s'.log[b].edits == []
    ensures s'.texts == s.texts
  {
    hide Rows, Pick, Remainder, Kept;
  }

  lemma NothingToReject(t: Tracked, text: string, at: seq<Range>, ranges: seq<Range>)
    requires t.edits == [] && |at| == |t.edits|
    ensures RejectionOf(t, text, at, ranges) == [] && Fits([], |text|, 0) && ApplyAll([], text, 0) == text
  {
    NothingMore(text, 0);
  }

  // ------------------------------------------------------------------ what a buffer is tracked as

  /** How the status of a tracked buffer may change, and by what. */
  lemma StatusChanges(s: State, a: Action, s': State, b: int)
    requires Enabled(s, a) && Next(s, a, s') && b in s.texts && b in s.log && b in s'.log
    requires s'.log[b].status != s.log[b].status
    ensures match (s.log[b].status, s'.log[b].status)
            case (_, Created(_)) => a.Create? && a.b == b
            case (_, Deleted) => a == Delete(b) && s.log[b].status.Modified?
            case (Created(_), Modified) => a.KeepAll? || (a.Keep? && a.b == b && s'.log[b].edits == [])
            case (_, Modified) => !a.KeepAll? && a.b == b && (a.AgentEdit? || a.Reject? || a.FileRestored?)
  {
    hide Rows, RebasedRows, RowPatch, Pick, Accepted, Reports, RowsApart, Fits, ApplyAll, AllTrivial, AllUpright,
         Edited, RejectionOf, InText, InBuffer, IsDiff, Remainder, Kept;
  }

  /** What makes the log begin or stop to track a buffer. */
  lemma TrackingChanges(s: State, a: Action, s': State, b: int)
    requires Enabled(s, a) && Next(s, a, s')
    ensures b !in s.log && b in s'.log ==>
              !a.KeepAll? && a.b == b && (a.Read? || a.Create? || a.AgentEdit? || a.Delete? || a.Undo?)
    ensures b in s.log && b !in s'.log ==>
              match s.log[b].status
              case Created(_) => !a.KeepAll? && a.b == b && (a.Delete? || a.Reject? || a.FileDeleted?)
              case Modified => a == FileDeleted(b)
              case Deleted => a.KeepAll? || (a.Keep? && a.b == b)
  {
    hide Rows, RebasedRows, RowPatch, Pick, Accepted, Reports, RowsApart, Fits, ApplyAll, AllTrivial, AllUpright,
         Edited, RejectionOf, InText, InBuffer, IsDiff, Remainder, Kept;
  }

  /** Events that do not leave the status as it is: an edit by the agent revives a deleted file; the agent's
      deletion forgets a file that it created; a file that is gone is tracked only if the agent deleted it;
      one that is back is not tracked as deleted, and has nothing to review if it was. */
  lemma StatusAfterEvents(s: State, a: Action, s': State)
    requires Enabled(s, a) && Next(s, a, s') && !a.KeepAll?
    ensures a.AgentEdit? ==> a.b in s'.log && !s'.log[a.b].status.Deleted?
    ensures a.Delete? ==> (a.b in s'.log <==> !(a.b in s.log && s.log[a.b].status.Created?))
    ensures a.Delete? && a.b in s'.log ==> s'.log[a.b].status.Deleted?
    ensures a.FileDeleted? && a.b in s'.log ==> s'.log[a.b].status.Deleted? && s'.log[a.b] == s.log[a.b]
    ensures a.FileRestored? && a.b in s'.log ==> !s'.log[a.b].status.Deleted?
    ensures a.FileRestored? && a.b in s.log && s.log[a.b].status.Deleted? ==>
              a.b in s'.log && s'.log[a.b].Quiet() && s'.log[a.b].edits == [] && s'.log[a.b].base == s.texts[a.b]
  {
    hide Rows, RebasedRows, RowPatch, Pick, Accepted, Reports, RowsApart, Fits, ApplyAll, AllTrivial, AllUpright,
         Edited, RejectionOf, InText, InBuffer, IsDiff, Remainder, Kept;
  }
}
