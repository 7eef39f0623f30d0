/** The action log: which buffers are tracked, and what each public method and each stage of the diff
    task does to them. Every method is proved to make exactly one step of `LogStates.Next`. */
module ActionLogs {
  import opened Options
  import opened Patches
  import opened Ropes
  import opened Rebase
  import opened RowLifting
  import opened Conflicts
  import opened NonConflicting
  import opened Buffers
  import opened Review
  import opened Commits
  import opened LogStates
  import opened LogInvariant

  class ActionLog {
    /** The texts of all buffers of the project. */
    var texts: map<int, string>
    var trackedBuffers: Log

    ghost function Now(): State
      reads this
    {
      State(texts, trackedBuffers)
    }

    lemma NowIs()
      ensures Now() == State(texts, trackedBuffers)
    {
    }

    constructor (texts: map<int, string>)
      ensures Now() == State(texts, map[]) && Inv(Now())
    {
      this.texts := texts;
      trackedBuffers := map[];
    }

    /** `track_buffer_internal`: a creation replaces what was tracked, anything else keeps it. */
    method TrackBufferInternal(b: int, isCreated: bool, onDisk: bool)
      requires b in texts
      modifies this`trackedBuffers
      ensures isCreated ==> Next(old(Now()), Create(b, onDisk), Now())
      ensures !isCreated ==> Next(old(Now()), Read(b), Now())
    {
      if isCreated {
        var existing := None;
        if b in trackedBuffers {
          var tracked := trackedBuffers[b];
          trackedBuffers := trackedBuffers - {b};
          existing := match tracked.status
            case Created(content) => content
            case Modified | Deleted => Some(tracked.base);
        } else if onDisk {
          existing := Some(texts[b]);
        }
        trackedBuffers := trackedBuffers[b := New(texts[b], existing)];
      } else if b !in trackedBuffers {
        trackedBuffers := trackedBuffers[b := Fresh(texts[b])];
      }
    }

    method BufferRead(b: int)
      requires b in texts
      modifies this`trackedBuffers
      ensures Next(old(Now()), Read(b), Now())
    {
      TrackBufferInternal(b, false, false);
    }

    method BufferCreated(b: int, onDisk: bool)
      requires b in texts
      modifies this`trackedBuffers
      ensures Next(old(Now()), Create(b, onDisk), Now())
    {
      TrackBufferInternal(b, true, onDisk);
    }

    /** `schedule_diff_update`. */
    method ScheduleDiffUpdate(b: int, author: Author)
      requires b in texts && b in trackedBuffers
      modifies this`trackedBuffers
      ensures trackedBuffers == old(trackedBuffers[b := trackedBuffers[b].Schedule(author, texts[b])])
    {
      var t := trackedBuffers[b];
      trackedBuffers := trackedBuffers[b := t.(queue := t.queue + [Change(author, texts[b])])];
    }

    /** The agent edits a buffer and tells the log in the same breath: `buffer_edited`. */
    method BufferEdited(b: int, text: string)
      requires b in texts
      modifies this
      ensures Next(old(Now()), AgentEdit(b, text), Now())
    {
      texts := texts[b := text];
      TrackBufferInternal(b, false, false);
      if trackedBuffers[b].status.Deleted? {
        trackedBuffers := trackedBuffers[b := trackedBuffers[b].(status := Modified)];
      }
      ScheduleDiffUpdate(b, Agent);
    }

    /** Someone else edits a buffer, and the event reaches the log: `handle_buffer_event`. */
    method HandleBufferEdited(b: int, text: string)
      requires b in texts
      modifies this
      ensures Next(old(Now()), UserEdit(b, text), Now())
    {
      texts := texts[b := text];
      if b in trackedBuffers {
        ScheduleDiffUpdate(b, User);
      }
    }

    /** `handle_buffer_file_changed`, after the file went away or came back. */
    method HandleFileChanged(b: int, isDeleted: bool)
      requires b in texts
      modifies this`trackedBuffers
      ensures Next(old(Now()), if isDeleted then FileDeleted(b) else FileRestored(b), Now())
    {
      if b !in trackedBuffers {
        return;
      }
      match trackedBuffers[b].status {
        case Created(_) | Modified =>
          if isDeleted {
            trackedBuffers := trackedBuffers - {b};
          }
        case Deleted =>
          if !isDeleted {
            trackedBuffers := trackedBuffers - {b};
            TrackBufferInternal(b, false, false);
          }
      }
    }

    /** `will_delete_buffer`, of a log that is linked to no other. */
    method WillDeleteBuffer(b: int)
      requires b in texts
      modifies this
      ensures Next(old(Now()), Delete(b), Now())
    {
      TrackBufferInternal(b, false, false);
      match trackedBuffers[b].status {
        case Created(_) => trackedBuffers := trackedBuffers - {b};
        case Modified =>
          trackedBuffers := trackedBuffers[b := trackedBuffers[b].(status := Deleted)];
          var changed := texts[b] != "";
          texts := texts[b := ""];
          ScheduleDiffUpdate(b, Agent);
          if changed {
            ScheduleDiffUpdate(b, User);
          }
        case Deleted =>
      }
    }

    // ---------------------------------------------------------------- the diff task

    /** The first half of `track_edits`: takes one scheduled change and computes the base it leads
        to. `edits` is what `edits_since` reports, `cs` the same at character offsets. */
    method CaptureEdits(b: int, edits: seq<PointEdit>, ghost cs: seq<Edit>)
      requires Inv(Now()) && Enabled(Now(), Capture(b, cs))
      requires AllInBounds(cs, trackedBuffers[b].snapshot, trackedBuffers[b].queue[0].text)
      requires edits == AllAtPoints(cs, trackedBuffers[b].snapshot, trackedBuffers[b].queue[0].text)
      modifies this`trackedBuffers
      ensures Next(old(Now()), Capture(b, cs), Now())
    {
      hide AllClear, Carries, Carried, NoConflict, Rows, Leads, Separated, RealStarts, Coalesce, RebasedRows, Reports;
      var t := trackedBuffers[b];
      var change := t.queue[0];
      var base := t.base;
      var rowEdits := DiffSnapshots(edits, t.snapshot, change.text);
      LiftedReport(cs, t.snapshot, change.text);
      InvParts(t, texts[b]);
      if change.author.User? {
        var changed;
        base, changed := ApplyNonConflictingEdits(t.edits, rowEdits, base, change.text, Rows(t.snapshot));
      }
      trackedBuffers := trackedBuffers[b := t.(queue := t.queue[1..], pending := Some(Update(base, change.text)))];
    }

    /** The first half of `keep_committed_edits`. `committed` is any line diff of the base and the
        text of the commit. */
    method CaptureCommit(b: int, gitBase: string, committed: seq<Edit>)
      requires Inv(Now()) && Enabled(Now(), Commit(b, gitBase, committed))
      modifies this`trackedBuffers
      ensures Next(old(Now()), Commit(b, gitBase, committed), Now())
    {
      var t := trackedBuffers[b];
      InvParts(t, texts[b]);
      var base := KeepCommittedEdits(t.base, t.snapshot, gitBase, t.edits, committed);
      trackedBuffers := trackedBuffers[b := t.(pending := Some(Update(base, t.snapshot)))];
    }

    /** The end of `update_diff`: `hunks` are the hunks of the diff, `cs` the same at character
        offsets. */
    method UpdateDiff(b: int, hunks: seq<PointEdit>, ghost cs: seq<Edit>)
      requires Inv(Now()) && Enabled(Now(), WriteBack(b, cs))
      requires AllInBounds(cs, trackedBuffers[b].pending.value.base, trackedBuffers[b].pending.value.text)
      requires hunks == AllAtPoints(cs, trackedBuffers[b].pending.value.base, trackedBuffers[b].pending.value.text)
      modifies this`trackedBuffers
      ensures Next(old(Now()), WriteBack(b, cs), Now())
    {
      var t := trackedBuffers[b];
      var u := t.pending.value;
      HunksNonEmpty(cs, u.base, u.text);
      var edits := CollectHunks(hunks, u.base, u.text);
      trackedBuffers := trackedBuffers[b := t.(base := u.base, snapshot := u.text, edits := edits, pending := None)];
    }

    // ---------------------------------------------------------------- review

    /** `keep_edits_in_range`. */
    method KeepEditsInRange(b: int, range: Range)
      requires Inv(Now()) && b in texts
      modifies this`trackedBuffers
      ensures Next(old(Now()), Keep(b, range), Now())
    {
      if b !in trackedBuffers {
        return;
      }
      var t := trackedBuffers[b];
      if t.status.Deleted? {
        trackedBuffers := trackedBuffers - {b};
      } else {
        InvParts(t, texts[b]);
        var base, rest := KeepEdits(t.base, t.snapshot, t.edits, range);
        var status := t.status;
        if rest == [] && status.Created? {
          status := Modified;
        }
        trackedBuffers := trackedBuffers[b := t.(base := base, edits := rest, status := status)];
        ScheduleDiffUpdate(b, User);
      }
    }

    /** `keep_all_edits`: deleted buffers are dropped, all others kept whole. */
    method KeepAllEdits()
      requires Inv(Now())
      modifies this`trackedBuffers
      ensures Next(old(Now()), KeepAll, Now())
    {
      hide *;
      var todo := trackedBuffers.Keys;
      ghost var before := trackedBuffers;
      NowIs();
      KeepAllStarts(State(texts, before));
      while todo != {}
        invariant KeepAllLoop(before, trackedBuffers, texts, todo)
        decreases |todo|
      {
        SomeBuffer(todo);
        var b :| b in todo;
        KeepAllNext(before, trackedBuffers, texts, todo, b);
        var t := trackedBuffers[b];
        if t.status.Deleted? {
          trackedBuffers := trackedBuffers - {b};
        } else {
          KeptWholeIs(t, texts[b]);
          ghost var others := trackedBuffers;
          trackedBuffers := trackedBuffers[b := t.(base := t.snapshot, edits := [],
                                                   status := NoLongerCreated(t.status))];
          ScheduleDiffUpdate(b, User);
          assert trackedBuffers == others[b := KeptWhole(t, texts[b])];
        }
        todo := todo - {b};
      }
      NowIs();
      KeepAllDone(before, trackedBuffers, texts);
    }

    /** `reject_edits_in_ranges`. `at` is where the anchors of the unreviewed edits are found in the
        buffer; the result is what undoing would restore. */
    method RejectEditsInRanges(b: int, at: seq<Range>, ranges: seq<Range>) returns (undo: seq<Replacement>)
      requires Inv(Now()) && b in texts && Enabled(Now(), Reject(b, at, ranges))
      modifies this
      ensures Next(old(Now()), Reject(b, at, ranges), Now())
      ensures b !in old(trackedBuffers) || old(trackedBuffers[b]).status.Deleted? ==> undo == []
      ensures b in old(trackedBuffers) && old(trackedBuffers[b]).status.Created? ==>
                var existing := old(trackedBuffers[b]).status.existing;
                undo == if existing.None? then [] else [Replacement(Range(0, |existing.value|), old(texts[b]))]
      ensures b in old(trackedBuffers) && old(trackedBuffers[b]).status.Modified? ==>
                undo == Remembered(RejectionOf(old(trackedBuffers[b]), old(texts[b]), at, ranges), old(texts[b]))
    {
      hide ApplyAll, Fits, AllTrivial, RejectionOf, Remembered, TrackedInv, InText;
      undo := [];
      if b !in trackedBuffers {
        return;
      }
      var t := trackedBuffers[b];
      RejectionIs(t, texts[b], at, ranges);
      match t.status {
        case Created(existing) =>
          if existing.Some? {
            undo := [Replacement(Range(0, |existing.value|), texts[b])];
            texts := texts[b := existing.value];
          }
          trackedBuffers := trackedBuffers - {b};
        case Deleted =>
          texts := texts[b := t.base];
          trackedBuffers := trackedBuffers - {b};
          BufferRead(b);
        case Modified =>
          var text, edited;
          text, undo, edited := RejectEdits(texts[b], t.base, t.edits, at, ranges);
          texts := texts[b := text];
          if edited {
            ScheduleDiffUpdate(b, User);
          }
      }
    }

    /** What `undo_last_reject` does to one buffer: `restored` are the remembered texts at the places
        where their anchors are found now. */
    method UndoReject(b: int, restored: seq<Replacement>)
      requires b in texts && InBuffer(restored, |texts[b]|)
      modifies this
      ensures Next(old(Now()), Undo(b, restored), Now())
    {
      hide Edited, InBuffer, AllTrivial;
      var text, edited := EditBuffer(texts[b], restored);
      if b in trackedBuffers {
        texts := texts[b := text];
        if edited {
          ScheduleDiffUpdate(b, User);
        }
      } else {
        BufferEdited(b, text);
      }
    }
  }

  lemma RejectionIs(t: Tracked, text: string, at: seq<Range>, ranges: seq<Range>)
    requires |at| == |t.edits|
    ensures RejectionOf(t, text, at, ranges) == Reverts(t.base, t.edits, at, Scan(AllRowsAt(text, at), ranges))
  {
  }

  /** `keep_all_edits` has still to look at the buffers `todo`. */
  ghost predicate KeepAllLoop(before: Log, log: Log, texts: map<int, string>, todo: set<int>) {
    && (forall b :: b in log ==> b in before)
    && (forall b :: b in before ==> b in texts)
    && (forall b :: b in todo ==> b in log && log[b] == before[b])
    && (forall b :: b in before && b !in todo ==> (b in log <==> !before[b].status.Deleted?))
    && forall b :: b in log && b !in todo ==> log[b] == KeptWhole(before[b], texts[b])
  }

  lemma SomeBuffer(s: set<int>)
    ensures s == {} || exists x :: x in s
  {
    if forall x :: x !in s {
      assert s == {};
    }
  }

  lemma KeepAllStarts(s: State)
    requires Inv(s)
    ensures KeepAllLoop(s.log, s.log, s.texts, s.log.Keys)
  {
    hide TrackedInv, KeptWhole;
  }

  lemma KeepAllNext(before: Log, log: Log, texts: map<int, string>, todo: set<int>, b: int)
    requires KeepAllLoop(before, log, texts, todo) && b in todo
    ensures b in log && b in before && b in texts && log[b] == before[b]
    ensures before[b].status.Deleted? ==> KeepAllLoop(before, log - {b}, texts, todo - {b})
    ensures !before[b].status.Deleted? ==>
              KeepAllLoop(before, log[b := KeptWhole(before[b], texts[b])], texts, todo - {b})
  {
    hide KeptWhole;
  }

  lemma KeptWholeIs(t: Tracked, text: string)
    ensures t.(base := t.snapshot, edits := [], status := NoLongerCreated(t.status)).Schedule(User, text)
            == KeptWhole(t, text)
  {
  }

  lemma KeepAllDone(before: Log, log: Log, texts: map<int, string>)
    requires KeepAllLoop(before, log, texts, {})
    ensures Next(State(texts, before), KeepAll, State(texts, log))
  {
    hide KeptWhole;
    forall b
      ensures b in log.Keys <==> b in before && !before[b].status.Deleted?
    {
      assert b in log <==> b in log.Keys;
    }
  }

  /** A report at points, lifted by the two loops, is the row patch of the report. */
  lemma LiftedReport(cs: seq<Edit>, s: string, t: string)
    requires Reports(cs, s, t) && AllInBounds(cs, s, t)
    ensures Coalesce(RowEdits(AllAtPoints(cs, s, t), s, t)) == RowPatch(cs, s, t)
    ensures var p := RowPatch(cs, s, t); Leads(p, Rows(s), Rows(t)) && Separated(p) && RealStarts(p, Rows(s), Rows(t))
  {
    RowEditsLift(cs, s, t);
    RowPatchLeads(cs, s, t);
  }

  lemma HunksNonEmpty(cs: seq<Edit>, s: string, t: string)
    requires IsDiff(cs, s, t) && AllInBounds(cs, s, t)
    ensures forall e :: e in RowEdits(AllAtPoints(cs, s, t), s, t) ==> !e.IsEmpty()
    ensures Coalesce(RowEdits(AllAtPoints(cs, s, t), s, t)) == RowPatch(cs, s, t)
  {
    RowEditsLift(cs, s, t);
    var l := LiftAll(cs, s, t);
    forall e | e in l
      ensures !e.IsEmpty()
    {
      var n :| 0 <= n < |l| && l[n] == e;
      assert cs[n] in cs;
      LiftNonEmpty(cs[n], s, t);
    }
  }
}
