# Reviewing agent edits: a verified model

This project models the parts of the editor that let an agent and a user work on the same text, and
proves what they promise.

* **The action log** (`crates/action_log/src/action_log.rs`). For every tracked buffer it keeps a base
  text, the last processed snapshot, and a patch of unreviewed row edits between them. User edits are
  carried over to the base when they conflict with no unreviewed edit; keeping folds edits into the
  base; rejecting puts base rows back into the buffer; a commit accepts the edits it contains. A diff
  update takes two steps, capture and write-back, and anything else may happen in between.
* **Streaming an edit** into a buffer (`crates/agent/src/edit_agent.rs`).
* **The thread** (`crates/acp_thread/src/acp_thread.rs`): the buffer that reveals text smoothly, the
  permission replies that tool calls own, and the order of turns. Each of the three is a class of its
  own, `AcpThread` in the module of that name, with the fields of the original that concern it.
* **The connection log** (`crates/acp_tools/src/acp_tools.rs`) and **excerpt ranges**
  (`crates/acp_thread/src/diff.rs`).

`dafny verify dfyconfig.toml` checks everything.

## How it is put together

| module | what it holds |
|---|---|
| `Patches` | patches between sequences, what it means that one leads from a text to another, choosing sides edit by edit |
| `Ropes` | rows and characters of a text; when replacing characters is splicing rows |
| `RowLifting`, `Tightness` | from character edits to row edits; that these take no more rows than they must |
| `Rebase`, `Conflicts` | which user edits are carried over, in terms of rows, and what stays under review |
| `Splicing` | texts under construction, shared by the loops that rewrite the base |
| `NonConflicting` | the loop that carries user edits over |
| `Buffers`, `Undoing` | several replacements at once, anchors at characters that are there, taking replacements back |
| `Review`, `Commits` | keep and reject; accepting by commit |
| `Anchors`, `Restoring` | a buffer that keeps its deleted characters, and undoing a rejection in it |
| `LogStates`, `LogInvariant` | states and steps of the log, and what holds in every run |
| `Histories` | what becomes of a buffer over several steps: its base, what the agent writes, deletes and creates, what was kept |
| `Rejections`, `Outcomes` | what the log makes of a rejection; what becomes of a keep or a rejection in the end |
| `ActionLogs` | the log as a class, each method proved to make one step |
| `EditAgent`, `StreamingText`, `Grouping`, `ToolCalls`, `Turns`, `ConnectionRegistry`, `ExcerptRanges` | the other state machines |
| `Options` | optional values |

A text is a string; `Rows` gives its rows. A patch *leads* from `a` to `b` (`Leads`) when its edits are
in order, in bounds, and everything outside of them is equal. `LogStates.Next` says what each action
does; the three methods that rewrite the base are tied to it by the rows of the new base, which
determine the text.

Diffs are black boxes. `edits_since` may report any separated character edits that lead from one text
to the other (`Reports`); the hunks of a diff may be any such edits that change something, with none
between equal texts (`IsDiff`); a line diff against a commit may be any list of separated row edits
(`RowsApart`). No result depends on which.

## Where the code does not do what one would expect

* **A keep can be lost.** A keep of some or all edits is forgotten if and only if a diff update is
  between its capture and its write-back (`Outcomes.KeepIsForgottenIffPending`); the kept base then
  survives only if it happens to equal that of the update, and otherwise the next base is computed from
  it (`Outcomes.AfterKeep`); `Outcomes.InstallsIffLeaves` says what that means in terms of steps.
  `Outcomes.KeepIsLost` shows a case step by step. With no update under way a keep lasts: after the next
  change by the user, no kept row is under review in the residual unless a conflicting edit replaced it
  (`Outcomes.KeptRowsStayKept`). The central invariant holds either way.
* **A rejection can come back.** The log lifts a rejection to rows like any user edit. Next to a blank
  row it can be lifted to an insertion one row further down, and at a blank last row to one further up;
  it then conflicts with nothing and is carried over to the base. `Rejections.Slips` and
  `Rejections.Drifts` say when this happens to which of several rejections, in terms of rows that a
  caller can look at. Each slipped rejection that is not caught puts another copy of base rows into the
  base (`Rejections.Repeats`). `Outcomes.RejectionSettles` follows any rejection to the write-back: exactly
  these copies are made, the base grows by the sum of the drifts, it stays the same if all drifts are zero,
  and, unless some lengthen and some shorten it, only then. Drifts of both signs can cancel out among blank
  rows (`Outcomes.DriftsCanCancel`). `Outcomes.RejectedBlankComesBack` is an example that starts from a
  line diff: the agent deletes one of three blank rows, and the user rejects that. Whether the base gets
  a row too many depends on which of the blank rows the diff reports as deleted.
* **Undo needs its anchors.** Deleted characters stay in the buffer, invisible, with the anchors that are
  attached to them; new text goes behind those at its offset. So an anchor at a deleted character can end
  up on the wrong side of the text that a rejection puts in. Undoing one rejected edit restores the buffer
  if and only if its base text is empty, or its range in the buffer is not, or the character behind its
  end anchor is still there, or the anchor is that of the end; otherwise undoing does nothing at all
  (`Restoring.UndoOfOne`). `Restoring.UndoLosesText` is an example: the agent deletes a row, the user the
  one behind it, and after a rejection and its undo the row that the agent deleted is back. For several edits the
  buffer is restored if and only if every text that was put in lies between the anchors of a rejected edit
  (`Restoring.UndoAfterReject`). Where it goes depends on the fragments of the buffer too, not only on its
  characters (`Restoring.FragmentsDecide`); whatever they are, anchors at characters that are still there
  are enough (`Restoring.UndoOfAttached`), as they are with nothing pending (`Restoring.UndoAtRest`).
* **Undoing the rejection of an overwritten file restores nothing.** Its remembered range is made of
  anchors that belong to no buffer (`crates/action_log/src/action_log.rs:747`), and such ranges are
  dropped (`crates/action_log/src/action_log.rs:986-992`).
* **Reject needs its ranges in order.** The scan over the ranges agrees with a search, for every patch,
  if and only if each covered row is covered by the first range that does not end before it
  (`Review.ScanIsSearch`). Ranges sorted by start row satisfy this; the code does not sort them, and
  `Review.UnsortedRangesMiss` is an example.
* **A bare cancel lets turns overlap** (`Turns.CancelLetsTurnsOverlap`). A new turn keeps bodies one at a
  time if and only if a turn is running or all earlier bodies have ended (`Turns.SendKeepsTurnIff`);
  otherwise two bodies can run at the same time two steps later (`Turns.SendWithoutTurnOverlaps`).
* `upsert_tool_call_inner` is documented to fail when the tool call has no entry
  (`crates/acp_thread/src/acp_thread.rs:1842`); the code inserts one, and so does the model.

## Model

The main results come first, then what they rest on, then the methods of the classes, each proved to
take the step that the results are about.

| member | source | states |
|---|---|---|
| `LogInvariant.StepKeepsInv` | crates/action_log/src/action_log.rs:114-534 | every action keeps the unreviewed edits a proper patch from base to snapshot, and the scheduled changes end with the text of the buffer |
| `LogInvariant.RunKeepsInv` | crates/action_log/src/action_log.rs:2447-2537 | that holds at each point of every run, whatever the interleaving and whatever the diffs report |
| `LogInvariant.ApplyUnreviewed` | crates/action_log/src/action_log.rs:2513-2537 | the check of the random test, on clipped characters, always succeeds |
| `LogInvariant.QuietMatches` | crates/action_log/src/action_log.rs:2513-2537 | with nothing pending, the snapshot is the buffer and the unreviewed edits applied to the base give it |
| `LogInvariant.UserRunsNeedNoReview` | crates/action_log/src/action_log.rs:323-357 | in a run in which the agent only reads, nothing is ever under review, and at rest the base is the text |
| `Histories.AgentWorkIsReviewed` | crates/action_log/src/action_log.rs:583-610 | after any stretch of edits by the agent and updates, the base is what it was, and at rest the unreviewed edits lead from it to the text, and there are some unless the two are equal |
| `Histories.BaseIsKept` | crates/action_log/src/action_log.rs:323-708 | nothing but a keep, a commit that accepts an edit, a carried user edit, or an end or a new start of the tracking changes the base of a buffer, in any stretch of a run |
| `Histories.RejectedDeletionRestores` | crates/action_log/src/action_log.rs:612-642 | from a buffer at rest: the agent deletes the file, its updates run, any rejection brings the base from before back, and nothing is under review |
| `Histories.RejectedCreationRestores` | crates/action_log/src/action_log.rs:114-149 | the agent creates a file, anyone edits it, updates run, and a rejection gives a file that was there its former text: that on disk, or its base, or what it was at the first of several creations |
| `Histories.KeptIsSettled` | crates/action_log/src/action_log.rs:666-708 | after a keep that leaves nothing to review, and after every keep of all edits, no buffer is a created or deleted one, and no rejection changes a text |
| `NonConflicting.ApplyNonConflictingEdits` | crates/action_log/src/action_log.rs:1141-1205 | the single pass applies to the base exactly the user edits that leave every unreviewed edit alone, each to the very rows that it replaces in the snapshot, and reports whether there were any |
| `Conflicts.CarriedIffClear` | crates/action_log/src/action_log.rs:1157-1179 | a user edit is carried over if and only if it shares no row with an unreviewed edit, neither inserts between the rows of one, and does nothing where rows were deleted, both ends included |
| `Rebase.RebaseIsConfined` | crates/action_log/src/action_log.rs:1141-1205 | the residual patch leads from the rebased base to the new snapshot; every new row it presents was under review and left alone by the user, or written by a conflicting user edit; every old row it presents was presented so before, or replaced by a conflicting user edit; without conflicts it is the old patch with shifted rows |
| `Rebase.RebaseSquare` | crates/action_log/src/action_log.rs:1141-1205 | whatever conflicts there are, the residual of both lists, as `Rebase.Residual` computes it, leads from the rebased base to the new snapshot |
| `RowLifting.LiftLeads` | crates/action_log/src/action_log.rs:1207-1254 | for any separated character edits between two texts, lifting and joining gives a separated row patch that leads from rows to rows and whose edits start at real rows |
| `Tightness.ReplacedPiece` | crates/action_log/src/action_log.rs:1231-1254 | the rows that replacing a piece of text takes, in all cases, by the line feeds in the two pieces and around them |
| `Tightness.JoiningAddsNoRows` | crates/action_log/src/action_log.rs:1207-1229 | joining lifted edits takes no row, on either side, that was not taken before |
| `Ropes.ReplaceIsSplice` | crates/action_log/src/action_log.rs:1185-1199 | replacing clipped character ranges equals splicing rows if and only if the ends agree: both reach the last row or neither, and an empty replacement leaves rows behind |
| `Review.KeepAndRejectMeet` | crates/action_log/src/action_log.rs:666-701 | keeping some edits makes the base the very text that the buffer becomes when all others are rejected |
| `Review.RejectEdits` | crates/action_log/src/action_log.rs:806-869 | the scan over sorted edits and ranges, the remembered texts, and the joint replacement of what is rejected |
| `Review.ScanIsSearch` | crates/action_log/src/action_log.rs:806-844 | for every patch the scan rejects exactly the edits that some range touches, if and only if every covered row is covered by the first range that does not end before it |
| `Review.KeepEdits` | crates/action_log/src/action_log.rs:664-701 | the loop folds into the base exactly the edits whose rows touch the range, and the others remain with their old rows moved by the running delta |
| `Commits.KeepCommittedEdits` | crates/action_log/src/action_log.rs:394-444 | the two nested loops fold into the base exactly the unreviewed edits for which some committed edit has the same old rows and the same new text |
| `Undoing.UndoRestores` | crates/action_log/src/action_log.rs:983-997 | any replacements made at once, touching or empty or not, are taken back exactly by replacing what anchors at characters that are there enclose by its former text |
| `Restoring.UndoAfterReject` | crates/action_log/src/action_log.rs:821-876 | whatever was edited since the snapshot and whichever edits are rejected: the anchors are found in order, the base texts take the place of what they enclose, and undoing restores the buffer if and only if every text put in lies between the anchors of a rejected edit |
| `Restoring.UndoOfOne` | crates/action_log/src/action_log.rs:983-997 | for one rejected edit: undoing restores the buffer if and only if its base text is empty, or its range in the buffer is not, or the character behind its end anchor is still there or the anchor is that of the end; otherwise undoing changes nothing |
| `Restoring.UndoRestoresIffEnclosed` | crates/action_log/src/action_log.rs:983-997 | the same for any spans of anchors with a character between neighbours, touching in the buffer or not, and for any gaps that the texts go to |
| `Restoring.UndoOfAttached` | crates/action_log/src/action_log.rs:983-997 | whatever the fragments are: undoing restores the buffer if the anchors of all rejected edits that change something are at characters that are still there |
| `Restoring.UndoLosesText` | crates/action_log/src/action_log.rs:983-997 | a state of the log in which undoing a rejection leaves the base text in the buffer |
| `Rejections.RejectionDrift` | crates/action_log/src/action_log.rs:1141-1254 | for every patch and every selection of rejected edits, the base gets exactly another copy of the rows that each slipped, uncaught rejection repeats; so it grows by the sum of what these add, is unchanged if each adds none, and if they do not partly add and partly remove, only then |
| `Outcomes.RejectionSettles` | crates/action_log/src/action_log.rs:821-869 | rejecting any of the unreviewed edits, up to the write-back: the exact rows of the base, how many it gains, when it stays the same, and, for rejecting everything, that nothing is left to review exactly then |
| `Outcomes.KeepIsForgottenIffPending` | crates/action_log/src/action_log.rs:666-708 | the next write-back depends on what a keep of some or all edits left if and only if no update is under way |
| `Outcomes.AfterKeep` | crates/action_log/src/action_log.rs:525-533 | what that write-back installs: the base of the update under way, which is the kept base only if equal, or one computed from the kept base and the remaining edits |
| `Outcomes.KeptRowsStayKept` | crates/action_log/src/action_log.rs:666-708 | when no update is under way, no kept row is under review in the residual of the next change by the user unless a conflicting user edit replaced it |
| `Outcomes.InstallsIffLeaves` | crates/action_log/src/action_log.rs:525-533 | a base is one that the next write-back installs if and only if taking the next action, unless an update is under way, and then a write-back can leave it |
| `EditAgent.StreamedEdit` | crates/agent/src/edit_agent.rs:360-411 | the buffer ends up with the text before the match, the rewritten match, and the text after it |
| `EditAgent.ApplyBatches` | crates/agent/src/edit_agent.rs:363-374 | however the edits are cut into batches, applying the batches is applying all edits at once |
| `StreamingText.PerformAll` | crates/acp_thread/src/acp_thread.rs:1522-1718 | any run of chunks, new entries, removals, flushes and ticks settles to the plain run, and flushed shows the same |
| `StreamingText.EveryChunkIsAppended` | crates/acp_thread/src/acp_thread.rs:1522-1586 | in every reachable state an assistant chunk adds its text at the end of what is shown |
| `Grouping.RunIsGrouped` | crates/acp_thread/src/acp_thread.rs:1522-1586 | the parts of a run in which no entry is removed are the stretches of neighbouring chunks with the same kind and indentation |
| `Grouping.RunStaysTidy` | crates/acp_thread/src/acp_thread.rs:1522-1586 | in every run, no two neighbouring parts of a message are of the same kind, and no two neighbouring messages have the same author and indentation |
| `Grouping.TwoChunksOnePart` | crates/acp_thread/src/acp_thread.rs:1536-1560 | in every run, two chunks of the same kind and indentation in a row add at most one part, which shows both texts |
| `StreamingText.ThirteenTicks` | crates/acp_thread/src/acp_thread.rs:1634-1648 | if no more text arrives, thirteen ticks reveal everything, however long, also when the rate is up to a thousandth below the exact one |
| `ToolCalls.RunConserves` | crates/acp_thread/src/acp_thread.rs:1761-2087 | in every run there is at most one entry per tool call, each reply issued is held by exactly one waiting entry or resolved, and a resolved reply keeps its outcome |
| `ToolCalls.ApplyProgress` | crates/acp_thread/src/acp_thread.rs:2043-2051 | a reply changes only from open to resolved, and to a selection only by an authorization |
| `ToolCalls.StatusAfter` | crates/acp_thread/src/acp_thread.rs:1761-2087 | what each operation makes of the status of each tool call: allowed calls run, rejected ones are rejected, updates set what they bring, a cancel ends what had not ended, and no other call changes |
| `Turns.GuardedRunsInOrder` | crates/acp_thread/src/acp_thread.rs:2218-2265 | in every run that sends a turn only while one is running or after all earlier bodies have ended, at most one body runs at a time |
| `Turns.SendKeepsTurnIff` | crates/acp_thread/src/acp_thread.rs:2228-2239 | a new turn keeps the bodies in order if and only if a turn is running or all earlier bodies have ended |
| `Turns.SendWithoutTurnOverlaps` | crates/acp_thread/src/acp_thread.rs:2228-2239 | a turn sent at any other time can be running together with an older one two steps later |
| `Turns.RunKeepsNewest` | crates/acp_thread/src/acp_thread.rs:2218-2265 | in every run the running turn, when there is one, is the newest and not completed |
| `ConnectionRegistry.RunKeepsConsistent` | crates/acp_tools/src/acp_tools.rs:245-324 | in every run the backlog is the last at most 2000 messages of the generation, and each listening subscriber has seen an unbroken stretch of them that ends with the newest |
| `ConnectionRegistry.RunTakesAll` | crates/acp_tools/src/acp_tools.rs:180-305 | in every run, what is broadcast and waits to be is all that the open connection sent since someone subscribed, nothing of any other connection, or the newest part if the log was cleared |
| `ConnectionRegistry.WatchedConnection.PushStreamMessage` | crates/acp_tools/src/acp_tools.rs:415-493 | the panel shows what the whole history says, with two maps that hold exactly the unanswered requests |
| `ExcerptRanges.MergeIsCanonical` | crates/acp_thread/src/diff.rs:347-389 | the merged ranges are strictly separated, cover the same points, use only given ends, and do not depend on the order of the input |
| `Patches.LeadsApplies` | crates/action_log/src/action_log.rs:2513-2537 | a patch that leads from one text to another turns it into the other when its edits are applied one after the other as the random test does |
| `Patches.RemainderKeepsShape` | crates/action_log/src/action_log.rs:666-701 | after any edits are taken into the base, the others, moved by the running delta, are again a separated patch with real starts from the new base to the snapshot |
| `Patches.PickInverted` | crates/action_log/src/action_log.rs:666-701 | taking the new side of some edits is taking the old side of all others, seen from the other end |
| `Patches.PickWhole` | crates/action_log/src/action_log.rs:891-915 | taking every edit gives the snapshot, taking none the base |
| `Ropes.ReplacedRows` | crates/action_log/src/action_log.rs:676-696 | the rows of a text after clipped characters are replaced, in every case at the end of either text |
| `Ropes.InsertPastEnd` | crates/action_log/src/action_log.rs:1185-1199 | inserting past the last row, up to the end of the other text, is never a row splice |
| `Ropes.SliceRows` | crates/rope/src/rope.rs:140-145 | the rows of the characters between two row starts, with and without the end of the text |
| `RowLifting.DiffSnapshots` | crates/action_log/src/action_log.rs:1207-1229 | the two nested loops compute the joined lifted edits |
| `RowLifting.CollectHunks` | crates/action_log/src/action_log.rs:498-521 | pushing lifted hunks to a patch one by one gives the same |
| `RowLifting.LiftNonEmpty` | crates/action_log/src/action_log.rs:1231-1254 | a character edit that changes something is lifted to a row edit that is not empty |
| `RowLifting.KeptRows` | crates/action_log/src/action_log.rs:1231-1254 | rows between two boundaries of text common to both sides are the same rows on both sides |
| `Tightness.LiftInText` | crates/action_log/src/action_log.rs:1231-1254 | the row edit of a character edit, in all three cases, with rows counted by line feeds |
| `Tightness.StartRowStays` | crates/action_log/src/action_log.rs:1232-1241 | a change that starts at the end of a line, where a line feed is in the new text too, does not take that line |
| `Tightness.RowsInsertedBehind` | crates/action_log/src/action_log.rs:1232-1241 | rows inserted behind a row are reported as just these rows |
| `Tightness.ChangedInside` | crates/action_log/src/action_log.rs:1247-1252 | a change inside a row takes that row only |
| `Splicing.EditsAreReal` | crates/action_log/src/action_log.rs:1231-1254 | edits of a separated patch with real starts reach the end of both texts or of neither, so replacing their characters splices rows |
| `Rebase.NoConflictsFollow` | crates/action_log/src/action_log.rs:1141-1205 | when nothing conflicts, exactly the old unreviewed edits remain, moved by the user edits before them |
| `Rebase.RowFollows` | crates/action_log/src/action_log.rs:1141-1205 | rows that the user leaves alone are found where the confinement says |
| `Rebase.BaseRowOf` | crates/action_log/src/action_log.rs:1141-1205 | snapshot rows outside of the unreviewed edits equal the base rows that the confinement names |
| `Conflicts.ConflictInRows` | crates/action_log/src/action_log.rs:1157-1164 | the two comparisons say that two edits share a row, or one is inserted inside the other, or at a deletion |
| `NonConflicting.PassUnreviewed` | crates/action_log/src/action_log.rs:1153-1179 | the inner loop keeps the edits still to be carried the same, and reports a conflict exactly when the user edit at hand is not one of them |
| `NonConflicting.ApplyStep` | crates/action_log/src/action_log.rs:1181-1201 | replacing clipped characters at the position given by the two running deltas extends the rebased rows by the next carried edit |
| `Buffers.EditBuffer` | crates/language/src/buffer.rs:2656-2704 | replacements in any order, reversed or overlapping: what they are joined to is applied; in order, joining does not change the result; nothing is edited exactly when all are empty |
| `Buffers.ApplyLater` | crates/agent/src/edit_agent.rs:363-374 | replacements applied where their anchors have moved to give the same text as all replacements at once |
| `Buffers.ResolvePast` | crates/action_log/src/action_log.rs:822-830 | an anchor after replacements that end before it moves by the sum of their length changes |
| `Buffers.UprightFits` | crates/language/src/buffer.rs:2668-2696 | whatever ranges are passed, what they are joined to is in order and in bounds |
| `Undoing.GatherOver` | crates/language/src/buffer.rs:2672-2696 | joining ranges that overlap is replacing no character twice |
| `Undoing.TouchingUndone` | crates/action_log/src/action_log.rs:983-997 | touching replacements: the ranges found for undoing overlap, and are joined to the former text |
| `Anchors.AfterEditText` | crates/text/src/text.rs:914-1000 | replacing characters that stay as deleted ones gives the text that replacing them in the text gives, whichever gaps new text goes to |
| `Anchors.AttachedAnchors` | crates/text/src/text.rs:2454-2488 | anchors at characters that are there end up where `Buffers.ResolveBefore` and `Buffers.ResolveAfter` say |
| `Anchors.GapsFit` | crates/text/src/text.rs:914-962 | the gaps that the cursor over the fragments takes are at the offsets where the ranges start |
| `Anchors.SecondGap` | crates/text/src/text.rs:914-962 | the second text goes right behind the characters in front of it if and only if no fragment begins between the first edit and there |
| `Anchors.FirstGapIs` | crates/text/src/text.rs:2579-2610 | the gap of an anchor before an offset is right behind a visible character, or the start |
| `Anchors.LastGapIs` | crates/text/src/text.rs:2579-2610 | the gap of an anchor after an offset is right in front of a visible character, or the end |
| `Restoring.SpansOfEdits` | crates/action_log/src/action_log.rs:821-831 | the anchors of the unreviewed edits enclose spans with a character between neighbours, found in order in the buffer whatever the user did since |
| `Restoring.UndoneText` | crates/action_log/src/action_log.rs:983-997 | character by character: what undoing leaves is the former text if all texts put in are enclosed, and longer otherwise |
| `Restoring.LocatedText` | crates/action_log/src/action_log.rs:983-997 | replacing the ranges that anchors enclose, as offsets, is replacing the characters between them |
| `Restoring.FragmentsDecide` | crates/text/src/text.rs:947-962 | the same characters and edits with different fragments: the second text goes between its anchors or not |
| `Restoring.UndoAtRest` | crates/action_log/src/action_log.rs:983-997 | with nothing pending, undoing a rejection always restores the buffer |
| `Review.ScanIsFirst` | crates/action_log/src/action_log.rs:832-842 | although the scan consumes ranges, each edit is decided by the first range of the whole request that does not end before it |
| `Review.SortedCovers` | crates/action_log/src/action_log.rs:806-844 | ranges sorted by start row pass that check |
| `Review.UnsortedRangesMiss` | crates/action_log/src/action_log.rs:806-844 | ranges out of order can miss an edit that one of them touches |
| `Review.RejectsWhatItKeeps` | crates/action_log/src/action_log.rs:671-675 | a single range within the buffer rejects the same edits that it would keep |
| `Review.EditsAscend` | crates/action_log/src/action_log.rs:821-831 | the rows of the unreviewed edits, clipped to the text, ascend, as the results about the scan require |
| `Review.TouchesIs` | crates/action_log/src/action_log.rs:671-675 | a request touches an edit if and only if some row or boundary is common to both |
| `Review.RejectedRows` | crates/action_log/src/action_log.rs:821-869 | with nothing pending, rejecting edits puts their old rows in place of their new ones and leaves all other rows |
| `Review.RejectAllIsBase` | crates/action_log/src/action_log.rs:919-957 | rejecting everything turns the buffer into the base |
| `Review.WholeRangePicksAll` | crates/action_log/src/action_log.rs:919-935 | the range of the whole buffer picks every edit, wherever the edits are |
| `Review.RejectWholeBuffer` | crates/action_log/src/action_log.rs:919-957 | rejecting the whole buffer, with nothing pending, turns it into the base |
| `Commits.Decided` | crates/action_log/src/action_log.rs:405-440 | the comparison with the committed edit at hand is final for an unreviewed edit, although both lists only move forward |
| `Commits.CommitOfSnapshot` | crates/action_log/src/action_log.rs:404-440 | when the committed text is the snapshot and the diff reports the unreviewed edits, the new base is the snapshot |
| `LogInvariant.NewInv` | crates/action_log/src/action_log.rs:169-174 | a created buffer starts with one proper edit from the empty base to all of its rows |
| `LogInvariant.CapturedInv` | crates/action_log/src/action_log.rs:323-357 | taking a change from the queue keeps the invariant |
| `LogInvariant.WrittenBackInv` | crates/action_log/src/action_log.rs:498-533 | a write-back establishes the invariant for whatever base was computed before |
| `LogInvariant.KeptInv` | crates/action_log/src/action_log.rs:664-708 | a keep keeps the invariant, also while an update is under way |
| `Histories.BaseStays` | crates/action_log/src/action_log.rs:323-708 | each action but those named keeps the base, now and after the update under way |
| `Histories.WorkingStarts` | crates/action_log/src/action_log.rs:583-610 | where such stretches start: at rest, with a creation against an empty base, and with the first edit of a buffer that was not tracked |
| `Histories.NothingTyped` | crates/action_log/src/action_log.rs:1141-1205 | a change from an empty text to an empty text carries nothing over, whatever is reported |
| `Histories.StatusChanges` | crates/action_log/src/action_log.rs:583-917 | how the status of a tracked buffer may change, and by which action |
| `Histories.TrackingChanges` | crates/action_log/src/action_log.rs:236-269 | which actions begin or stop to track a buffer |
| `Histories.StatusAfterEvents` | crates/action_log/src/action_log.rs:236-269 | an edit by the agent revives a deleted file; its deletion forgets a file it created; what files that go or return are tracked as |
| `Rejections.NoSlipNoDrift` | crates/action_log/src/action_log.rs:1231-1254 | rejections that do not slip, or replace as many rows as there were, add nothing |
| `Rejections.ConflictUnlessSlips` | crates/action_log/src/action_log.rs:1157-1164 | a lifted rejection conflicts with the edit it rejects unless it slips past it at a blank row |
| `Rejections.RowsReplacedLifted` | crates/action_log/src/action_log.rs:1231-1254 | the row edit that is made of replacing whole rows, in terms of rows and blank rows |
| `Rejections.ReportOfRejection` | crates/action_log/src/action_log.rs:1207-1229 | the row edits that the log makes of a rejection, and that what the buffer reports is a proper edit list |
| `Rejections.RejectionReported` | crates/action_log/src/action_log.rs:846-869 | the report names exactly the characters that were replaced and the base text that was put there |
| `Outcomes.WriteBackForgetsKeep` | crates/action_log/src/action_log.rs:525-533 | a keep, or a keep of everything, during an update leaves base, snapshot and unreviewed edits as if it had not happened |
| `Outcomes.RejectionInSteps` | crates/action_log/src/action_log.rs:821-876 | a rejection at rest, the capture of the change and a write-back, as steps of the log, are such a rejection |
| `Outcomes.KeepLasts` | crates/action_log/src/action_log.rs:666-708 | at rest the kept base is the base after the update that the keep schedules, and keeping everything leaves nothing to review |
| `Outcomes.KeepIsLost` | crates/action_log/src/action_log.rs:525-533 | an edit that was kept during an update is under review again after it |
| `Outcomes.BlankHunks` | crates/action_log/src/action_log.rs:498-521 | line hunks that delete one of three blank rows, the row edits they are lifted to, and their drifts |
| `Outcomes.RejectedBlankComesBack` | crates/action_log/src/action_log.rs:1231-1254 | rejecting such a deletion adds a row to the base if the first blank row was reported, and settles if the last was |
| `Outcomes.BlankRejection` | crates/action_log/src/action_log.rs:846-869 | that rejection takes place at rest and gives the base back |
| `Outcomes.DriftsCanCancel` | crates/action_log/src/action_log.rs:1231-1254 | two slipped rejections of opposite sign, beside an edit that is kept, leave the base the same |
| `Outcomes.CancelPatch` | crates/action_log/src/action_log.rs:498-521 | line hunks that a diff may report, and the row edits of that example that they are lifted to |
| `Outcomes.CancelRejection` | crates/action_log/src/action_log.rs:846-869 | the rejection of that example takes place at rest |
| `EditAgent.EditsRewrite` | crates/agent/src/edit_agent.rs:571-603 | the edits anchored in the snapshot, applied at once, turn the matched text into what the operations say and leave what follows alone |
| `EditAgent.RewrittenInTwo` | crates/agent/src/edit_agent.rs:571-603 | the operations may be cut anywhere: the first write their piece, the others work on what is left |
| `EditAgent.OperationIs` | crates/agent/src/edit_agent.rs:587-600 | what one operation makes of the text: it inserts all its text, deletes so many characters, or keeps them |
| `EditAgent.ComputeEdits` | crates/agent/src/edit_agent.rs:587-600 | the loop sends those edits, and its cursor stays inside the match |
| `EditAgent.PlacedIsShifted` | crates/agent/src/edit_agent.rs:590-596 | the two anchors of a later edit have both moved by what the edits before changed |
| `EditAgent.OnlyTheMatchChanges` | crates/agent/src/edit_agent.rs:363-374 | after any number of edits the text around the match is unchanged |
| `StreamingText.CeilCharBoundary` | crates/acp_thread/src/acp_thread.rs:1687-1695 | finds the first character boundary from the index on |
| `StreamingText.RevealRateIsLeast` | crates/acp_thread/src/acp_thread.rs:1634-1648 | the rate is the least that reveals all within the 200 ms at 16 ms a tick |
| `StreamingText.TwelveTicksAreNotEnough` | crates/acp_thread/src/acp_thread.rs:1645-1648 | the bound is tight |
| `StreamingText.AppendShows` | crates/acp_thread/src/acp_thread.rs:640-683 | appending to the last block shows the text at its end and changes no other block |
| `StreamingText.AssistantTextIsAppended` | crates/acp_thread/src/acp_thread.rs:1522-1586 | every assistant chunk adds its text at the end of the transcript: nothing is lost, doubled or reordered |
| `StreamingText.UserTextIsAppended` | crates/acp_thread/src/acp_thread.rs:1471-1511 | so does every user chunk |
| `Grouping.JoinsInLabels` | crates/acp_thread/src/acp_thread.rs:1588-1620 | a chunk joins the last part if and only if that has its kind and indentation |
| `Grouping.AssistantChunkGrouped` | crates/acp_thread/src/acp_thread.rs:1522-1586 | an assistant chunk adds a part exactly if the last one is of another kind or indentation, and the thread stays tidy |
| `Grouping.UserChunkGrouped` | crates/acp_thread/src/acp_thread.rs:1471-1511 | the same for a user chunk |
| `Grouping.ChunkText` | crates/acp_thread/src/acp_thread.rs:1522-1586 | in every run, a chunk shows its text at the end of the part it joins, or in one of its own, and no other part changes |
| `Grouping.NewPartShows` | crates/acp_thread/src/acp_thread.rs:640-735 | what a part shows that starts with a text, a link, a resource, a picture or anything else |
| `Grouping.SecondChunkShows` | crates/acp_thread/src/acp_thread.rs:640-683 | what it shows with a second chunk, with a line break behind a link or a picture |
| `Grouping.UserContentsKept` | crates/acp_thread/src/acp_thread.rs:1471-1511 | as long as no entry is removed the user messages keep all that the user sent, in order |
| `StreamingText.TruncatedTranscript` | crates/acp_thread/src/acp_thread.rs:2418-2426 | removing entries shows a prefix of the former transcript |
| `StreamingText.RevealingChangesNothing` | crates/acp_thread/src/acp_thread.rs:1674-1711 | flushes and ticks make no difference to what a run shows |
| `StreamingText.RunStaysUnshared` | crates/acp_thread/src/acp_thread.rs:1522-1586 | in every run all blocks keep Markdown sources of their own |
| `ToolCalls.ApplyConserves` | crates/acp_thread/src/acp_thread.rs:1761-1901 | every operation keeps at most one entry per tool call, and a reply open exactly while one waiting entry holds it |
| `ToolCalls.AuthorizeAnswers` | crates/acp_thread/src/acp_thread.rs:2058-2087 | authorizing a waiting call sends the choice to its reply and touches no other |
| `ToolCalls.CancelAnswersAll` | crates/acp_thread/src/acp_thread.rs:2353-2368 | after pending tools are canceled no reply is open |
| `ToolCalls.UpsertConserves` | crates/acp_thread/src/acp_thread.rs:1843-1901 | inserting or updating, with readable content or not, leaves the reply of the new status with exactly one owner or resolved |
| `ToolCalls.EntriesAfter` | crates/acp_thread/src/acp_thread.rs:1761-1901 | which entries an operation adds, a failed one for an update of a call that has none, and that removing entries keeps those in front |
| `Turns.OnlyItsOwnEndClears` | crates/acp_thread/src/acp_thread.rs:2253-2265 | the running turn is replaced by a new turn, and cleared only by a cancel or its own completion |
| `Turns.SendsRunInOrder` | crates/acp_thread/src/acp_thread.rs:2218-2265 | runs of sends and retries, with cancels at most that drop their task or cancel nothing, are such runs |
| `Turns.CancelLetsTurnsOverlap` | crates/acp_thread/src/acp_thread.rs:2340-2351 | after a bare cancel the next turn does not wait for the canceled body |
| `Turns.StepKeepsTurn` | crates/acp_thread/src/acp_thread.rs:2218-2265 | every other step keeps the order, cancels included |
| `Turns.DropEndsAll` | crates/acp_thread/src/acp_thread.rs:2340-2351 | dropping the task of the newest turn ends every body that had not ended |
| `ConnectionRegistry.DeliverExtends` | crates/acp_tools/src/acp_tools.rs:275-278 | every listening subscriber is sent each message once |
| `ConnectionRegistry.ResponseNamed` | crates/acp_tools/src/acp_tools.rs:436-452 | a response is named after the newest request the other way with its id, and a second response to it is not recognized |
| `ConnectionRegistry.MessageShown` | crates/acp_tools/src/acp_tools.rs:415-493 | what the panel adds for each message: its direction, its kind, its id and its name |
| `ExcerptRanges.GetExcerptRanges` | crates/acp_thread/src/diff.rs:364-389 | the nested loops compute them |
| `ExcerptRanges.SortingIsUnique` | crates/acp_thread/src/diff.rs:365-366 | the sort key leaves no choice, so an unstable sort is deterministic |
| `StreamingText.AcpThread.PushAssistantContentBlock` | crates/acp_thread/src/acp_thread.rs:1522-1586 | streaming or not, the thread is what appending the chunk at once would have made of it |
| `StreamingText.AcpThread.PushUserContentBlock` | crates/acp_thread/src/acp_thread.rs:1471-1511 | the same for user chunks |
| `StreamingText.AcpThread.StreamingMarkdownTarget` | crates/acp_thread/src/acp_thread.rs:1588-1620 | a chunk is streamed exactly if it joins a Markdown block of its kind at the end of the thread |
| `StreamingText.AcpThread.BufferStreamingText` | crates/acp_thread/src/acp_thread.rs:1624-1655 | buffering text for a block is, once revealed, appending it to that block, also when the target switches |
| `StreamingText.AcpThread.FlushStreamingText` | crates/acp_thread/src/acp_thread.rs:1658-1669 | flushing changes nothing but that nothing is pending |
| `StreamingText.AcpThread.RevealTick` | crates/acp_thread/src/acp_thread.rs:1674-1711 | a tick moves a nonempty prefix that ends between characters, and the thread stands for the same text |
| `StreamingText.AcpThread.PushEntry` | crates/acp_thread/src/acp_thread.rs:1714-1718 | a new entry loses no pending text |
| `StreamingText.AcpThread.TruncateEntries` | crates/acp_thread/src/acp_thread.rs:2418-2426 | removing entries leaves the others as they are |
| `ToolCalls.AcpThread.IndexForToolCall` | crates/acp_thread/src/acp_thread.rs:1903-1916 | finds the last entry of the tool call |
| `ToolCalls.AcpThread.UpdateToolCall` | crates/acp_thread/src/acp_thread.rs:1761-1830 | updates the entry, or adds a failed one |
| `ToolCalls.AcpThread.UpsertToolCallInner` | crates/acp_thread/src/acp_thread.rs:1843-1901 | updates or inserts, dropping the status when the content cannot be read |
| `ToolCalls.AcpThread.UpsertToolCall` | crates/acp_thread/src/acp_thread.rs:1833-1840 | the same for a call reported by the agent |
| `ToolCalls.AcpThread.RequestToolCallAuthorization` | crates/acp_thread/src/acp_thread.rs:2026-2056 | issues a reply and hands it to the entry of the call |
| `ToolCalls.AcpThread.AuthorizeToolCall` | crates/acp_thread/src/acp_thread.rs:2058-2087 | replaces the status and answers the reply it held |
| `ToolCalls.AcpThread.MarkPendingToolsAsCanceled` | crates/acp_thread/src/acp_thread.rs:2353-2368 | cancels pending, waiting and running calls, and no others |
| `ToolCalls.AcpThread.TruncateEntries` | crates/acp_thread/src/acp_thread.rs:2418-2426 | removing entries drops the replies they hold |
| `Turns.AcpThread.RunTurn` | crates/acp_thread/src/acp_thread.rs:2228-2239 | starts a turn that waits for the one it replaces |
| `Turns.AcpThread.CancelTurn` | crates/acp_thread/src/acp_thread.rs:2340-2351 | takes the running turn |
| `Turns.AcpThread.HandleResponse` | crates/acp_thread/src/acp_thread.rs:2253-2265 | a completed turn clears the running turn only if it is still itself |
| `ConnectionRegistry.AcpConnectionRegistry.SetActive` | crates/acp_tools/src/acp_tools.rs:245-261 | a new connection starts a generation with nothing of the old one |
| `ConnectionRegistry.AcpConnectionRegistry.BroadcastNext` | crates/acp_tools/src/acp_tools.rs:263-280 | one line: recorded in the bounded backlog, sent to those who still listen |
| `ConnectionRegistry.AcpConnectionRegistry.EmitLine` | crates/acp_tools/src/acp_tools.rs:180-190 | lines are taken only while the tap is enabled |
| `ConnectionRegistry.AcpConnectionRegistry.CloseTransport` | crates/acp_tools/src/acp_tools.rs:283-292 | the end of the transport drops all subscribers |
| `ConnectionRegistry.AcpConnectionRegistry.Clear` | crates/acp_tools/src/acp_tools.rs:300-305 | clearing starts a generation |
| `ConnectionRegistry.AcpConnectionRegistry.AddSubscriber` | crates/acp_tools/src/acp_tools.rs:316-324 | a subscriber gets the last at most 2000 messages and enables the tap |
| `ConnectionRegistry.WatchedConnection.ClearMessages` | crates/acp_tools/src/acp_tools.rs:524-533 | clearing forgets messages and requests |
| `ActionLogs.ActionLog.TrackBufferInternal` | crates/action_log/src/action_log.rs:114-203 | tracks a buffer that is not tracked yet; a creation starts over and remembers former content |
| `ActionLogs.ActionLog.BufferRead` | crates/action_log/src/action_log.rs:537-557 | tracks the buffer as read |
| `ActionLogs.ActionLog.BufferCreated` | crates/action_log/src/action_log.rs:560-580 | tracks the buffer as created |
| `ActionLogs.ActionLog.BufferEdited` | crates/action_log/src/action_log.rs:583-610 | an agent edit is scheduled as such, and revives a deleted buffer |
| `ActionLogs.ActionLog.ScheduleDiffUpdate` | crates/action_log/src/action_log.rs:1303-1307 | queues the author and the current text |
| `ActionLogs.ActionLog.HandleBufferEdited` | crates/action_log/src/action_log.rs:205-234 | any other edit of a tracked buffer is scheduled as the user's |
| `ActionLogs.ActionLog.HandleFileChanged` | crates/action_log/src/action_log.rs:236-269 | a file that disappears is no longer tracked, one that comes back is tracked afresh |
| `ActionLogs.ActionLog.WillDeleteBuffer` | crates/action_log/src/action_log.rs:612-642 | a created buffer is forgotten, any other is emptied and marked as deleted |
| `ActionLogs.ActionLog.CaptureEdits` | crates/action_log/src/action_log.rs:323-357 | takes one change and computes the base: the same for the agent's, rebased for the user's |
| `ActionLogs.ActionLog.CaptureCommit` | crates/action_log/src/action_log.rs:371-446 | computes the base with the committed edits accepted |
| `ActionLogs.ActionLog.UpdateDiff` | crates/action_log/src/action_log.rs:498-533 | installs base, snapshot and the lifted hunks of the diff between them |
| `ActionLogs.ActionLog.KeepEditsInRange` | crates/action_log/src/action_log.rs:644-708 | the whole effect of a keep, with deleted and created buffers |
| `ActionLogs.ActionLog.KeepAllEdits` | crates/action_log/src/action_log.rs:891-917 | drops deleted buffers and makes the snapshot the base of all others |
| `ActionLogs.ActionLog.RejectEditsInRanges` | crates/action_log/src/action_log.rs:715-889 | the whole effect of a rejection for created, deleted and modified buffers, and what undoing it would restore |
| `ActionLogs.ActionLog.UndoReject` | crates/action_log/src/action_log.rs:978-1006 | restoring remembered texts in a tracked or untracked buffer |

## Left out

- Linked action logs, file read times, telemetry, saving, language servers: they do not touch the state above. `will_delete_buffer` is that of a log linked to no other.
- Characters stand for bytes in texts and offsets; only the reveal of streamed text works on bytes, because it must end between characters. UTF-8 validity itself is not modelled.
- Row and offset arithmetic is unbounded: 32-bit overflow of row numbers and deltas is not modelled.
- The internals of ropes, patches' other operations and diffs. Of fragments, only where they begin and which gap new text goes to is modelled, for an edit of this replica; edits of other replicas are not, nor is undo in the buffer's own history, which can bring deleted characters back.
- ActionLogs.ActionLog.RejectEditsInRanges: the places where anchors are found in the buffer are a parameter, any ranges in order; `Restoring.UndoAfterReject` finds them from the characters next to the anchors. For an overwritten file it states what is remembered, which the original later drops unused. Whether a rejected new file is deleted from disk depends on the file system.
- ActionLogs.ActionLog.UndoReject: undoes one buffer at places that are given, which `Restoring.UndoIn` finds from the anchors; the list of buffers of the last rejection and its one-time use are bookkeeping. Undo of a created file that had no content is not supported by the original either.
- ActionLogs.ActionLog.HandleBufferEdited: an edit and its event are one step, and versions are not modelled: the log notices every edit that it is not told of, and `buffer_read` between an edit and its event is left out.
- EditAgent: how the old text is found and how new text is reindented; operations of all chunks come as one list, and no one else edits the buffer while a match is rewritten.
- StreamingText: rounding of the reveal rate in 32-bit floating point; the rate here is exact, and `StreamingText.ThirteenTicks` leaves room for rounding.
- ToolCalls: what updates do to titles, contents and locations; a debug build panics where an authorization finds no waiting call, the model does what a release build does.
- Turns: a canceled task is dropped at once or not at all; checkpoints, refusals, errors and the plan; late completions of old turns that cancel newer tools.
- ConnectionRegistry: parsing of lines and rendering.
- `mention.rs`, `terminal.rs`, `agent.rs`, `db.rs`: plumbing or easy members.
