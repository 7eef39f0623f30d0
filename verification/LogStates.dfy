/** The states of the action log and the steps between them.

    Buffers are identified by numbers. A tracked buffer has a task of its own that takes one change
    from a queue, computes a new base from it and, later, writes base, snapshot and unreviewed edits
    back; anything else may happen in between. */
module LogStates {
  import opened Options
  import opened Patches
  import opened Ropes
  import opened Rebase
  import opened RowLifting
  import opened Buffers
  import opened Review
  import opened Commits

  datatype Author = User | Agent
  datatype Status = Created(existing: Option<string>) | Modified | Deleted
  datatype Change = Change(author: Author, text: string)

  /** A diff update between capture and write-back: the new base and the text it goes with. */
  datatype Update = Update(base: string, text: string)

  datatype Tracked = Tracked(base: string, snapshot: string, edits: seq<Edit>, status: Status,
                             queue: seq<Change>, pending: Option<Update>) {
    /** `schedule_diff_update`. */
    function Schedule(author: Author, text: string): Tracked {
      this.(queue := queue + [Change(author, text)])
    }

    /** The text that the snapshot will be when everything scheduled so far is processed. */
    function Latest(): string {
      if queue != [] then queue[|queue| - 1].text
      else if pending.Some? then pending.value.text
      else snapshot
    }

    predicate Quiet() {
      queue == [] && pending.None?
    }
  }

  type Log = map<int, Tracked>

  datatype State = State(texts: map<int, string>, log: Log)

  datatype Action =
    | Read(b: int)
    | Create(b: int, onDisk: bool)
    | AgentEdit(b: int, text: string)
    | UserEdit(b: int, text: string)
    | Delete(b: int)
    | Capture(b: int, edits: seq<Edit>)
    | Commit(b: int, gitBase: string, committed: seq<Edit>)
    | WriteBack(b: int, hunks: seq<Edit>)
    | Keep(b: int, range: Range)
    | KeepAll
    | Reject(b: int, at: seq<Range>, ranges: seq<Range>)
    | Undo(b: int, restored: seq<Replacement>)
    | FileDeleted(b: int)
    | FileRestored(b: int)

  // ------------------------------------------------------------------ what always holds

  /** The unreviewed edits are a proper patch from the base to the snapshot, and the changes that
      are scheduled end with the text of the buffer. */
  ghost predicate TrackedInv(t: Tracked, text: string) {
    && Leads(t.edits, Rows(t.base), Rows(t.snapshot))
    && Separated(t.edits)
    && RealStarts(t.edits, Rows(t.base), Rows(t.snapshot))
    && t.Latest() == text
  }

  ghost predicate Inv(s: State) {
    forall b :: b in s.log ==> b in s.texts && TrackedInv(s.log[b], s.texts[b])
  }

  // ------------------------------------------------------------------ steps

  /** The row patch that the log makes of reported character edits. */
  ghost function RowPatch(cs: seq<Edit>, s: string, t: string): seq<Edit> {
    if AllInBounds(cs, s, t) then Coalesce(LiftAll(cs, s, t)) else []
  }

  /** Any list of separated character edits that leads from `s` to `t`: all that is known of
      `edits_since` and of the hunks of a diff. */
  ghost predicate Reports(cs: seq<Edit>, s: string, t: string) {
    Leads(cs, s, t) && Separated(cs)
  }

  /** The hunks of a diff; equal texts have none. */
  ghost predicate IsDiff(hunks: seq<Edit>, s: string, t: string) {
    Reports(hunks, s, t) && (forall c :: c in hunks ==> NonEmpty(c)) && (s == t ==> hunks == [])
  }

  /** A buffer that was just read: nothing to review. */
  function Fresh(text: string): Tracked {
    Tracked(text, text, [], Modified, [], None)
  }

  /** A buffer the agent created: all of it is to be reviewed. */
  function New(text: string, existing: Option<string>): Tracked {
    Tracked("", text, [Edit(Range(0, 1), Range(0, |Rows(text)|))], Created(existing), [], None)
  }

  function TrackIfAbsent(log: Log, b: int, text: string): (r: Log)
    ensures b in r
  {
    if b in log then log else log[b := Fresh(text)]
  }

  /** What a creation remembers as the former content of the file. */
  function Existing(log: Log, b: int, text: string, onDisk: bool): Option<string> {
    if b in log then
      if log[b].status.Created? then log[b].status.existing else Some(log[b].base)
    else if onDisk then Some(text)
    else None
  }

  /** A change to a buffer that the log learns of by an event. */
  function Noticed(log: Log, b: int, text: string): Log {
    if b in log then log[b := log[b].Schedule(User, text)] else log
  }

  function NoLongerCreated(status: Status): Status {
    if status.Created? then Modified else status
  }

  function KeptWhole(t: Tracked, text: string): Tracked {
    t.(base := t.snapshot, edits := [], status := NoLongerCreated(t.status)).Schedule(User, text)
  }

  ghost predicate Enabled(s: State, a: Action) {
    (a.KeepAll? || a.b in s.texts) &&
    match a
    case Capture(b, edits) =>
      b in s.log && s.log[b].queue != [] && s.log[b].pending.None?
      && Reports(edits, s.log[b].snapshot, s.log[b].queue[0].text)
    case Commit(b, _, committed) => b in s.log && s.log[b].pending.None? && RowsApart(committed)
    case WriteBack(b, hunks) =>
      b in s.log && s.log[b].pending.Some? && IsDiff(hunks, s.log[b].pending.value.base, s.log[b].pending.value.text)
    case Reject(b, at, _) => b in s.log ==> |at| == |s.log[b].edits| && InText(at, |s.texts[b]|, 0)
    case Undo(b, restored) => InBuffer(restored, |s.texts[b]|)
    case _ => true
  }

  ghost predicate Captured(t: Tracked, edits: seq<Edit>, t': Tracked)
    requires t.queue != []
  {
    var change := t.queue[0];
    && t'.pending.Some?
    && t' == t.(queue := t.queue[1..], pending := Some(Update(t'.pending.value.base, change.text)))
    && if change.author.Agent? then t'.pending.value.base == t.base
       else Rows(t'.pending.value.base)
            == RebasedRows(t.edits, RowPatch(edits, t.snapshot, change.text), Rows(t.base), Rows(change.text))
  }

  ghost predicate CommitCaptured(t: Tracked, gitBase: string, committed: seq<Edit>, t': Tracked) {
    && t'.pending.Some?
    && t' == t.(pending := Some(Update(t'.pending.value.base, t.snapshot)))
    && Rows(t'.pending.value.base)
       == Pick(t.edits, Rows(t.base), Rows(t.snapshot), Accepted(t.edits, committed, t.snapshot, gitBase), 0)
  }

  ghost function WrittenBack(t: Tracked, hunks: seq<Edit>): Tracked {
    if t.pending.None? then t
    else
      var u := t.pending.value;
      t.(base := u.base, snapshot := u.text, edits := RowPatch(hunks, u.base, u.text), pending := None)
  }

  ghost predicate KeptSome(t: Tracked, range: Range, text: string, t': Tracked) {
    var rest := Remainder(t.edits, Kept(t.edits, range), 0);
    && Rows(t'.base) == Pick(t.edits, Rows(t.base), Rows(t.snapshot), Kept(t.edits, range), 0)
    && t' == t.(base := t'.base, edits := rest,
                status := if rest == [] then NoLongerCreated(t.status) else t.status).Schedule(User, text)
  }

  ghost function RejectionOf(t: Tracked, text: string, at: seq<Range>, ranges: seq<Range>): seq<Replacement>
    requires |at| == |t.edits|
  {
    Reverts(t.base, t.edits, at, Scan(AllRowsAt(text, at), ranges))
  }

  /** What one action does. */
  ghost predicate Next(s: State, a: Action, s': State)
    requires Enabled(s, a)
  {
    match a
    case Read(b) => s' == s.(log := TrackIfAbsent(s.log, b, s.texts[b]))
    case Create(b, onDisk) =>
      s' == s.(log := s.log[b := New(s.texts[b], Existing(s.log, b, s.texts[b], onDisk))])
    case AgentEdit(b, text) =>
      var log := TrackIfAbsent(s.log, b, text);
      var t := log[b].(status := if log[b].status.Deleted? then Modified else log[b].status);
      s' == State(s.texts[b := text], log[b := t.Schedule(Agent, text)])
    case UserEdit(b, text) => s' == State(s.texts[b := text], Noticed(s.log, b, text))
    case Delete(b) =>
      var log := TrackIfAbsent(s.log, b, s.texts[b]);
      (match log[b].status
       case Created(_) => s' == s.(log := log - {b})
       case Modified =>
         var t := log[b].(status := Deleted).Schedule(Agent, "");
         s' == State(s.texts[b := ""], log[b := if s.texts[b] == "" then t else t.Schedule(User, "")])
       case Deleted => s' == s)
    case Capture(b, edits) =>
      b in s'.log && Captured(s.log[b], edits, s'.log[b]) && s' == s.(log := s.log[b := s'.log[b]])
    case Commit(b, gitBase, committed) =>
      && b in s'.log && CommitCaptured(s.log[b], gitBase, committed, s'.log[b])
      && s' == s.(log := s.log[b := s'.log[b]])
    case WriteBack(b, hunks) => s' == s.(log := s.log[b := WrittenBack(s.log[b], hunks)])
    case Keep(b, range) =>
      if b !in s.log then s' == s
      else if s.log[b].status.Deleted? then s' == s.(log := s.log - {b})
      else
        b in s'.log && KeptSome(s.log[b], range, s.texts[b], s'.log[b]) && s' == s.(log := s.log[b := s'.log[b]])
    case KeepAll =>
      && s'.texts == s.texts
      && s'.log.Keys == (set b | b in s.log && !s.log[b].status.Deleted?)
      && forall b :: b in s'.log && b in s.texts ==> s'.log[b] == KeptWhole(s.log[b], s.texts[b])
    case Reject(b, at, ranges) =>
      if b !in s.log then s' == s
      else
        var t := s.log[b];
        (match t.status
         case Created(existing) =>
           s' == State(if existing.Some? then s.texts[b := existing.value] else s.texts, s.log - {b})
         case Deleted => s' == State(s.texts[b := t.base], s.log[b := Fresh(t.base)])
         case Modified =>
           var l := RejectionOf(t, s.texts[b], at, ranges);
           && Fits(l, |s.texts[b]|, 0)
           && var text := ApplyAll(l, s.texts[b], 0);
              s' == State(s.texts[b := text], if AllTrivial(l) then s.log else Noticed(s.log, b, text)))
    case Undo(b, restored) =>
      var text := Edited(s.texts[b], restored);
      if b in s.log then
        s' == State(s.texts[b := text], if AllTrivial(AllUpright(restored)) then s.log else Noticed(s.log, b, text))
      else s' == State(s.texts[b := text], s.log[b := Fresh(text).Schedule(Agent, text)])
    case FileDeleted(b) =>
      if b in s.log && !s.log[b].status.Deleted? then s' == s.(log := s.log - {b}) else s' == s
    case FileRestored(b) =>
      if b in s.log && s.log[b].status.Deleted? then s' == s.(log := s.log[b := Fresh(s.texts[b])]) else s' == s
  }
}
