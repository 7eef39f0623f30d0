/** Tool calls of a thread and the one-shot permission replies that waiting calls own.

    A reply is a channel whose sender lives in the status of one entry. Answering sends the chosen
    option; overwriting or dropping the status drops the sender, which the asker sees as a
    cancellation. */
module ToolCalls {
  import opened Options

  datatype Outcome = Selected(choice: int) | Cancelled
  datatype Reply = Open | Resolved(outcome: Outcome)

  datatype Status = Pending | WaitingForConfirmation(reply: nat) | InProgress | Completed | Failed | Rejected | Canceled

  datatype Entry = ToolCall(id: int, status: Status) | OtherEntry

  datatype State = State(entries: seq<Entry>, replies: seq<Reply>)

  /** What an update brings: a status the agent may set, and whether its content can be read. */
  datatype Fields = Fields(status: Option<Status>, readable: bool) {
    predicate Valid() {
      status.Some? ==> !status.value.WaitingForConfirmation?
    }
  }

  datatype Change = UpdateFields(fields: Fields) | UpdateContent

  datatype Operation =
    | Update(id: int, change: Change)
    | Upsert(id: int, status: Status, fields: Fields)
    | Request(id: int, fields: Fields)
    | Authorize(id: int, choice: int, rejects: bool)
    | CancelPending
    | Truncate(ix: nat)
    | PushOther

  predicate ValidOperation(op: Operation) {
    match op
    case Update(_, UpdateFields(fields)) => fields.Valid()
    case Upsert(_, status, fields) => !status.WaitingForConfirmation? && fields.Valid()
    case Request(_, fields) => fields.Valid()
    case _ => true
  }

  // ------------------------------------------------------------------ what the operations do

  /** Dropping a status drops the sender of its reply. */
  function Drop(replies: seq<Reply>, status: Status): seq<Reply> {
    if status.WaitingForConfirmation? && status.reply < |replies| && replies[status.reply].Open? then
      replies[status.reply := Resolved(Cancelled)]
    else replies
  }

  function SetStatus(s: State, ix: nat, status: Status): State
    requires ix < |s.entries| && s.entries[ix].ToolCall?
  {
    State(s.entries[ix := s.entries[ix].(status := status)], Drop(s.replies, s.entries[ix].status))
  }

  /** The last entry of a tool call. */
  function IndexFor(entries: seq<Entry>, id: int): (r: Option<nat>)
    ensures r.Some? ==> r.value < |entries| && entries[r.value].ToolCall? && entries[r.value].id == id
    ensures r.None? ==> forall e :: e in entries && e.ToolCall? ==> e.id != id
  {
    if entries == [] then None
    else
      var last := entries[|entries| - 1];
      if last.ToolCall? && last.id == id then Some(|entries| - 1) else IndexFor(entries[..|entries| - 1], id)
  }

  function AfterFields(s: State, ix: nat, fields: Fields): State
    requires ix < |s.entries| && s.entries[ix].ToolCall?
  {
    if fields.status.Some? then SetStatus(s, ix, fields.status.value) else s
  }

  /** `upsert_tool_call_inner`: unreadable content leaves the entry with the new fields at most, and
      the status that was to be set is dropped. */
  function AfterUpsert(s: State, id: int, status: Status, fields: Fields): State {
    var ix := IndexFor(s.entries, id);
    if ix.Some? then
      var s1 := AfterFields(s, ix.value, fields);
      if fields.readable then SetStatus(s1, ix.value, status) else State(s1.entries, Drop(s1.replies, status))
    else if fields.readable then State(s.entries + [ToolCall(id, status)], s.replies)
    else State(s.entries, Drop(s.replies, status))
  }

  predicate IsPending(e: Entry) {
    e.ToolCall? && (e.status.Pending? || e.status.WaitingForConfirmation? || e.status.InProgress?)
  }

  /** `mark_pending_tools_as_canceled`, from entry `ix` on. */
  function AfterCancel(s: State, ix: nat): State
    decreases |s.entries| - ix
  {
    if ix >= |s.entries| then s
    else if IsPending(s.entries[ix]) then AfterCancel(SetStatus(s, ix, Canceled), ix + 1)
    else AfterCancel(s, ix + 1)
  }

  /** Removing all entries from `ix` on. */
  function AfterTruncate(s: State, ix: nat): State
    decreases |s.entries|
  {
    if ix >= |s.entries| then s
    else
      var last := s.entries[|s.entries| - 1];
      AfterTruncate(State(s.entries[..|s.entries| - 1],
                          if last.ToolCall? then Drop(s.replies, last.status) else s.replies), ix)
  }

  function Apply(s: State, op: Operation): State {
    match op
    case Update(id, change) =>
      var ix := IndexFor(s.entries, id);
      if ix.None? then State(s.entries + [ToolCall(id, Failed)], s.replies)
      else (match change
            case UpdateFields(fields) => AfterFields(s, ix.value, fields)
            case UpdateContent => s)
    case Upsert(id, status, fields) => AfterUpsert(s, id, status, fields)
    case Request(id, fields) =>
      AfterUpsert(State(s.entries, s.replies + [Open]), id, WaitingForConfirmation(|s.replies|), fields)
    case Authorize(id, choice, rejects) =>
      var ix := IndexFor(s.entries, id);
      if ix.None? then s
      else
        var current := s.entries[ix.value].status;
        State(s.entries[ix.value := ToolCall(id, if rejects then Rejected else InProgress)],
              if current.WaitingForConfirmation? && current.reply < |s.replies| && s.replies[current.reply].Open?
              then s.replies[current.reply := Resolved(Selected(choice))] else s.replies)
    case CancelPending => AfterCancel(s, 0)
    case Truncate(ix) => AfterTruncate(s, ix)
    case PushOther => State(s.entries + [OtherEntry], s.replies)
  }

  // ------------------------------------------------------------------ conservation

  predicate Waits(e: Entry) {
    e.ToolCall? && e.status.WaitingForConfirmation?
  }

  predicate Holds(e: Entry, r: nat) {
    Waits(e) && e.status.reply == r
  }

  /** At most one entry per tool call, and no two entries hold the same reply. */
  ghost predicate Distinct(entries: seq<Entry>) {
    && (forall i, j :: 0 <= i < j < |entries| && entries[i].ToolCall? && entries[j].ToolCall? ==>
          entries[i].id != entries[j].id)
    && (forall i, j :: 0 <= i < j < |entries| && Waits(entries[i]) && Waits(entries[j]) ==>
          entries[i].status.reply != entries[j].status.reply)
  }

  ghost predicate HeldAreOpen(entries: seq<Entry>, replies: seq<Reply>, inHand: Option<nat>) {
    forall i :: 0 <= i < |entries| && Waits(entries[i]) ==>
      var r := entries[i].status.reply;
      r < |replies| && replies[r].Open? && inHand != Some(r)
  }

  ghost predicate OpenAreHeld(entries: seq<Entry>, replies: seq<Reply>, inHand: Option<nat>) {
    forall r: nat :: r < |replies| && replies[r].Open? && inHand != Some(r) ==> HeldBySome(entries, r)
  }

  ghost predicate HeldBySome(entries: seq<Entry>, r: nat) {
    exists i :: 0 <= i < |entries| && Holds(entries[i], r)
  }

  /** At most one entry per tool call; a reply is open exactly while one entry holds it, or while
      an operation under way holds it in its hand. */
  ghost predicate Conserved(s: State, inHand: Option<nat>) {
    && Distinct(s.entries)
    && HeldAreOpen(s.entries, s.replies, inHand)
    && OpenAreHeld(s.entries, s.replies, inHand)
    && (inHand.Some? ==> inHand.value < |s.replies| && s.replies[inHand.value].Open?)
  }

  /** A reply that another entry than `ix` holds is held all the same when `ix` changes. */
  lemma HeldElsewhere(entries: seq<Entry>, ix: nat, e: Entry, r: nat)
    requires ix < |entries| && HeldBySome(entries, r) && !Holds(entries[ix], r)
    ensures HeldBySome(entries[ix := e], r)
  {
    var i :| 0 <= i < |entries| && Holds(entries[i], r);
    assert Holds(entries[ix := e][i], r);
  }

  lemma SetStatusConserves(s: State, ix: nat, status: Status, inHand: Option<nat>, inHand': Option<nat>)
    requires Conserved(s, inHand) && ix < |s.entries| && s.entries[ix].ToolCall?
    requires if status.WaitingForConfirmation? then inHand == Some(status.reply) && inHand' == None
             else inHand' == inHand
    ensures Conserved(SetStatus(s, ix, status), inHand')
  {
    var s' := SetStatus(s, ix, status);
    forall r: nat | r < |s'.replies| && s'.replies[r].Open? && inHand' != Some(r)
      ensures HeldBySome(s'.entries, r)
    {
      if inHand == Some(r) {
        assert Holds(s'.entries[ix], r);
      } else {
        HeldElsewhere(s.entries, ix, s'.entries[ix], r);
      }
    }
  }

  lemma DropConserves(s: State, r: nat)
    requires Conserved(s, Some(r))
    ensures Conserved(State(s.entries, Drop(s.replies, WaitingForConfirmation(r))), None)
  {
  }

  lemma PushConserves(s: State, e: Entry, inHand: Option<nat>)
    requires Conserved(s, inHand)
    requires e.ToolCall? ==> IndexFor(s.entries, e.id).None?
    requires e.ToolCall? && e.status.WaitingForConfirmation? ==> inHand == Some(e.status.reply)
    ensures Conserved(State(s.entries + [e], s.replies),
                      if e.ToolCall? && e.status.WaitingForConfirmation? then None else inHand)
  {
    hide Distinct, HeldAreOpen, OpenAreHeld, IndexFor;
    PushDistinct(s.entries, s.replies, e, inHand);
    PushHeldOpen(s.entries, s.replies, e, inHand);
    PushOpenHeld(s.entries, s.replies, e, inHand);
  }

  lemma PushDistinct(entries: seq<Entry>, replies: seq<Reply>, e: Entry, inHand: Option<nat>)
    requires Distinct(entries) && HeldAreOpen(entries, replies, inHand)
    requires e.ToolCall? ==> IndexFor(entries, e.id).None?
    requires Waits(e) ==> inHand == Some(e.status.reply)
    ensures Distinct(entries + [e])
  {
    hide IndexFor;
    assert forall i :: 0 <= i < |entries| ==> (entries + [e])[i] == entries[i] && entries[i] in entries;
  }

  lemma PushHeldOpen(entries: seq<Entry>, replies: seq<Reply>, e: Entry, inHand: Option<nat>)
    requires HeldAreOpen(entries, replies, inHand)
    requires Waits(e) ==> inHand == Some(e.status.reply) && e.status.reply < |replies| && replies[e.status.reply].Open?
    ensures HeldAreOpen(entries + [e], replies, if Waits(e) then None else inHand)
  {
  }

  lemma PushOpenHeld(entries: seq<Entry>, replies: seq<Reply>, e: Entry, inHand: Option<nat>)
    requires OpenAreHeld(entries, replies, inHand)
    requires Waits(e) ==> inHand == Some(e.status.reply)
    ensures OpenAreHeld(entries + [e], replies, if Waits(e) then None else inHand)
  {
    var es := entries + [e];
    forall r: nat | HeldBySome(entries, r)
      ensures HeldBySome(es, r)
    {
      var i :| 0 <= i < |entries| && Holds(entries[i], r);
      assert Holds(es[i], r);
    }
    if Waits(e) {
      assert Holds(es[|entries|], e.status.reply);
    }
  }

  lemma UpsertConserves(s: State, id: int, status: Status, fields: Fields, inHand: Option<nat>)
    requires Conserved(s, inHand) && fields.Valid()
    requires if status.WaitingForConfirmation? then inHand == Some(status.reply) else inHand == None
    ensures Conserved(AfterUpsert(s, id, status, fields), None)
  {
    hide Conserved, Drop;
    var ix := IndexFor(s.entries, id);
    if ix.Some? {
      var s1 := AfterFields(s, ix.value, fields);
      if fields.status.Some? {
        SetStatusConserves(s, ix.value, fields.status.value, inHand, inHand);
      }
      if fields.readable {
        SetStatusConserves(s1, ix.value, status, inHand, None);
      } else {
        DropMaybe(s1, status, inHand);
      }
    } else if fields.readable {
      PushConserves(s, ToolCall(id, status), inHand);
    } else {
      DropMaybe(s, status, inHand);
    }
  }

  lemma DropMaybe(s: State, status: Status, inHand: Option<nat>)
    requires Conserved(s, inHand)
    requires if status.WaitingForConfirmation? then inHand == Some(status.reply) else inHand == None
    ensures Conserved(State(s.entries, Drop(s.replies, status)), None)
  {
    if status.WaitingForConfirmation? {
      DropConserves(s, status.reply);
    }
  }

  lemma {:induction false} CancelConserves(s: State, ix: nat)
    requires Conserved(s, None)
    ensures Conserved(AfterCancel(s, ix), None)
    decreases |s.entries| - ix
  {
    hide Conserved;
    if ix < |s.entries| {
      if IsPending(s.entries[ix]) {
        SetStatusConserves(s, ix, Canceled, None, None);
        CancelConserves(SetStatus(s, ix, Canceled), ix + 1);
      } else {
        CancelConserves(s, ix + 1);
      }
    }
  }

  lemma PopConserves(s: State)
    requires Conserved(s, None) && s.entries != []
    ensures var last := s.entries[|s.entries| - 1];
            Conserved(State(s.entries[..|s.entries| - 1],
                            if last.ToolCall? then Drop(s.replies, last.status) else s.replies), None)
  {
    var n := |s.entries| - 1;
    var last := s.entries[n];
    var s' := State(s.entries[..n], if last.ToolCall? then Drop(s.replies, last.status) else s.replies);
    forall r: nat | r < |s'.replies| && s'.replies[r].Open?
      ensures HeldBySome(s'.entries, r)
    {
      assert HeldBySome(s.entries, r);
      var i :| 0 <= i < |s.entries| && Holds(s.entries[i], r);
      assert i != n && Holds(s'.entries[i], r);
    }
  }

  lemma {:induction false} TruncateConserves(s: State, ix: nat)
    requires Conserved(s, None)
    ensures Conserved(AfterTruncate(s, ix), None)
    decreases |s.entries|
  {
    hide Conserved, Drop;
    if ix < |s.entries| {
      var last := s.entries[|s.entries| - 1];
      PopConserves(s);
      TruncateConserves(State(s.entries[..|s.entries| - 1],
                              if last.ToolCall? then Drop(s.replies, last.status) else s.replies), ix);
    }
  }

  lemma IssueConserves(s: State)
    requires Conserved(s, None)
    ensures Conserved(State(s.entries, s.replies + [Open]), Some(|s.replies|))
  {
    var replies := s.replies + [Open];
    assert forall r :: 0 <= r < |s.replies| ==> replies[r] == s.replies[r];
  }

  lemma AuthorizeConserves(s: State, id: int, choice: int, rejects: bool)
    requires Conserved(s, None)
    ensures Conserved(Apply(s, Authorize(id, choice, rejects)), None)
  {
    var ix := IndexFor(s.entries, id);
    if ix.Some? {
      var s' := Apply(s, Authorize(id, choice, rejects));
      forall r: nat | r < |s'.replies| && s'.replies[r].Open?
        ensures HeldBySome(s'.entries, r)
      {
        assert s.replies[r].Open?;
        HeldElsewhere(s.entries, ix.value, s'.entries[ix.value], r);
      }
    }
  }

  /** Every operation keeps one entry per tool call and every open reply with exactly one owner. */
  lemma ApplyConserves(s: State, op: Operation)
    requires Conserved(s, None) && ValidOperation(op)
    ensures Conserved(Apply(s, op), None)
  {
    hide Conserved, AfterUpsert, AfterCancel, AfterTruncate;
    match op {
      case Update(id, change) =>
        var ix := IndexFor(s.entries, id);
        if ix.None? {
          PushConserves(s, ToolCall(id, Failed), None);
        } else if change.UpdateFields? && change.fields.status.Some? {
          SetStatusConserves(s, ix.value, change.fields.status.value, None, None);
        }
      case Upsert(id, status, fields) => UpsertConserves(s, id, status, fields, None);
      case Request(id, fields) =>
        IssueConserves(s);
        UpsertConserves(State(s.entries, s.replies + [Open]), id, WaitingForConfirmation(|s.replies|), fields,
                        Some(|s.replies|));
      case Authorize(id, choice, rejects) => AuthorizeConserves(s, id, choice, rejects);
      case CancelPending => CancelConserves(s, 0);
      case Truncate(ix) => TruncateConserves(s, ix);
      case PushOther => PushConserves(s, OtherEntry, None);
    }
  }

  // ------------------------------------------------------------------ exactly once

  /** Replies are only added; resolved ones never change; those that become resolved become
      cancelled, unless `chosen` says otherwise. */
  ghost predicate Progress(before: seq<Reply>, after: seq<Reply>, chosen: Option<int>) {
    && |before| <= |after|
    && forall r :: 0 <= r < |before| && after[r] != before[r] ==>
         before[r].Open?
           && (after[r] == Resolved(Cancelled) || (chosen.Some? && after[r] == Resolved(Selected(chosen.value))))
  }

  lemma ProgressTransitive(x: seq<Reply>, y: seq<Reply>, z: seq<Reply>)
    requires Progress(x, y, None) && Progress(y, z, None)
    ensures Progress(x, z, None)
  {
    forall r: nat | r < |x| && z[r] != x[r]
      ensures x[r].Open? && z[r] == Resolved(Cancelled)
    {
      if z[r] != y[r] {
        assert y[r].Open?;
      }
    }
  }

  lemma {:induction false} CancelProgress(s: State, ix: nat)
    ensures Progress(s.replies, AfterCancel(s, ix).replies, None)
    decreases |s.entries| - ix
  {
    if ix < |s.entries| {
      if IsPending(s.entries[ix]) {
        var s1 := SetStatus(s, ix, Canceled);
        CancelProgress(s1, ix + 1);
        assert Progress(s.replies, s1.replies, None);
        ProgressTransitive(s.replies, s1.replies, AfterCancel(s1, ix + 1).replies);
      } else {
        CancelProgress(s, ix + 1);
      }
    }
  }

  lemma {:induction false} TruncateProgress(s: State, ix: nat)
    ensures Progress(s.replies, AfterTruncate(s, ix).replies, None)
    decreases |s.entries|
  {
    if ix < |s.entries| {
      var last := s.entries[|s.entries| - 1];
      var s1 := State(s.entries[..|s.entries| - 1], if last.ToolCall? then Drop(s.replies, last.status) else s.replies);
      TruncateProgress(s1, ix);
      assert Progress(s.replies, s1.replies, None);
      ProgressTransitive(s.replies, s1.replies, AfterTruncate(s1, ix).replies);
    }
  }

  lemma UpsertProgress(s: State, id: int, status: Status, fields: Fields)
    ensures Progress(s.replies, AfterUpsert(s, id, status, fields).replies, None)
  {
    var ix := IndexFor(s.entries, id);
    if ix.Some? {
      var s1 := AfterFields(s, ix.value, fields);
      assert Progress(s.replies, s1.replies, None);
      ProgressTransitive(s.replies, s1.replies, AfterUpsert(s, id, status, fields).replies);
    }
  }

  /** One operation resolves replies at most once, and only `authorize_tool_call` selects. */
  lemma ApplyProgress(s: State, op: Operation)
    ensures Progress(s.replies, Apply(s, op).replies, if op.Authorize? then Some(op.choice) else None)
  {
    match op {
      case Upsert(id, status, fields) => UpsertProgress(s, id, status, fields);
      case Request(id, fields) =>
        var s1 := State(s.entries, s.replies + [Open]);
        assert Progress(s.replies, s1.replies, None);
        hide AfterUpsert;
        UpsertProgress(s1, id, WaitingForConfirmation(|s.replies|), fields);
        ProgressTransitive(s.replies, s1.replies, Apply(s, op).replies);
      case CancelPending => CancelProgress(s, 0);
      case Truncate(ix) => TruncateProgress(s, ix);
      case _ =>
    }
  }

  /** Answering the call that waits resolves its reply with the chosen option. */
  lemma AuthorizeAnswers(s: State, ix: nat, r: nat, choice: int, rejects: bool)
    requires Conserved(s, None) && ix < |s.entries| && Holds(s.entries[ix], r)
    ensures var s' := Apply(s, Authorize(s.entries[ix].id, choice, rejects));
            && r < |s'.replies| && s'.replies[r] == Resolved(Selected(choice))
            && forall q :: 0 <= q < |s.replies| && q != r ==> s'.replies[q] == s.replies[q]
  {
    var found := IndexFor(s.entries, s.entries[ix].id);
    assert s.entries[ix] in s.entries;
    assert found == Some(ix);
  }

  /** Canceling leaves no reply open. */
  lemma CancelAnswersAll(s: State)
    requires Conserved(s, None)
    ensures forall r :: 0 <= r < |Apply(s, CancelPending).replies| ==> Apply(s, CancelPending).replies[r].Resolved?
  {
    CancelConserves(s, 0);
    NoneWaiting(s, 0);
  }

  lemma {:induction false} NoneWaiting(s: State, ix: nat)
    requires forall i :: 0 <= i < ix && i < |s.entries| ==> !IsPending(s.entries[i])
    ensures forall i :: 0 <= i < |AfterCancel(s, ix).entries| ==> !IsPending(AfterCancel(s, ix).entries[i])
    decreases |s.entries| - ix
  {
    if ix < |s.entries| {
      NoneWaiting(if IsPending(s.entries[ix]) then SetStatus(s, ix, Canceled) else s, ix + 1);
    }
  }

  // ------------------------------------------------------------------ runs

  // ------------------------------------------------------------------ what each call becomes

  lemma {:induction false} IndexIsUnique(entries: seq<Entry>, k: nat)
    requires Distinct(entries) && k < |entries| && entries[k].ToolCall?
    ensures IndexFor(entries, entries[k].id) == Some(k)
  {
    var r := IndexFor(entries, entries[k].id);
    assert entries[k] in entries;
  }

  lemma {:induction false} CanceledAt(s: State, ix: nat, k: nat)
    requires k < |s.entries|
    ensures |AfterCancel(s, ix).entries| == |s.entries|
    ensures AfterCancel(s, ix).entries[k]
            == if ix <= k && IsPending(s.entries[k]) then ToolCall(s.entries[k].id, Canceled) else s.entries[k]
    decreases |s.entries| - ix
  {
    if ix < |s.entries| {
      if IsPending(s.entries[ix]) {
        CanceledAt(SetStatus(s, ix, Canceled), ix + 1, k);
      } else {
        CanceledAt(s, ix + 1, k);
      }
    }
  }

  lemma {:induction false} TruncatedEntries(s: State, ix: nat)
    ensures AfterTruncate(s, ix).entries == if ix < |s.entries| then s.entries[..ix] else s.entries
    decreases |s.entries|
  {
    if ix < |s.entries| {
      var last := s.entries[|s.entries| - 1];
      var front := s.entries[..|s.entries| - 1];
      TruncatedEntries(State(front, if last.ToolCall? then Drop(s.replies, last.status) else s.replies), ix);
      assert ix < |front| ==> front[..ix] == s.entries[..ix];
      assert ix == |front| ==> front == s.entries[..ix];
    }
  }

  /** What an operation makes of the status of a tool call that has an entry: allowing it lets it run, and
      rejecting it rejects it; an update sets what it brings; unreadable content sets nothing more; a cancel
      ends what is pending, waiting or running; and nothing happens to any other call. */
  lemma StatusAfter(s: State, op: Operation, k: nat)
    requires Conserved(s, None) && k < |s.entries| && s.entries[k].ToolCall? && !op.Truncate?
    ensures k < |Apply(s, op).entries|
    ensures var (e, e') := (s.entries[k], Apply(s, op).entries[k]);
            match op
            case Update(id, UpdateFields(Fields(Some(status), _))) =>
              e' == ToolCall(e.id, if id == e.id then status else e.status)
            case Upsert(id, status, Fields(brought, readable)) =>
              e' == ToolCall(e.id, if id != e.id then e.status else if readable then status
                                   else if brought.Some? then brought.value else e.status)
            case Request(id, Fields(brought, readable)) =>
              e' == ToolCall(e.id, if id != e.id then e.status else if readable then WaitingForConfirmation(|s.replies|)
                                   else if brought.Some? then brought.value else e.status)
            case Authorize(id, _, true) => e' == ToolCall(e.id, if id == e.id then Rejected else e.status)
            case Authorize(id, _, false) => e' == ToolCall(e.id, if id == e.id then InProgress else e.status)
            case CancelPending =>
              e' == ToolCall(e.id, match e.status
                                   case Pending | InProgress | WaitingForConfirmation(_) => Canceled
                                   case Completed | Failed | Rejected | Canceled => e.status)
            case _ => e' == e
  {
    IndexIsUnique(s.entries, k);
    CanceledAt(s, 0, k);
  }

  /** Entries that an operation adds: one for a tool call that has none, failed if only an update names it;
      other entries stay, and removing entries keeps those in front. */
  lemma EntriesAfter(s: State, op: Operation)
    ensures var es := Apply(s, op).entries;
            match op
            case Truncate(ix) => es == if ix < |s.entries| then s.entries[..ix] else s.entries
            case PushOther => es == s.entries + [OtherEntry]
            case Update(id, _) =>
              (forall e :: e in s.entries && e.ToolCall? ==> e.id != id) ==> es == s.entries + [ToolCall(id, Failed)]
            case Upsert(id, status, fields) =>
              (forall e :: e in s.entries && e.ToolCall? ==> e.id != id) ==>
                es == s.entries + if fields.readable then [ToolCall(id, status)] else []
            case Request(id, fields) =>
              (forall e :: e in s.entries && e.ToolCall? ==> e.id != id) ==>
                es == s.entries + if fields.readable then [ToolCall(id, WaitingForConfirmation(|s.replies|))] else []
            case _ => |es| == |s.entries|
    ensures forall k :: 0 <= k < |s.entries| && s.entries[k].OtherEntry? && !op.Truncate? ==>
                          k < |Apply(s, op).entries| && Apply(s, op).entries[k].OtherEntry?
  {
    if op.Truncate? {
      TruncatedEntries(s, op.ix);
    } else if op.CancelPending? {
      assert s.entries == [] ==> AfterCancel(s, 0) == s;
      forall k | 0 <= k < |s.entries|
        ensures |AfterCancel(s, 0).entries| == |s.entries|
        ensures s.entries[k].OtherEntry? ==> AfterCancel(s, 0).entries[k].OtherEntry?
      {
        CanceledAt(s, 0, k);
      }
      assert s.entries != [] ==> s.entries[0] in s.entries;
    }
  }

  function AfterRun(s: State, ops: seq<Operation>): State
    decreases ops
  {
    if ops == [] then s else AfterRun(Apply(s, ops[0]), ops[1..])
  }

  /** In every run, each reply issued so far is held by exactly one waiting entry or has been
      resolved; and a reply that is resolved keeps its outcome for good. */
  lemma {:induction false} RunConserves(s: State, ops: seq<Operation>)
    requires Conserved(s, None) && forall op :: op in ops ==> ValidOperation(op)
    ensures Conserved(AfterRun(s, ops), None)
    ensures |s.replies| <= |AfterRun(s, ops).replies|
    ensures forall r :: 0 <= r < |s.replies| && s.replies[r].Resolved? ==> AfterRun(s, ops).replies[r] == s.replies[r]
    decreases ops
  {
    hide Conserved, Apply;
    if ops != [] {
      assert ops[0] in ops;
      ApplyConserves(s, ops[0]);
      ApplyProgress(s, ops[0]);
      RunConserves(Apply(s, ops[0]), ops[1..]);
    }
  }

  // ------------------------------------------------------------------ the thread

  class AcpThread {
    var entries: seq<Entry>
    /** What became of the replies issued so far. */
    var replies: seq<Reply>

    function Now(): State
      reads this
    {
      State(entries, replies)
    }

    constructor ()
      ensures Now() == State([], []) && Conserved(Now(), None)
    {
      entries, replies := [], [];
    }

    /** Dropping a status that is no longer stored anywhere. */
    method DropStatus(status: Status)
      modifies this`replies
      ensures replies == Drop(old(replies), status)
    {
      if status.WaitingForConfirmation? && status.reply < |replies| && replies[status.reply].Open? {
        replies := replies[status.reply := Resolved(Cancelled)];
      }
    }

    /** `mem::replace` of a status, and dropping what was there. */
    method SetCallStatus(ix: nat, status: Status)
      requires ix < |entries| && entries[ix].ToolCall?
      modifies this
      ensures Now() == SetStatus(old(Now()), ix, status)
    {
      var previous := entries[ix].status;
      entries := entries[ix := entries[ix].(status := status)];
      DropStatus(previous);
    }

    /** `index_for_tool_call`: searches from the end. */
    method IndexForToolCall(id: int) returns (r: Option<nat>)
      ensures r == IndexFor(entries, id)
    {
      var n := |entries|;
      assert entries[..n] == entries;
      while n > 0
        invariant 0 <= n <= |entries| && IndexFor(entries[..n], id) == IndexFor(entries, id)
      {
        assert entries[..n][..n - 1] == entries[..n - 1];
        n := n - 1;
        if entries[n].ToolCall? && entries[n].id == id {
          return Some(n);
        }
      }
      return None;
    }

    method UpdateFieldsOf(ix: nat, fields: Fields)
      requires ix < |entries| && entries[ix].ToolCall?
      modifies this
      ensures Now() == AfterFields(old(Now()), ix, fields)
    {
      if fields.status.Some? {
        SetCallStatus(ix, fields.status.value);
      }
    }

    /** `update_tool_call`. */
    method UpdateToolCall(id: int, change: Change)
      modifies this
      ensures Now() == Apply(old(Now()), Update(id, change))
    {
      var ix := IndexForToolCall(id);
      if ix.None? {
        entries := entries + [ToolCall(id, Failed)];
        return;
      }
      match change {
        case UpdateFields(fields) => UpdateFieldsOf(ix.value, fields);
        case UpdateContent =>
      }
    }

    /** `upsert_tool_call_inner`. */
    method UpsertToolCallInner(id: int, status: Status, fields: Fields) returns (ok: bool)
      modifies this
      ensures Now() == AfterUpsert(old(Now()), id, status, fields) && ok == fields.readable
    {
      var ix := IndexForToolCall(id);
      if ix.Some? {
        UpdateFieldsOf(ix.value, fields);
        if fields.readable {
          SetCallStatus(ix.value, status);
        } else {
          DropStatus(status);
        }
      } else if fields.readable {
        entries := entries + [ToolCall(id, status)];
      } else {
        DropStatus(status);
      }
      return fields.readable;
    }

    /** `upsert_tool_call`. */
    method UpsertToolCall(id: int, status: Status, fields: Fields) returns (ok: bool)
      requires !status.WaitingForConfirmation?
      modifies this
      ensures Now() == Apply(old(Now()), Upsert(id, status, fields)) && ok == fields.readable
    {
      ok := UpsertToolCallInner(id, status, fields);
    }

    /** `request_tool_call_authorization`: on success the entry of the call, and nothing else, holds
        the new reply. */
    method RequestToolCallAuthorization(id: int, fields: Fields) returns (reply: nat, ok: bool)
      requires Conserved(Now(), None) && fields.Valid()
      modifies this
      ensures Now() == Apply(old(Now()), Request(id, fields)) && Conserved(Now(), None)
      ensures reply == |old(replies)| && ok == fields.readable
    {
      ApplyConserves(Now(), Request(id, fields));
      reply := |replies|;
      replies := replies + [Open];
      ok := UpsertToolCallInner(id, WaitingForConfirmation(reply), fields);
    }

    /** `authorize_tool_call`. */
    method AuthorizeToolCall(id: int, choice: int, rejects: bool)
      modifies this
      ensures Now() == Apply(old(Now()), Authorize(id, choice, rejects))
    {
      var ix := IndexForToolCall(id);
      if ix.None? {
        return;
      }
      var current := entries[ix.value].status;
      entries := entries[ix.value := ToolCall(id, if rejects then Rejected else InProgress)];
      if current.WaitingForConfirmation? && current.reply < |replies| && replies[current.reply].Open? {
        replies := replies[current.reply := Resolved(Selected(choice))];
      }
    }

    /** `mark_pending_tools_as_canceled`. */
    method MarkPendingToolsAsCanceled()
      modifies this
      ensures Now() == Apply(old(Now()), CancelPending)
    {
      var ix := 0;
      while ix < |entries|
        invariant AfterCancel(Now(), ix) == AfterCancel(old(Now()), 0)
        invariant |entries| == |old(entries)|
      {
        if IsPending(entries[ix]) {
          SetCallStatus(ix, Canceled);
        }
        ix := ix + 1;
      }
    }

    /** Removing entries from the end, when a message is refused or the thread is rewound. */
    method TruncateEntries(ix: nat)
      modifies this
      ensures Now() == Apply(old(Now()), Truncate(ix))
    {
      while |entries| > ix
        invariant AfterTruncate(Now(), ix) == AfterTruncate(old(Now()), ix)
        decreases |entries|
      {
        var last := entries[|entries| - 1];
        entries := entries[..|entries| - 1];
        if last.ToolCall? {
          DropStatus(last.status);
        }
      }
    }
  }
}
