/** How the chunks of a thread are grouped into parts and entries, seen from the chunks: a chunk belongs
    to the part of its neighbours with the same kind and indentation. */
module Grouping {
  import opened Options
  import opened StreamingText

  datatype Label = UserPart(indented: bool) | AssistantPart(isThought: bool, indented: bool) | Divider

  function PartLabels(parts: seq<Chunk>, indented: bool): seq<Label> {
    seq(|parts|, k requires 0 <= k < |parts| => AssistantPart(parts[k].isThought, indented))
  }

  function LabelsOf(e: Entry): seq<Label> {
    match e
    case User(_, _, indented) => [UserPart(indented)]
    case Assistant(parts, indented) => PartLabels(parts, indented)
    case Other => [Divider]
  }

  /** The parts of a thread, in order. */
  function Labels(entries: seq<Entry>): seq<Label> {
    if entries == [] then [] else Labels(entries[..|entries| - 1]) + LabelsOf(Last(entries))
  }

  /** The last part has this label. */
  predicate EndsWith(l: seq<Label>, x: Label) {
    l != [] && Last(l) == x
  }

  /** A chunk joins the last part if that has the same label. */
  function Add(l: seq<Label>, x: Label): seq<Label> {
    if EndsWith(l, x) && !x.Divider? then l else l + [x]
  }

  /** Every assistant message has parts, and no two neighbouring parts of one are of the same kind. */
  ghost predicate TidyEntry(e: Entry) {
    e.Assistant? ==> e.parts != [] && forall k :: 0 < k < |e.parts| ==> e.parts[k - 1].isThought != e.parts[k].isThought
  }

  /** Two entries that would be one. */
  predicate Alike(e: Entry, f: Entry) {
    (e.User? && f.User? && e.indented == f.indented) || (e.Assistant? && f.Assistant? && e.indented == f.indented)
  }

  /** Nothing that belongs together is apart. */
  ghost predicate Tidy(entries: seq<Entry>) {
    && (forall e :: e in entries ==> TidyEntry(e))
    && forall k :: 0 < k < |entries| ==> !Alike(entries[k - 1], entries[k])
  }

  lemma LabelsConcat(entries: seq<Entry>, e: Entry)
    ensures Labels(entries + [e]) == Labels(entries) + LabelsOf(e)
    ensures entries != [] ==> Labels(ReplaceLast(entries, e)) == Labels(entries[..|entries| - 1]) + LabelsOf(e)
  {
    assert (entries + [e])[..|entries|] == entries;
    if entries != [] {
      assert ReplaceLast(entries, e)[..|entries| - 1] == entries[..|entries| - 1];
    }
  }

  /** The last part of the last entry is of the given kind exactly if that is the label of the last part. */
  lemma JoinsInLabels(entries: seq<Entry>, isThought: bool, indented: bool)
    requires Tidy(entries)
    ensures Joins(entries, isThought, indented) <==> EndsWith(Labels(entries), AssistantPart(isThought, indented))
  {
    if entries != [] {
      var e := Last(entries);
      assert e in entries && TidyEntry(e);
      LastLabel(entries);
    }
  }

  lemma LastLabel(entries: seq<Entry>)
    requires entries != [] && TidyEntry(Last(entries))
    ensures LabelsOf(Last(entries)) != [] && Labels(entries) != []
    ensures Last(Labels(entries)) == Last(LabelsOf(Last(entries)))
  {
  }

  lemma TidyPush(entries: seq<Entry>, e: Entry)
    requires Tidy(entries) && TidyEntry(e) && (entries != [] ==> !Alike(Last(entries), e))
    ensures Tidy(entries + [e])
  {
  }

  lemma TidyReplace(entries: seq<Entry>, e: Entry)
    requires Tidy(entries) && TidyEntry(e) && entries != [] && Alike(Last(entries), e)
    ensures Tidy(ReplaceLast(entries, e))
  {
  }

  /** An assistant chunk goes to the part it belongs to, and everything stays tidy. */
  lemma AssistantChunkGrouped(t: Thread, c: Content, isThought: bool, indented: bool)
    requires Tidy(t.entries)
    ensures var t' := PlainAssistant(t, c, isThought, indented);
            Tidy(t'.entries) && Labels(t'.entries) == Add(Labels(t.entries), AssistantPart(isThought, indented))
  {
    var x := AssistantPart(isThought, indented);
    JoinsInLabels(t.entries, isThought, indented);
    hide Append, NewBlock, Labels, Tidy;
    if Joins(t.entries, isThought, indented) {
      var p := Chunk(isThought, Append(Last(Last(t.entries).parts).block, t.sources, c).block);
      JoinedEntry(t.entries, p, indented);
    } else {
      var p := Chunk(isThought, NewBlock(t.sources, c).block);
      if t.entries != [] && Last(t.entries).Assistant? && Last(t.entries).indented == indented {
        GrownEntry(t.entries, p, indented);
      } else {
        StartedEntry(t.entries, p, indented);
      }
    }
  }

  lemma LastIsTidy(entries: seq<Entry>)
    requires Tidy(entries) && entries != []
    ensures TidyEntry(Last(entries)) && Labels(entries) == Labels(entries[..|entries| - 1]) + LabelsOf(Last(entries))
  {
    assert Last(entries) in entries;
  }

  lemma JoinedEntry(entries: seq<Entry>, p: Chunk, indented: bool)
    requires Tidy(entries) && Joins(entries, p.isThought, indented)
    ensures var e := Assistant(ReplaceLast(Last(entries).parts, p), indented);
            Tidy(ReplaceLast(entries, e)) && Labels(ReplaceLast(entries, e)) == Labels(entries)
  {
    hide *;
    JoinsShape(entries, p.isThought, indented);
    LastIsTidy(entries);
    var e := Assistant(ReplaceLast(Last(entries).parts, p), indented);
    SameKinds(Last(entries), p, indented);
    LabelsConcat(entries, e);
    TidyReplace(entries, e);
  }

  lemma JoinsShape(entries: seq<Entry>, isThought: bool, indented: bool)
    requires Joins(entries, isThought, indented)
    ensures entries != [] && Last(entries).Assistant? && Last(entries).indented == indented
    ensures Last(entries).parts != [] && Last(Last(entries).parts).isThought == isThought
  {
  }

  /** Another block of the same kind in place of the last part. */
  lemma SameKinds(e: Entry, p: Chunk, indented: bool)
    requires e.Assistant? && e.indented == indented && e.parts != [] && Last(e.parts).isThought == p.isThought
    requires TidyEntry(e)
    ensures var e' := Assistant(ReplaceLast(e.parts, p), indented);
            TidyEntry(e') && Alike(e, e') && LabelsOf(e') == LabelsOf(e)
  {
    assert PartLabels(ReplaceLast(e.parts, p), indented) == PartLabels(e.parts, indented);
  }

  lemma GrownEntry(entries: seq<Entry>, p: Chunk, indented: bool)
    requires Tidy(entries) && !Joins(entries, p.isThought, indented)
    requires entries != [] && Last(entries).Assistant? && Last(entries).indented == indented
    ensures var e := Assistant(Last(entries).parts + [p], indented);
            Tidy(ReplaceLast(entries, e))
            && Labels(ReplaceLast(entries, e)) == Labels(entries) + [AssistantPart(p.isThought, indented)]
  {
    hide *;
    LastIsTidy(entries);
    NotJoined(entries, p.isThought, indented);
    var e := Assistant(Last(entries).parts + [p], indented);
    OneKindMore(Last(entries), p, indented);
    LabelsConcat(entries, e);
    TidyReplace(entries, e);
    AssocLabels(Labels(entries[..|entries| - 1]), LabelsOf(Last(entries)), [AssistantPart(p.isThought, indented)]);
  }

  lemma NotJoined(entries: seq<Entry>, isThought: bool, indented: bool)
    requires !Joins(entries, isThought, indented)
    requires entries != [] && Last(entries).Assistant? && Last(entries).indented == indented && TidyEntry(Last(entries))
    ensures Last(entries).parts != [] && Last(Last(entries).parts).isThought != isThought
  {
  }

  /** A part of another kind behind the last one. */
  lemma OneKindMore(e: Entry, p: Chunk, indented: bool)
    requires e.Assistant? && e.indented == indented && e.parts != [] && Last(e.parts).isThought != p.isThought
    requires TidyEntry(e)
    ensures var e' := Assistant(e.parts + [p], indented);
            TidyEntry(e') && Alike(e, e') && LabelsOf(e') == LabelsOf(e) + [AssistantPart(p.isThought, indented)]
  {
    assert PartLabels(e.parts + [p], indented)
           == PartLabels(e.parts, indented) + [AssistantPart(p.isThought, indented)];
  }

  lemma AssocLabels(x: seq<Label>, y: seq<Label>, z: seq<Label>)
    ensures x + (y + z) == (x + y) + z
  {
  }

  lemma StartedEntry(entries: seq<Entry>, p: Chunk, indented: bool)
    requires Tidy(entries) && !(entries != [] && Last(entries).Assistant? && Last(entries).indented == indented)
    ensures var e := Assistant([p], indented);
            Tidy(entries + [e]) && Labels(entries + [e]) == Labels(entries) + [AssistantPart(p.isThought, indented)]
  {
    hide Tidy, Labels;
    var e := Assistant([p], indented);
    assert PartLabels([p], indented) == [AssistantPart(p.isThought, indented)];
    LabelsConcat(entries, e);
    TidyPush(entries, e);
  }

  lemma UserChunkGrouped(t: Thread, c: Content, indented: bool)
    requires Tidy(t.entries)
    ensures var t' := PlainUser(t, c, indented);
            Tidy(t'.entries) && Labels(t'.entries) == Add(Labels(t.entries), UserPart(indented))
  {
    hide *;
    if t.entries != [] {
      LastIsTidy(t.entries);
      LastLabel(t.entries);
    }
    var e := UserEntry(t, c, indented);
    UserEntryIs(t, c, indented, e);
    LabelsConcat(t.entries, e);
    if t.entries != [] && Last(t.entries).User? && Last(t.entries).indented == indented {
      TidyReplace(t.entries, e);
      UserLabels(t.entries, e, indented);
    } else {
      TidyPush(t.entries, e);
      UserLabels(t.entries, e, indented);
    }
  }

  function UserEntry(t: Thread, c: Content, indented: bool): Entry {
    if t.entries != [] && Last(t.entries).User? && Last(t.entries).indented == indented then
      User(Append(Last(t.entries).block, t.sources, c).block, Last(t.entries).chunks + [c], indented)
    else User(NewBlock(t.sources, c).block, [c], indented)
  }

  lemma UserEntryIs(t: Thread, c: Content, indented: bool, e: Entry)
    requires e == UserEntry(t, c, indented)
    ensures var joins := t.entries != [] && Last(t.entries).User? && Last(t.entries).indented == indented;
            && e.User? && e.indented == indented && TidyEntry(e) && LabelsOf(e) == [UserPart(indented)]
            && PlainUser(t, c, indented).entries == (if joins then ReplaceLast(t.entries, e) else t.entries + [e])
            && (t.entries != [] ==> (Alike(Last(t.entries), e) <==> joins))
  {
    hide Append, NewBlock;
  }

  lemma UserLabels(entries: seq<Entry>, e: Entry, indented: bool)
    requires LabelsOf(e) == [UserPart(indented)]
    requires entries != [] ==>
               && TidyEntry(Last(entries)) && Labels(entries) != [] && LabelsOf(Last(entries)) != []
               && Last(Labels(entries)) == Last(LabelsOf(Last(entries)))
               && Labels(entries) == Labels(entries[..|entries| - 1]) + LabelsOf(Last(entries))
    ensures if entries != [] && Last(entries).User? && Last(entries).indented == indented then
              Labels(entries[..|entries| - 1]) + LabelsOf(e) == Add(Labels(entries), UserPart(indented))
            else Labels(entries) + LabelsOf(e) == Add(Labels(entries), UserPart(indented))
  {
  }

  // ------------------------------------------------------------------ runs

  lemma TidyPrefix(entries: seq<Entry>, ix: nat)
    requires Tidy(entries) && ix <= |entries|
    ensures Tidy(entries[..ix])
  {
  }

  /** In every run, with entries removed or not, nothing that belongs together is apart. */
  lemma {:induction false} RunStaysTidy(ops: seq<Operation>)
    ensures Tidy(PlainRun(ops).entries)
  {
    if ops != [] {
      var t, op := PlainRun(ops[..|ops| - 1]), Last(ops);
      RunStaysTidy(ops[..|ops| - 1]);
      hide Tidy, PlainAssistant, PlainUser;
      match op {
        case UserChunk(c, indented) => UserChunkGrouped(t, c, indented);
        case AssistantChunk(c, isThought, indented) => AssistantChunkGrouped(t, c, isThought, indented);
        case NewEntry => TidyPush(t.entries, Other);
        case RemoveFrom(ix) =>
          if ix <= |t.entries| {
            TidyPrefix(t.entries, ix);
          }
        case _ =>
      }
    }
  }

  /** The label of what an operation brings. */
  function Brought(op: Operation): seq<Label> {
    match op
    case UserChunk(_, indented) => [UserPart(indented)]
    case AssistantChunk(_, isThought, indented) => [AssistantPart(isThought, indented)]
    case NewEntry => [Divider]
    case _ => []
  }

  /** The labels of what the operations bring, each stretch of equal ones taken once. */
  function Grouped(ops: seq<Operation>): seq<Label> {
    if ops == [] then []
    else
      var l := Grouped(ops[..|ops| - 1]);
      if Brought(Last(ops)) == [] then l else Add(l, Brought(Last(ops))[0])
  }

  /** So the parts of a run in which no entry is removed are the stretches of its chunks. */
  lemma {:induction false} RunIsGrouped(ops: seq<Operation>)
    requires forall op :: op in ops ==> !op.RemoveFrom?
    ensures Labels(PlainRun(ops).entries) == Grouped(ops)
  {
    if ops != [] {
      var front := ops[..|ops| - 1];
      var t, op := PlainRun(front), Last(ops);
      assert op in ops && forall o :: o in front ==> o in ops;
      RunIsGrouped(front);
      RunStaysTidy(front);
      hide Tidy, PlainAssistant, PlainUser, Labels;
      match op {
        case UserChunk(c, indented) => UserChunkGrouped(t, c, indented);
        case AssistantChunk(c, isThought, indented) => AssistantChunkGrouped(t, c, isThought, indented);
        case NewEntry => LabelsConcat(t.entries, Other);
        case _ =>
      }
    }
  }

  /** What the user messages were made of. */
  function UserContents(entries: seq<Entry>): seq<Content> {
    if entries == [] then []
    else UserContents(entries[..|entries| - 1]) + if Last(entries).User? then Last(entries).chunks else []
  }

  function SentByUser(ops: seq<Operation>): seq<Content> {
    if ops == [] then []
    else SentByUser(ops[..|ops| - 1]) + if Last(ops).UserChunk? then [Last(ops).c] else []
  }

  lemma ContentsConcat(entries: seq<Entry>, e: Entry)
    ensures UserContents(entries + [e]) == UserContents(entries) + if e.User? then e.chunks else []
    ensures entries != [] ==>
              UserContents(ReplaceLast(entries, e))
              == UserContents(entries[..|entries| - 1]) + if e.User? then e.chunks else []
  {
    assert (entries + [e])[..|entries|] == entries;
    if entries != [] {
      assert ReplaceLast(entries, e)[..|entries| - 1] == entries[..|entries| - 1];
    }
  }

  /** As long as no entry is removed the user messages keep all that the user sent, in order. */
  lemma {:induction false} UserContentsKept(ops: seq<Operation>)
    requires forall op :: op in ops ==> !op.RemoveFrom?
    ensures UserContents(PlainRun(ops).entries) == SentByUser(ops)
  {
    if ops != [] {
      var front := ops[..|ops| - 1];
      var t, op := PlainRun(front), Last(ops);
      assert op in ops && forall o :: o in front ==> o in ops;
      UserContentsKept(front);
      StepContents(t, op);
    }
  }

  lemma StepContents(t: Thread, op: Operation)
    requires !op.RemoveFrom?
    ensures UserContents(PlainStep(t, op).entries) == UserContents(t.entries) + if op.UserChunk? then [op.c] else []
  {
    hide *;
    var es := t.entries;
    NoContents(UserContents(es));
    match op {
      case UserChunk(c, indented) =>
        var e := UserEntry(t, c, indented);
        UserEntryIs(t, c, indented, e);
        UserStepIs(t, c, indented);
        ContentsConcat(es, e);
        UserEntryContents(t, c, indented);
        if es != [] {
          ContentsLast(es);
          AssocContents(UserContents(es[..|es| - 1]), if Last(es).User? then Last(es).chunks else [], [c]);
        }
      case AssistantChunk(c, isThought, indented) =>
        AssistantStepIs(t, c, isThought, indented);
        ContentsConcat(es, Last(PlainAssistant(t, c, isThought, indented).entries));
        if es != [] {
          ContentsLast(es);
        }
      case NewEntry =>
        ContentsConcat(es, Other);
        OtherStepIs(t);
      case _ => QuietStepIs(t, op);
    }
  }

  lemma NoContents(l: seq<Content>)
    ensures l + [] == l
  {
  }

  lemma AssocContents(x: seq<Content>, y: seq<Content>, z: seq<Content>)
    ensures x + (y + z) == (x + y) + z
  {
  }

  lemma ContentsLast(entries: seq<Entry>)
    requires entries != []
    ensures UserContents(entries)
            == UserContents(entries[..|entries| - 1]) + if Last(entries).User? then Last(entries).chunks else []
  {
  }

  lemma UserStepIs(t: Thread, c: Content, indented: bool)
    ensures PlainStep(t, UserChunk(c, indented)) == PlainUser(t, c, indented)
  {
  }

  lemma UserEntryContents(t: Thread, c: Content, indented: bool)
    ensures var (e, es) := (UserEntry(t, c, indented), t.entries);
            e.User? && e.chunks == if es != [] && Last(es).User? && Last(es).indented == indented
                                   then Last(es).chunks + [c] else [c]
  {
    hide Append, NewBlock;
  }

  /** An assistant chunk changes no user message. */
  lemma AssistantStepIs(t: Thread, c: Content, isThought: bool, indented: bool)
    ensures PlainStep(t, AssistantChunk(c, isThought, indented)) == PlainAssistant(t, c, isThought, indented)
    ensures var es' := PlainAssistant(t, c, isThought, indented).entries;
            && es' != [] && Last(es').Assistant?
            && (es' == t.entries + [Last(es')]
                || (t.entries != [] && Last(t.entries).Assistant? && es' == ReplaceLast(t.entries, Last(es'))))
  {
    hide Append, NewBlock;
  }

  lemma OtherStepIs(t: Thread)
    ensures PlainStep(t, NewEntry).entries == t.entries + [Other]
  {
  }

  lemma QuietStepIs(t: Thread, op: Operation)
    requires op.Flush? || op.Tick?
    ensures PlainStep(t, op) == t
  {
  }

  // ------------------------------------------------------------------ what the parts show

  function TextsOf(bs: seq<Block>, sources: seq<Text>): (r: seq<Text>)
    ensures |r| == |bs|
  {
    seq(|bs|, k requires 0 <= k < |bs| => Shown(bs[k], sources))
  }

  /** What each part of the thread shows. */
  function Texts(t: Thread): seq<Text> {
    TextsOf(Blocks(t.entries), t.sources)
  }

  lemma TextsLast(bs: seq<Block>, b: Block, sources: seq<Text>)
    ensures TextsOf(bs + [b], sources) == TextsOf(bs, sources) + [Shown(b, sources)]
  {
  }

  lemma TextsStay(bs: seq<Block>, sources: seq<Text>, sources': seq<Text>)
    requires forall b :: b in bs ==> Shown(b, sources') == Shown(b, sources)
    ensures TextsOf(bs, sources') == TextsOf(bs, sources)
  {
  }

  /** Appending to the last block changes what that one shows, and no other. */
  lemma AppendTexts(bs: seq<Block>, b: Block, sources: seq<Text>, c: Content)
    requires Unshared(bs + [b], |sources|)
    ensures var s := Append(b, sources, c);
            TextsOf(bs + [s.block], s.sources)
            == TextsOf(bs, sources) + [Shown(b, sources) + (Separator(b) + StringContents(c))]
  {
    hide *;
    var s := Append(b, sources, c);
    LastIsKnown(bs, b, |sources|);
    LastShows(b, sources, c);
    OthersKeepSources(bs, b, sources, c);
    TextsStay(bs, sources, s.sources);
    TextsLast(bs, s.block, s.sources);
  }

  lemma NewTexts(bs: seq<Block>, sources: seq<Text>, c: Content)
    requires Unshared(bs, |sources|)
    ensures var s := NewBlock(sources, c);
            TextsOf(bs + [s.block], s.sources) == TextsOf(bs, sources) + [StringContents(c)]
  {
    EmptyUnshared(bs, |sources|);
    EmptyIsNothing(sources, c);
    hide *;
    AppendTexts(bs, Empty, sources, c);
  }

  lemma EmptyUnshared(bs: seq<Block>, n: nat)
    requires Unshared(bs, n)
    ensures Unshared(bs + [Empty], n)
  {
  }

  lemma EmptyIsNothing(sources: seq<Text>, c: Content)
    ensures NewBlock(sources, c) == Append(Empty, sources, c)
    ensures Shown(Empty, sources) + (Separator(Empty) + StringContents(c)) == StringContents(c)
  {
    hide Append, StringContents;
  }

  /** What an assistant chunk shows, in any run: its text at the end of the last part, if that has the same
      kind and indentation, and otherwise in a part of its own; no other part changes. */
  lemma ChunkText(ops: seq<Operation>, c: Content, isThought: bool, indented: bool, t: Thread, t': Thread)
    requires t == PlainRun(ops) && t' == PlainRun(ops + [AssistantChunk(c, isThought, indented)])
    ensures if EndsWith(Labels(t.entries), AssistantPart(isThought, indented)) then
              && Blocks(t.entries) != [] && Texts(t) != []
              && Texts(t') == Texts(t)[..|Texts(t)| - 1]
                              + [Last(Texts(t)) + (Separator(Last(Blocks(t.entries))) + StringContents(c))]
            else Texts(t') == Texts(t) + [StringContents(c)]
  {
    hide *;
    RunStaysTidy(ops);
    RunStaysUnshared(ops);
    RunNext(ops, AssistantChunk(c, isThought, indented));
    ChunkStep(t, c, isThought, indented);
    JoinsInLabels(t.entries, isThought, indented);
    if Joins(t.entries, isThought, indented) {
      var bs, b := BlocksBefore(t.entries), JoinedPart(t.entries, isThought, indented).block;
      JoinedBlocks(t.entries, isThought, indented, b);
      AssistantJoined(t, c, isThought, indented);
      AppendTexts(bs, b, t.sources, c);
      TextsLast(bs, b, t.sources);
      TextsAre(t);
      TextsAre(t');
      ReplacedText(TextsOf(bs, t.sources), Shown(b, t.sources));
      LastBlock(bs, b);
    } else {
      AssistantStarted(t, c, isThought, indented);
      NewTexts(Blocks(t.entries), t.sources, c);
      TextsAre(t);
      TextsAre(t');
    }
  }

  lemma TextsAre(t: Thread)
    ensures Texts(t) == TextsOf(Blocks(t.entries), t.sources)
  {
  }

  lemma LastBlock(bs: seq<Block>, b: Block)
    ensures bs + [b] != [] && Last(bs + [b]) == b
  {
  }

  lemma ReplacedText(l: seq<Text>, x: Text)
    ensures (l + [x])[..|l + [x]| - 1] == l && Last(l + [x]) == x
  {
  }

  lemma RunNext(ops: seq<Operation>, op: Operation)
    ensures PlainRun(ops + [op]) == PlainStep(PlainRun(ops), op)
  {
    assert (ops + [op])[..|ops|] == ops;
    hide PlainStep;
  }

  lemma ChunkStep(t: Thread, c: Content, isThought: bool, indented: bool)
    ensures PlainStep(t, AssistantChunk(c, isThought, indented)) == PlainAssistant(t, c, isThought, indented)
  {
  }

  /** Two chunks of one kind and indentation in a row add at most one part, and it shows both texts. */
  lemma TwoChunksOnePart(ops: seq<Operation>, c: Content, d: Content, isThought: bool, indented: bool,
                         t: Thread, t1: Thread, t2: Thread)
    requires t == PlainRun(ops) && t1 == PlainRun(ops + [AssistantChunk(c, isThought, indented)])
    requires t2 == PlainRun(ops + [AssistantChunk(c, isThought, indented)] + [AssistantChunk(d, isThought, indented)])
    ensures Texts(t2) != [] && |Texts(t2)| <= |Texts(t)| + 1 && |Labels(t2.entries)| <= |Labels(t.entries)| + 1
    ensures EndsWith(Labels(t2.entries), AssistantPart(isThought, indented))
    ensures exists x, y :: (y == [] || y == Newline) && Last(Texts(t2)) == x + StringContents(c) + y + StringContents(d)
  {
    hide *;
    var op, x := AssistantChunk(c, isThought, indented), AssistantPart(isThought, indented);
    RunStaysTidy(ops);
    RunStaysTidy(ops + [op]);
    RunNext(ops, op);
    RunNext(ops + [op], AssistantChunk(d, isThought, indented));
    ChunkStep(t, c, isThought, indented);
    ChunkStep(t1, d, isThought, indented);
    AssistantChunkGrouped(t, c, isThought, indented);
    AssistantChunkGrouped(t1, d, isThought, indented);
    AddEnds(Labels(t.entries), x);
    AddEnds(Labels(t1.entries), x);
    ChunkText(ops, c, isThought, indented, t, t1);
    ChunkText(ops + [op], d, isThought, indented, t1, t2);
    SeparatorIs(Last(Blocks(t1.entries)));
    BothTexts(t, t1, t2, c, d, EndsWith(Labels(t.entries), x), Blocks(t.entries));
  }

  lemma AddEnds(l: seq<Label>, x: Label)
    requires !x.Divider?
    ensures EndsWith(Add(l, x), x) && |Add(l, x)| <= |l| + 1 && (EndsWith(l, x) ==> Add(l, x) == l)
  {
  }

  lemma SeparatorIs(b: Block)
    ensures Separator(b) == [] || Separator(b) == Newline
  {
  }

  lemma BothTexts(t: Thread, t1: Thread, t2: Thread, c: Content, d: Content, joins: bool, bs: seq<Block>)
    requires if joins then bs != [] && Texts(t) != []
                           && Texts(t1) == Texts(t)[..|Texts(t)| - 1]
                                           + [Last(Texts(t)) + (Separator(Last(bs)) + StringContents(c))]
             else Texts(t1) == Texts(t) + [StringContents(c)]
    requires Blocks(t1.entries) != [] && Texts(t1) != []
    requires Separator(Last(Blocks(t1.entries))) == [] || Separator(Last(Blocks(t1.entries))) == Newline
    requires Texts(t2) == Texts(t1)[..|Texts(t1)| - 1]
                          + [Last(Texts(t1)) + (Separator(Last(Blocks(t1.entries))) + StringContents(d))]
    ensures Texts(t2) != [] && |Texts(t2)| <= |Texts(t)| + 1
    ensures exists x, y :: (y == [] || y == Newline) && Last(Texts(t2)) == x + StringContents(c) + y + StringContents(d)
  {
    hide Texts, Blocks, Separator, StringContents;
    var y := Separator(Last(Blocks(t1.entries)));
    var x := if joins then Last(Texts(t)) + Separator(Last(bs)) else [];
    assert Last(Texts(t1)) == x + StringContents(c) by {
      if joins {
        AssocText(Last(Texts(t)), Separator(Last(bs)), StringContents(c));
      } else {
        assert [] + StringContents(c) == StringContents(c);
      }
    }
    AssocText(x + StringContents(c), y, StringContents(d));
    assert Last(Texts(t2)) == x + StringContents(c) + y + StringContents(d);
  }

  /** What a part that starts with a chunk shows: the text itself, what stands for a link or a resource, or
      the word for a picture. */
  lemma NewPartShows(ops: seq<Operation>, c: Content, isThought: bool, indented: bool, t: Thread, t': Thread)
    requires t == PlainRun(ops) && t' == PlainRun(ops + [AssistantChunk(c, isThought, indented)])
    requires !EndsWith(Labels(t.entries), AssistantPart(isThought, indented))
    ensures Texts(t') != []
    ensures Last(Texts(t')) == match c
                               case TextContent(text) => text
                               case LinkContent(md) => md
                               case ResourceContent(md) => md
                               case ImageContent(_) => [96, 73, 109, 97, 103, 101, 96]
                               case OtherContent => []
  {
    ChunkText(ops, c, isThought, indented, t, t');
    hide Labels, PlainRun, Texts;
  }

  /** What it shows with a second chunk of its kind: both, and a line break between them if the first one
      stands there as a link or a picture. */
  lemma SecondChunkShows(ops: seq<Operation>, c: Content, d: Content, isThought: bool, indented: bool,
                         t: Thread, t1: Thread, t2: Thread)
    requires t == PlainRun(ops) && t1 == PlainRun(ops + [AssistantChunk(c, isThought, indented)])
    requires t2 == PlainRun(ops + [AssistantChunk(c, isThought, indented)] + [AssistantChunk(d, isThought, indented)])
    requires !EndsWith(Labels(t.entries), AssistantPart(isThought, indented))
    ensures Texts(t1) != [] && Texts(t2) != []
    ensures Last(Texts(t2))
            == Last(Texts(t1)) + ((if c.LinkContent? || (c.ImageContent? && c.decodes) then [10] else [])
                                  + StringContents(d))
  {
    hide *;
    var op, x := AssistantChunk(c, isThought, indented), AssistantPart(isThought, indented);
    RunStaysTidy(ops);
    RunNext(ops, op);
    ChunkStep(t, c, isThought, indented);
    AssistantChunkGrouped(t, c, isThought, indented);
    AddEnds(Labels(t.entries), x);
    ChunkText(ops, c, isThought, indented, t, t1);
    ChunkText(ops + [op], d, isThought, indented, t1, t2);
    JoinsInLabels(t.entries, isThought, indented);
    AssistantStarted(t, c, isThought, indented);
    NewBlockSeparator(t.sources, c);
    LastBlock(Blocks(t.entries), NewBlock(t.sources, c).block);
    ReplacedText(Texts(t1)[..|Texts(t1)| - 1],
                 Last(Texts(t1)) + (Separator(Last(Blocks(t1.entries))) + StringContents(d)));
  }

  lemma NewBlockSeparator(sources: seq<Text>, c: Content)
    ensures Separator(NewBlock(sources, c).block)
            == if c.LinkContent? || (c.ImageContent? && c.decodes) then [10] else []
  {
  }
}
