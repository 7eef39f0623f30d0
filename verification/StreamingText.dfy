/** The entries of a thread and the buffer that reveals streamed text smoothly.

    Text that goes to an existing Markdown block is held back and revealed tick by tick. The plain
    thread appends every chunk at once; the class below is proved to agree with it at all times. */
module StreamingText {
  import opened Options

  type Byte = b: int | 0 <= b < 256
  type Text = seq<Byte>

  /** A content block as the protocol sends it. `md` is the Markdown that stands for a link. */
  datatype Content =
    | TextContent(text: Text)
    | LinkContent(md: Text)
    | ResourceContent(md: Text)
    | ImageContent(decodes: bool)
    | OtherContent

  /** A block of an entry. Markdown blocks refer to a Markdown source by number. */
  datatype Block = Empty | Markdown(id: nat) | Link(md: Text) | Picture

  datatype Chunk = Chunk(isThought: bool, block: Block)

  datatype Entry =
    | User(block: Block, chunks: seq<Content>, indented: bool)
    | Assistant(parts: seq<Chunk>, indented: bool)
    | Other

  const Newline: Text := [10]

  /** "`Image`". */
  const ImageMd: Text := [96, 73, 109, 97, 103, 101, 96]

  /** `block_string_contents`. */
  function StringContents(c: Content): Text {
    match c
    case TextContent(text) => text
    case LinkContent(md) => md
    case ResourceContent(md) => md
    case ImageContent(_) => ImageMd
    case OtherContent => []
  }

  // ------------------------------------------------------------------ the plain thread

  /** Entries and Markdown sources; no text is held back. */
  datatype Thread = Thread(entries: seq<Entry>, sources: seq<Text>)

  /** A block and the Markdown sources. */
  datatype Store = Store(block: Block, sources: seq<Text>)

  function CreateMarkdown(sources: seq<Text>, text: Text): Store {
    Store(Markdown(|sources|), sources + [text])
  }

  /** `ContentBlock::append`. */
  function Append(b: Block, sources: seq<Text>, c: Content): Store {
    match b
    case Empty =>
      if c.LinkContent? then Store(Link(c.md), sources)
      else if c.ImageContent? && c.decodes then Store(Picture, sources)
      else CreateMarkdown(sources, StringContents(c))
    case Markdown(id) =>
      Store(b, if id < |sources| then sources[id := sources[id] + StringContents(c)] else sources)
    case Link(md) => CreateMarkdown(sources, md + Newline + StringContents(c))
    case Picture => CreateMarkdown(sources, ImageMd + Newline + StringContents(c))
  }

  function NewBlock(sources: seq<Text>, c: Content): Store {
    Append(Empty, sources, c)
  }

  function Last<T>(s: seq<T>): T
    requires s != []
  {
    s[|s| - 1]
  }

  function ReplaceLast<T>(s: seq<T>, x: T): seq<T>
    requires s != []
  {
    s[|s| - 1 := x]
  }

  /** A user chunk joins the last entry if that is a user message with the same indentation. */
  function PlainUser(t: Thread, c: Content, indented: bool): Thread {
    if t.entries != [] && Last(t.entries).User? && Last(t.entries).indented == indented then
      var e := Last(t.entries);
      var s := Append(e.block, t.sources, c);
      Thread(ReplaceLast(t.entries, User(s.block, e.chunks + [c], indented)), s.sources)
    else
      var s := NewBlock(t.sources, c);
      Thread(t.entries + [User(s.block, [c], indented)], s.sources)
  }

  /** The last part of the last entry is of the given kind. */
  predicate Joins(entries: seq<Entry>, isThought: bool, indented: bool) {
    && entries != [] && Last(entries).Assistant? && Last(entries).indented == indented
    && Last(entries).parts != [] && Last(Last(entries).parts).isThought == isThought
  }

  /** An assistant chunk joins the last part of the last entry, or starts a part, or an entry. */
  function PlainAssistant(t: Thread, c: Content, isThought: bool, indented: bool): Thread {
    if Joins(t.entries, isThought, indented) then
      var parts := Last(t.entries).parts;
      var s := Append(Last(parts).block, t.sources, c);
      Thread(ReplaceLast(t.entries, Assistant(ReplaceLast(parts, Chunk(isThought, s.block)), indented)), s.sources)
    else
      var s := NewBlock(t.sources, c);
      if t.entries != [] && Last(t.entries).Assistant? && Last(t.entries).indented == indented then
        Thread(ReplaceLast(t.entries, Assistant(Last(t.entries).parts + [Chunk(isThought, s.block)], indented)),
               s.sources)
      else
        Thread(t.entries + [Assistant([Chunk(isThought, s.block)], indented)], s.sources)
  }

  // ------------------------------------------------------------------ the reveal rate

  const RevealTarget := 200
  const TaskUpdateMs := 16

  /** Bytes per tick for a pending text of `n` bytes, rounded up. */
  function RevealRate(n: nat): nat {
    (n * TaskUpdateMs + RevealTarget - 1) / RevealTarget
  }

  /** Bytes inside a UTF-8 sequence. */
  predicate IsContinuation(b: Byte) {
    128 <= b < 192
  }

  predicate IsBoundary(s: Text, i: nat) {
    i == 0 || i == |s| || (i < |s| && !IsContinuation(s[i]))
  }

  /** `ceil_char_boundary`, no further than the end. */
  method CeilCharBoundary(s: Text, index: nat) returns (i: nat)
    ensures i <= |s| && IsBoundary(s, i)
    ensures if index >= |s| then i == |s| else i >= index
    ensures forall k :: index <= k < i ==> !IsBoundary(s, k)
  {
    i := index;
    if i >= |s| {
      i := |s|;
      return;
    }
    while i < |s| && i > 0 && IsContinuation(s[i])
      invariant index <= i <= |s|
      invariant forall k :: index <= k < i ==> !IsBoundary(s, k)
    {
      i := i + 1;
    }
  }

  /** One tick: a prefix of the pending text is revealed, at least `rate` bytes or all of it, that
      is not empty while text is pending and ends between two characters, and at the first such place. */
  ghost predicate Ticks(pending: Text, rate: nat, pending': Text) {
    exists k :: 0 <= k <= |pending| && IsBoundary(pending, k) && pending' == pending[k..]
                && (pending != [] ==> k > 0) && (k < |pending| ==> k >= rate)
                && forall j :: 0 < j < k && rate <= j ==> !IsBoundary(pending, j)
  }

  /** The rate that was computed for a pending text of `n` bytes, up to rounding: no more than a
      thousandth below the exact one. */
  predicate CloseRate(rate: nat, n: nat) {
    1000 * RevealTarget * rate >= 999 * TaskUpdateMs * n
  }

  /** The rate is the least that reveals everything in time. */
  lemma RevealRateIsLeast(n: nat)
    ensures 200 * RevealRate(n) >= 16 * n && (n > 0 ==> RevealRate(n) > 0 && 200 * (RevealRate(n) - 1) < 16 * n)
  {
  }

  lemma RevealRateIsClose(rate: nat, n: nat)
    requires rate >= RevealRate(n)
    ensures CloseRate(rate, n)
  {
  }

  /** Thirteen ticks reveal any pending text if no more arrives, because each reveals at least 16/200
      of it, or nearly so. */
  lemma ThirteenTicks(ps: seq<Text>, rate: nat)
    requires |ps| == 14 && CloseRate(rate, |ps[0]|)
    requires forall n :: 0 <= n < 13 ==> Ticks(ps[n], rate, ps[n + 1])
    ensures ps[13] == []
  {
    TicksShorten(ps, rate, 13);
  }

  lemma {:induction false} TicksShorten(ps: seq<Text>, rate: nat, n: nat)
    requires n < |ps| && forall m :: 0 <= m < n ==> Ticks(ps[m], rate, ps[m + 1])
    ensures |ps[n]| == 0 || |ps[n]| <= |ps[0]| - n * rate
  {
    if n > 0 {
      TicksShorten(ps, rate, n - 1);
      assert Ticks(ps[n - 1], rate, ps[n - 1 + 1]);
      assert n * rate == rate + (n - 1) * rate;
    }
  }

  /** Twelve ticks are not always enough: 25 letters need all thirteen. */
  lemma TwelveTicksAreNotEnough()
    ensures exists ps: seq<Text> ::
              |ps| == 13 && |ps[0]| == 25 && (forall n :: 0 <= n < 12 ==> Ticks(ps[n], RevealRate(25), ps[n + 1]))
              && ps[12] != []
  {
    var ps := seq(13, n requires 0 <= n < 13 => Letters(25 - 2 * n));
    assert RevealRate(25) == 2;
    forall n | 0 <= n < 12
      ensures Ticks(ps[n], 2, ps[n + 1])
    {
      assert IsBoundary(ps[n], 2) && ps[n + 1] == ps[n][2..];
    }
    assert |ps[0]| == 25 && ps[12] != [];
  }

  function Letters(n: nat): (s: Text)
    ensures |s| == n && forall k :: 0 <= k < n ==> s[k] == 97
  {
    seq(n, _ => 97)
  }

  // ------------------------------------------------------------------ the thread with its buffer

  datatype StreamingTextBuffer = StreamingTextBuffer(pending: Text, bytesToRevealPerTick: nat, target: nat)

  /** The Markdown sources as they will be once the pending text is revealed. */
  function Revealed(sources: seq<Text>, buffer: Option<StreamingTextBuffer>): seq<Text> {
    if buffer.Some? && buffer.value.target < |sources| then
      sources[buffer.value.target := sources[buffer.value.target] + buffer.value.pending]
    else sources
  }

  /** Markdown numbers in use. */
  predicate KnownBlock(b: Block, n: nat) {
    b.Markdown? ==> b.id < n
  }

  predicate KnownEntry(e: Entry, n: nat) {
    match e
    case User(block, _, _) => KnownBlock(block, n)
    case Assistant(parts, _) => forall p :: p in parts ==> KnownBlock(p.block, n)
    case Other => true
  }

  class AcpThread {
    var entries: seq<Entry>
    var sources: seq<Text>
    var buffer: Option<StreamingTextBuffer>

    ghost predicate Valid()
      reads this
    {
      && (forall e :: e in entries ==> KnownEntry(e, |sources|))
      && (buffer.Some? ==>
            buffer.value.target < |sources| && buffer.value.bytesToRevealPerTick >= RevealRate(|buffer.value.pending|))
    }

    /** The plain thread this thread stands for. */
    function Settled(): Thread
      reads this
    {
      Thread(entries, Revealed(sources, buffer))
    }

    constructor ()
      ensures Valid() && Settled() == Thread([], [])
    {
      entries, sources, buffer := [], [], None;
    }

    /** `flush_streaming_text`. */
    method FlushStreamingText()
      requires Valid()
      modifies this`sources, this`buffer
      ensures Valid() && buffer == None && Settled() == old(Settled())
      ensures sources == old(Settled()).sources
    {
      if buffer.Some? {
        var b := buffer.value;
        buffer := None;
        if b.pending != [] {
          sources := sources[b.target := sources[b.target] + b.pending];
        } else {
          assert sources[b.target] + [] == sources[b.target];
        }
      }
    }

    /** `push_entry`. */
    method PushEntry(e: Entry)
      requires Valid() && KnownEntry(e, |sources|)
      modifies this
      ensures Valid() && Settled() == Thread(old(entries) + [e], old(Settled()).sources)
    {
      FlushStreamingText();
      entries := entries + [e];
    }

    /** Removing entries from `ix` on, as a rewind and a refusal do. */
    method TruncateEntries(ix: nat)
      requires Valid() && ix <= |entries|
      modifies this`entries
      ensures Valid() && Settled() == Thread(old(entries)[..ix], old(Settled()).sources)
    {
      entries := entries[..ix];
    }

    /** `streaming_markdown_target`. */
    method StreamingMarkdownTarget(isThought: bool, indented: bool) returns (target: Option<nat>)
      requires Valid()
      ensures target.Some? <==> Joins(entries, isThought, indented) && Last(Last(entries).parts).block.Markdown?
      ensures target.Some? ==> target.value == Last(Last(entries).parts).block.id < |sources|
    {
      target := None;
      if entries != [] {
        var e := Last(entries);
        assert e in entries;
        match e {
          case Assistant(parts, existing) =>
            if existing == indented && parts != [] && Last(parts).isThought == isThought {
              assert Last(parts) in parts;
              match Last(parts).block {
                case Markdown(id) => target := Some(id);
                case _ =>
              }
            }
          case _ =>
        }
      }
    }

    /** `buffer_streaming_text`. */
    method BufferStreamingText(target: nat, text: Text)
      requires Valid() && target < |sources|
      modifies this`sources, this`buffer
      ensures Valid() && |sources| == old(|sources|)
      ensures Settled().sources
              == old(Settled()).sources[target := old(Settled()).sources[target] + text]
      ensures buffer.Some? && buffer.value.target == target
      ensures buffer.value.bytesToRevealPerTick == RevealRate(|buffer.value.pending|)
    {
      ghost var before := Settled().sources;
      if buffer.Some? {
        var b := buffer.value;
        if b.target == target {
          var pending := b.pending + text;
          assert sources[target] + b.pending + text == sources[target] + pending;
          buffer := Some(StreamingTextBuffer(pending, RevealRate(|pending|), target));
          return;
        }
        FlushStreamingText();
      }
      assert sources == before;
      buffer := Some(StreamingTextBuffer(text, RevealRate(|text|), target));
    }

    /** One tick of the reveal task: a nonempty prefix that ends between characters moves from the
        buffer to the source, and the thread it stands for stays the same. */
    method RevealTick() returns (shouldContinue: bool)
      requires Valid()
      modifies this`sources, this`buffer
      ensures Valid() && Settled() == old(Settled()) && shouldContinue == old(buffer).Some?
      ensures buffer.Some? == old(buffer).Some?
      ensures old(buffer).Some? ==>
                var (pending, rate) := (old(buffer).value.pending, old(buffer).value.bytesToRevealPerTick);
                && buffer.value.(pending := pending) == old(buffer).value
                && CloseRate(rate, |pending|) && Ticks(pending, rate, buffer.value.pending)
    {
      if buffer.None? {
        return false;
      }
      var b := buffer.value;
      RevealRateIsClose(b.bytesToRevealPerTick, |b.pending|);
      if b.pending == [] {
        assert IsBoundary(b.pending, 0) && b.pending[0..] == b.pending;
        return true;
      }
      RateIsPositive(|b.pending|);
      var k := CeilCharBoundary(b.pending, b.bytesToRevealPerTick);
      RateShrinks(|b.pending[k..]|, |b.pending|);
      assert sources[b.target] + b.pending == sources[b.target] + b.pending[..k] + b.pending[k..];
      sources := sources[b.target := sources[b.target] + b.pending[..k]];
      buffer := Some(b.(pending := b.pending[k..]));
      return true;
    }

    /** `push_user_content_block_with_indent`. */
    method PushUserContentBlock(c: Content, indented: bool)
      requires Valid()
      modifies this
      ensures Valid() && Settled() == PlainUser(old(Settled()), c, indented)
    {
      hide PlainUser, Append, NewBlock;
      if entries != [] && Last(entries).User? && Last(entries).indented == indented {
        var e := Last(entries);
        FlushStreamingText();
        var s := Append(e.block, sources, c);
        PlainUserJoins(Thread(entries, sources), c, indented);
        entries := ReplaceLast(entries, User(s.block, e.chunks + [c], indented));
        sources := s.sources;
      } else {
        FlushStreamingText();
        var s := NewBlock(sources, c);
        PlainUserStarts(Thread(entries, sources), c, indented);
        sources := s.sources;
        PushEntry(User(s.block, [c], indented));
      }
    }

    /** `push_assistant_content_block_with_indent`. */
    method PushAssistantContentBlock(c: Content, isThought: bool, indented: bool)
      requires Valid()
      modifies this
      ensures Valid() && Settled() == PlainAssistant(old(Settled()), c, isThought, indented)
    {
      hide PlainAssistant, Append, NewBlock;
      if c.TextContent? {
        var target := StreamingMarkdownTarget(isThought, indented);
        if target.Some? {
          PlainStreams(Settled(), c, isThought, indented, target.value);
          BufferStreamingText(target.value, c.text);
          return;
        }
      }
      if entries != [] && Last(entries).Assistant? && Last(entries).indented == indented {
        var e := Last(entries);
        FlushStreamingText();
        if e.parts != [] && Last(e.parts).isThought == isThought {
          var s := Append(Last(e.parts).block, sources, c);
          PlainJoins(Thread(entries, sources), c, isThought, indented);
          entries := ReplaceLast(entries, Assistant(ReplaceLast(e.parts, Chunk(isThought, s.block)), indented));
          sources := s.sources;
        } else {
          var s := NewBlock(sources, c);
          PlainStartsPart(Thread(entries, sources), c, isThought, indented);
          entries := ReplaceLast(entries, Assistant(e.parts + [Chunk(isThought, s.block)], indented));
          sources := s.sources;
        }
      } else {
        FlushStreamingText();
        var s := NewBlock(sources, c);
        PlainStartsEntry(Thread(entries, sources), c, isThought, indented);
        sources := s.sources;
        PushEntry(Assistant([Chunk(isThought, s.block)], indented));
      }
    }
  }

  /** All Markdown numbers of a thread are in use. */
  ghost predicate Known(t: Thread) {
    forall e :: e in t.entries ==> KnownEntry(e, |t.sources|)
  }

  lemma AppendKnown(b: Block, sources: seq<Text>, c: Content)
    requires KnownBlock(b, |sources|)
    ensures |sources| <= |Append(b, sources, c).sources|
    ensures KnownBlock(Append(b, sources, c).block, |Append(b, sources, c).sources|)
  {
  }

  lemma PlainUserJoins(t: Thread, c: Content, indented: bool)
    requires Known(t) && t.entries != [] && Last(t.entries).User? && Last(t.entries).indented == indented
    ensures var s := Append(Last(t.entries).block, t.sources, c);
            var t' := Thread(ReplaceLast(t.entries, User(s.block, Last(t.entries).chunks + [c], indented)), s.sources);
            PlainUser(t, c, indented) == t' && Known(t')
  {
    assert Last(t.entries) in t.entries;
    var s := Append(Last(t.entries).block, t.sources, c);
    AppendKnown(Last(t.entries).block, t.sources, c);
    KnownEntries(t.entries, |t.sources|, |s.sources|);
    hide Append;
  }

  lemma PlainUserStarts(t: Thread, c: Content, indented: bool)
    requires Known(t) && !(t.entries != [] && Last(t.entries).User? && Last(t.entries).indented == indented)
    ensures var s := NewBlock(t.sources, c);
            var e := User(s.block, [c], indented);
            PlainUser(t, c, indented) == Thread(t.entries + [e], s.sources)
            && KnownEntry(e, |s.sources|) && Known(Thread(t.entries, s.sources))
  {
    AppendKnown(Empty, t.sources, c);
    KnownEntries(t.entries, |t.sources|, |NewBlock(t.sources, c).sources|);
    hide Append;
  }

  lemma PlainStreams(t: Thread, c: Content, isThought: bool, indented: bool, target: nat)
    requires Joins(t.entries, isThought, indented) && Last(Last(t.entries).parts).block == Markdown(target)
    requires target < |t.sources| && c.TextContent?
    ensures PlainAssistant(t, c, isThought, indented) == t.(sources := t.sources[target := t.sources[target] + c.text])
  {
    SameEntries(t.entries, isThought, indented);
  }

  lemma PlainJoins(t: Thread, c: Content, isThought: bool, indented: bool)
    requires Known(t) && Joins(t.entries, isThought, indented)
    ensures var parts := Last(t.entries).parts;
            var s := Append(Last(parts).block, t.sources, c);
            var t' := Thread(ReplaceLast(t.entries,
                                         Assistant(ReplaceLast(parts, Chunk(isThought, s.block)), indented)),
                             s.sources);
            PlainAssistant(t, c, isThought, indented) == t' && Known(t')
  {
    var e := Last(t.entries);
    assert e in t.entries && Last(e.parts) in e.parts;
    var s := Append(Last(e.parts).block, t.sources, c);
    AppendKnown(Last(e.parts).block, t.sources, c);
    KnownEntries(t.entries, |t.sources|, |s.sources|);
    hide Append;
  }

  lemma PlainStartsPart(t: Thread, c: Content, isThought: bool, indented: bool)
    requires Known(t) && t.entries != [] && Last(t.entries).Assistant? && Last(t.entries).indented == indented
    requires !Joins(t.entries, isThought, indented)
    ensures var s := NewBlock(t.sources, c);
            var parts := Last(t.entries).parts + [Chunk(isThought, s.block)];
            var t' := Thread(ReplaceLast(t.entries, Assistant(parts, indented)), s.sources);
            PlainAssistant(t, c, isThought, indented) == t' && Known(t')
  {
    assert Last(t.entries) in t.entries;
    var s := NewBlock(t.sources, c);
    AppendKnown(Empty, t.sources, c);
    KnownEntries(t.entries, |t.sources|, |s.sources|);
    hide Append;
  }

  lemma PlainStartsEntry(t: Thread, c: Content, isThought: bool, indented: bool)
    requires Known(t) && !(t.entries != [] && Last(t.entries).Assistant? && Last(t.entries).indented == indented)
    ensures var s := NewBlock(t.sources, c);
            var e := Assistant([Chunk(isThought, s.block)], indented);
            PlainAssistant(t, c, isThought, indented) == Thread(t.entries + [e], s.sources)
            && KnownEntry(e, |s.sources|) && Known(Thread(t.entries, s.sources))
  {
    AppendKnown(Empty, t.sources, c);
    KnownEntries(t.entries, |t.sources|, |NewBlock(t.sources, c).sources|);
    hide Append;
  }

  lemma KnownEntries(entries: seq<Entry>, n: nat, n': nat)
    requires n <= n' && forall e :: e in entries ==> KnownEntry(e, n)
    ensures forall e :: e in entries ==> KnownEntry(e, n')
  {
  }

  /** Appending to a Markdown block leaves the entries as they are. */
  lemma SameEntries(entries: seq<Entry>, isThought: bool, indented: bool)
    requires Joins(entries, isThought, indented)
    ensures var parts := Last(entries).parts;
            ReplaceLast(entries, Assistant(ReplaceLast(parts, Chunk(isThought, Last(parts).block)), indented))
              == entries
  {
    var parts := Last(entries).parts;
    assert ReplaceLast(parts, Chunk(isThought, Last(parts).block)) == parts;
  }

  lemma RateIsPositive(n: nat)
    ensures n > 0 ==> RevealRate(n) > 0
  {
  }

  lemma RateShrinks(m: nat, n: nat)
    requires m <= n
    ensures RevealRate(m) <= RevealRate(n)
  {
  }

  // ------------------------------------------------------------------ nothing lost, doubled or reordered

  /** What a block shows; a link and a picture show what they become when text follows them. */
  function Shown(b: Block, sources: seq<Text>): Text {
    match b
    case Empty => []
    case Markdown(id) => if id < |sources| then sources[id] else []
    case Link(md) => md
    case Picture => ImageMd
  }

  function PartBlocks(parts: seq<Chunk>): seq<Block> {
    seq(|parts|, k requires 0 <= k < |parts| => parts[k].block)
  }

  function BlocksOf(e: Entry): seq<Block> {
    match e
    case User(block, _, _) => [block]
    case Assistant(parts, _) => PartBlocks(parts)
    case Other => []
  }

  function Blocks(entries: seq<Entry>): seq<Block> {
    if entries == [] then [] else Blocks(entries[..|entries| - 1]) + BlocksOf(Last(entries))
  }

  function ShownAll(bs: seq<Block>, sources: seq<Text>): Text {
    if bs == [] then [] else ShownAll(bs[..|bs| - 1], sources) + Shown(Last(bs), sources)
  }

  /** Everything the thread shows, in order. */
  function Transcript(t: Thread): Text {
    ShownAll(Blocks(t.entries), t.sources)
  }

  /** No two blocks share a Markdown source. */
  ghost predicate Unshared(bs: seq<Block>, n: nat) {
    && (forall b :: b in bs ==> KnownBlock(b, n))
    && forall k, m :: 0 <= k < m < |bs| && bs[k].Markdown? && bs[m].Markdown? ==> bs[k].id != bs[m].id
  }

  /** What separates appended text from a link or a picture. */
  function Separator(b: Block): Text {
    if b.Link? || b.Picture? then Newline else []
  }

  /** Appending to the last block shows the appended text at the end and changes no other block. */
  lemma AppendShows(bs: seq<Block>, b: Block, sources: seq<Text>, c: Content)
    requires Unshared(bs + [b], |sources|)
    ensures var s := Append(b, sources, c);
            && Unshared(bs + [s.block], |s.sources|)
            && ShownAll(bs + [s.block], s.sources)
               == ShownAll(bs + [b], sources) + (Separator(b) + StringContents(c))
  {
    hide *;
    var s := Append(b, sources, c);
    LastIsKnown(bs, b, |sources|);
    LastShows(b, sources, c);
    AppendedBlock(b, sources, c);
    UnsharedLast(bs, b, s.block, |sources|, |s.sources|);
    OthersKeepSources(bs, b, sources, c);
    OthersStay(bs, sources, s.sources);
    ShownLast(bs, b, sources);
    ShownLast(bs, s.block, s.sources);
    AssocText(ShownAll(bs, sources), Shown(b, sources), Separator(b) + StringContents(c));
  }

  lemma AssocText(x: Text, y: Text, z: Text)
    ensures x + (y + z) == (x + y) + z
  {
  }

  lemma ShownLast(bs: seq<Block>, b: Block, sources: seq<Text>)
    ensures ShownAll(bs + [b], sources) == ShownAll(bs, sources) + Shown(b, sources)
  {
    assert (bs + [b])[..|bs|] == bs;
  }

  lemma LastIsKnown(bs: seq<Block>, b: Block, n: nat)
    requires Unshared(bs + [b], n)
    ensures KnownBlock(b, n)
  {
    assert (bs + [b])[|bs|] == b;
  }

  lemma AppendedBlock(b: Block, sources: seq<Text>, c: Content)
    requires KnownBlock(b, |sources|)
    ensures var s := Append(b, sources, c);
            |sources| <= |s.sources| && (s.block == b || !s.block.Markdown? || s.block.id == |sources| < |s.sources|)
  {
  }

  lemma OthersKeepSources(bs: seq<Block>, b: Block, sources: seq<Text>, c: Content)
    requires Unshared(bs + [b], |sources|)
    ensures forall x :: x in bs ==> Shown(x, Append(b, sources, c).sources) == Shown(x, sources)
  {
    assert (bs + [b])[|bs|] == b;
    forall x | x in bs
      ensures Shown(x, Append(b, sources, c).sources) == Shown(x, sources)
    {
      var k :| 0 <= k < |bs| && bs[k] == x;
      assert (bs + [b])[k] == x && x in bs + [b];
    }
  }

  lemma LastShows(b: Block, sources: seq<Text>, c: Content)
    requires KnownBlock(b, |sources|)
    ensures var s := Append(b, sources, c);
            Shown(s.block, s.sources) == Shown(b, sources) + (Separator(b) + StringContents(c))
  {
    var text := StringContents(c);
    hide StringContents;
    assert [] + text == text;
    AssocText(Shown(b, sources), Separator(b), text);
    if b.Empty? {
      EmptyShows(sources, c);
    }
  }

  lemma EmptyShows(sources: seq<Text>, c: Content)
    ensures Shown(Append(Empty, sources, c).block, Append(Empty, sources, c).sources) == StringContents(c)
  {
  }

  lemma UnsharedLast(bs: seq<Block>, b: Block, b': Block, n: nat, n': nat)
    requires Unshared(bs + [b], n) && n <= n'
    requires b' == b || !b'.Markdown? || (b'.id == n < n')
    ensures Unshared(bs + [b'], n')
  {
    var l, l' := bs + [b], bs + [b'];
    forall k | 0 <= k < |bs|
      ensures l'[k] == l[k] && KnownBlock(l[k], n)
    {
      assert l[k] in l;
    }
    assert b in l by {
      assert l[|bs|] == b;
    }
  }

  lemma {:induction false} OthersStay(bs: seq<Block>, sources: seq<Text>, sources': seq<Text>)
    requires forall x :: x in bs ==> Shown(x, sources') == Shown(x, sources)
    ensures ShownAll(bs, sources') == ShownAll(bs, sources)
  {
    if bs != [] {
      OthersStay(bs[..|bs| - 1], sources, sources');
    }
  }

  lemma BlocksConcat(entries: seq<Entry>, e: Entry)
    ensures Blocks(entries + [e]) == Blocks(entries) + BlocksOf(e)
    ensures entries != [] ==> Blocks(ReplaceLast(entries, e)) == Blocks(entries[..|entries| - 1]) + BlocksOf(e)
  {
    assert (entries + [e])[..|entries|] == entries;
    if entries != [] {
      assert ReplaceLast(entries, e)[..|entries| - 1] == entries[..|entries| - 1];
    }
  }

  lemma PartsSplit(parts: seq<Chunk>, p: Chunk)
    ensures PartBlocks(parts + [p]) == PartBlocks(parts) + [p.block]
    ensures parts != [] ==> PartBlocks(parts) == PartBlocks(parts[..|parts| - 1]) + [Last(parts).block]
    ensures parts != [] ==> PartBlocks(ReplaceLast(parts, p)) == PartBlocks(parts[..|parts| - 1]) + [p.block]
  {
  }

  /** Every assistant chunk adds its text at the end of what the thread shows, and nothing else
      changes there; so does every state of the streaming thread, which settles to this. */
  lemma AssistantTextIsAppended(t: Thread, c: Content, isThought: bool, indented: bool)
    requires Unshared(Blocks(t.entries), |t.sources|)
    ensures var t' := PlainAssistant(t, c, isThought, indented);
            && Unshared(Blocks(t'.entries), |t'.sources|)
            && Transcript(t') == Transcript(t)
                 + ((if Joins(t.entries, isThought, indented) then Separator(Last(Last(t.entries).parts).block) else [])
                    + StringContents(c))
  {
    hide *;
    if Joins(t.entries, isThought, indented) {
      var b := JoinedPart(t.entries, isThought, indented).block;
      var s := Append(b, t.sources, c);
      JoinedBlocks(t.entries, isThought, indented, s.block);
      AppendShows(BlocksBefore(t.entries), b, t.sources, c);
      AssistantJoined(t, c, isThought, indented);
    } else {
      NewShows(Blocks(t.entries), t.sources, c);
      AssistantStarted(t, c, isThought, indented);
      assert [] + StringContents(c) == StringContents(c);
    }
  }

  function JoinedPart(entries: seq<Entry>, isThought: bool, indented: bool): Chunk
    requires Joins(entries, isThought, indented)
  {
    Last(Last(entries).parts)
  }

  /** The blocks before the last one of an assistant message at the end. */
  function BlocksBefore(entries: seq<Entry>): seq<Block> {
    if entries != [] && Last(entries).Assistant? && Last(entries).parts != [] then
      Blocks(entries[..|entries| - 1]) + PartBlocks(Last(entries).parts[..|Last(entries).parts| - 1])
    else []
  }

  lemma JoinedBlocks(entries: seq<Entry>, isThought: bool, indented: bool, b: Block)
    requires Joins(entries, isThought, indented)
    ensures JoinedPart(entries, isThought, indented) == Last(Last(entries).parts)
    ensures Blocks(entries) == BlocksBefore(entries) + [JoinedPart(entries, isThought, indented).block]
    ensures Blocks(ReplaceLast(entries, Assistant(ReplaceLast(Last(entries).parts, Chunk(isThought, b)), indented)))
            == BlocksBefore(entries) + [b]
  {
    hide *;
    JoinedShape(entries, isThought, indented);
    var parts, p := Last(entries).parts, Chunk(isThought, b);
    AssistantBlocks(ReplaceLast(parts, p), indented);
    BlocksSplit(entries);
    BlocksConcat(entries, Assistant(ReplaceLast(parts, p), indented));
    PartsSplit(parts, p);
    var x, y := Blocks(entries[..|entries| - 1]), PartBlocks(parts[..|parts| - 1]);
    AssocBlocks(x, y, [Last(parts).block]);
    AssocBlocks(x, y, [b]);
  }

  lemma AssocBlocks(x: seq<Block>, y: seq<Block>, z: seq<Block>)
    ensures x + (y + z) == (x + y) + z
  {
  }

  lemma AssistantBlocks(parts: seq<Chunk>, indented: bool)
    ensures BlocksOf(Assistant(parts, indented)) == PartBlocks(parts)
  {
  }

  lemma JoinedShape(entries: seq<Entry>, isThought: bool, indented: bool)
    requires Joins(entries, isThought, indented)
    ensures entries != [] && Last(entries).Assistant? && Last(entries).parts != []
    ensures JoinedPart(entries, isThought, indented) == Last(Last(entries).parts)
    ensures BlocksOf(Last(entries)) == PartBlocks(Last(entries).parts)
    ensures BlocksBefore(entries)
            == Blocks(entries[..|entries| - 1]) + PartBlocks(Last(entries).parts[..|Last(entries).parts| - 1])
  {
  }

  lemma AssistantJoined(t: Thread, c: Content, isThought: bool, indented: bool)
    requires Joins(t.entries, isThought, indented)
    ensures var b := JoinedPart(t.entries, isThought, indented).block;
            var (s, t') := (Append(b, t.sources, c), PlainAssistant(t, c, isThought, indented));
            && t'.sources == s.sources && Blocks(t'.entries) == BlocksBefore(t.entries) + [s.block]
            && Transcript(t') == ShownAll(BlocksBefore(t.entries) + [s.block], s.sources)
            && Transcript(t) == ShownAll(BlocksBefore(t.entries) + [b], t.sources)
            && b == Last(Last(t.entries).parts).block
  {
    JoinedBlocks(t.entries, isThought, indented,
                 Append(JoinedPart(t.entries, isThought, indented).block, t.sources, c).block);
    hide Append, Blocks, BlocksBefore, ShownAll;
  }

  lemma AssistantStarted(t: Thread, c: Content, isThought: bool, indented: bool)
    requires !Joins(t.entries, isThought, indented)
    ensures var (s, t') := (NewBlock(t.sources, c), PlainAssistant(t, c, isThought, indented));
            && t'.sources == s.sources && Blocks(t'.entries) == Blocks(t.entries) + [s.block]
            && Transcript(t') == ShownAll(Blocks(t.entries) + [s.block], s.sources)
            && Transcript(t) == ShownAll(Blocks(t.entries), t.sources)
  {
    hide Append, ShownAll;
    var p := Chunk(isThought, NewBlock(t.sources, c).block);
    StartedBlocks(t.entries, p, indented);
    hide Blocks;
  }

  lemma StartedBlocks(entries: seq<Entry>, p: Chunk, indented: bool)
    ensures Blocks(entries + [Assistant([p], indented)]) == Blocks(entries) + [p.block]
    ensures entries != [] && Last(entries).Assistant? ==>
              Blocks(ReplaceLast(entries, Assistant(Last(entries).parts + [p], indented)))
                == Blocks(entries) + [p.block]
  {
    hide *;
    OnePart(p, indented);
    BlocksConcat(entries, Assistant([p], indented));
    if entries != [] && Last(entries).Assistant? {
      var parts := Last(entries).parts;
      MoreParts(entries, p, indented);
      BlocksConcat(entries, Assistant(parts + [p], indented));
    }
  }

  lemma OnePart(p: Chunk, indented: bool)
    ensures BlocksOf(Assistant([p], indented)) == [p.block]
  {
  }

  lemma MoreParts(entries: seq<Entry>, p: Chunk, indented: bool)
    requires entries != [] && Last(entries).Assistant?
    ensures Blocks(entries[..|entries| - 1]) + BlocksOf(Assistant(Last(entries).parts + [p], indented))
            == Blocks(entries) + [p.block]
  {
    PartsSplit(Last(entries).parts, p);
    hide PartBlocks;
  }

  /** A new block shows just the content it was made of. */
  lemma NewShows(bs: seq<Block>, sources: seq<Text>, c: Content)
    requires Unshared(bs, |sources|)
    ensures var s := NewBlock(sources, c);
            && Unshared(bs + [s.block], |s.sources|)
            && ShownAll(bs + [s.block], s.sources) == ShownAll(bs, sources) + ([] + StringContents(c))
  {
    assert (bs + [Empty])[..|bs|] == bs;
    assert ShownAll(bs + [Empty], sources) == ShownAll(bs, sources);
    forall b | b in bs + [Empty]
      ensures KnownBlock(b, |sources|)
    {
    }
    AppendShows(bs, Empty, sources, c);
  }

  /** The same for a user chunk. */
  lemma UserTextIsAppended(t: Thread, c: Content, indented: bool)
    requires Unshared(Blocks(t.entries), |t.sources|)
    ensures var t' := PlainUser(t, c, indented);
            && Unshared(Blocks(t'.entries), |t'.sources|)
            && Transcript(t') == Transcript(t)
                 + ((if t.entries != [] && Last(t.entries).User? && Last(t.entries).indented == indented
                     then Separator(Last(t.entries).block) else []) + StringContents(c))
  {
    hide *;
    if t.entries != [] && Last(t.entries).User? && Last(t.entries).indented == indented {
      var e := Last(t.entries);
      UserJoined(t, c, indented);
      AppendShows(Blocks(t.entries[..|t.entries| - 1]), e.block, t.sources, c);
    } else {
      NewShows(Blocks(t.entries), t.sources, c);
      UserStarted(t, c, indented);
    }
  }

  lemma UserJoined(t: Thread, c: Content, indented: bool)
    requires t.entries != [] && Last(t.entries).User? && Last(t.entries).indented == indented
    ensures var (bs, b) := (Blocks(t.entries[..|t.entries| - 1]), Last(t.entries).block);
            var (s, t') := (Append(b, t.sources, c), PlainUser(t, c, indented));
            && Blocks(t.entries) == bs + [b] && Blocks(t'.entries) == bs + [s.block] && t'.sources == s.sources
            && Transcript(t') == ShownAll(bs + [s.block], s.sources)
            && Transcript(t) == ShownAll(bs + [b], t.sources)
  {
    hide Append, ShownAll;
    BlocksConcat(t.entries, Last(PlainUser(t, c, indented).entries));
  }

  lemma UserStarted(t: Thread, c: Content, indented: bool)
    requires !(t.entries != [] && Last(t.entries).User? && Last(t.entries).indented == indented)
    ensures var (s, t') := (NewBlock(t.sources, c), PlainUser(t, c, indented));
            && Blocks(t'.entries) == Blocks(t.entries) + [s.block] && t'.sources == s.sources
            && Transcript(t') == ShownAll(Blocks(t.entries) + [s.block], s.sources)
            && Transcript(t) == ShownAll(Blocks(t.entries), t.sources)
  {
    hide *;
    UserStartedShape(t, c, indented);
    BlocksConcat(t.entries, User(NewBlock(t.sources, c).block, [c], indented));
    TranscriptIs(t);
    TranscriptIs(PlainUser(t, c, indented));
  }

  lemma UserStartedShape(t: Thread, c: Content, indented: bool)
    requires !(t.entries != [] && Last(t.entries).User? && Last(t.entries).indented == indented)
    ensures var s := NewBlock(t.sources, c);
            && PlainUser(t, c, indented) == Thread(t.entries + [User(s.block, [c], indented)], s.sources)
            && BlocksOf(User(s.block, [c], indented)) == [s.block]
  {
  }

  lemma TranscriptIs(t: Thread)
    ensures Transcript(t) == ShownAll(Blocks(t.entries), t.sources)
  {
  }

  /** Removing entries from the end keeps the rest as it was shown. */
  lemma {:induction false} TruncatedTranscript(t: Thread, ix: nat)
    requires ix <= |t.entries| && Unshared(Blocks(t.entries), |t.sources|)
    ensures Unshared(Blocks(t.entries[..ix]), |t.sources|)
    ensures Transcript(Thread(t.entries[..ix], t.sources)) <= Transcript(t)
    decreases |t.entries|
  {
    hide *;
    AllEntries(t.entries, ix);
    if ix < |t.entries| {
      var front := t.entries[..|t.entries| - 1];
      BlocksSplit(t.entries);
      UnsharedPrefix(Blocks(front), BlocksOf(Last(t.entries)), |t.sources|);
      ShownPrefix(Blocks(front), BlocksOf(Last(t.entries)), t.sources);
      TranscriptIs(t);
      TranscriptIs(Thread(front, t.sources));
      TruncatedTranscript(Thread(front, t.sources), ix);
    }
  }

  lemma AllEntries(entries: seq<Entry>, ix: nat)
    requires ix <= |entries|
    ensures ix == |entries| ==> entries[..ix] == entries
    ensures ix < |entries| ==> entries[..|entries| - 1][..ix] == entries[..ix]
  {
  }

  lemma BlocksSplit(entries: seq<Entry>)
    requires entries != []
    ensures Blocks(entries) == Blocks(entries[..|entries| - 1]) + BlocksOf(Last(entries))
  {
  }

  lemma UnsharedPrefix(bs: seq<Block>, more: seq<Block>, n: nat)
    requires Unshared(bs + more, n)
    ensures Unshared(bs, n)
  {
    forall k | 0 <= k < |bs|
      ensures bs[k] == (bs + more)[k] && KnownBlock(bs[k], n)
    {
      assert (bs + more)[k] in bs + more;
    }
  }

  lemma {:induction false} ShownPrefix(bs: seq<Block>, more: seq<Block>, sources: seq<Text>)
    ensures ShownAll(bs, sources) <= ShownAll(bs + more, sources)
    decreases |more|
  {
    if more == [] {
      assert bs + more == bs;
    } else {
      assert (bs + more)[..|bs + more| - 1] == bs + more[..|more| - 1];
      ShownPrefix(bs, more[..|more| - 1], sources);
    }
  }

  // ------------------------------------------------------------------ runs

  datatype Operation =
    | UserChunk(c: Content, indented: bool)
    | AssistantChunk(c: Content, isThought: bool, indented: bool)
    | NewEntry
    | RemoveFrom(ix: nat)
    | Flush
    | Tick

  /** What an operation does to the plain thread: flushing and revealing do nothing. */
  function PlainStep(t: Thread, op: Operation): Thread {
    match op
    case UserChunk(c, indented) => PlainUser(t, c, indented)
    case AssistantChunk(c, isThought, indented) => PlainAssistant(t, c, isThought, indented)
    case NewEntry => t.(entries := t.entries + [Other])
    case RemoveFrom(ix) => if ix <= |t.entries| then t.(entries := t.entries[..ix]) else t
    case Flush => t
    case Tick => t
  }

  function PlainRun(ops: seq<Operation>): Thread {
    if ops == [] then Thread([], []) else PlainStep(PlainRun(ops[..|ops| - 1]), Last(ops))
  }

  /** In every run all blocks keep sources of their own. */
  lemma {:induction false} RunStaysUnshared(ops: seq<Operation>)
    ensures Unshared(Blocks(PlainRun(ops).entries), |PlainRun(ops).sources|)
  {
    hide *;
    if ops == [] {
      NothingShared();
    } else {
      RunStaysUnshared(ops[..|ops| - 1]);
      StepStaysUnshared(PlainRun(ops[..|ops| - 1]), Last(ops));
      RunUnrolled(ops);
    }
  }

  lemma NothingShared()
    ensures Unshared(Blocks(PlainRun([]).entries), |PlainRun([]).sources|)
  {
  }

  lemma RunUnrolled(ops: seq<Operation>)
    requires ops != []
    ensures PlainRun(ops) == PlainStep(PlainRun(ops[..|ops| - 1]), Last(ops))
  {
  }

  lemma StepStaysUnshared(t: Thread, op: Operation)
    requires Unshared(Blocks(t.entries), |t.sources|)
    ensures Unshared(Blocks(PlainStep(t, op).entries), |PlainStep(t, op).sources|)
  {
    hide Unshared, Blocks, Append;
    match op {
      case UserChunk(c, indented) => UserTextIsAppended(t, c, indented);
      case AssistantChunk(c, isThought, indented) => AssistantTextIsAppended(t, c, isThought, indented);
      case NewEntry =>
        BlocksConcat(t.entries, Other);
        assert Blocks(t.entries) + [] == Blocks(t.entries);
      case RemoveFrom(ix) =>
        if ix <= |t.entries| {
          TruncatedTranscript(t, ix);
        }
      case _ =>
    }
  }

  /** The operations without those of the reveal task. */
  function Visible(ops: seq<Operation>): seq<Operation> {
    if ops == [] then []
    else Visible(ops[..|ops| - 1]) + (if Last(ops).Flush? || Last(ops).Tick? then [] else [Last(ops)])
  }

  /** When and how much of the text is revealed makes no difference. */
  lemma {:induction false} RevealingChangesNothing(ops: seq<Operation>)
    ensures PlainRun(ops) == PlainRun(Visible(ops))
  {
    if ops != [] {
      var front := ops[..|ops| - 1];
      RevealingChangesNothing(front);
      if Last(ops).Flush? || Last(ops).Tick? {
        assert Visible(front) + [] == Visible(front);
      } else {
        var v := Visible(front) + [Last(ops)];
        assert v[..|v| - 1] == Visible(front);
      }
    }
  }

  /** In every reachable state an assistant chunk adds its text at the end of what is shown. */
  lemma EveryChunkIsAppended(ops: seq<Operation>, c: Content, isThought: bool, indented: bool)
    ensures var t := PlainRun(ops);
            Transcript(PlainRun(ops + [AssistantChunk(c, isThought, indented)]))
            == Transcript(t) + ((if Joins(t.entries, isThought, indented)
                                 then Separator(Last(Last(t.entries).parts).block) else [])
                                + StringContents(c))
  {
    hide *;
    var more := ops + [AssistantChunk(c, isThought, indented)];
    RunUnrolled(more);
    assert more[..|more| - 1] == ops;
    RunStaysUnshared(ops);
    AssistantTextIsAppended(PlainRun(ops), c, isThought, indented);
    LastChunk(PlainRun(ops), more, c, isThought, indented);
  }

  lemma LastChunk(t: Thread, ops: seq<Operation>, c: Content, isThought: bool, indented: bool)
    requires ops != [] && ops[|ops| - 1] == AssistantChunk(c, isThought, indented)
    ensures PlainStep(t, Last(ops)) == PlainAssistant(t, c, isThought, indented)
  {
  }

  /** Any run of the streaming thread, with ticks and flushes wherever they come: at every point it
      settles to the plain run, and flushed at the end it shows the same. */
  method PerformAll(ops: seq<Operation>) returns (thread: AcpThread)
    ensures fresh(thread) && thread.Valid()
    ensures thread.Settled() == PlainRun(ops) == PlainRun(Visible(ops))
    ensures Thread(thread.entries, thread.sources) == PlainRun(ops)
  {
    thread := new AcpThread();
    assert ops[..0] == [];
    for n := 0 to |ops|
      invariant fresh(thread) && thread.Valid() && thread.Settled() == PlainRun(ops[..n])
    {
      Perform(thread, ops[n]);
      assert ops[..n + 1][..n] == ops[..n] && ops[..n + 1] != [];
    }
    assert ops[..|ops|] == ops;
    RevealingChangesNothing(ops);
    thread.FlushStreamingText();
  }

  method Perform(thread: AcpThread, op: Operation)
    requires thread.Valid()
    modifies thread
    ensures thread.Valid() && thread.Settled() == PlainStep(old(thread.Settled()), op)
  {
    hide PlainUser, PlainAssistant;
    match op {
      case UserChunk(c, indented) => thread.PushUserContentBlock(c, indented);
      case AssistantChunk(c, isThought, indented) => thread.PushAssistantContentBlock(c, isThought, indented);
      case NewEntry => thread.PushEntry(Other);
      case RemoveFrom(ix) =>
        if ix <= |thread.entries| {
          thread.TruncateEntries(ix);
        }
      case Flush => thread.FlushStreamingText();
      case Tick =>
        var more := thread.RevealTick();
    }
  }
}
