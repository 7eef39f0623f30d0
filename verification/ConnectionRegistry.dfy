/** The log of an agent connection: a bounded backlog, live subscribers, and the matching of
    responses to requests in the log panel. */
module ConnectionRegistry {
  import opened Options

  datatype Direction = Incoming | Outgoing | Stderr

  datatype Content =
    | Request(id: int, methodName: string)
    | Response(id: int)
    | Notification(methodName: string)
    | StderrLine(line: string)

  datatype Message = Message(direction: Direction, content: Content)

  /** A line from the transport; some lines are no messages. */
  datatype RawLine = RawLine(message: Option<Message>)

  const MaxBacklog := 2000

  /** The last `n` elements, or all. */
  function Tail<T>(s: seq<T>, n: nat): seq<T> {
    if |s| <= n then s else s[|s| - n..]
  }

  /** `x` is the end of `s`. */
  predicate IsSuffix<T(==)>(x: seq<T>, s: seq<T>) {
    |x| <= |s| && s[|s| - |x|..] == x
  }

  // ------------------------------------------------------------------ the registry

  /** A subscriber: what it was given at first, and what it was sent since. */
  datatype Subscriber = Subscriber(snapshot: seq<Message>, received: seq<Message>, isClosed: bool)

  /** `log` holds all messages broadcast in the current generation, `queue` the lines that the tap of
      the current connection has taken and that were not broadcast yet. */
  datatype Registry = Registry(
    isActive: bool,
    isEnabled: bool,
    generation: nat,
    backlog: seq<Message>,
    subscribers: seq<Subscriber>,
    queue: seq<RawLine>,
    log: seq<Message>)

  datatype Action =
    | SetActiveConnection
    | Emit(line: RawLine)
    | Broadcast
    | TransportClosed
    | ClearMessages
    | Subscribe
    | CloseReceiver(n: nat)

  const Initial := Registry(false, false, 0, [], [], [], [])

  predicate Enabled(r: Registry, a: Action) {
    match a
    case Broadcast => r.isActive && r.queue != []
    case TransportClosed => r.isActive && r.queue == []
    case CloseReceiver(n) => n < |r.subscribers|
    case _ => true
  }

  /** Subscribers whose receiver is gone are dropped, the others are sent the message. */
  function Deliver(subscribers: seq<Subscriber>, m: Message): seq<Subscriber> {
    if subscribers == [] then []
    else if subscribers[0].isClosed then Deliver(subscribers[1..], m)
    else [subscribers[0].(received := subscribers[0].received + [m])] + Deliver(subscribers[1..], m)
  }

  function Step(r: Registry, a: Action): Registry
    requires Enabled(r, a)
  {
    match a
    case SetActiveConnection => Registry(true, false, r.generation + 1, [], [], [], [])
    case Emit(line) => if r.isActive && r.isEnabled then r.(queue := r.queue + [line]) else r
    case Broadcast =>
      if r.queue[0].message.None? then r.(queue := r.queue[1..])
      else
        var m := r.queue[0].message.value;
        r.(queue := r.queue[1..], log := r.log + [m], backlog := Tail(r.backlog + [m], MaxBacklog),
           subscribers := Deliver(r.subscribers, m))
    case TransportClosed => r.(isActive := false, isEnabled := false, subscribers := [])
    case ClearMessages => r.(generation := r.generation + 1, backlog := [], subscribers := [], log := [])
    case Subscribe =>
      r.(isEnabled := r.isEnabled || r.isActive, subscribers := r.subscribers + [Subscriber(r.backlog, [], false)])
    case CloseReceiver(n) => r.(subscribers := r.subscribers[n := r.subscribers[n].(isClosed := true)])
  }

  /** A subscriber that still listens has seen an unbroken stretch of the messages of its generation
      that ends with the newest. */
  predicate SeesSuffix(s: Subscriber, log: seq<Message>) {
    !s.isClosed ==> IsSuffix(s.snapshot + s.received, log)
  }

  /** The backlog is the end of the log, and so is what each subscriber has seen. */
  ghost predicate Consistent(r: Registry) {
    && r.backlog == Tail(r.log, MaxBacklog)
    && (forall s :: s in r.subscribers ==> SeesSuffix(s, r.log))
    && (!r.isActive ==> !r.isEnabled)
  }

  lemma {:induction false} DeliverKeepsSuffix(subscribers: seq<Subscriber>, log: seq<Message>, m: Message)
    requires forall s :: s in subscribers ==> SeesSuffix(s, log)
    ensures forall s :: s in Deliver(subscribers, m) ==> SeesSuffix(s, log + [m])
  {
    if subscribers != [] {
      var s := subscribers[0];
      DeliverKeepsSuffix(subscribers[1..], log, m);
      assert s in subscribers;
      if !s.isClosed {
        SuffixGrows(s.snapshot + s.received, log, m);
        assert s.snapshot + (s.received + [m]) == (s.snapshot + s.received) + [m];
      }
    }
  }

  lemma SuffixGrows<T>(x: seq<T>, s: seq<T>, m: T)
    requires IsSuffix(x, s)
    ensures IsSuffix(x + [m], s + [m])
  {
    assert (s + [m])[|s| - |x|..] == s[|s| - |x|..] + [m];
  }

  lemma TailIsSuffix<T>(s: seq<T>, n: nat)
    ensures IsSuffix(Tail(s, n), s)
  {
  }

  lemma TailOfTail<T>(s: seq<T>, m: T, n: nat)
    ensures Tail(Tail(s, n) + [m], n) == Tail(s + [m], n)
  {
  }

  lemma StepKeepsConsistent(r: Registry, a: Action)
    requires Consistent(r) && Enabled(r, a)
    ensures Consistent(Step(r, a))
  {
    match a {
      case Broadcast =>
        if r.queue[0].message.Some? {
          var m := r.queue[0].message.value;
          TailOfTail(r.log, m, MaxBacklog);
          DeliverKeepsSuffix(r.subscribers, r.log, m);
        }
      case Subscribe =>
        TailIsSuffix(r.log, MaxBacklog);
        assert r.backlog + [] == r.backlog;
      case _ =>
    }
  }

  /** Every step keeps or extends the messages a listening subscriber has seen; nothing is sent twice
      and nothing is skipped. */
  lemma {:induction false} DeliverExtends(subscribers: seq<Subscriber>, m: Message, n: nat)
    requires n < |subscribers| && !subscribers[n].isClosed
    ensures subscribers[n].(received := subscribers[n].received + [m]) in Deliver(subscribers, m)
  {
    if n > 0 {
      DeliverExtends(subscribers[1..], m, n - 1);
    }
  }

  ghost predicate Run(states: seq<Registry>, actions: seq<Action>) {
    && |states| == |actions| + 1 && states[0] == Initial
    && forall k :: 0 <= k < |actions| ==> Enabled(states[k], actions[k]) && states[k + 1] == Step(states[k], actions[k])
  }

  /** No gap and no duplicate, in every run. */
  lemma {:induction false} RunKeepsConsistent(states: seq<Registry>, actions: seq<Action>, n: nat)
    requires Run(states, actions) && n < |states|
    ensures Consistent(states[n])
    ensures |states[n].backlog| == if |states[n].log| <= 2000 then |states[n].log| else 2000
  {
    if n > 0 {
      RunKeepsConsistent(states, actions, n - 1);
      StepKeepsConsistent(states[n - 1], actions[n - 1]);
    }
  }

  // ------------------------------------------------------------------ what is taken from a connection

  /** After the first `n` actions a connection is open. */
  function IsOpen(actions: seq<Action>, n: nat): bool
    requires n <= |actions|
  {
    n > 0 &&
    match actions[n - 1]
    case SetActiveConnection => true
    case TransportClosed => false
    case _ => IsOpen(actions, n - 1)
  }

  /** Someone has subscribed since it was opened. */
  function IsTapped(actions: seq<Action>, n: nat): bool
    requires n <= |actions|
  {
    n > 0 &&
    match actions[n - 1]
    case SetActiveConnection => false
    case TransportClosed => false
    case Subscribe => IsOpen(actions, n - 1)
    case _ => IsTapped(actions, n - 1)
  }

  /** The messages that the open connection has sent or received since then. */
  function Taken(actions: seq<Action>, n: nat): seq<Message>
    requires n <= |actions|
  {
    if n == 0 then []
    else
      match actions[n - 1]
      case SetActiveConnection => []
      case Emit(line) =>
        Taken(actions, n - 1)
        + if line.message.Some? && IsTapped(actions, n - 1) then [line.message.value] else []
      case _ => Taken(actions, n - 1)
  }

  /** The panel was cleared since the connection was opened. */
  function WasCleared(actions: seq<Action>, n: nat): bool
    requires n <= |actions|
  {
    n > 0 &&
    match actions[n - 1]
    case SetActiveConnection => false
    case ClearMessages => true
    case _ => WasCleared(actions, n - 1)
  }

  function Generations(actions: seq<Action>, n: nat): nat
    requires n <= |actions|
  {
    if n == 0 then 0
    else
      Generations(actions, n - 1)
      + if actions[n - 1].SetActiveConnection? || actions[n - 1].ClearMessages? then 1 else 0
  }

  /** The messages among the lines that wait to be broadcast. */
  function MessagesOf(queue: seq<RawLine>): seq<Message> {
    if queue == [] then []
    else (if queue[0].message.Some? then [queue[0].message.value] else []) + MessagesOf(queue[1..])
  }

  lemma {:induction false} MessagesAppend(queue: seq<RawLine>, line: RawLine)
    ensures MessagesOf(queue + [line])
            == MessagesOf(queue) + if line.message.Some? then [line.message.value] else []
  {
    hide *;
    var m := if line.message.Some? then [line.message.value] else [];
    if queue == [] {
      OneMessage(line);
    } else {
      MessagesHead(queue);
      MessagesHead(queue + [line]);
      assert (queue + [line])[1..] == queue[1..] + [line];
      MessagesAppend(queue[1..], line);
      AssocMessages(if queue[0].message.Some? then [queue[0].message.value] else [], MessagesOf(queue[1..]), m);
    }
  }

  lemma OneMessage(line: RawLine)
    ensures MessagesOf([]) == [] && [] + [line] == [line]
    ensures MessagesOf([line]) == [] + if line.message.Some? then [line.message.value] else []
  {
    assert [line][1..] == [];
  }

  lemma MessagesHead(queue: seq<RawLine>)
    requires queue != []
    ensures MessagesOf(queue)
            == (if queue[0].message.Some? then [queue[0].message.value] else []) + MessagesOf(queue[1..])
  {
  }

  lemma AssocMessages(x: seq<Message>, y: seq<Message>, z: seq<Message>)
    ensures x + (y + z) == (x + y) + z
  {
  }

  /** What is broadcast, and what waits to be, is what the open connection has sent since it was tapped, and
      nothing of any other connection: all of it, or the newest part if the panel was cleared. */
  ghost predicate TakesAll(r: Registry, actions: seq<Action>, n: nat)
    requires n <= |actions|
  {
    && r.isActive == IsOpen(actions, n) && r.isEnabled == IsTapped(actions, n)
    && r.generation == Generations(actions, n)
    && IsSuffix(r.log + MessagesOf(r.queue), Taken(actions, n))
    && (!WasCleared(actions, n) ==> r.log + MessagesOf(r.queue) == Taken(actions, n))
  }

  lemma {:induction false} RunTakesAll(states: seq<Registry>, actions: seq<Action>, n: nat)
    requires Run(states, actions) && n < |states|
    ensures TakesAll(states[n], actions, n)
  {
    if n > 0 {
      RunTakesAll(states, actions, n - 1);
      hide TakesAll;
      StepTakesAll(states[n - 1], actions, n);
    }
  }

  lemma StepTakesAll(r: Registry, actions: seq<Action>, n: nat)
    requires 0 < n <= |actions| && TakesAll(r, actions, n - 1) && Enabled(r, actions[n - 1])
    ensures TakesAll(Step(r, actions[n - 1]), actions, n)
  {
    match actions[n - 1] {
      case Emit(line) => EmitTakesAll(r, actions, n, line);
      case Broadcast => BroadcastTakesAll(r, actions, n);
      case ClearMessages => ClearTakesAll(r, actions, n);
      case _ => OthersTakeAll(r, actions, n);
    }
  }

  lemma OthersTakeAll(r: Registry, actions: seq<Action>, n: nat)
    requires 0 < n <= |actions| && TakesAll(r, actions, n - 1) && Enabled(r, actions[n - 1])
    requires !actions[n - 1].Emit? && !actions[n - 1].Broadcast? && !actions[n - 1].ClearMessages?
    ensures TakesAll(Step(r, actions[n - 1]), actions, n)
  {
    TapIsOpen(actions, n - 1);
    assert MessagesOf([]) == [];
    hide Deliver, MessagesOf;
  }

  lemma EmitTakesAll(r: Registry, actions: seq<Action>, n: nat, line: RawLine)
    requires 0 < n <= |actions| && TakesAll(r, actions, n - 1) && actions[n - 1] == Emit(line)
    ensures TakesAll(Step(r, actions[n - 1]), actions, n)
  {
    MessagesAppend(r.queue, line);
    TapIsOpen(actions, n - 1);
    hide MessagesOf, Deliver;
    var x, s := r.log + MessagesOf(r.queue), Taken(actions, n - 1);
    if r.isEnabled && line.message.Some? {
      var m := line.message.value;
      SuffixGrows(x, s, m);
      assert r.log + (MessagesOf(r.queue) + [m]) == x + [m];
    } else {
      assert MessagesOf(r.queue) + [] == MessagesOf(r.queue) && s + [] == s;
    }
  }

  lemma BroadcastTakesAll(r: Registry, actions: seq<Action>, n: nat)
    requires 0 < n <= |actions| && TakesAll(r, actions, n - 1) && actions[n - 1] == Broadcast && Enabled(r, Broadcast)
    ensures TakesAll(Step(r, actions[n - 1]), actions, n)
  {
    var m := r.queue[0].message;
    BroadcastMessages(r.log, m, MessagesOf(r.queue[1..]));
    hide Deliver, Tail, IsSuffix;
  }

  lemma BroadcastMessages(log: seq<Message>, m: Option<Message>, rest: seq<Message>)
    ensures log + ((if m.Some? then [m.value] else []) + rest) == (if m.Some? then log + [m.value] else log) + rest
  {
  }

  lemma ClearTakesAll(r: Registry, actions: seq<Action>, n: nat)
    requires 0 < n <= |actions| && TakesAll(r, actions, n - 1) && actions[n - 1] == ClearMessages
    ensures TakesAll(Step(r, actions[n - 1]), actions, n)
  {
    ShorterSuffix(r.log, MessagesOf(r.queue), Taken(actions, n - 1));
    hide Deliver, MessagesOf, IsSuffix;
  }

  lemma {:induction false} TapIsOpen(actions: seq<Action>, n: nat)
    requires n <= |actions|
    ensures IsTapped(actions, n) ==> IsOpen(actions, n)
  {
    if n > 0 {
      TapIsOpen(actions, n - 1);
    }
  }

  lemma ShorterSuffix<T>(x: seq<T>, y: seq<T>, s: seq<T>)
    requires IsSuffix(x + y, s)
    ensures IsSuffix([] + y, s)
  {
    assert s[|s| - |y|..] == (x + y)[|x|..];
  }

  lemma EnabledBroadcast(r: Registry)
    requires Enabled(r, Broadcast)
    ensures r.queue != []
  {
  }

  /** A broadcast in the steps of the loop: the backlog makes room before it takes the message. */
  lemma BroadcastIs(r: Registry)
    requires Consistent(r) && Enabled(r, Broadcast) && r.queue != []
    ensures 0 < MaxBacklog
    ensures r.queue[0].message.None? ==> Step(r, Broadcast) == r.(queue := r.queue[1..])
    ensures r.queue[0].message.Some? ==>
              var m := r.queue[0].message.value;
              Step(r, Broadcast)
              == r.(queue := r.queue[1..], log := r.log + [m],
                    backlog := (if |r.backlog| == MaxBacklog then r.backlog[1..] else r.backlog) + [m],
                    subscribers := Deliver(r.subscribers, m))
  {
    hide Deliver, SeesSuffix;
  }

  lemma DeliverStarts(l: seq<Subscriber>, m: Message)
    ensures Deliver(l, m) == [] + Deliver(l[0..], m)
  {
    assert l[0..] == l;
  }

  lemma DeliverNext(l: seq<Subscriber>, m: Message, n: nat, done: seq<Subscriber>)
    requires n < |l| && Deliver(l, m) == done + Deliver(l[n..], m)
    ensures l[n].isClosed ==> Deliver(l, m) == done + Deliver(l[n + 1..], m)
    ensures !l[n].isClosed ==>
              Deliver(l, m) == done + [l[n].(received := l[n].received + [m])] + Deliver(l[n + 1..], m)
  {
    assert l[n..][0] == l[n] && l[n..][1..] == l[n + 1..];
  }

  lemma DeliverEnds(l: seq<Subscriber>, m: Message, done: seq<Subscriber>)
    requires Deliver(l, m) == done + Deliver(l[|l|..], m)
    ensures Deliver(l, m) == done
  {
    assert l[|l|..] == [];
  }

  class AcpConnectionRegistry {
    var isActive: bool
    var isEnabled: bool
    var generation: nat
    var backlog: seq<Message>
    var subscribers: seq<Subscriber>
    var queue: seq<RawLine>
    ghost var log: seq<Message>

    ghost function Now(): Registry
      reads this
    {
      Registry(isActive, isEnabled, generation, backlog, subscribers, queue, log)
    }

    lemma NowIs()
      ensures Now() == Registry(isActive, isEnabled, generation, backlog, subscribers, queue, log)
    {
    }

    constructor ()
      ensures Now() == Initial && Consistent(Now())
    {
      isActive, isEnabled, generation := false, false, 0;
      backlog, subscribers, queue, log := [], [], [], [];
    }

    /** `set_active_connection`: the tap starts disabled, and nothing of the old connection stays. */
    method SetActive()
      modifies this
      ensures Now() == Step(old(Now()), SetActiveConnection)
    {
      isActive, isEnabled, generation := true, false, generation + 1;
      backlog, subscribers, queue, log := [], [], [], [];
    }

    /** `AcpLogTap::emit`. */
    method EmitLine(line: RawLine)
      modifies this`queue
      ensures Now() == Step(old(Now()), Emit(line))
    {
      if isActive && isEnabled {
        queue := queue + [line];
      }
    }

    /** One round of the broadcast loop. */
    method BroadcastNext()
      requires Consistent(Now()) && Enabled(Now(), Broadcast)
      modifies this
      ensures Now() == Step(old(Now()), Broadcast)
    {
      hide *;
      NowIs();
      EnabledBroadcast(Now());
      BroadcastIs(Now());
      var raw := queue[0];
      queue := queue[1..];
      if raw.message.None? {
        NowIs();
        return;
      }
      var message := raw.message.value;
      log := log + [message];
      if |backlog| == MaxBacklog {
        backlog := backlog[1..];
      }
      backlog := backlog + [message];
      ghost var before := subscribers;
      var listening: seq<Subscriber> := [];
      var n := 0;
      DeliverStarts(before, message);
      while n < |subscribers|
        invariant 0 <= n <= |subscribers| && subscribers == before
        invariant Deliver(before, message) == listening + Deliver(before[n..], message)
        modifies {}
      {
        DeliverNext(before, message, n, listening);
        if !subscribers[n].isClosed {
          listening := listening + [subscribers[n].(received := subscribers[n].received + [message])];
        }
        n := n + 1;
      }
      DeliverEnds(before, message, listening);
      subscribers := listening;
      NowIs();
    }

    /** The end of the broadcast loop. */
    method CloseTransport()
      requires Enabled(Now(), TransportClosed)
      modifies this
      ensures Now() == Step(old(Now()), TransportClosed)
    {
      isActive, isEnabled, subscribers := false, false, [];
    }

    /** `clear_messages`. */
    method Clear()
      modifies this
      ensures Now() == Step(old(Now()), ClearMessages)
    {
      backlog, generation, subscribers := [], generation + 1, [];
      log := [];
    }

    /** `subscribe`: the backlog it hands out joins the live messages without a gap. */
    method AddSubscriber() returns (snapshot: seq<Message>)
      requires Consistent(Now())
      modifies this
      ensures Now() == Step(old(Now()), Subscribe)
      ensures snapshot == Tail(log, MaxBacklog)
    {
      if isActive {
        isEnabled := true;
      }
      snapshot := backlog;
      subscribers := subscribers + [Subscriber(snapshot, [], false)];
    }
  }

  // ------------------------------------------------------------------ matching responses to requests

  datatype MessageType = RequestMessage | ResponseMessage | NotificationMessage | StderrMessage

  datatype Shown = Shown(name: string, kind: MessageType, id: Option<int>, direction: Direction)

  const Unrecognized := "[unrecognized response]"

  function Opposite(d: Direction): Direction {
    match d
    case Incoming => Outgoing
    case Outgoing => Incoming
    case Stderr => Stderr
  }

  /** The method of the request in direction `d` with this id that is still unanswered after `history`:
      the newest one, unless a response the other way came after it. */
  function Unanswered(history: seq<Message>, d: Direction, id: int): Option<string> {
    if history == [] then None
    else
      var m := history[|history| - 1];
      if m.content.Request? && m.direction == d && m.content.id == id then Some(m.content.methodName)
      else if m.content.Response? && m.direction == Opposite(d) && m.content.id == id then None
      else Unanswered(history[..|history| - 1], d, id)
  }

  /** How a message is shown, given the messages before it; nothing is shown for a request or a
      response on stderr. */
  function ShownNext(history: seq<Message>, m: Message): Option<Shown> {
    match m.content
    case Request(id, name) =>
      if m.direction.Stderr? then None else Some(Shown(name, RequestMessage, Some(id), m.direction))
    case Response(id) =>
      if m.direction.Stderr? then None
      else
        var asked := Unanswered(history, Opposite(m.direction), id);
        Some(Shown(if asked.Some? then asked.value else Unrecognized, ResponseMessage, Some(id), m.direction))
    case Notification(name) => Some(Shown(name, NotificationMessage, None, m.direction))
    case StderrLine(_) => Some(Shown("stderr", StderrMessage, None, m.direction))
  }

  function PanelAfter(history: seq<Message>): seq<Shown> {
    if history == [] then []
    else
      var front := history[..|history| - 1];
      var last := ShownNext(front, history[|history| - 1]);
      PanelAfter(front) + (if last.Some? then [last.value] else [])
  }

  /** A response is named after the newest request the other way with its id, if that is unanswered. */
  lemma ResponseNamed(before: seq<Message>, request: Message, between: seq<Message>, response: Message)
    requires request.content.Request? && response.content.Response? && request.content.id == response.content.id
    requires !request.direction.Stderr? && response.direction == Opposite(request.direction)
    requires forall m :: m in between ==>
               !(m.content.Request? && m.direction == request.direction && m.content.id == request.content.id)
               && !(m.content.Response? && m.direction == response.direction && m.content.id == request.content.id)
    ensures ShownNext(before + [request] + between, response)
            == Some(Shown(request.content.methodName, ResponseMessage, Some(response.content.id), response.direction))
    ensures ShownNext(before + [request] + between + [response], response).value.name == Unrecognized
  {
    StillUnanswered(before + [request], request.direction, request.content.id, between);
    var h := before + [request] + between + [response];
    assert h[..|h| - 1] == before + [request] + between;
    assert Unanswered(h, request.direction, request.content.id) == None;
  }

  /** What the panel adds for a message: its direction, its kind, its id, and for all but responses its own
      name; and a line for each message but requests and responses on stderr. */
  lemma MessageShown(history: seq<Message>, m: Message)
    ensures var (shown, more) := (PanelAfter(history), PanelAfter(history + [m]));
            if m.direction.Stderr? && (m.content.Request? || m.content.Response?) then more == shown
            else
              && |more| == |shown| + 1 && more[..|shown|] == shown && more[|shown|].direction == m.direction
              && match m.content
                 case Request(id, name) =>
                   more[|shown|].kind == RequestMessage && more[|shown|].id == Some(id) && more[|shown|].name == name
                 case Response(id) => more[|shown|].kind == ResponseMessage && more[|shown|].id == Some(id)
                 case Notification(name) =>
                   more[|shown|].kind == NotificationMessage && more[|shown|].id == None && more[|shown|].name == name
                 case StderrLine(_) =>
                   more[|shown|].kind == StderrMessage && more[|shown|].id == None && more[|shown|].name == "stderr"
  {
    assert (history + [m])[..|history|] == history;
    hide Unanswered;
  }

  lemma {:induction false} StillUnanswered(history: seq<Message>, d: Direction, id: int, more: seq<Message>)
    requires forall m :: m in more ==>
               !(m.content.Request? && m.direction == d && m.content.id == id)
               && !(m.content.Response? && m.direction == Opposite(d) && m.content.id == id)
    ensures Unanswered(history + more, d, id) == Unanswered(history, d, id)
  {
    if more == [] {
      assert history + more == history;
    } else {
      var n := |more| - 1;
      assert (history + more)[..|history| + n] == history + more[..n];
      assert more[n] in more;
      StillUnanswered(history, d, id, more[..n]);
    }
  }

  /** The map holds the methods of the unanswered requests in direction `d`. */
  ghost predicate Tracks(methods: map<int, string>, history: seq<Message>, d: Direction) {
    && (forall id :: id in methods <==> Unanswered(history, d, id).Some?)
    && (forall id :: id in methods ==> Unanswered(history, d, id) == Some(methods[id]))
  }

  /** A request is added to the map of its direction, a response removed from the other. */
  lemma TracksMessage(methods: map<int, string>, history: seq<Message>, d: Direction, m: Message)
    requires Tracks(methods, history, d) && !d.Stderr?
    ensures var more := history + [m];
            if m.content.Request? && m.direction == d
               then Tracks(methods[m.content.id := m.content.methodName], more, d)
            else if m.content.Response? && m.direction == Opposite(d) then Tracks(methods - {m.content.id}, more, d)
            else Tracks(methods, more, d)
  {
    assert (history + [m])[..|history|] == history;
  }

  lemma TracksAt(methods: map<int, string>, history: seq<Message>, d: Direction, m: Message)
    requires Tracks(methods, history, d)
    ensures m.content.Response? ==>
              Unanswered(history, d, m.content.id)
              == if m.content.id in methods then Some(methods[m.content.id]) else None
    ensures m.content.Response? && m.content.id !in methods ==> methods - {m.content.id} == methods
  {
  }

  lemma ShownMore(history: seq<Message>, m: Message)
    ensures PanelAfter(history + [m])
            == PanelAfter(history) + (if ShownNext(history, m).Some? then [ShownNext(history, m).value] else [])
  {
    assert (history + [m])[..|history|] == history;
  }

  lemma ShownIs(history: seq<Message>, m: Message)
    ensures m.direction.Stderr? && (m.content.Request? || m.content.Response?) ==> ShownNext(history, m) == None
    ensures m.content.Request? && !m.direction.Stderr? ==>
              ShownNext(history, m)
                == Some(Shown(m.content.methodName, RequestMessage, Some(m.content.id), m.direction))
    ensures m.content.Response? && !m.direction.Stderr? ==>
              var asked := Unanswered(history, Opposite(m.direction), m.content.id);
              ShownNext(history, m) == Some(Shown(if asked.Some? then asked.value else Unrecognized,
                                                   ResponseMessage, Some(m.content.id), m.direction))
    ensures m.content.Notification? ==>
              ShownNext(history, m) == Some(Shown(m.content.methodName, NotificationMessage, None, m.direction))
    ensures m.content.StderrLine? ==> ShownNext(history, m) == Some(Shown("stderr", StderrMessage, None, m.direction))
  {
  }

  class WatchedConnection {
    var messages: seq<Shown>
    var incomingRequestMethods: map<int, string>
    var outgoingRequestMethods: map<int, string>
    /** The messages pushed since the panel was cleared. */
    ghost var history: seq<Message>

    ghost predicate Valid()
      reads this
    {
      && messages == PanelAfter(history)
      && Tracks(incomingRequestMethods, history, Incoming)
      && Tracks(outgoingRequestMethods, history, Outgoing)
    }

    constructor ()
      ensures Valid() && history == []
    {
      messages, incomingRequestMethods, outgoingRequestMethods, history := [], map[], map[], [];
    }

    /** `push_stream_message`. */
    method PushStreamMessage(m: Message)
      requires Valid()
      modifies this
      ensures Valid() && history == old(history) + [m]
    {
      hide Tracks, PanelAfter, ShownNext;
      ShownMore(history, m);
      TracksMessage(incomingRequestMethods, history, Incoming, m);
      TracksMessage(outgoingRequestMethods, history, Outgoing, m);
      TracksAt(incomingRequestMethods, history, Incoming, m);
      TracksAt(outgoingRequestMethods, history, Outgoing, m);
      ShownIs(history, m);
      history := history + [m];
      var shown: Shown;
      match m.content {
        case Request(id, name) =>
          match m.direction {
            case Incoming => incomingRequestMethods := incomingRequestMethods[id := name];
            case Outgoing => outgoingRequestMethods := outgoingRequestMethods[id := name];
            case Stderr => return;
          }
          shown := Shown(name, RequestMessage, Some(id), m.direction);
        case Response(id) =>
          var name := Unrecognized;
          match m.direction {
            case Incoming =>
              if id in outgoingRequestMethods {
                name := outgoingRequestMethods[id];
                outgoingRequestMethods := outgoingRequestMethods - {id};
              }
            case Outgoing =>
              if id in incomingRequestMethods {
                name := incomingRequestMethods[id];
                incomingRequestMethods := incomingRequestMethods - {id};
              }
            case Stderr => return;
          }
          shown := Shown(name, ResponseMessage, Some(id), m.direction);
        case Notification(name) =>
          shown := Shown(name, NotificationMessage, None, m.direction);
        case StderrLine(_) =>
          shown := Shown("stderr", StderrMessage, None, m.direction);
      }
      messages := messages + [shown];
    }

    /** `clear_messages` of the panel. */
    method ClearMessages()
      modifies this
      ensures Valid() && history == []
    {
      messages, incomingRequestMethods, outgoingRequestMethods, history := [], map[], map[], [];
    }
  }
}
