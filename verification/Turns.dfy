/** Turns of a thread: sending starts a new turn and cancels the one that runs; a completed turn
    clears the running turn only if that is still itself. */
module Turns {
  import opened Options

  /** The task that runs the body of a turn: it first waits for the task of the turn it replaced. */
  datatype Body = Waiting(on: Option<nat>) | Running | Finished | Dropped

  /** Turns are numbered from 1; `bodies[k - 1]` is the task of turn `k`. */
  datatype State = State(turnId: nat, runningTurn: Option<nat>, bodies: seq<Body>, completed: set<nat>)

  datatype Action =
    /** `run_turn`, for a message or a retry. */
    | Send
    /** `cancel` alone; the caller may drop the task it returns, and the body with it. */
    | Cancel(dropped: bool)
    /** The body of a turn gets to run, ends, and its end is handled. */
    | Start(turn: nat)
    | Finish(turn: nat)
    | Complete(turn: nat)

  const Initial := State(0, None, [], {})

  predicate IsTurn(s: State, k: nat) {
    1 <= k <= |s.bodies|
  }

  function BodyOf(s: State, k: nat): Body
    requires IsTurn(s, k)
  {
    s.bodies[k - 1]
  }

  predicate Enabled(s: State, a: Action) {
    match a
    case Send => true
    case Cancel(_) => true
    case Start(k) =>
      IsTurn(s, k) && BodyOf(s, k).Waiting?
      && (BodyOf(s, k).on.Some? ==> IsTurn(s, BodyOf(s, k).on.value) && BodyOf(s, BodyOf(s, k).on.value).Finished?)
    case Finish(k) => IsTurn(s, k) && BodyOf(s, k).Running?
    case Complete(k) => IsTurn(s, k) && BodyOf(s, k).Finished? && k !in s.completed
  }

  function WithBody(s: State, k: nat, b: Body): State
    requires IsTurn(s, k)
  {
    s.(bodies := s.bodies[k - 1 := b])
  }

  predicate Ended(b: Body) {
    b.Finished? || b.Dropped?
  }

  /** Dropping the task of turn `k` drops its body; while that waits, it owns the task of the turn it
      waits for, which is dropped with it. */
  function DropBody(bodies: seq<Body>, k: nat): seq<Body>
    decreases k
  {
    if !(1 <= k <= |bodies|) || Ended(bodies[k - 1]) then bodies
    else
      var rest := bodies[k - 1 := Dropped];
      if bodies[k - 1].Waiting? && bodies[k - 1].on.Some? && bodies[k - 1].on.value < k
      then DropBody(rest, bodies[k - 1].on.value) else rest
  }

  function Step(s: State, a: Action): State
    requires Enabled(s, a)
  {
    match a
    case Send =>
      s.(turnId := s.turnId + 1, runningTurn := Some(s.turnId + 1), bodies := s.bodies + [Waiting(s.runningTurn)])
    case Cancel(dropped) =>
      if dropped && s.runningTurn.Some? then s.(runningTurn := None, bodies := DropBody(s.bodies, s.runningTurn.value))
      else s.(runningTurn := None)
    case Start(k) => WithBody(s, k, Running)
    case Finish(k) => WithBody(s, k, Finished)
    case Complete(k) =>
      s.(completed := s.completed + {k}, runningTurn := if s.runningTurn == Some(k) then None else s.runningTurn)
  }

  /** Dropping ends bodies and changes nothing else. */
  lemma {:induction false} DropEnds(bodies: seq<Body>, k: nat)
    ensures |DropBody(bodies, k)| == |bodies|
    ensures forall j :: 0 <= j < |bodies| ==>
              DropBody(bodies, k)[j] == bodies[j] || (DropBody(bodies, k)[j].Dropped? && !Ended(bodies[j]) && j < k)
    ensures 1 <= k <= |bodies| ==> Ended(DropBody(bodies, k)[k - 1])
    decreases k
  {
    if 1 <= k <= |bodies| && !Ended(bodies[k - 1]) {
      var rest := bodies[k - 1 := Dropped];
      if bodies[k - 1].Waiting? && bodies[k - 1].on.Some? && bodies[k - 1].on.value < k {
        DropEnds(rest, bodies[k - 1].on.value);
      }
    }
  }

  // ------------------------------------------------------------------ the newest turn

  ghost predicate NewestRuns(s: State) {
    && s.turnId == |s.bodies|
    && (s.runningTurn.Some? ==>
          s.turnId >= 1 && s.runningTurn.value == s.turnId && s.turnId !in s.completed && !BodyOf(s, s.turnId).Dropped?)
    && (forall k :: k in s.completed ==> IsTurn(s, k) && BodyOf(s, k).Finished?)
  }

  lemma StepKeepsNewest(s: State, a: Action)
    requires NewestRuns(s) && Enabled(s, a)
    ensures NewestRuns(Step(s, a))
  {
    if a.Cancel? && s.runningTurn.Some? {
      DropEnds(s.bodies, s.runningTurn.value);
    }
  }

  /** The running turn stops being one only by its own completion, a cancel, or a new turn. */
  lemma OnlyItsOwnEndClears(s: State, a: Action)
    requires NewestRuns(s) && Enabled(s, a) && s.runningTurn.Some?
    requires Step(s, a).runningTurn != s.runningTurn
    ensures a.Send? || a.Cancel? || a == Complete(s.runningTurn.value)
    ensures a.Send? ==> Step(s, a).runningTurn == Some(s.runningTurn.value + 1)
    ensures !a.Send? ==> Step(s, a).runningTurn == None
  {
  }

  // ------------------------------------------------------------------ runs

  ghost predicate Run(states: seq<State>, actions: seq<Action>) {
    && |states| == |actions| + 1 && states[0] == Initial
    && forall k :: 0 <= k < |actions| ==> Enabled(states[k], actions[k]) && states[k + 1] == Step(states[k], actions[k])
  }

  lemma {:induction false} RunKeepsNewest(states: seq<State>, actions: seq<Action>, n: nat)
    requires Run(states, actions) && n < |states|
    ensures NewestRuns(states[n])
  {
    if n > 0 {
      RunKeepsNewest(states, actions, n - 1);
      StepKeepsNewest(states[n - 1], actions[n - 1]);
    }
  }

  /** A body that does not wait for another one. */
  predicate OnItsOwn(b: Body) {
    !b.Waiting? || b.on.None?
  }

  /** Every turn waits for the one before it, which was not dropped, or all earlier ones have ended. */
  ghost predicate InTurn(s: State) {
    && NewestRuns(s)
    && (forall k: nat :: IsTurn(s, k) && !OnItsOwn(BodyOf(s, k)) ==>
          k > 1 && BodyOf(s, k).on == Some(k - 1) && !BodyOf(s, k - 1).Dropped?)
    && (forall j: nat, k: nat :: IsTurn(s, j) && IsTurn(s, k) && j < k && OnItsOwn(BodyOf(s, k)) ==>
        Ended(BodyOf(s, j)))
  }

  /** All turns have ended. */
  ghost predicate AllEnded(s: State) {
    forall j: nat :: IsTurn(s, j) ==> Ended(BodyOf(s, j))
  }

  /** What a new turn needs: a running turn to wait for, or nothing that could still run. */
  ghost predicate MaySend(s: State) {
    s.runningTurn.Some? || AllEnded(s)
  }

  lemma OneAtATime(s: State)
    requires InTurn(s)
    ensures !Overlap(s)
  {
  }

  /** A turn whose body gets to run finds all earlier ones ended. */
  lemma StartFindsEnded(s: State, k: nat, j: nat)
    requires InTurn(s) && Enabled(s, Start(k)) && 1 <= j < k
    ensures Ended(BodyOf(s, j))
  {
    if !OnItsOwn(BodyOf(s, k)) {
      assert OnItsOwn(BodyOf(s, k - 1));
      assert j == k - 1 || j < k - 1;
    }
  }

  lemma StartKeepsTurn(s: State, k: nat)
    requires InTurn(s) && Enabled(s, Start(k))
    ensures InTurn(Step(s, Start(k)))
  {
    var s' := Step(s, Start(k));
    StepKeepsNewest(s, Start(k));
    SameButOne(s, s', k);
    forall j: nat, m: nat | IsTurn(s', j) && IsTurn(s', m) && j < m && OnItsOwn(BodyOf(s', m))
      ensures Ended(BodyOf(s', j))
    {
      if m == k {
        StartFindsEnded(s, k, j);
      } else {
        assert OnItsOwn(BodyOf(s, m)) && Ended(BodyOf(s, j));
      }
    }
  }

  lemma SameButOne(s: State, s': State, k: nat)
    requires IsTurn(s, k) && |s'.bodies| == |s.bodies| && forall n :: 0 <= n < |s.bodies| && n != k - 1 ==>
             s'.bodies[n] == s.bodies[n]
    ensures forall j: nat :: IsTurn(s, j) <==> IsTurn(s', j)
    ensures forall j: nat :: IsTurn(s, j) && j != k ==> BodyOf(s', j) == BodyOf(s, j)
  {
  }

  lemma FinishKeepsTurn(s: State, k: nat)
    requires InTurn(s) && Enabled(s, Finish(k))
    ensures InTurn(Step(s, Finish(k)))
  {
    var s' := Step(s, Finish(k));
    StepKeepsNewest(s, Finish(k));
    SameButOne(s, s', k);
    forall j: nat, m: nat | IsTurn(s', j) && IsTurn(s', m) && j < m && OnItsOwn(BodyOf(s', m))
      ensures Ended(BodyOf(s', j))
    {
      assert OnItsOwn(BodyOf(s, m)) && Ended(BodyOf(s, j));
    }
  }

  /** A task that is dropped takes with it all bodies that had not ended. */
  lemma {:induction false} DropEndsAll(s: State, bodies: seq<Body>, k: nat)
    requires InTurn(s) && |bodies| == |s.bodies| && 1 <= k <= |bodies|
    requires forall j :: 0 <= j < k ==> bodies[j] == s.bodies[j]
    ensures |DropBody(bodies, k)| == |bodies|
    ensures forall j :: 0 <= j < k ==> Ended(DropBody(bodies, k)[j])
    decreases k
  {
    DropEnds(bodies, k);
    assert BodyOf(s, k) == bodies[k - 1];
    if OnItsOwn(BodyOf(s, k)) {
      forall j | 0 <= j < k - 1
        ensures Ended(bodies[j])
      {
        assert bodies[j] == BodyOf(s, j + 1) && IsTurn(s, j + 1);
      }
    } else {
      var rest := bodies[k - 1 := Dropped];
      DropEndsAll(s, rest, k - 1);
      DropEnds(rest, k - 1);
    }
  }

  lemma CancelKeepsTurn(s: State, dropped: bool)
    requires InTurn(s)
    ensures InTurn(Step(s, Cancel(dropped)))
    ensures dropped && s.runningTurn.Some? ==> AllEnded(Step(s, Cancel(dropped)))
  {
    var s' := Step(s, Cancel(dropped));
    StepKeepsNewest(s, Cancel(dropped));
    if dropped && s.runningTurn.Some? {
      DropEndsAll(s, s.bodies, s.turnId);
      assert forall k: nat :: IsTurn(s', k) ==> Ended(BodyOf(s', k));
    } else {
      assert forall k: nat :: IsTurn(s, k) ==> BodyOf(s', k) == BodyOf(s, k);
      assert forall k: nat :: IsTurn(s, k) <==> IsTurn(s', k);
    }
  }

  lemma CompleteKeepsTurn(s: State, k: nat)
    requires InTurn(s) && Enabled(s, Complete(k))
    ensures InTurn(Step(s, Complete(k)))
  {
    var s' := Step(s, Complete(k));
    StepKeepsNewest(s, Complete(k));
    assert forall m: nat :: IsTurn(s, m) ==> BodyOf(s', m) == BodyOf(s, m);
    assert forall m: nat :: IsTurn(s, m) <==> IsTurn(s', m);
  }

  /** A new turn keeps the order exactly if a turn is running, or all earlier bodies have ended. */
  lemma SendKeepsTurnIff(s: State)
    requires InTurn(s)
    ensures InTurn(Step(s, Send)) <==> MaySend(s)
  {
    var s', n := Step(s, Send), s.turnId + 1;
    StepKeepsNewest(s, Send);
    assert forall k: nat :: IsTurn(s, k) ==> IsTurn(s', k) && BodyOf(s', k) == BodyOf(s, k);
    assert forall k: nat :: IsTurn(s', k) ==> IsTurn(s, k) || k == n;
    assert IsTurn(s', n) && BodyOf(s', n) == Waiting(s.runningTurn);
    if s.runningTurn.None? && InTurn(s') {
      forall j: nat | IsTurn(s, j)
        ensures Ended(BodyOf(s, j))
      {
        assert Ended(BodyOf(s', j));
      }
    }
  }

  /** All steps but a new turn keep the order whatever happens, and a new turn if it may be sent. */
  lemma StepKeepsTurn(s: State, a: Action)
    requires InTurn(s) && Enabled(s, a) && (a.Send? ==> MaySend(s))
    ensures InTurn(Step(s, a))
  {
    hide InTurn, MaySend;
    match a {
      case Send => SendKeepsTurnIff(s);
      case Cancel(dropped) => CancelKeepsTurn(s, dropped);
      case Start(k) => StartKeepsTurn(s, k);
      case Finish(k) => FinishKeepsTurn(s, k);
      case Complete(k) => CompleteKeepsTurn(s, k);
    }
  }

  ghost predicate Overlap(s: State) {
    exists j: nat, k: nat :: j < k && IsTurn(s, j) && IsTurn(s, k) && BodyOf(s, j).Running? && BodyOf(s, k).Running?
  }

  /** The guard is exact: after a turn that was sent without it, two bodies can be running at the same
      time at most two steps later. */
  lemma SendWithoutTurnOverlaps(s: State)
    requires InTurn(s) && !MaySend(s)
    ensures Enabled(Step(s, Send), Start(s.turnId + 1))
    ensures var s' := Step(Step(s, Send), Start(s.turnId + 1));
            Overlap(s') || exists j: nat :: Enabled(s', Start(j)) && Overlap(Step(s', Start(j)))
  {
    var n := s.turnId + 1;
    var j := FirstNotEnded(s, 1);
    var s' := Step(Step(s, Send), Start(n));
    assert forall m: nat :: IsTurn(s, m) ==> IsTurn(s', m) && BodyOf(s', m) == BodyOf(s, m);
    assert IsTurn(s', n) && BodyOf(s', n).Running?;
    if BodyOf(s, j).Waiting? {
      assert Enabled(s', Start(j));
      var s2 := Step(s', Start(j));
      assert BodyOf(s2, j).Running? && BodyOf(s2, n).Running? && IsTurn(s2, j) && IsTurn(s2, n);
    }
  }

  function FirstNotEnded(s: State, k: nat): (j: nat)
    requires 1 <= k && exists m: nat :: IsTurn(s, m) && k <= m && !Ended(BodyOf(s, m))
    ensures IsTurn(s, j) && k <= j && !Ended(BodyOf(s, j))
    ensures forall m: nat :: IsTurn(s, m) && k <= m < j ==> Ended(BodyOf(s, m))
    decreases |s.bodies| - k
  {
    if k <= |s.bodies| && !Ended(BodyOf(s, k)) then k else FirstNotEnded(s, k + 1)
  }

  /** In a run in which turns are only sent when they may be, bodies run one at a time and in order. */
  lemma {:induction false} GuardedRunsInOrder(states: seq<State>, actions: seq<Action>, n: nat)
    requires Run(states, actions) && n < |states|
    requires forall k :: 0 <= k < |actions| && actions[k].Send? ==> MaySend(states[k])
    ensures InTurn(states[n]) && !Overlap(states[n])
  {
    hide InTurn, MaySend;
    if n > 0 {
      GuardedRunsInOrder(states, actions, n - 1);
      StepKeepsTurn(states[n - 1], actions[n - 1]);
    } else {
      NothingRuns();
    }
    OneAtATime(states[n]);
  }

  lemma NothingRuns()
    ensures InTurn(Initial) && AllEnded(Initial)
  {
  }

  /** Without a turn to wait for, everything has ended. */
  ghost predicate AtRest(s: State) {
    InTurn(s) && (s.runningTurn.None? ==> AllEnded(s))
  }

  /** A bare cancel is harmless when it drops the task it gets, or when there is nothing to cancel. */
  predicate Harmless(s: State, a: Action) {
    a.Cancel? ==> a.dropped || s.runningTurn.None?
                  || (IsTurn(s, s.runningTurn.value) && Ended(BodyOf(s, s.runningTurn.value)))
  }

  lemma StepKeepsRest(s: State, a: Action)
    requires AtRest(s) && Enabled(s, a) && Harmless(s, a)
    ensures AtRest(Step(s, a))
  {
    var s' := Step(s, a);
    StepKeepsTurn(s, a);
    if s'.runningTurn.None? {
      match a {
        case Cancel(dropped) =>
          CancelKeepsTurn(s, dropped);
          if s.runningTurn.Some? && !dropped {
            LastEnded(s, s');
          } else if s.runningTurn.None? {
            SameEnded(s, s');
          }
        case Complete(k) =>
          if s.runningTurn.Some? {
            LastEnded(s, s');
          } else {
            SameEnded(s, s');
          }
        case _ =>
      }
    }
  }

  lemma SameEnded(s: State, s': State)
    requires AllEnded(s) && s'.bodies == s.bodies
    ensures AllEnded(s')
  {
    forall j: nat | IsTurn(s', j)
      ensures Ended(BodyOf(s', j))
    {
      assert BodyOf(s', j) == BodyOf(s, j) && IsTurn(s, j);
    }
  }

  lemma LastEnded(s: State, s': State)
    requires InTurn(s) && s.turnId >= 1 && Ended(BodyOf(s, s.turnId)) && s'.bodies == s.bodies
    ensures AllEnded(s')
  {
    forall j: nat | IsTurn(s', j)
      ensures Ended(BodyOf(s', j))
    {
      assert IsTurn(s, j) && BodyOf(s', j) == BodyOf(s, j);
      assert j < s.turnId || j == s.turnId;
    }
  }

  /** In runs of sends and retries, with harmless cancels at most, bodies run one at a time, in the
      order of their turns. */
  lemma {:induction false} SendsRunInOrder(states: seq<State>, actions: seq<Action>, n: nat)
    requires Run(states, actions) && n < |states|
    requires forall k :: 0 <= k < |actions| ==> Harmless(states[k], actions[k])
    ensures AtRest(states[n]) && !Overlap(states[n])
  {
    hide InTurn, AllEnded;
    if n > 0 {
      SendsRunInOrder(states, actions, n - 1);
      StepKeepsRest(states[n - 1], actions[n - 1]);
    } else {
      NothingRuns();
    }
    OneAtATime(states[n]);
  }

  /** A bare cancel forgets the turn it cancels, so that the next turn does not wait for it: two
      bodies run at the same time. */
  lemma CancelLetsTurnsOverlap()
    ensures exists states: seq<State>, actions: seq<Action> ::
              Run(states, actions) && |states| == 6 && |states[5].bodies| == 2
              && states[5].bodies[0].Running? && states[5].bodies[1].Running?
  {
    var actions := [Send, Start(1), Cancel(false), Send, Start(2)];
    var s1 := Step(Initial, Send);
    var s2 := Step(s1, Start(1));
    var s3 := Step(s2, Cancel(false));
    var s4 := Step(s3, Send);
    var s5 := Step(s4, Start(2));
    var states := [Initial, s1, s2, s3, s4, s5];
    assert Run(states, actions);
    assert s5.bodies[0].Running? && s5.bodies[1].Running?;
  }

  // ------------------------------------------------------------------ the thread

  class AcpThread {
    var turnId: nat
    var runningTurn: Option<nat>
    var bodies: seq<Body>
    var completed: set<nat>

    function Now(): State
      reads this
    {
      State(turnId, runningTurn, bodies, completed)
    }

    constructor ()
      ensures Now() == Initial && NewestRuns(Now())
    {
      turnId, runningTurn, bodies, completed := 0, None, [], {};
    }

    /** The part of `cancel` that concerns turns: takes the running turn and hands out its task. */
    method TakeRunningTurn() returns (task: Option<nat>)
      modifies this`runningTurn
      ensures task == old(runningTurn) && runningTurn == None
    {
      task := runningTurn;
      runningTurn := None;
    }

    /** `run_turn` up to the point where the new task is spawned. */
    method RunTurn()
      requires NewestRuns(Now())
      modifies this
      ensures Now() == Step(old(Now()), Send) && NewestRuns(Now())
    {
      StepKeepsNewest(Now(), Send);
      var cancelTask := TakeRunningTurn();
      turnId := turnId + 1;
      bodies := bodies + [Waiting(cancelTask)];
      runningTurn := Some(turnId);
    }

    /** `cancel`, called for itself; the caller may drop the task it gets, and with it all it waits for. */
    method CancelTurn(dropped: bool)
      requires NewestRuns(Now())
      modifies this
      ensures Now() == Step(old(Now()), Cancel(dropped)) && NewestRuns(Now())
    {
      StepKeepsNewest(Now(), Cancel(dropped));
      var task := TakeRunningTurn();
      ghost var before := bodies;
      while dropped && task.Some? && 1 <= task.value <= |bodies| && !Ended(bodies[task.value - 1])
        invariant dropped && task.Some? ==> DropBody(bodies, task.value) == DropBody(before, old(runningTurn).value)
        invariant dropped && task.None? && old(runningTurn).Some? ==> bodies == DropBody(before, old(runningTurn).value)
        invariant !dropped || old(runningTurn).None? ==> bodies == before
        invariant task.Some? ==> old(runningTurn).Some?
        decreases if task.Some? then task.value + 1 else 0
        modifies this`bodies
      {
        var k := task.value;
        task := if bodies[k - 1].Waiting? && bodies[k - 1].on.Some? && bodies[k - 1].on.value < k
          then bodies[k - 1].on else None;
        bodies := bodies[k - 1 := Dropped];
      }
    }

    /** What `run_turn` does when the response of turn `k` has arrived. */
    method HandleResponse(k: nat)
      requires NewestRuns(Now()) && Enabled(Now(), Complete(k))
      modifies this
      ensures Now() == Step(old(Now()), Complete(k)) && NewestRuns(Now())
    {
      StepKeepsNewest(Now(), Complete(k));
      var isSameTurn := runningTurn == Some(k);
      if isSameTurn {
        var task := TakeRunningTurn();
      }
      completed := completed + {k};
    }
  }
}
