/** What holds of every state the game can reach: the fold of the reducer
    over the timer and keyboard streams, starting from the initial state. */
module Reachability {
  import opened Entities
  import opened Controls
  import opened Physics
  import opened Reducer

  /** The events the two streams deliver: timer ticks, and the moves the
      arrow keys ask for. */
  predicate StreamEvent(e: Event)
  {
    e.Tick? || IsKeyMove(e)
  }

  /** The state after folding the reducer over `es`, oldest event first.
      The fold keeps the cast of cars, logs and goal zones and never lowers
      the score. */
  function Run(s: State, es: seq<Event>): (r: State)
    ensures SameRoster(s, r)
    ensures r.score >= s.score
    decreases |es|
  {
    if |es| == 0 then s
    else
      var next := ReduceState(s, es[0]);
      var r := Run(next, es[1..]);
      SameRosterTransitive(s, next, r);
      r
  }

  lemma SameRosterTransitive(a: State, b: State, c: State)
    requires SameRoster(a, b) && SameRoster(b, c)
    ensures SameRoster(a, c)
  {
  }

  /** Every body has a non-negative width and speed and is within its
      lane's range. */
  predicate LaneBound(bs: seq<Body>)
  {
    forall i :: 0 <= i < |bs| ==> bs[i].width >= 0.0 && bs[i].speed >= 0.0 && InLane(bs[i])
  }

  /** The invariant relative to a starting state `base`: the cars, logs and
      goal zones of `base` with only lane positions and goal flags changed,
      every body within its lane's range, the same frog on a grid row, and a
      score that is a whole number of bonuses. */
  ghost predicate InvFrom(base: State, s: State)
  {
    && SameRoster(base, s)
    && s.frog.id == base.frog.id && s.frog.r == base.frog.r
    && OnGrid(s.frog.y)
    && s.score >= 0 && s.score % GOAL_BONUS == 0
    && LaneBound(s.cars) && LaneBound(s.logs)
  }

  /** The invariant of states reachable from the start of the game. */
  ghost predicate Inv(s: State)
  {
    InvFrom(InitialState(), s)
  }

  lemma InitialStateInv()
    ensures Inv(InitialState())
  {
  }

  /** The four initial logs sit on the four river rows, top to bottom. */
  lemma InitialLogRows()
    ensures |InitialState().logs| == 4
    ensures InitialState().logs[0].y + 20.0 == 220.0
    ensures InitialState().logs[1].y + 20.0 == 260.0
    ensures InitialState().logs[2].y + 20.0 == 300.0
    ensures InitialState().logs[3].y + 20.0 == 340.0
  {
  }

  /** A keyboard move keeps the frog on the grid. */
  lemma KeyMoveStaysOnGrid(s: State, e: Event)
    requires OnGrid(s.frog.y) && IsKeyMove(e)
    ensures OnGrid(ReduceState(s, e).frog.y)
  {
  }

  /** Moving every body one tick keeps each within its lane's range. */
  lemma MoveAllKeepsLaneBound(bs: seq<Body>)
    requires LaneBound(bs)
    ensures LaneBound(MoveAll(bs))
  {
    forall i | 0 <= i < |bs|
      ensures InLane(MoveAll(bs)[i])
    {
      MoveObjStaysInLane(bs[i]);
    }
  }

  /** Any event keeps the score a non-negative whole number of bonuses. */
  lemma StepKeepsScoreWhole(s: State, e: Event)
    requires s.score >= 0 && s.score % GOAL_BONUS == 0
    ensures ReduceState(s, e).score >= 0 && ReduceState(s, e).score % GOAL_BONUS == 0
  {
    BonusKeepsWhole(s.score, ReduceState(s, e).score);
  }

  lemma BonusKeepsWhole(n: int, m: int)
    requires n >= 0 && n % GOAL_BONUS == 0
    requires m == n || m == n + GOAL_BONUS
    ensures m >= 0 && m % GOAL_BONUS == 0
  {
  }

  /** A tick keeps the frog, with its id and radius, on a grid row: it either
      stays on its row or goes back to the start row. */
  lemma TickKeepsFrogOnGrid(s: State, elapsed: int)
    requires OnGrid(s.frog.y)
    ensures OnGrid(ReduceState(s, Tick(elapsed)).frog.y)
    ensures ReduceState(s, Tick(elapsed)).frog.id == s.frog.id
    ensures ReduceState(s, Tick(elapsed)).frog.r == s.frog.r
    ensures ReduceState(s, Tick(elapsed)).frog.y == s.frog.y
      || ReduceState(s, Tick(elapsed)).frog.y == FROG_START_Y
  {
    var r := TickStep(s, elapsed);
    assert r.frog.y == s.frog.y || r.frog.y == FROG_START_Y;
  }

  /** A tick preserves the invariant. */
  lemma TickKeepsInv(base: State, s: State, elapsed: int)
    requires InvFrom(base, s)
    ensures InvFrom(base, ReduceState(s, Tick(elapsed)))
  {
    var r := ReduceState(s, Tick(elapsed));
    SameRosterTransitive(base, s, r);
    MoveAllKeepsLaneBound(s.cars);
    MoveAllKeepsLaneBound(s.logs);
    assert r.cars == MoveAll(s.cars) && r.logs == MoveAll(s.logs);
    StepKeepsScoreWhole(s, Tick(elapsed));
    TickKeepsFrogOnGrid(s, elapsed);
  }

  /** A keyboard move preserves the invariant. */
  lemma MoveKeepsInv(base: State, s: State, e: Event)
    requires InvFrom(base, s) && IsKeyMove(e)
    ensures InvFrom(base, ReduceState(s, e))
  {
    KeyMoveStaysOnGrid(s, e);
    StepKeepsScoreWhole(s, e);
  }

  /** Each stream event preserves the invariant. */
  lemma StepKeepsInv(base: State, s: State, e: Event)
    requires InvFrom(base, s) && StreamEvent(e)
    ensures InvFrom(base, ReduceState(s, e))
  {
    if e.Tick? {
      TickKeepsInv(base, s, e.elapsed);
    } else {
      MoveKeepsInv(base, s, e);
    }
  }

  /** Folding any sequence of stream events preserves the invariant. */
  lemma {:induction false} RunKeepsInv(base: State, s: State, es: seq<Event>)
    requires InvFrom(base, s)
    requires forall i :: 0 <= i < |es| ==> StreamEvent(es[i])
    ensures InvFrom(base, Run(s, es))
    decreases |es|
  {
    if |es| > 0 {
      StepKeepsInv(base, s, es[0]);
      RunKeepsInv(base, ReduceState(s, es[0]), es[1..]);
    }
  }

  /** Along any sequence of events a score that starts as a whole number of
      bonuses stays one; that it never decreases is `Run`'s own contract. */
  lemma {:induction false} RunScoreMonotone(s: State, es: seq<Event>)
    ensures s.score >= 0 && s.score % GOAL_BONUS == 0 ==> Run(s, es).score % GOAL_BONUS == 0
    decreases |es|
  {
    if |es| > 0 {
      if s.score >= 0 && s.score % GOAL_BONUS == 0 {
        StepKeepsScoreWhole(s, es[0]);
      }
      RunScoreMonotone(ReduceState(s, es[0]), es[1..]);
    }
  }

  /** From the start of the game, the frog is always on one of the fifteen
      grid rows; whenever it is in the river band, its row is one a log's
      collision test can match; and there are always four cars, four logs and
      three goal zones, each keeping its id. */
  lemma ReachableFrogRows(es: seq<Event>)
    requires forall i :: 0 <= i < |es| ==> StreamEvent(es[i])
    ensures OnGrid(Run(InitialState(), es).frog.y)
    ensures IsOnRiver(Run(InitialState(), es).frog) ==>
      exists i :: 0 <= i < |Run(InitialState(), es).logs|
        && Run(InitialState(), es).logs[i].y + 20.0 == Run(InitialState(), es).frog.y
    ensures SameRoster(InitialState(), Run(InitialState(), es))
  {
    var init := InitialState();
    InitialStateInv();
    RunKeepsInv(init, init, es);
    var s := Run(init, es);
    InitialLogRows();
    RiverRows(s.frog);
    assert forall i :: 0 <= i < 4 ==> s.logs[i].y == init.logs[i].y;
  }
}
