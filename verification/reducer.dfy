/** The game's reducer: one step of the fold that turns the previous state and
    an event into the next state. */
module Reducer {
  import opened Entities
  import opened Physics

  /** Whether the previous tick found the frog on some goal zone: the negation
      of "every target's flag is false". */
  function AnyFrogOn(ts: seq<Target>): (on: bool)
    ensures on <==> exists i :: 0 <= i < |ts| && ts[i].frogOn
  {
    var on := !(forall t :: t in ts ==> t.frogOn == false);
    assert on ==> exists i :: 0 <= i < |ts| && ts[i].frogOn by {
      if on {
        var t :| t in ts && t.frogOn;
        var i :| 0 <= i < |ts| && ts[i] == t;
      }
    }
    on
  }

  /** How far a log moves the frog riding it in one tick. */
  function Velocity(l: Log): real
  {
    l.speed * l.direction
  }

  /** Where a log carries the frog in one tick: by the log's velocity, but
      only while the frog's centre is strictly inside the log. */
  function Ride(f: Frog, l: Log): (x: real)
    ensures x == f.x || x == f.x + Velocity(l)
    ensures l.x < f.x < l.x + l.width ==> x == f.x + Velocity(l)
    ensures !(l.x < f.x < l.x + l.width) ==> x == f.x
  {
    if f.x > l.x && f.x < l.x + l.width then f.x + Velocity(l) else f.x
  }

  /** The frog's x after one tick on the river: the first log it collides
      with, in list order, decides, and with no such log x stays put. */
  function CarriedX(f: Frog, logs: seq<Log>): (x: real)
    ensures (forall i :: 0 <= i < |logs| ==> !Collided(f, logs[i].Footprint())) ==> x == f.x
    ensures forall i :: IsFirstHit(f, logs, i) ==> x == Ride(f, logs[i])
  {
    var onLog := Colliding(f, logs);
    assert (forall i :: 0 <= i < |logs| ==> !Collided(f, logs[i].Footprint())) ==> |onLog| == 0 by {
      if |onLog| > 0 {
        var k :| IsFirstHit(f, logs, k) && onLog[0] == logs[k];
      }
    }
    assert forall i :: IsFirstHit(f, logs, i) ==> |onLog| > 0 && onLog[0] == logs[i] by {
      forall i | IsFirstHit(f, logs, i)
        ensures |onLog| > 0 && onLog[0] == logs[i]
      {
        assert logs[i] in onLog;
        var k :| IsFirstHit(f, logs, k) && onLog[0] == logs[k];
        FirstHitUnique(f, logs, i, k);
      }
    }
    if |onLog| > 0 then Ride(f, onLog[0]) else f.x
  }

  /** Every goal flag lowered, all else kept. */
  function ClearTargets(ts: seq<Target>): (r: seq<Target>)
    ensures |r| == |ts|
    ensures forall i :: 0 <= i < |ts| ==> r[i] == ts[i].(frogOn := false)
  {
    seq(|ts|, i requires 0 <= i < |ts| => ts[i].(frogOn := false))
  }

  /** Each goal flag set to whether the frog collides with that goal zone. */
  function MarkTargets(f: Frog, ts: seq<Target>): (r: seq<Target>)
    ensures |r| == |ts|
    ensures forall i :: 0 <= i < |ts| ==> r[i] == ts[i].(frogOn := Collided(f, ts[i].Footprint()))
  {
    seq(|ts|, i requires 0 <= i < |ts| => ts[i].(frogOn := Collided(f, ts[i].Footprint())))
  }

  /** The game is lost when the frog collides with a car, or when it is in the
      river band and collides with no log. */
  function GameOverAfter(f: Frog, cars: seq<Car>, logs: seq<Log>): (over: bool)
    ensures over <==>
      (exists i :: 0 <= i < |cars| && Collided(f, cars[i].Footprint()))
      || (IsOnRiver(f) && forall i :: 0 <= i < |logs| ==> !Collided(f, logs[i].Footprint()))
  {
    |Colliding(f, cars)| > 0 || (IsOnRiver(f) && !(|Colliding(f, logs)| > 0))
  }

  /** Both states hold the same cars, logs and goal zones, with the same
      ids, rows, widths, directions and speeds; only positions along a lane
      and goal flags may differ. */
  predicate SameRoster(s: State, r: State)
  {
    && |r.cars| == |s.cars| && |r.logs| == |s.logs| && |r.targets| == |s.targets|
    && (forall i :: 0 <= i < |s.cars| ==> r.cars[i] == s.cars[i].(x := r.cars[i].x))
    && (forall i :: 0 <= i < |s.logs| ==> r.logs[i] == s.logs[i].(x := r.logs[i].x))
    && (forall i :: 0 <= i < |s.targets| ==> r.targets[i] == s.targets[i].(frogOn := r.targets[i].frogOn))
  }

  /** A timer tick. Everything it decides is read from the previous state:
      whether a goal was reached, what the frog collides with, and whether
      the game is lost. Cars and logs move on every tick, a goal-reset tick
      included. */
  function TickStep(s: State, elapsed: int): (r: State)
    ensures r.time == elapsed
    ensures SameRoster(s, r)
    ensures forall i :: 0 <= i < |s.cars| ==> r.cars[i] == MoveObj(s.cars[i])
    ensures forall i :: 0 <= i < |s.logs| ==> r.logs[i] == MoveObj(s.logs[i])
    ensures r.frog == s.frog.(x := r.frog.x, y := r.frog.y)
    ensures r.gameOver <==>
      (exists i :: 0 <= i < |s.cars| && Collided(s.frog, s.cars[i].Footprint()))
      || (IsOnRiver(s.frog) && forall i :: 0 <= i < |s.logs| ==> !Collided(s.frog, s.logs[i].Footprint()))
    // Goal-reset law.
    ensures (exists i :: 0 <= i < |s.targets| && s.targets[i].frogOn) ==>
      && r.frog.x == FROG_START_X && r.frog.y == FROG_START_Y
      && r.score == s.score + GOAL_BONUS
      && forall i :: 0 <= i < |r.targets| ==> !r.targets[i].frogOn
    // Otherwise: no score, goal flags recomputed from the previous frog, and
    // the frog stays on its row while the log it is on carries it.
    ensures (forall i :: 0 <= i < |s.targets| ==> !s.targets[i].frogOn) ==>
      && r.score == s.score
      && r.frog.y == s.frog.y
      && r.frog.x == CarriedX(s.frog, s.logs)
      && forall i :: 0 <= i < |s.targets| ==> r.targets[i].frogOn == Collided(s.frog, s.targets[i].Footprint())
  {
    var reached := AnyFrogOn(s.targets);
    s.(
      time := elapsed,
      frog := if reached then s.frog.(x := FROG_START_X, y := FROG_START_Y)
              else s.frog.(x := CarriedX(s.frog, s.logs)),
      cars := MoveAll(s.cars),
      logs := MoveAll(s.logs),
      targets := if reached then ClearTargets(s.targets) else MarkTargets(s.frog, s.targets),
      gameOver := GameOverAfter(s.frog, s.cars, s.logs),
      score := if reached then s.score + GOAL_BONUS else s.score)
  }

  /** A keyboard move. The frog's x is always kept on the 600-unit canvas,
      landing on x = 20 or x = 580 when the move would leave it; a vertical
      move that would leave the canvas is ignored. Nothing but the frog's
      position changes. */
  function MoveStep(s: State, dx: real, dy: real): (r: State)
    ensures r == s.(frog := r.frog)
    ensures r.frog == s.frog.(x := r.frog.x, y := r.frog.y)
    ensures 0.0 <= r.frog.x <= 600.0
    ensures s.frog.x + dx < 0.0 ==> r.frog.x == 20.0
    ensures s.frog.x + dx > 600.0 ==> r.frog.x == 580.0
    ensures 0.0 <= s.frog.x + dx <= 600.0 ==> r.frog.x == s.frog.x + dx
    ensures 0.0 <= s.frog.y + dy <= 600.0 ==> r.frog.y == s.frog.y + dy
    ensures !(0.0 <= s.frog.y + dy <= 600.0) ==> r.frog.y == s.frog.y
    ensures 0.0 <= s.frog.y <= 600.0 ==> 0.0 <= r.frog.y <= 600.0
  {
    s.(frog := s.frog.(
      x := if s.frog.x + dx < 0.0 then 20.0 else if s.frog.x + dx > 600.0 then 580.0 else s.frog.x + dx,
      y := if s.frog.y + dy < 0.0 || s.frog.y + dy > 600.0 then s.frog.y else s.frog.y + dy))
  }

  /** One step of the fold: ticks and moves as above, and any other event
      leaves the state as it was. */
  function ReduceState(s: State, e: Event): (r: State)
    ensures e.Other? ==> r == s
    ensures e.Move? ==> r == s.(frog := r.frog)
    ensures SameRoster(s, r)
    ensures r.score == s.score || r.score == s.score + GOAL_BONUS
    ensures r.score != s.score ==> e.Tick? && r.frog.x == FROG_START_X && r.frog.y == FROG_START_Y
  {
    match e
    case Tick(elapsed) => TickStep(s, elapsed)
    case Move(dx, dy) => MoveStep(s, dx, dy)
    case Other => s
  }

  /** Drowning: a frog in the river band that no log is under loses the game
      on the next tick. */
  lemma DrownsWithoutLog(s: State, elapsed: int)
    requires IsOnRiver(s.frog)
    requires forall i :: 0 <= i < |s.logs| ==> !Collided(s.frog, s.logs[i].Footprint())
    ensures ReduceState(s, Tick(elapsed)).gameOver
  {
  }

  /** Safe crossing, part one: a frog on a log that no car touches survives
      the tick. */
  lemma SafeOnLog(s: State, elapsed: int, i: int)
    requires 0 <= i < |s.logs| && Collided(s.frog, s.logs[i].Footprint())
    requires forall c :: 0 <= c < |s.cars| ==> !Collided(s.frog, s.cars[c].Footprint())
    ensures !ReduceState(s, Tick(elapsed)).gameOver
  {
    assert !(exists c :: 0 <= c < |s.cars| && Collided(s.frog, s.cars[c].Footprint()));
  }

  /** Safe crossing, part two: on a tick with no goal reached, a frog whose
      first colliding log lies strictly under its centre rides that log. */
  lemma RidesLog(s: State, elapsed: int, i: int)
    requires forall t :: 0 <= t < |s.targets| ==> !s.targets[t].frogOn
    requires IsFirstHit(s.frog, s.logs, i)
    requires s.logs[i].x < s.frog.x < s.logs[i].x + s.logs[i].width
    ensures ReduceState(s, Tick(elapsed)).frog.x == s.frog.x + Velocity(s.logs[i])
    ensures ReduceState(s, Tick(elapsed)).frog.y == s.frog.y
  {
    var r := TickStep(s, elapsed);
    assert r.frog.x == CarriedX(s.frog, s.logs) && r.frog.y == s.frog.y;
    assert CarriedX(s.frog, s.logs) == Ride(s.frog, s.logs[i]);
  }

  /** Collision: touching any car loses the game on the next tick. */
  lemma HitByCar(s: State, elapsed: int, c: int)
    requires 0 <= c < |s.cars| && Collided(s.frog, s.cars[c].Footprint())
    ensures ReduceState(s, Tick(elapsed)).gameOver
  {
  }
}
