/** Keyboard handling: which key names are moves, and the displacement each
    one asks for. */
module Controls {
  import opened Entities

  /** True exactly for the four arrow keys. */
  function IsMoveKey(k: string): (ok: bool)
    ensures ok <==> k in {"ArrowUp", "ArrowDown", "ArrowLeft", "ArrowRight"}
    ensures ok ==> "Arrow" <= k
  {
    k == "ArrowUp" || k == "ArrowDown" || k == "ArrowLeft" || k == "ArrowRight"
  }

  /** The move a key asks for. Any key that is not Up, Down or Left falls
      through to a move to the right, as in the game; the keyboard stream only
      ever passes arrow keys here. */
  function NewMove(k: string): (e: Event)
    ensures e.Move?
    ensures (e.dx == 0.0) != (e.dy == 0.0)
    ensures e.dx == 0.0 ==> e.dy == FROG_MOVE_DIST || e.dy == -FROG_MOVE_DIST
    ensures e.dy == 0.0 ==> e.dx == FROG_MOVE_DIST || e.dx == -FROG_MOVE_DIST
    ensures k == "ArrowUp" ==> e.dy < 0.0
    ensures k == "ArrowDown" ==> e.dy > 0.0
    ensures k == "ArrowLeft" ==> e.dx < 0.0
    ensures k == "ArrowRight" ==> e.dx > 0.0
    ensures !IsMoveKey(k) ==> e == Move(FROG_MOVE_DIST, 0.0)
  {
    if k == "ArrowUp" then Move(0.0, -FROG_MOVE_DIST)
    else if k == "ArrowDown" then Move(0.0, FROG_MOVE_DIST)
    else if k == "ArrowLeft" then Move(-FROG_MOVE_DIST, 0.0)
    else Move(FROG_MOVE_DIST, 0.0)
  }

  /** The move events the keyboard can produce. */
  predicate IsKeyMove(e: Event)
  {
    e == Move(0.0, -FROG_MOVE_DIST) || e == Move(0.0, FROG_MOVE_DIST)
    || e == Move(-FROG_MOVE_DIST, 0.0) || e == Move(FROG_MOVE_DIST, 0.0)
  }

  /** The arrow key that asks for a given move: the inverse of `NewMove`. */
  function KeyOf(e: Event): (k: string)
    requires IsKeyMove(e)
    ensures IsMoveKey(k)
  {
    if e.dy < 0.0 then "ArrowUp"
    else if e.dy > 0.0 then "ArrowDown"
    else if e.dx < 0.0 then "ArrowLeft"
    else "ArrowRight"
  }

  /** Each arrow key has its own move, and the key can be read back from it. */
  lemma {:induction false} NewMoveRoundTrip(k: string)
    requires IsMoveKey(k)
    ensures IsKeyMove(NewMove(k))
    ensures KeyOf(NewMove(k)) == k
  {
  }

  /** Every keyboard move comes from exactly the arrow key `KeyOf` names. */
  lemma {:induction false} KeyOfRoundTrip(e: Event)
    requires IsKeyMove(e)
    ensures NewMove(KeyOf(e)) == e
  {
  }

  /** The four arrow keys ask for four different moves. */
  lemma NewMoveInjective(k1: string, k2: string)
    requires IsMoveKey(k1) && IsMoveKey(k2)
    ensures NewMove(k1) == NewMove(k2) <==> k1 == k2
  {
    NewMoveRoundTrip(k1);
    NewMoveRoundTrip(k2);
  }
}
