/** The player's bird: vertical motion under gravity with a terminal fall
    speed, a ceiling at y = 0, a resting height on the ground once the game
    is over, and the flap impulse. */
module Birds {
  import opened Geometry

  const Gravity: real := 1700.0
  const FlapSpeed: real := 600.0
  const MaxFallSpeed: real := 750.0

  /** Top edge of a bird of height `h` lying on the ground strip (the ground
      is 60 pixels tall; the factor 1.04 seats the drawn circle on it). */
  function RestHeight(h: real): real
  {
    (CanvasHeight - 60) as real - h * 1.04
  }

  /** The bird's observable state. */
  datatype BirdState = BirdState(rect: Rect, velocity: Vec2)

  /** One frame of bird motion, `delta` seconds long: gravity capped by the
      terminal fall speed, then a semi-implicit Euler step of the position
      with the NEW velocity, the ceiling clamp, and (after game over) the
      ground clamp. */
  function Moved(b: BirdState, delta: real, gameOver: bool): (r: BirdState)
    ensures r.velocity.y <= MaxFallSpeed
    ensures r.velocity.y <= b.velocity.y + Gravity * delta
    ensures r.velocity.y < b.velocity.y + Gravity * delta ==> r.velocity.y == MaxFallSpeed
    ensures r.velocity.x == b.velocity.x && r.rect.size == b.rect.size
    ensures r.rect.position.x == b.rect.position.x + b.velocity.x * delta
    // Position: the Euler step lands at `raw`; the ceiling clamps it to 0
    // and, once the game is over, the ground clamps it to the rest height.
    ensures var raw := b.rect.position.y + r.velocity.y * delta;
      && (!gameOver ==> r.rect.position.y == if raw >= 0.0 then raw else 0.0)
      && (gameOver && 0.0 <= raw <= RestHeight(b.rect.size.y) ==> r.rect.position.y == raw)
      && (gameOver && raw > RestHeight(b.rect.size.y) ==> r.rect.position.y == RestHeight(b.rect.size.y))
      && (gameOver && raw < 0.0 && RestHeight(b.rect.size.y) >= 0.0 ==> r.rect.position.y == 0.0)
      && (gameOver && RestHeight(b.rect.size.y) < 0.0 ==> r.rect.position.y == RestHeight(b.rect.size.y))
    ensures !gameOver ==> r.rect.position.y >= 0.0
    ensures gameOver ==> r.rect.position.y <= RestHeight(b.rect.size.y)
    ensures gameOver && RestHeight(b.rect.size.y) >= 0.0 ==> r.rect.position.y >= 0.0
  {
    var vy := MinReal(MaxFallSpeed, b.velocity.y + Gravity * delta);
    var y := MaxReal(0.0, b.rect.position.y + vy * delta);
    var y' := if gameOver then MinReal(y, RestHeight(b.rect.size.y)) else y;
    BirdState(Rect(Vec2(b.rect.position.x + b.velocity.x * delta, y'), b.rect.size), Vec2(b.velocity.x, vy))
  }

  /** A flap replaces the vertical velocity by the upward flap speed, whatever
      it was; nothing else changes. */
  function Flapped(b: BirdState): (r: BirdState)
    ensures r.velocity.y == -FlapSpeed < 0.0
    ensures r.rect == b.rect && r.velocity.x == b.velocity.x
  {
    b.(velocity := b.velocity.(y := -FlapSpeed))
  }

  /** Whatever the frames and their lengths, a bird that never flaps never
      falls faster than the terminal speed, before game over never rises
      above the ceiling, and after game over stays between the ceiling and
      its resting height. */
  lemma {:induction false} FallSpeedCapped(b: BirdState, deltas: seq<real>, gameOver: bool)
    requires |deltas| > 0
    ensures Fall(b, deltas, gameOver).velocity.y <= MaxFallSpeed
    ensures !gameOver ==> Fall(b, deltas, gameOver).rect.position.y >= 0.0
    ensures gameOver ==> Fall(b, deltas, gameOver).rect.position.y <= RestHeight(b.rect.size.y)
    ensures gameOver && RestHeight(b.rect.size.y) >= 0.0 ==> Fall(b, deltas, gameOver).rect.position.y >= 0.0
    ensures Fall(b, deltas, gameOver).rect.size == b.rect.size
    decreases |deltas|
  {
    if |deltas| > 1 {
      FallSpeedCapped(Moved(b, deltas[0], gameOver), deltas[1..], gameOver);
    }
  }

  /** The bird after a run of frames with no flap. */
  function Fall(b: BirdState, deltas: seq<real>, gameOver: bool): BirdState
    decreases |deltas|
  {
    if deltas == [] then b else Fall(Moved(b, deltas[0], gameOver), deltas[1..], gameOver)
  }

  class Bird {
    var rect: Rect
    var velocity: Vec2

    function State(): BirdState
      reads this
    {
      BirdState(rect, velocity)
    }

    /** A bird as default-initialised: everything zero. */
    constructor ()
      ensures State() == BirdState(Rect(Origin, Origin), Origin)
    {
      rect := Rect(Origin, Origin);
      velocity := Origin;
    }

    method Move(delta: real, gameOver: bool)
      modifies this
      ensures State() == Moved(old(State()), delta, gameOver)
    {
      ghost var after := Moved(State(), delta, gameOver);
      velocity := velocity.(y := MinReal(MaxFallSpeed, velocity.y + Gravity * delta));
      rect := rect.(position := rect.position.(x := rect.position.x + velocity.x * delta));
      rect := rect.(position := rect.position.(y := MaxReal(0.0, rect.position.y + velocity.y * delta)));
      if gameOver {
        rect := rect.(position := rect.position.(y := MinReal(rect.position.y, RestHeight(rect.size.y))));
      }
      assert velocity == after.velocity;
      assert rect == after.rect;
    }

    method Flap()
      modifies this
      ensures State() == Flapped(old(State()))
    {
      velocity := velocity.(y := -FlapSpeed);
    }
  }
}
