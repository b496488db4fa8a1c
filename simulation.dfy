/** The game as a value: the bird, the two pools of three pipes (upper and
    lower, slot i of each forming one pair), the score and the two phase
    flags. Each function here is one step of the game's frame update or of
    its input handling; the class `Games.Game` is proved to perform them in
    place. */
module Simulation {
  import opened Geometry
  import opened Birds
  import opened Pipes

  const PoolSize: nat := 3
  /** Horizontal spacing between consecutive pairs. */
  const PipeDistance: int := 270
  const PipeHeight: int := 480
  const PipeWidth: real := 60.0
  /** Largest vertical offset of a gap centre from the middle of the field. */
  const MaxOffset: int := 160
  const MinGap: int := 120
  const MaxGap: int := 160

  /** The ground strip along the bottom of the field. */
  const Ground := Rect(Vec2(0.0, (CanvasHeight - 60) as real), Vec2(CanvasWidth as real, 60.0))

  /** The two integers drawn from the random generator to place one pair:
      the gap centre's offset from mid-field and the gap size. */
  datatype Draw = Draw(offset: int, gap: int)

  /** The generator's integer draw between `lo` and `hi` includes `lo` and
      excludes `hi`. */
  predicate DrawInRange(d: Draw)
  {
    -MaxOffset <= d.offset < MaxOffset && MinGap <= d.gap < MaxGap
  }

  datatype World = World(
    bird: BirdState,
    upper: seq<Pipe>,
    lower: seq<Pipe>,
    score: int,
    gameOver: bool,
    startPipes: bool)

  predicate WellFormed(w: World)
  {
    |w.upper| == PoolSize && |w.lower| == PoolSize
  }

  /** Integer halving as the program's integer division does it: the
      quotient is truncated toward zero. */
  function TruncHalf(n: int): (h: int)
    ensures n >= 0 ==> 0 <= n - 2 * h <= 1
    ensures n < 0 ==> -1 <= n - 2 * h <= 0
  {
    if n >= 0 then n / 2 else -((-n) / 2)
  }

  /** The state right after construction: the bird at 40% of the width and
      mid-height, 21 pixels square; default pipes; nothing started. */
  function Initial(): (w: World)
    ensures WellFormed(w)
    ensures w.score == 0 && !w.gameOver && !w.startPipes
    ensures w.bird.rect == Rect(Vec2(192.0, 360.0), Vec2(21.0, 21.0)) && w.bird.velocity == Origin
    ensures forall j :: 0 <= j < PoolSize ==>
              && !w.upper[j].spawned && !w.lower[j].spawned
              && !w.upper[j].addedToScore && !w.lower[j].addedToScore
              && w.upper[j].rect == Rect(Origin, Origin) && w.lower[j].rect == Rect(Origin, Origin)
              && w.upper[j].velocity == Origin && w.lower[j].velocity == Origin
  {
    World(
      BirdState(Rect(Vec2(CanvasWidth as real * 0.4, CanvasHeight as real * 0.5), Vec2(21.0, 21.0)), Origin),
      [DefaultPipe, DefaultPipe, DefaultPipe],
      [DefaultPipe, DefaultPipe, DefaultPipe],
      0, false, false)
  }

  // ---------------------------------------------------------------------
  // Placing a pair

  /** Slot k of both pools moved to the right edge around a gap of size
      `d.gap` centred `d.offset` below mid-field. Only the two positions of
      slot k change; the opening between the upper pipe's bottom edge and the
      lower pipe's top is twice the truncated half gap. */
  function Positioned(w: World, k: nat, d: Draw): (r: World)
    requires WellFormed(w) && k < PoolSize
    ensures WellFormed(r)
    ensures r == w.(upper := r.upper, lower := r.lower)
    ensures r.upper[k].rect.position.x == CanvasWidth as real
    ensures r.lower[k].rect.position.x == CanvasWidth as real
    ensures r.lower[k].rect.position.y - (r.upper[k].rect.position.y + PipeHeight as real) == (2 * TruncHalf(d.gap)) as real
    ensures r.upper[k] == w.upper[k].(rect := w.upper[k].rect.(position := r.upper[k].rect.position))
    ensures r.lower[k] == w.lower[k].(rect := w.lower[k].rect.(position := r.lower[k].rect.position))
    ensures forall j :: 0 <= j < PoolSize && j != k ==> r.upper[j] == w.upper[j] && r.lower[j] == w.lower[j]
  {
    var lowerY := CanvasHeight / 2 + d.offset + TruncHalf(d.gap);
    var upperY := CanvasHeight / 2 + d.offset - TruncHalf(d.gap) - PipeHeight;
    var u := w.upper[k];
    var l := w.lower[k];
    w.(upper := w.upper[k := u.(rect := u.rect.(position := Vec2(CanvasWidth as real, upperY as real)))],
       lower := w.lower[k := l.(rect := l.rect.(position := Vec2(CanvasWidth as real, lowerY as real)))])
  }

  /** With draws from the generator's ranges, the gap is centred within 160
      pixels of mid-field and is between 120 and 158 pixels tall. */
  lemma PlacedGapInRange(w: World, k: nat, d: Draw)
    requires WellFormed(w) && k < PoolSize && DrawInRange(d)
    ensures var r := Positioned(w, k, d);
      var top := r.upper[k].rect.position.y + PipeHeight as real;
      var bottom := r.lower[k].rect.position.y;
      && (top + bottom) / 2.0 == (CanvasHeight / 2 + d.offset) as real
      && (CanvasHeight / 2 - MaxOffset) as real <= (top + bottom) / 2.0 < (CanvasHeight / 2 + MaxOffset) as real
      && MinGap as real <= bottom - top < MaxGap as real
  {
  }

  // ---------------------------------------------------------------------
  // Game over

  /** Every pipe of a pool stopped horizontally. */
  function Halted(ps: seq<Pipe>): (r: seq<Pipe>)
    ensures |r| == |ps|
    ensures forall j :: 0 <= j < |ps| ==>
              && r[j].velocity.x == 0.0 && r[j].velocity.y == ps[j].velocity.y
              && r[j] == ps[j].(velocity := r[j].velocity)
  {
    seq(|ps|, j requires 0 <= j < |ps| => ps[j].(velocity := ps[j].velocity.(x := 0.0)))
  }

  /** Game over: the flag is set, the bird stops vertically and every pipe
      stops horizontally. No position, flag or score changes. */
  function Ended(w: World): (r: World)
    requires WellFormed(w)
    ensures WellFormed(r) && r.gameOver
    ensures r.bird.velocity.y == 0.0
    ensures r.bird.rect == w.bird.rect && r.bird.velocity.x == w.bird.velocity.x
    ensures r.score == w.score && r.startPipes == w.startPipes
    ensures forall j :: 0 <= j < PoolSize ==>
              && r.upper[j].velocity.x == 0.0 && r.lower[j].velocity.x == 0.0
              && r.upper[j] == w.upper[j].(velocity := r.upper[j].velocity)
              && r.lower[j] == w.lower[j].(velocity := r.lower[j].velocity)
              && r.upper[j].velocity.y == w.upper[j].velocity.y
              && r.lower[j].velocity.y == w.lower[j].velocity.y
  {
    w.(gameOver := true,
       bird := w.bird.(velocity := w.bird.velocity.(y := 0.0)),
       upper := Halted(w.upper),
       lower := Halted(w.lower))
  }

  /** Ending an ended game changes nothing further. */
  lemma EndedIdempotent(w: World)
    requires WellFormed(w)
    ensures Ended(Ended(w)) == Ended(w)
  {
  }

  // ---------------------------------------------------------------------
  // Recycling

  /** The body of the recycle loop for a slot i whose trigger fired: place
      the next pair at the right edge, mark slot i as having spawned, and
      clear both flags of the next upper pipe. */
  function RecycleSlot(w: World, i: nat, d: Draw): (r: World)
    requires WellFormed(w) && i < PoolSize
    ensures WellFormed(r)
    ensures r == w.(upper := r.upper, lower := r.lower)
    ensures r.upper[i] == w.upper[i].(spawned := true)
    ensures r.lower[i] == w.lower[i]
    ensures var next := (i + 1) % PoolSize;
      && r.upper[next] == w.upper[next].(spawned := false, addedToScore := false,
                                         rect := w.upper[next].rect.(position := r.upper[next].rect.position))
      && r.lower[next] == w.lower[next].(rect := w.lower[next].rect.(position := r.lower[next].rect.position))
      && r.upper[next].rect.position.x == CanvasWidth as real
      && r.lower[next].rect.position.x == CanvasWidth as real
      && r.lower[next].rect.position.y - (r.upper[next].rect.position.y + PipeHeight as real) == (2 * TruncHalf(d.gap)) as real
      && forall j :: 0 <= j < PoolSize && j != i && j != next ==> r.upper[j] == w.upper[j] && r.lower[j] == w.lower[j]
  {
    var next := (i + 1) % PoolSize;
    var placed := Positioned(w, next, d);
    var u := placed.upper[i := placed.upper[i].(spawned := true)];
    placed.(upper := u[next := u[next].(spawned := false, addedToScore := false)])
  }

  /** The recycle loop from slot i on; each slot that fires consumes the
      next draw. Only pipes change. */
  function RecycleFrom(w: World, i: nat, draws: seq<Draw>): (r: World)
    requires WellFormed(w) && i <= PoolSize && |draws| >= PoolSize - i
    ensures WellFormed(r)
    ensures r == w.(upper := r.upper, lower := r.lower)
    decreases PoolSize - i
  {
    if i == PoolSize then w
    else if w.upper[i].ShouldMoveNext(PipeDistance) then RecycleFrom(RecycleSlot(w, i, draws[0]), i + 1, draws[1..])
    else RecycleFrom(w, i + 1, draws)
  }

  /** After the recycle loop no upper pipe's trigger is pending: each slot
      has either fired (and is marked spawned) or did not fire, and a slot
      that a later iteration re-placed sits at the right edge, short of the
      trigger line. */
  lemma {:induction false} RecycleClearsTriggers(w: World, i: nat, draws: seq<Draw>)
    requires WellFormed(w) && i <= PoolSize && |draws| >= PoolSize - i
    requires forall j :: 0 <= j < i ==> !w.upper[j].ShouldMoveNext(PipeDistance)
    ensures forall j :: 0 <= j < PoolSize ==> !RecycleFrom(w, i, draws).upper[j].ShouldMoveNext(PipeDistance)
    decreases PoolSize - i
  {
    if i < PoolSize {
      if w.upper[i].ShouldMoveNext(PipeDistance) {
        RecycleClearsTriggers(RecycleSlot(w, i, draws[0]), i + 1, draws[1..]);
      } else {
        RecycleClearsTriggers(w, i + 1, draws);
      }
    }
  }

  /** Without a pending trigger the recycle loop changes nothing. */
  lemma {:induction false} NoTriggerNoRecycle(w: World, i: nat, draws: seq<Draw>)
    requires WellFormed(w) && i <= PoolSize && |draws| >= PoolSize - i
    requires forall j :: i <= j < PoolSize ==> !w.upper[j].ShouldMoveNext(PipeDistance)
    ensures RecycleFrom(w, i, draws) == w
    decreases PoolSize - i
  {
    if i < PoolSize {
      NoTriggerNoRecycle(w, i + 1, draws);
    }
  }

  /** The game with both flags of every lower pipe cleared. */
  function WithoutLowerFlags(w: World): (r: World)
    requires WellFormed(w)
    ensures WellFormed(r) && r == w.(lower := r.lower)
    ensures forall j :: 0 <= j < PoolSize ==>
              r.lower[j] == w.lower[j].(spawned := false, addedToScore := false)
  {
    w.(lower := seq(PoolSize, j requires 0 <= j < PoolSize => w.lower[j].(spawned := false, addedToScore := false)))
  }

  /** One firing of the recycle loop neither reads nor writes the lower
      pool's flags. */
  lemma RecycleSlotIgnoresLowerFlags(w: World, i: nat, d: Draw)
    requires WellFormed(w) && i < PoolSize
    ensures WithoutLowerFlags(RecycleSlot(w, i, d)) == RecycleSlot(WithoutLowerFlags(w), i, d)
    ensures forall j :: 0 <= j < PoolSize ==>
              && RecycleSlot(w, i, d).lower[j].spawned == w.lower[j].spawned
              && RecycleSlot(w, i, d).lower[j].addedToScore == w.lower[j].addedToScore
  {
    var l := WithoutLowerFlags(RecycleSlot(w, i, d));
    var r := RecycleSlot(WithoutLowerFlags(w), i, d);
    assert l.lower == r.lower;
  }

  /** The lower pool's flags are never read and never written by the
      recycle loop: clearing them before or after recycling gives the same
      game, and recycling keeps them as they were. */
  lemma {:induction false} RecycleIgnoresLowerFlags(w: World, i: nat, draws: seq<Draw>)
    requires WellFormed(w) && i <= PoolSize && |draws| >= PoolSize - i
    ensures WithoutLowerFlags(RecycleFrom(w, i, draws)) == RecycleFrom(WithoutLowerFlags(w), i, draws)
    ensures forall j :: 0 <= j < PoolSize ==>
              && RecycleFrom(w, i, draws).lower[j].spawned == w.lower[j].spawned
              && RecycleFrom(w, i, draws).lower[j].addedToScore == w.lower[j].addedToScore
    decreases PoolSize - i
  {
    if i < PoolSize {
      if w.upper[i].ShouldMoveNext(PipeDistance) {
        RecycleSlotIgnoresLowerFlags(w, i, draws[0]);
        RecycleIgnoresLowerFlags(RecycleSlot(w, i, draws[0]), i + 1, draws[1..]);
      } else {
        RecycleIgnoresLowerFlags(w, i + 1, draws);
      }
    }
  }

  // ---------------------------------------------------------------------
  // Scoring

  /** How many pipes of `ps` from index i on would score now: those not yet
      counted and left of the score line. */
  function CountScored(ps: seq<Pipe>, i: nat): (n: nat)
    requires i <= |ps|
    ensures n <= |ps| - i
    ensures n > 0 <==> exists j :: i <= j < |ps| && ps[j].UpdateScore().1
    decreases |ps| - i
  {
    if i == |ps| then 0
    else (if ps[i].UpdateScore().1 then 1 else 0) + CountScored(ps, i + 1)
  }

  /** The count only looks at the pipes from index i on. */
  lemma {:induction false} CountScoredAgree(ps: seq<Pipe>, qs: seq<Pipe>, i: nat)
    requires i <= |ps| == |qs|
    requires forall j :: i <= j < |ps| ==> ps[j] == qs[j]
    ensures CountScored(ps, i) == CountScored(qs, i)
    decreases |ps| - i
  {
    if i < |ps| {
      CountScoredAgree(ps, qs, i + 1);
    }
  }

  /** The scoring loop from slot i on, over the upper pool only: each upper
      pipe gets its scoring check and the score rises by exactly the number
      of upper pipes that score. */
  function ScoreFrom(w: World, i: nat): (r: World)
    requires WellFormed(w) && i <= PoolSize
    ensures WellFormed(r)
    ensures r == w.(upper := r.upper, score := r.score)
    ensures w.score <= r.score <= w.score + (PoolSize - i)
    ensures forall j :: 0 <= j < i ==> r.upper[j] == w.upper[j]
    ensures forall j :: i <= j < PoolSize ==> r.upper[j] == w.upper[j].UpdateScore().0
    ensures r.score > w.score ==> exists j :: i <= j < PoolSize && w.upper[j].UpdateScore().1
    decreases PoolSize - i
  {
    if i == PoolSize then w else ScoreFrom(ScoreSlot(w, i), i + 1)
  }

  /** The scoring loop raises the score by exactly the number of upper
      pipes from slot i on that score. */
  lemma {:induction false} ScoreFromCounts(w: World, i: nat)
    requires WellFormed(w) && i <= PoolSize
    ensures ScoreFrom(w, i).score == w.score + CountScored(w.upper, i)
    decreases PoolSize - i
  {
    if i < PoolSize {
      var s := ScoreSlot(w, i);
      CountScoredAgree(s.upper, w.upper, i + 1);
      ScoreFromCounts(s, i + 1);
    }
  }

  /** One iteration of the scoring loop, with the checked pipe and whether
      it scored. */
  lemma ScoreFromUnfold(w: World, i: nat, p: Pipe, scored: bool)
    requires WellFormed(w) && i < PoolSize && (p, scored) == w.upper[i].UpdateScore()
    ensures ScoreFrom(w, i) == ScoreFrom(w.(upper := w.upper[i := p], score := if scored then w.score + 1 else w.score), i + 1)
  {
  }

  /** The body of the scoring loop for slot i. */
  function ScoreSlot(w: World, i: nat): (r: World)
    requires WellFormed(w) && i < PoolSize
    ensures WellFormed(r)
    ensures r == w.(upper := r.upper, score := r.score)
    ensures r.upper[i] == w.upper[i].UpdateScore().0
    ensures forall j :: 0 <= j < PoolSize && j != i ==> r.upper[j] == w.upper[j]
    ensures r.score == w.score + (if w.upper[i].UpdateScore().1 then 1 else 0)
  {
    var checked := w.upper[i].UpdateScore();
    w.(upper := w.upper[i := checked.0], score := if checked.1 then w.score + 1 else w.score)
  }

  // ---------------------------------------------------------------------
  // Collisions

  /** The upper-pool collision loop from slot i on: the game either is
      unchanged or has been ended. */
  function HitUpperFrom(w: World, i: nat): (r: World)
    requires WellFormed(w) && i <= PoolSize
    ensures WellFormed(r)
    ensures r == w || r == Ended(w)
    decreases PoolSize - i
  {
    if i == PoolSize then w
    else HitUpperFrom(if RectOverlap(w.bird.rect, w.upper[i].rect) then Ended(w) else w, i + 1)
  }

  /** The lower-pool collision loop from slot i on: the game either is
      unchanged or has been ended. */
  function HitLowerFrom(w: World, i: nat): (r: World)
    requires WellFormed(w) && i <= PoolSize
    ensures WellFormed(r)
    ensures r == w || r == Ended(w)
    decreases PoolSize - i
  {
    if i == PoolSize then w
    else HitLowerFrom(if RectOverlap(w.bird.rect, w.lower[i].rect) then Ended(w) else w, i + 1)
  }

  /** One iteration of each collision loop. */
  lemma HitUpperFromUnfold(w: World, i: nat)
    requires WellFormed(w) && i < PoolSize
    ensures HitUpperFrom(w, i) == HitUpperFrom(if RectOverlap(w.bird.rect, w.upper[i].rect) then Ended(w) else w, i + 1)
  {
  }

  lemma HitLowerFromUnfold(w: World, i: nat)
    requires WellFormed(w) && i < PoolSize
    ensures HitLowerFrom(w, i) == HitLowerFrom(if RectOverlap(w.bird.rect, w.lower[i].rect) then Ended(w) else w, i + 1)
  {
  }

  /** The ground check: the game is over afterwards exactly when it was
      already over or the bird touches the ground; it is either unchanged or
      ended. */
  function HitGround(w: World): (r: World)
    requires WellFormed(w)
    ensures WellFormed(r)
    ensures r.gameOver <==> w.gameOver || RectOverlap(w.bird.rect, Ground)
    ensures r == w || r == Ended(w)
  {
    if RectOverlap(w.bird.rect, Ground) then Ended(w) else w
  }

  /** The collision pass: bird against every upper pipe, every lower pipe,
      then the ground, ending the game on each overlap. It ends the game
      exactly when the bird touches a pipe of either pool or the ground, and
      otherwise changes nothing. */
  function Collisions(w: World): (r: World)
    requires WellFormed(w)
    ensures WellFormed(r)
    ensures r == if Collides(w) then Ended(w) else w
  {
    HitUpperFromEnds(w, 0);
    HitLowerFromEnds(HitUpperFrom(w, 0), 0);
    EndedIdempotent(w);
    HitGround(HitLowerFrom(HitUpperFrom(w, 0), 0))
  }

  /** The bird touches some pipe or the ground. */
  predicate Collides(w: World)
    requires WellFormed(w)
  {
    || (exists j :: 0 <= j < PoolSize && RectOverlap(w.bird.rect, w.upper[j].rect))
    || (exists j :: 0 <= j < PoolSize && RectOverlap(w.bird.rect, w.lower[j].rect))
    || RectOverlap(w.bird.rect, Ground)
  }

  lemma {:induction false} HitUpperFromEnds(w: World, i: nat)
    requires WellFormed(w) && i <= PoolSize
    ensures HitUpperFrom(w, i) ==
      if exists j :: i <= j < PoolSize && RectOverlap(w.bird.rect, w.upper[j].rect) then Ended(w) else w
    decreases PoolSize - i
  {
    if i < PoolSize {
      if RectOverlap(w.bird.rect, w.upper[i].rect) {
        HitUpperFromEnds(Ended(w), i + 1);
        EndedIdempotent(w);
      } else {
        HitUpperFromEnds(w, i + 1);
      }
    }
  }

  lemma {:induction false} HitLowerFromEnds(w: World, i: nat)
    requires WellFormed(w) && i <= PoolSize
    ensures HitLowerFrom(w, i) ==
      if exists j :: i <= j < PoolSize && RectOverlap(w.bird.rect, w.lower[j].rect) then Ended(w) else w
    decreases PoolSize - i
  {
    if i < PoolSize {
      if RectOverlap(w.bird.rect, w.lower[i].rect) {
        HitLowerFromEnds(Ended(w), i + 1);
        EndedIdempotent(w);
      } else {
        HitLowerFromEnds(w, i + 1);
      }
    }
  }

  // ---------------------------------------------------------------------
  // One frame

  /** Every pipe of a pool moved for `delta` seconds. */
  function MovedAll(ps: seq<Pipe>, delta: real): (r: seq<Pipe>)
    ensures |r| == |ps|
    ensures forall j :: 0 <= j < |ps| ==> r[j] == ps[j].Moved(delta)
  {
    seq(|ps|, j requires 0 <= j < |ps| => ps[j].Moved(delta))
  }

  /** A running frame up to the scoring loop: both pools moved, then
      recycled. */
  function Recycled(w: World, delta: real, draws: seq<Draw>): (r: World)
    requires WellFormed(w) && |draws| == PoolSize
    ensures WellFormed(r)
    ensures r == w.(upper := r.upper, lower := r.lower)
  {
    RecycleFrom(w.(upper := MovedAll(w.upper, delta), lower := MovedAll(w.lower, delta)), 0, draws)
  }

  /** A running frame up to the collision pass: pipes moved, recycled and
      scored, in that order. The bird and the flags are untouched, the score
      rises by exactly the number of recycled upper pipes that score, and no
      upper pipe's trigger is left pending. */
  function Scrolled(w: World, delta: real, draws: seq<Draw>): (r: World)
    requires WellFormed(w) && |draws| == PoolSize
    ensures WellFormed(r)
    ensures r == w.(upper := r.upper, lower := r.lower, score := r.score)
    ensures r.score == w.score + CountScored(Recycled(w, delta, draws).upper, 0)
    ensures forall j :: 0 <= j < PoolSize ==> !r.upper[j].ShouldMoveNext(PipeDistance)
  {
    var recycled := Recycled(w, delta, draws);
    ScoreFromCounts(recycled, 0);
    RecycleClearsTriggers(w.(upper := MovedAll(w.upper, delta), lower := MovedAll(w.lower, delta)), 0, draws);
    ScoreFrom(recycled, 0)
  }

  /** One frame of `delta` seconds, with the draws the frame's recycling may
      consume. Nothing moves until the first flap; after game over only the
      bird moves; the score never falls and a frame adds at most one point
      per pair. */
  function Step(w: World, delta: real, draws: seq<Draw>): (r: World)
    requires WellFormed(w) && |draws| == PoolSize
    ensures WellFormed(r)
    ensures !w.startPipes ==> r == w
    ensures w.gameOver ==> r == w.(bird := r.bird)
    ensures w.score <= r.score <= w.score + PoolSize as int
  {
    if !w.startPipes then w
    else
      var flown := w.(bird := Moved(w.bird, delta, w.gameOver));
      if w.gameOver then flown
      else Collisions(Scrolled(flown, delta, draws))
  }

  /** After game over a frame moves only the bird, which keeps falling to
      rest on the ground: pipes, flags and score are untouched. */
  lemma StepAfterGameOver(w: World, delta: real, draws: seq<Draw>)
    requires WellFormed(w) && |draws| == PoolSize && w.gameOver
    ensures var r := Step(w, delta, draws);
      && r == w.(bird := r.bird)
      && (w.startPipes ==> r.bird == Moved(w.bird, delta, true))
      && (w.startPipes ==> r.bird.rect.position.y <= RestHeight(w.bird.rect.size.y))
  {
  }

  /** A running frame: the game ends exactly when, after moving, recycling
      and scoring, the bird touches a pipe or the ground; the score rises by
      exactly the number of upper pipes that score once recycled; no pipe
      trigger is left pending. */
  lemma StepWhilePlaying(w: World, delta: real, draws: seq<Draw>)
    requires WellFormed(w) && |draws| == PoolSize && w.startPipes && !w.gameOver
    ensures var flown := w.(bird := Moved(w.bird, delta, false));
      var s := Scrolled(flown, delta, draws);
      var r := Step(w, delta, draws);
      && r == (if Collides(s) then Ended(s) else s)
      && (r.gameOver <==> Collides(s))
      && r.score == w.score + CountScored(Recycled(flown, delta, draws).upper, 0)
      && forall j :: 0 <= j < PoolSize ==> !r.upper[j].ShouldMoveNext(PipeDistance)
  {
  }

  // ---------------------------------------------------------------------
  // Runs of frames

  datatype Frame = Frame(delta: real, draws: seq<Draw>)

  predicate FramesWellFormed(frames: seq<Frame>)
  {
    forall i :: 0 <= i < |frames| ==> |frames[i].draws| == PoolSize
  }

  /** The game after a run of frames with no input. */
  function Run(w: World, frames: seq<Frame>): (r: World)
    requires WellFormed(w) && FramesWellFormed(frames)
    ensures WellFormed(r)
    decreases |frames|
  {
    if frames == [] then w
    else Run(Step(w, frames[0].delta, frames[0].draws), frames[1..])
  }

  /** Once the game is over, any number of frames leaves every pipe, the
      flags and the score exactly as they were: the obstacles stay frozen. */
  lemma {:induction false} FrozenAfterGameOver(w: World, frames: seq<Frame>)
    requires WellFormed(w) && FramesWellFormed(frames) && w.gameOver
    ensures Run(w, frames) == w.(bird := Run(w, frames).bird)
    ensures Run(w, frames).bird.rect.size == w.bird.rect.size
    decreases |frames|
  {
    if frames != [] {
      StepAfterGameOver(w, frames[0].delta, frames[0].draws);
      FrozenAfterGameOver(Step(w, frames[0].delta, frames[0].draws), frames[1..]);
    }
  }

  /** Over a run of frames the score never decreases and grows by at most
      one point per pair per frame. */
  lemma {:induction false} RunScoreBounds(w: World, frames: seq<Frame>)
    requires WellFormed(w) && FramesWellFormed(frames)
    ensures w.score <= Run(w, frames).score <= w.score + PoolSize * |frames|
    decreases |frames|
  {
    if frames != [] {
      RunScoreBounds(Step(w, frames[0].delta, frames[0].draws), frames[1..]);
    }
  }

  // ---------------------------------------------------------------------
  // Input and restart

  /** Slot i's pipe as a restart lays it out: x staggered off-screen to the
      right, full pipe size, scrolling speed, not counted. Its y and its
      `spawned` flag are kept. */
  function StartLayout(p: Pipe, i: nat): (r: Pipe)
    ensures r.rect.position == Vec2((600 + 270 * i) as real, p.rect.position.y)
    ensures r.rect.size == Vec2(60.0, 480.0)
    ensures r.velocity == p.velocity.(x := -240.0)
    ensures !r.addedToScore && r.spawned == p.spawned
  {
    p.(rect := Rect(Vec2((CanvasWidth + 120 + i * PipeDistance) as real, p.rect.position.y), Vec2(PipeWidth, PipeHeight as real)),
       velocity := p.velocity.(x := XSpeed as real),
       addedToScore := false)
  }

  /** The bird as a restart places it: 34% of the width, mid-height, not
      moving vertically. */
  function StartBird(b: BirdState): (r: BirdState)
    ensures r.rect == b.rect.(position := Vec2(163.2, 360.0))
    ensures r.velocity == b.velocity.(y := 0.0)
  {
    b.(rect := b.rect.(position := Vec2(CanvasWidth as real * 0.34, CanvasHeight as real * 0.5)),
       velocity := b.velocity.(y := 0.0))
  }

  /** The layout loop of a restart: every pair and the bird as a restart
      places them. */
  function LaidOut(w: World): (r: World)
    requires WellFormed(w)
    ensures WellFormed(r)
    ensures r == w.(upper := r.upper, lower := r.lower, bird := StartBird(w.bird))
    ensures forall j :: 0 <= j < PoolSize ==> r.upper[j] == StartLayout(w.upper[j], j) && r.lower[j] == StartLayout(w.lower[j], j)
    ensures r.bird.rect.position == Vec2(163.2, 360.0) && r.bird.velocity.y == 0.0
    ensures forall j :: 0 <= j < PoolSize ==>
              && r.upper[j].rect == Rect(Vec2((600 + 270 * j) as real, w.upper[j].rect.position.y), Vec2(60.0, 480.0))
              && r.lower[j].rect == Rect(Vec2((600 + 270 * j) as real, w.lower[j].rect.position.y), Vec2(60.0, 480.0))
              && r.upper[j].velocity == w.upper[j].velocity.(x := -240.0)
              && r.lower[j].velocity == w.lower[j].velocity.(x := -240.0)
              && !r.upper[j].addedToScore && !r.lower[j].addedToScore
              && r.upper[j].spawned == w.upper[j].spawned && r.lower[j].spawned == w.lower[j].spawned
  {
    w.(upper := seq(PoolSize, j requires 0 <= j < PoolSize => StartLayout(w.upper[j], j)),
       lower := seq(PoolSize, j requires 0 <= j < PoolSize => StartLayout(w.lower[j], j)),
       bird := StartBird(w.bird))
  }

  /** A restart: every pair laid out, slot 0 then re-placed at the right
      edge with a fresh gap, score and flags cleared. Afterwards the bird is
      at its start point at rest vertically; the pairs are at x = 480, 870
      and 1140, full size, scrolling left at 240 pixels per second; no pipe
      is counted; every `spawned` flag and the y of pairs 1 and 2 are as they
      were. */
  function Restarted(w: World, d: Draw): (r: World)
    requires WellFormed(w)
    ensures WellFormed(r)
    ensures r.score == 0 && !r.gameOver && !r.startPipes
    ensures r.bird.rect.position == Vec2(163.2, 360.0) && r.bird.velocity.y == 0.0
    ensures r.bird.rect.size == w.bird.rect.size && r.bird.velocity.x == w.bird.velocity.x
    ensures r.upper[0].rect.position.x == 480.0 && r.lower[0].rect.position.x == 480.0
    ensures r.upper[1].rect.position.x == 870.0 && r.lower[1].rect.position.x == 870.0
    ensures r.upper[2].rect.position.x == 1140.0 && r.lower[2].rect.position.x == 1140.0
    ensures r.lower[0].rect.position.y - (r.upper[0].rect.position.y + PipeHeight as real) == (2 * TruncHalf(d.gap)) as real
    ensures forall j :: 1 <= j < PoolSize ==>
              r.upper[j].rect.position.y == w.upper[j].rect.position.y && r.lower[j].rect.position.y == w.lower[j].rect.position.y
    ensures forall j :: 0 <= j < PoolSize ==>
              && r.upper[j].rect.size == Vec2(60.0, 480.0) && r.lower[j].rect.size == Vec2(60.0, 480.0)
              && r.upper[j].velocity == w.upper[j].velocity.(x := -240.0)
              && r.lower[j].velocity == w.lower[j].velocity.(x := -240.0)
              && !r.upper[j].addedToScore && !r.lower[j].addedToScore
              && r.upper[j].spawned == w.upper[j].spawned && r.lower[j].spawned == w.lower[j].spawned
  {
    Positioned(LaidOut(w), 0, d).(gameOver := false, startPipes := false, score := 0)
  }

  /** The player's action. While playing it only flaps the bird and starts
      the pipes; once the game is over it restarts. */
  function RouteInput(w: World, d: Draw): (r: World)
    requires WellFormed(w)
    ensures WellFormed(r)
    ensures !w.gameOver ==>
              && r == w.(bird := r.bird, startPipes := true)
              && r.bird.velocity.y == -FlapSpeed
              && r.bird.rect == w.bird.rect && r.bird.velocity.x == w.bird.velocity.x
    ensures w.gameOver ==> r == Restarted(w, d)
  {
    if !w.gameOver then w.(bird := Flapped(w.bird), startPipes := true)
    else Restarted(w, d)
  }

  /** Restarting twice with the same draw is the same as restarting once. */
  lemma RestartIdempotent(w: World, d: Draw)
    requires WellFormed(w)
    ensures Restarted(Restarted(w, d), d) == Restarted(w, d)
  {
  }

  /** The opening scenario, after a restart from any earlier game: the
      player flaps and one frame of 1.25 s takes the first pair to x = 180,
      past the trigger line at 210. If the first upper pipe's `spawned` flag
      was clear, the second pair is placed at the right edge (x = 480); since
      a restart keeps that flag, a flag left set by the earlier game means no
      recycle happens and the second pair is simply at 870 - 300 = 570. */
  lemma FirstRecycleAfterRestart(w: World, d0: Draw, d1: Draw, draws: seq<Draw>)
    requires WellFormed(w) && |draws| == PoolSize
    ensures var started := RouteInput(Restarted(w, d0), d1);
      var r := Step(started, 1.25, draws);
      && r.upper[0].rect.position.x == 180.0 && r.upper[0].spawned
      && r.upper[2].rect.position.x == 840.0 && r.upper[2].spawned == w.upper[2].spawned
      && (!w.upper[0].spawned ==>
            && r.upper[1].rect.position.x == 480.0 && r.lower[1].rect.position.x == 480.0
            && !r.upper[1].spawned && !r.upper[1].addedToScore)
      && (w.upper[0].spawned ==>
            && r.upper[1].rect.position.x == 570.0 && r.upper[1].spawned == w.upper[1].spawned)
  {
    var started := RouteInput(Restarted(w, d0), d1);
    StepWhilePlaying(started, 1.25, draws);
  }

  // ---------------------------------------------------------------------
  // Pair alignment

  /** The two pipes of each pair share their x, their size and their
      velocity, so the gap between them stays a vertical opening: only the
      y positions of a pair differ. */
  predicate Aligned(w: World)
    requires WellFormed(w)
  {
    forall j :: 0 <= j < PoolSize ==>
      && w.upper[j].rect.position.x == w.lower[j].rect.position.x
      && w.upper[j].rect.size == w.lower[j].rect.size
      && w.upper[j].velocity == w.lower[j].velocity
  }

  lemma InitialAligned()
    ensures Aligned(Initial())
  {
  }

  /** The recycle loop re-places both pipes of a pair together. */
  lemma {:induction false} RecycleKeepsAligned(w: World, i: nat, draws: seq<Draw>)
    requires WellFormed(w) && i <= PoolSize && |draws| >= PoolSize - i && Aligned(w)
    ensures Aligned(RecycleFrom(w, i, draws))
    decreases PoolSize - i
  {
    if i < PoolSize {
      if w.upper[i].ShouldMoveNext(PipeDistance) {
        RecycleKeepsAligned(RecycleSlot(w, i, draws[0]), i + 1, draws[1..]);
      } else {
        RecycleKeepsAligned(w, i + 1, draws);
      }
    }
  }

  /** Both pipes of a pair move with the same velocity. */
  lemma MoveKeepsAligned(w: World, delta: real)
    requires WellFormed(w) && Aligned(w)
    ensures Aligned(w.(upper := MovedAll(w.upper, delta), lower := MovedAll(w.lower, delta)))
  {
  }

  /** Scoring touches only the upper pipes' flags. */
  lemma ScoreKeepsAligned(w: World)
    requires WellFormed(w) && Aligned(w)
    ensures Aligned(ScoreFrom(w, 0))
  {
    var r := ScoreFrom(w, 0);
    forall j | 0 <= j < PoolSize
      ensures r.upper[j] == w.upper[j].(addedToScore := r.upper[j].addedToScore)
    {
    }
  }

  /** Game over stops both pipes of a pair alike. */
  lemma EndedKeepsAligned(w: World)
    requires WellFormed(w) && Aligned(w)
    ensures Aligned(Ended(w))
  {
  }

  /** A frame keeps every pair aligned: both pipes move with the same
      velocity, are re-placed together, and are stopped together. */
  lemma StepKeepsAligned(w: World, delta: real, draws: seq<Draw>)
    requires WellFormed(w) && |draws| == PoolSize && Aligned(w)
    ensures Aligned(Step(w, delta, draws))
  {
    if w.startPipes && !w.gameOver {
      var flown := w.(bird := Moved(w.bird, delta, false));
      var moved := flown.(upper := MovedAll(flown.upper, delta), lower := MovedAll(flown.lower, delta));
      MoveKeepsAligned(flown, delta);
      RecycleKeepsAligned(moved, 0, draws);
      var scrolled := ScoreFrom(RecycleFrom(moved, 0, draws), 0);
      ScoreKeepsAligned(RecycleFrom(moved, 0, draws));
      EndedKeepsAligned(scrolled);
      assert Step(w, delta, draws) == Collisions(scrolled);
    }
  }

  lemma {:induction false} RunKeepsAligned(w: World, frames: seq<Frame>)
    requires WellFormed(w) && FramesWellFormed(frames) && Aligned(w)
    ensures Aligned(Run(w, frames))
    decreases |frames|
  {
    if frames != [] {
      StepKeepsAligned(w, frames[0].delta, frames[0].draws);
      RunKeepsAligned(Step(w, frames[0].delta, frames[0].draws), frames[1..]);
    }
  }

  /** The player's action keeps every pair aligned: a flap touches no pipe,
      and a restart lays out both pipes of each pair alike. */
  lemma RouteInputKeepsAligned(w: World, d: Draw)
    requires WellFormed(w) && Aligned(w)
    ensures Aligned(RouteInput(w, d))
  {
  }
}
