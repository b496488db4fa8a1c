/** The game controller: it owns the bird, the two pipe pools (arrays of
    three pipes held by value), the score and the phase flags, and updates
    them in place. Each method is proved to perform the corresponding
    function of `Simulation` on the abstract state `State()`. */
module Games {
  import opened Geometry
  import opened Birds
  import opened Pipes
  import opened Simulation

  class Game {
    const bird: Bird
    const upperPipes: array<Pipe>
    const lowerPipes: array<Pipe>
    var score: int
    var gameOver: bool
    var startPipes: bool

    ghost predicate Valid()
      reads this
    {
      upperPipes.Length == PoolSize && lowerPipes.Length == PoolSize && upperPipes != lowerPipes
    }

    /** The abstract state: the whole game as a value. */
    ghost function State(): World
      reads this, bird, upperPipes, lowerPipes
    {
      World(bird.State(), upperPipes[..], lowerPipes[..], score, gameOver, startPipes)
    }

    /** A new game: the bird placed at 40% of the width and mid-height, every
        pipe default-constructed. */
    constructor ()
      ensures Valid() && State() == Initial()
      ensures fresh(bird) && fresh(upperPipes) && fresh(lowerPipes)
    {
      bird := new Bird();
      upperPipes := new Pipe[PoolSize](_ => DefaultPipe);
      lowerPipes := new Pipe[PoolSize](_ => DefaultPipe);
      score, gameOver, startPipes := 0, false, false;
      new;
      bird.rect := bird.rect.(position := bird.rect.position.(x := CanvasWidth as real * 0.4));
      bird.rect := bird.rect.(position := bird.rect.position.(y := CanvasHeight as real * 0.5));
      bird.rect := bird.rect.(size := bird.rect.size.(x := 21.0));
      bird.rect := bird.rect.(size := bird.rect.size.(y := 21.0));
      for i := 0 to PoolSize
        modifies upperPipes, lowerPipes
        invariant forall j :: 0 <= j < PoolSize ==> upperPipes[j] == DefaultPipe && lowerPipes[j] == DefaultPipe
      {
        upperPipes[i] := DefaultPipe;
        lowerPipes[i] := DefaultPipe;
      }
      assert upperPipes[..] == [DefaultPipe, DefaultPipe, DefaultPipe];
      assert lowerPipes[..] == [DefaultPipe, DefaultPipe, DefaultPipe];
    }

    /** One frame of `delta` seconds. `draws` are the values the random
        generator would return to the frame's recycle calls, in call order. */
    method Update(delta: real, draws: seq<Draw>)
      requires Valid() && |draws| == PoolSize
      modifies this, bird, upperPipes, lowerPipes
      ensures Valid() && State() == Step(old(State()), delta, draws)
    {
      if !startPipes {
        return;
      }
      bird.Move(delta, gameOver);
      if gameOver {
        return;
      }
      MovePipes(upperPipes, delta);
      MovePipes(lowerPipes, delta);
      RecyclePipes(draws);
      UpdateScores();
      CheckCollisions();
    }

    /** Moves every pipe of one pool. */
    static method MovePipes(pipes: array<Pipe>, delta: real)
      modifies pipes
      ensures pipes[..] == MovedAll(old(pipes[..]), delta)
    {
      for i := 0 to pipes.Length
        invariant forall j :: 0 <= j < i ==> pipes[j] == old(pipes[j]).Moved(delta)
        invariant forall j :: i <= j < pipes.Length ==> pipes[j] == old(pipes[j])
      {
        pipes[i] := pipes[i].Moved(delta);
      }
    }

    /** The recycle loop: each upper pipe whose trigger fires re-places the
        next pair, marks itself spawned and clears the next upper pipe's
        flags. */
    method RecyclePipes(draws: seq<Draw>)
      requires Valid() && |draws| == PoolSize
      modifies upperPipes, lowerPipes
      ensures State() == RecycleFrom(old(State()), 0, draws)
    {
      var used := 0;
      for i := 0 to PoolSize
        invariant 0 <= used <= i
        invariant RecycleFrom(State(), i, draws[used..]) == RecycleFrom(old(State()), 0, draws)
      {
        if upperPipes[i].ShouldMoveNext(PipeDistance) {
          ghost var before := State();
          var next := (i + 1) % PoolSize;
          RandomlyPositionPipe(next, draws[used]);
          upperPipes[i] := upperPipes[i].(spawned := true);
          upperPipes[next] := upperPipes[next].(spawned := false);
          upperPipes[next] := upperPipes[next].(addedToScore := false);
          assert State() == RecycleSlot(before, i, draws[used]);
          assert draws[used..][1..] == draws[used + 1..];
          used := used + 1;
        }
      }
    }

    /** The scoring loop over the upper pool. */
    method UpdateScores()
      requires Valid()
      modifies this, upperPipes
      ensures State() == ScoreFrom(old(State()), 0)
    {
      for i := 0 to PoolSize
        invariant ScoreFrom(State(), i) == ScoreFrom(old(State()), 0)
      {
        ghost var before := State();
        var (pipe, scored) := upperPipes[i].UpdateScore();
        upperPipes[i] := pipe;
        if scored {
          score := score + 1;
        }
        assert upperPipes[..] == before.upper[i := pipe];
        assert State() == before.(upper := before.upper[i := pipe], score := if scored then before.score + 1 else before.score);
        ScoreFromUnfold(before, i, pipe, scored);
      }
    }

    /** The collision pass: upper pool, lower pool, then the ground. */
    method CheckCollisions()
      requires Valid()
      modifies this, bird, upperPipes, lowerPipes
      ensures State() == Collisions(old(State()))
    {
      for i := 0 to PoolSize
        invariant HitUpperFrom(State(), i) == HitUpperFrom(old(State()), 0)
      {
        ghost var before := State();
        HitUpperFromUnfold(before, i);
        if RectOverlap(bird.rect, upperPipes[i].rect) {
          GameOver();
        }
      }
      ghost var afterUpper := State();
      for i := 0 to PoolSize
        invariant HitLowerFrom(State(), i) == HitLowerFrom(afterUpper, 0)
      {
        ghost var before := State();
        HitLowerFromUnfold(before, i);
        if RectOverlap(bird.rect, lowerPipes[i].rect) {
          GameOver();
        }
      }
      if RectOverlap(bird.rect, Ground) {
        GameOver();
      }
    }

    /** Places pair k at the right edge around a gap drawn as `d`. */
    method RandomlyPositionPipe(k: nat, d: Draw)
      requires Valid() && k < PoolSize
      modifies upperPipes, lowerPipes
      ensures State() == Positioned(old(State()), k, d)
    {
      upperPipes[k] := upperPipes[k].(rect := upperPipes[k].rect.(position := upperPipes[k].rect.position.(x := CanvasWidth as real)));
      lowerPipes[k] := lowerPipes[k].(rect := lowerPipes[k].rect.(position := lowerPipes[k].rect.position.(x := CanvasWidth as real)));
      var nextYOffset := d.offset;
      var nextGapSize := d.gap;
      var lowerY := CanvasHeight / 2 + nextYOffset + TruncHalf(nextGapSize);
      var upperY := CanvasHeight / 2 + nextYOffset - TruncHalf(nextGapSize) - PipeHeight;
      lowerPipes[k] := lowerPipes[k].(rect := lowerPipes[k].rect.(position := lowerPipes[k].rect.position.(y := lowerY as real)));
      upperPipes[k] := upperPipes[k].(rect := upperPipes[k].rect.(position := upperPipes[k].rect.position.(y := upperY as real)));
    }

    /** Ends the game: stops the bird vertically and every pipe horizontally. */
    method GameOver()
      requires Valid()
      modifies this, bird, upperPipes, lowerPipes
      ensures State() == Ended(old(State()))
    {
      gameOver := true;
      bird.velocity := bird.velocity.(y := 0.0);
      for i := 0 to PoolSize
        modifies upperPipes
        invariant forall j :: 0 <= j < i ==> upperPipes[j] == old(upperPipes[j]).(velocity := old(upperPipes[j]).velocity.(x := 0.0))
        invariant forall j :: i <= j < PoolSize ==> upperPipes[j] == old(upperPipes[j])
      {
        upperPipes[i] := upperPipes[i].(velocity := upperPipes[i].velocity.(x := 0.0));
      }
      for i := 0 to PoolSize
        modifies lowerPipes
        invariant forall j :: 0 <= j < i ==> lowerPipes[j] == old(lowerPipes[j]).(velocity := old(lowerPipes[j]).velocity.(x := 0.0))
        invariant forall j :: i <= j < PoolSize ==> lowerPipes[j] == old(lowerPipes[j])
      {
        lowerPipes[i] := lowerPipes[i].(velocity := lowerPipes[i].velocity.(x := 0.0));
      }
    }

    /** The player's action: flap while playing, restart once over. */
    method RouteInput(d: Draw)
      requires Valid()
      modifies this, bird, upperPipes, lowerPipes
      ensures Valid() && State() == Simulation.RouteInput(old(State()), d)
    {
      if !gameOver {
        bird.Flap();
        if !startPipes {
          startPipes := true;
        }
      } else {
        StartGame(d);
      }
    }

    /** Lays out every pair off-screen to the right, resets the bird, then
        re-places slot 0 with a fresh gap and clears score and flags. */
    method StartGame(d: Draw)
      requires Valid()
      modifies this, bird, upperPipes, lowerPipes
      ensures State() == Restarted(old(State()), d)
    {
      for i := 0 to PoolSize
        modifies bird, upperPipes, lowerPipes
        invariant forall j :: 0 <= j < i ==> upperPipes[j] == StartLayout(old(upperPipes[j]), j) && lowerPipes[j] == StartLayout(old(lowerPipes[j]), j)
        invariant forall j :: i <= j < PoolSize ==> upperPipes[j] == old(upperPipes[j]) && lowerPipes[j] == old(lowerPipes[j])
        invariant bird.State() == if i == 0 then old(bird.State()) else StartBird(old(bird.State()))
      {
        var x := (CanvasWidth + 120 + i * PipeDistance) as real;
        var upper := upperPipes[i];
        upper := upper.(rect := upper.rect.(position := upper.rect.position.(x := x)));
        upper := upper.(rect := upper.rect.(size := upper.rect.size.(x := PipeWidth)));
        upper := upper.(rect := upper.rect.(size := upper.rect.size.(y := PipeHeight as real)));
        upper := upper.(velocity := upper.velocity.(x := XSpeed as real));
        upper := upper.(addedToScore := false);
        upperPipes[i] := upper;

        var lower := lowerPipes[i];
        lower := lower.(rect := lower.rect.(position := lower.rect.position.(x := x)));
        lower := lower.(rect := lower.rect.(size := lower.rect.size.(x := PipeWidth)));
        lower := lower.(rect := lower.rect.(size := lower.rect.size.(y := PipeHeight as real)));
        lower := lower.(velocity := lower.velocity.(x := XSpeed as real));
        lower := lower.(addedToScore := false);
        lowerPipes[i] := lower;

        bird.rect := bird.rect.(position := bird.rect.position.(x := CanvasWidth as real * 0.34));
        bird.rect := bird.rect.(position := bird.rect.position.(y := CanvasHeight as real * 0.5));
        bird.velocity := bird.velocity.(y := 0.0);
      }
      assert State() == LaidOut(old(State()));
      RandomlyPositionPipe(0, d);
      gameOver := false;
      startPipes := false;
      score := 0;
    }
  }
}
