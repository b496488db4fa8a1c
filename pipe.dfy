/** One pipe: a rectangle moving at constant velocity, with the two flags
    that drive recycling (`spawned`) and scoring (`addedToScore`). The game
    keeps its pipes by value in fixed arrays, so each mutator of a pipe is a
    function returning the updated pipe, which the game writes back into
    its slot. */
module Pipes {
  import opened Geometry

  /** Horizontal speed of every pipe while the game runs. */
  const XSpeed: int := -240

  /** x below which a pipe of width `w` has passed the bird and scores. */
  function ScoreLine(w: real): real
  {
    CanvasWidth as real * 0.34 - w / 2.0
  }

  datatype Pipe = Pipe(spawned: bool, addedToScore: bool, rect: Rect, velocity: Vec2)
  {
    /** Linear motion over `delta` seconds. */
    function Moved(delta: real): (p: Pipe)
      ensures p.rect.position == Vec2(rect.position.x + velocity.x * delta, rect.position.y + velocity.y * delta)
      ensures p == this.(rect := p.rect) && p.rect.size == rect.size
    {
      this.(rect := rect.(position := Vec2(rect.position.x + velocity.x * delta, rect.position.y + velocity.y * delta)))
    }

    /** The spawn trigger: a pipe that has not yet spawned its successor and
        has scrolled more than `pipeDistance` left of the right edge. */
    function ShouldMoveNext(pipeDistance: int): (r: bool)
      ensures spawned ==> !r
    {
      !spawned && rect.position.x < (CanvasWidth - pipeDistance) as real
    }

    /** Scores the pipe the first time it is found left of the score line:
        returns the pipe with `addedToScore` set and whether it just scored. */
    function UpdateScore(): (r: (Pipe, bool))
      ensures r.1 <==> !addedToScore && rect.position.x < ScoreLine(rect.size.x)
      ensures r.1 ==> r.0.addedToScore
      ensures !r.1 ==> r.0 == this
      ensures r.0 == this.(addedToScore := r.0.addedToScore)
    {
      if !addedToScore && rect.position.x < ScoreLine(rect.size.x) then
        (this.(addedToScore := true), true)
      else
        (this, false)
    }
  }

  /** A default-constructed pipe: both flags clear, everything else zero. */
  const DefaultPipe := Pipe(false, false, Rect(Origin, Origin), Origin)

  /** Once a pipe has been counted, scoring it again returns false and
      changes nothing. */
  lemma ScoredPipeStaysScored(p: Pipe)
    requires p.UpdateScore().1
    ensures p.UpdateScore().0.addedToScore
    ensures p.UpdateScore().0.UpdateScore() == (p.UpdateScore().0, false)
  {
  }

  /** A pipe followed through a run of frames, each a move and then a
      scoring check: the pipe afterwards and how many times it scored. */
  function Traverse(p: Pipe, deltas: seq<real>): (Pipe, nat)
    decreases |deltas|
  {
    if deltas == [] then (p, 0)
    else
      var (q, scored) := p.Moved(deltas[0]).UpdateScore();
      var (last, count) := Traverse(q, deltas[1..]);
      (last, count + if scored then 1 else 0)
  }

  /** No double scoring: between two resets of `addedToScore` a pipe scores
      at most once, never if it was already counted, and having scored it
      stays counted. Its velocity and size are never changed. */
  lemma {:induction false} ScoresAtMostOnce(p: Pipe, deltas: seq<real>)
    ensures Traverse(p, deltas).1 <= 1
    ensures p.addedToScore ==> Traverse(p, deltas).1 == 0 && Traverse(p, deltas).0.addedToScore
    ensures Traverse(p, deltas).1 == 1 ==> Traverse(p, deltas).0.addedToScore
    ensures Traverse(p, deltas).0.velocity == p.velocity && Traverse(p, deltas).0.rect.size == p.rect.size
    decreases |deltas|
  {
    if deltas != [] {
      var q := p.Moved(deltas[0]).UpdateScore().0;
      ScoresAtMostOnce(q, deltas[1..]);
    }
  }

  /** An uncounted pipe that starts right of the score line and moves left
      (or stands still) over frames of non-negative length scores exactly
      once if it ends left of the line, and never if it ends right of it. */
  lemma {:induction false} FullPassScoresOnce(p: Pipe, deltas: seq<real>)
    requires p.velocity.x <= 0.0
    requires forall i :: 0 <= i < |deltas| ==> deltas[i] >= 0.0
    requires !p.addedToScore ==> p.rect.position.x >= ScoreLine(p.rect.size.x)
    ensures Traverse(p, deltas).0.rect.position.x <= p.rect.position.x
    ensures !p.addedToScore ==>
              (Traverse(p, deltas).1 == 1 <==> Traverse(p, deltas).0.rect.position.x < ScoreLine(p.rect.size.x))
    decreases |deltas|
  {
    if deltas != [] {
      var q := p.Moved(deltas[0]).UpdateScore().0;
      assert q.velocity == p.velocity && q.rect.size == p.rect.size;
      assert q.rect.position.x <= p.rect.position.x by {
        assert p.velocity.x * deltas[0] <= 0.0;
      }
      FullPassScoresOnce(q, deltas[1..]);
      ScoresAtMostOnce(q, deltas[1..]);
    }
  }
}
