/** The collision test of game_loop: the player's shrunk hitbox against both
    rectangles of every pipe, then the vertical bounds test. */
module Collision {
  import opened Config
  import opened Pipes

  /** A pygame.Rect: left, top, width, height, all integers. */
  datatype Rect = Rect(left: int, top: int, width: int, height: int)

  /** Rect.colliderect: strict overlap on both axes, so edges that only touch
      do not collide. (Every rectangle built here has a positive size.) */
  predicate Overlaps(a: Rect, b: Rect) {
    a.left < b.left + b.width && b.left < a.left + a.width &&
    a.top < b.top + b.height && b.top < a.top + a.height
  }

  /** The integer coordinate pygame.Rect makes of a value given in half-pixels.
      The model rounds down; the lemmas below about the hitbox hold for any
      rounding that lands within half a pixel. */
  function RectCoord(v2: int): int {
    v2 / 2
  }

  lemma RectCoordWithinHalf(v2: int)
    ensures -1 <= 2 * RectCoord(v2) - v2 <= 1
  {
  }

  /** `pygame.Rect(PLAYER_X + 20, player_y + 20, HAMB_SIZE - 40, HAMB_SIZE - 40)`
      for the integer top `hy`. */
  function Hitbox(hy: int): Rect {
    Rect(HitboxLeft, hy, HitboxSize, HitboxSize)
  }

  function TopRect(p: Pipe): Rect {
    Rect(p.x, p.top - PipeH, PipeW, PipeH)
  }

  function BottomRect(p: Pipe): Rect {
    Rect(p.x, p.top + PipeGap, PipeW, PipeH)
  }

  /** The hitbox with top `hy` touches pipe `p`. */
  predicate HitsPipe(hy: int, p: Pipe) {
    Overlaps(Hitbox(hy), TopRect(p)) || Overlaps(Hitbox(hy), BottomRect(p))
  }

  /** `player_y <= -10 or player_y + HAMB_SIZE >= HEIGHT + 10`, in half-pixels. */
  predicate OutOfBounds(y2: int) {
    y2 <= -2 * BoundsTolerance || y2 + 2 * HambSize >= 2 * (Height + BoundsTolerance)
  }

  /** The hitbox of a player at height y2 (half-pixels) hits some pipe. */
  predicate HitsAnyPipe(y2: int, ps: seq<Pipe>) {
    exists i :: 0 <= i < |ps| && HitsPipe(RectCoord(y2 + 2 * HitboxReduction), ps[i])
  }

  /** The frame ends the session. */
  predicate Collides(y2: int, ps: seq<Pipe>) {
    HitsAnyPipe(y2, ps) || OutOfBounds(y2)
  }

  /** The collision test of game_loop: the pipe loop with its `break`, then the bounds test. */
  method DetectCollision(y2: int, ps: seq<Pipe>) returns (collided: bool)
    ensures collided <==> Collides(y2, ps)
  {
    var hitbox := Hitbox(RectCoord(y2 + 2 * HitboxReduction));
    collided := false;
    var i := 0;
    while i < |ps|
      invariant 0 <= i <= |ps|
      invariant forall j :: 0 <= j < i ==> !HitsPipe(hitbox.top, ps[j])
    {
      var topRect := TopRect(ps[i]);
      var bottomRect := BottomRect(ps[i]);
      if Overlaps(hitbox, topRect) || Overlaps(hitbox, bottomRect) {
        collided := true;
        break;
      }
      i := i + 1;
    }
    if OutOfBounds(y2) {
      collided := true;
    }
  }

  /** The hitbox [100, 150) x [hy, hy + 50) meets a pipe exactly when the pipe's
      columns [x, x + 120) meet [100, 150) and the hitbox is not inside the gap. */
  lemma HitsPipeIff(hy: int, p: Pipe)
    ensures HitsPipe(hy, p) <==>
              p.x < HitboxLeft + HitboxSize && HitboxLeft < p.x + PipeW &&
              ((p.top - PipeH - HitboxSize < hy < p.top) ||
               (p.top + PipeGap - HitboxSize < hy < p.top + PipeGap + PipeH))
  {
  }

  /** No pipe collision while the hitbox [y + 20, y + 70] lies within the gap
      [top, top + 180], whichever way pygame rounds y + 20 to an integer. */
  lemma NoHitInsideGap(y2: int, hy: int, p: Pipe)
    requires -1 <= 2 * hy - (y2 + 2 * HitboxReduction) <= 1
    requires 2 * p.top <= y2 + 2 * HitboxReduction
    requires y2 + 2 * (HambSize - HitboxReduction) <= 2 * (p.top + PipeGap)
    ensures !HitsPipe(hy, p)
  {
  }

  /** No pipe collision while the pipe's columns miss the hitbox's [100, 150). */
  lemma NoHitWhenClear(hy: int, p: Pipe)
    requires p.x >= HitboxLeft + HitboxSize || p.x + PipeW <= HitboxLeft
    ensures !HitsPipe(hy, p)
  {
  }

  /** Leaving the playfield is a collision whatever the pipes are. */
  lemma BoundsAlwaysCollide(y2: int, ps: seq<Pipe>)
    requires OutOfBounds(y2)
    ensures Collides(y2, ps)
  {
  }
}
