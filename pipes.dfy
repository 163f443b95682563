/** The pipes of main.py: each an `[x, top_height]` pair that moves left every
    frame, the culling comprehension and the scoring window. */
module Pipes {
  import opened Config

  /** A pipe: its left edge and the top of its gap. */
  datatype Pipe = Pipe(x: int, top: int)

  /** `pipe[0] -= PIPE_SPEED` */
  function Moved(p: Pipe): Pipe {
    p.(x := p.x - PipeSpeed)
  }

  /** Every pipe of the list moved left once. */
  function Shift(ps: seq<Pipe>): seq<Pipe> {
    seq(|ps|, i requires 0 <= i < |ps| => Moved(ps[i]))
  }

  /** A pipe is kept while its right edge is still on screen. */
  predicate Alive(p: Pipe) {
    p.x + PipeW > 0
  }

  /** `[p for p in pipes if p[0] + PIPE_W > 0]` */
  function Cull(ps: seq<Pipe>): (r: seq<Pipe>)
    ensures |r| <= |ps|
    ensures forall p :: p in r <==> p in ps && Alive(p)
  {
    if |ps| == 0 then []
    else (if Alive(ps[0]) then [ps[0]] else []) + Cull(ps[1..])
  }

  lemma {:induction false} CullAppend(a: seq<Pipe>, b: seq<Pipe>)
    ensures Cull(a + b) == Cull(a) + Cull(b)
  {
    if a == [] {
      assert a + b == b;
    } else {
      assert (a + b)[1..] == a[1..] + b;
      CullAppend(a[1..], b);
    }
  }

  lemma ShiftAppend(a: seq<Pipe>, b: seq<Pipe>)
    ensures Shift(a + b) == Shift(a) + Shift(b)
  {
  }

  /** Pipe x values strictly increase along the list. */
  predicate Ascending(ps: seq<Pipe>) {
    forall i, j :: 0 <= i < j < |ps| ==> ps[i].x < ps[j].x
  }

  lemma ShiftAscending(ps: seq<Pipe>)
    requires Ascending(ps)
    ensures Ascending(Shift(ps))
  {
  }

  lemma AscendingSuffix(ps: seq<Pipe>, k: nat)
    requires Ascending(ps) && k <= |ps|
    ensures Ascending(ps[k..])
  {
    forall i, j | 0 <= i < j < |ps| - k ensures ps[k..][i].x < ps[k..][j].x {
      assert ps[k..][i] == ps[i + k];
    }
  }

  /** How many pipes at the front of the list have left the screen. */
  function DeadPrefix(ps: seq<Pipe>): (k: nat)
    ensures k <= |ps|
    ensures forall j :: 0 <= j < k ==> !Alive(ps[j])
    ensures k < |ps| ==> Alive(ps[k])
  {
    if ps == [] || Alive(ps[0]) then 0 else 1 + DeadPrefix(ps[1..])
  }

  /** On an ascending list every pipe after the dead prefix is alive. */
  lemma AliveAfterDeadPrefix(ps: seq<Pipe>)
    requires Ascending(ps)
    ensures forall j :: DeadPrefix(ps) <= j < |ps| ==> Alive(ps[j])
  {
    var k := DeadPrefix(ps);
    forall j | k < j < |ps| ensures Alive(ps[j]) { assert ps[k].x < ps[j].x; }
  }

  /** On an ascending list the culled pipes are a prefix: the comprehension keeps
      a suffix, in order, and drops exactly the pipes that have left the screen. */
  lemma {:induction false} CullAscending(ps: seq<Pipe>)
    requires Ascending(ps)
    ensures Cull(ps) == ps[DeadPrefix(ps)..]
    ensures forall j :: DeadPrefix(ps) <= j < |ps| ==> Alive(ps[j])
  {
    var k := DeadPrefix(ps);
    AliveAfterDeadPrefix(ps);
    if ps == [] {
    } else if Alive(ps[0]) {
      CullAllAlive(ps);
    } else {
      var tail := ps[1..];
      AscendingSuffix(ps, 1);
      CullAscending(tail);
      assert tail[DeadPrefix(tail)..] == ps[k..];
    }
  }

  lemma {:induction false} CullAllAlive(ps: seq<Pipe>)
    requires forall j :: 0 <= j < |ps| ==> Alive(ps[j])
    ensures Cull(ps) == ps
  {
    if ps != [] {
      CullAllAlive(ps[1..]);
      assert [ps[0]] + ps[1..] == ps;
    }
  }

  /** `pipe_x + PIPE_W < PLAYER_X <= pipe_x + PIPE_W + PIPE_SPEED`: the pipe's
      right edge passed the player's x during this frame's move. */
  predicate InScoreWindow(p: Pipe) {
    p.x + PipeW < PlayerX <= p.x + PipeW + PipeSpeed
  }

  /** The number of pipes in the scoring window, counted along the list. */
  function ScoreGain(ps: seq<Pipe>): nat {
    if |ps| == 0 then 0
    else ScoreGain(ps[..|ps| - 1]) + (if InScoreWindow(ps[|ps| - 1]) then 1 else 0)
  }

  /** A pipe as the game keeps it: still on screen, left of its spawn x, on the
      spawn x's grid of steps, with a gap top that randint can produce. */
  predicate PipeOk(p: Pipe) {
    Alive(p) && p.x < Width && (p.x - Width) % PipeSpeed == 0 &&
    MinGapTop <= p.top <= MaxGapTop
  }

  predicate PipesOk(ps: seq<Pipe>) {
    Ascending(ps) && forall i :: 0 <= i < |ps| ==> PipeOk(ps[i])
  }

  /** On the spawn grid the scoring window holds exactly one x: -41. */
  lemma WindowIsOneColumn(p: Pipe)
    requires (p.x - Width) % PipeSpeed == 0
    ensures InScoreWindow(p) <==> p.x == -41
  {
  }

  /** Under the list invariant a frame scores at most one point, and it scores one
      exactly when some pipe stands at x = -41. */
  lemma {:induction false} ScoreGainOk(ps: seq<Pipe>)
    requires PipesOk(ps)
    ensures ScoreGain(ps) == if exists i :: 0 <= i < |ps| && ps[i].x == -41 then 1 else 0
  {
    if ps != [] {
      var front := ps[..|ps| - 1];
      var last := ps[|ps| - 1];
      assert PipesOk(front);
      ScoreGainOk(front);
      WindowIsOneColumn(last);
      if last.x == -41 {
        assert forall i :: 0 <= i < |front| ==> front[i].x < -41;
      } else {
        assert forall i :: 0 <= i < |ps| && ps[i].x == -41 ==> i < |front| && front[i].x == -41;
      }
    }
  }

  /** A pipe spawned at x = 400 stands at 400 - 3t after t moves. It is in the
      scoring window on move 147 and on no other, and it is still alive then. */
  lemma ScoredOnceInLifetime(top: int, t: int)
    requires t >= 1
    ensures InScoreWindow(Pipe(Width - PipeSpeed * t, top)) <==> t == 147
    ensures Alive(Pipe(Width - PipeSpeed * 147, top))
  {
  }
}
