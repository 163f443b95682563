/** One play session (game_loop in main.py): the state it keeps between frames,
    the per-frame tick and the loop that runs ticks until a collision or a quit. */
module Gameplay {
  import opened Config
  import opened Input
  import opened Pipes
  import opened Collision

  /** The locals game_loop carries from one frame to the next; y2 and vel2 are in half-pixels. */
  datatype GameState = GameState(y2: int, vel2: int, pipes: seq<Pipe>, spawnTimer: int, score: int)

  /** What a tick tells the loop: go on, return "quit", or return the score. */
  datatype TickResult = Running | Quit | Over(score: int)

  /** The state a fresh session starts in: the player at mid-height and at rest,
      no pipes, the spawn counter and the score at 0. */
  function Initial(): GameState {
    GameState(StartY2, 0, [], 0, 0)
  }

  /** What every frame keeps true: the counter in 0..100, the pipe list invariant,
      a non-negative score. */
  predicate Inv(s: GameState) {
    0 <= s.spawnTimer <= SpawnThreshold && PipesOk(s.pipes) && s.score >= 0
  }

  predicate InGapRange(top: int) {
    MinGapTop <= top <= MaxGapTop
  }

  /** The state after a frame without a QUIT, from the velocity the input loop left. */
  function AfterFrame(s: GameState, vel: int, top: int): GameState {
    var vel2 := vel + Gravity2;
    var y2 := s.y2 + vel2;
    var spawns := s.spawnTimer + 1 > SpawnThreshold;
    var timer := if spawns then 0 else s.spawnTimer + 1;
    var pipes := NextPipes(s.pipes, top, spawns);
    GameState(y2, vel2, pipes, timer, s.score + ScoreGain(pipes))
  }

  /** The end of the loop body: return the score after a collision, else go on. */
  function Verdict(t: GameState): TickResult {
    if Collides(t.y2, t.pipes) then Over(t.score) else Running
  }

  /** One frame of game_loop as a value: the events of the frame and the number
      random.randint would draw if a pipe spawns. */
  function Step(s: GameState, events: seq<Event>, top: int): (TickResult, GameState) {
    if AnyQuit(events) then (Quit, s)
    else
      var t := AfterFrame(s, if AnyJump(events) then Jump2 else s.vel2, top);
      (Verdict(t), t)
  }

  /** A QUIT anywhere among the frame's events ends the session before any physics. */
  lemma StepQuit(s: GameState, events: seq<Event>, top: int)
    requires AnyQuit(events)
    ensures Step(s, events, top) == (Quit, s)
  {
  }

  /** Velocity becomes the jump value or stays, then gains gravity; position gains the new velocity. */
  lemma StepPhysics(s: GameState, events: seq<Event>, top: int)
    requires !AnyQuit(events)
    ensures var t := Step(s, events, top).1;
            t.vel2 == (if AnyJump(events) then Jump2 else s.vel2) + Gravity2 &&
            t.y2 == s.y2 + t.vel2
  {
  }

  /** A second jump in the same frame changes nothing. */
  lemma JumpIdempotent(s: GameState, events: seq<Event>, e: Event, top: int)
    requires AnyJump(events) && IsJump(e)
    ensures Step(s, events + [e], top) == Step(s, events, top)
  {
    var more := events + [e];
    assert AnyJump(more) by {
      var i :| 0 <= i < |events| && IsJump(events[i]);
      assert more[i] == events[i];
    }
    assert AnyQuit(more) <==> AnyQuit(events) by {
      if AnyQuit(events) {
        var i :| 0 <= i < |events| && events[i] == QuitEvent;
        assert more[i] == events[i];
      }
      if AnyQuit(more) {
        var i :| 0 <= i < |more| && more[i] == QuitEvent;
        assert i < |events| && events[i] == more[i];
      }
    }
  }

  /** The counter stays in 0..100 and wraps to 0 from 100. */
  lemma StepSpawnTimer(s: GameState, events: seq<Event>, top: int)
    requires Inv(s) && !AnyQuit(events)
    ensures var t := Step(s, events, top).1;
            0 <= t.spawnTimer <= SpawnThreshold &&
            t.spawnTimer == if s.spawnTimer == SpawnThreshold then 0 else s.spawnTimer + 1
  {
  }

  /** The pipes after a frame's spawn, move and cull (lines 218-227). */
  function NextPipes(ps: seq<Pipe>, top: int, spawns: bool): seq<Pipe> {
    Cull(Shift(if spawns then ps + [Pipe(Width, top)] else ps))
  }

  lemma {:induction false} NextPipesShape(ps: seq<Pipe>, top: int, spawns: bool)
    requires Ascending(ps)
    ensures var moved := Shift(ps);
            NextPipes(ps, top, spawns) ==
              moved[DeadPrefix(moved)..] + (if spawns then [Pipe(Width - PipeSpeed, top)] else [])
    ensures var moved := Shift(ps);
            forall j :: DeadPrefix(moved) <= j < |moved| ==> Alive(moved[j])
  {
    var moved := Shift(ps);
    ShiftAscending(ps);
    CullAscending(moved);
    if spawns {
      var spawned := Pipe(Width, top);
      ShiftAppend(ps, [spawned]);
      CullAppend(moved, Shift([spawned]));
      assert Cull(Shift([spawned])) == [Pipe(Width - PipeSpeed, top)] by {
        assert Shift([spawned]) == [Pipe(Width - PipeSpeed, top)];
        assert Cull([Pipe(Width - PipeSpeed, top)][1..]) == [];
      }
    }
  }

  /** The pipes after a frame: every old pipe moved left by 3 with its gap kept,
      those that left the screen dropped from the front, the rest in order, and a
      new pipe at x = 397 at the end exactly when the counter stood at 100. */
  lemma StepPipes(s: GameState, events: seq<Event>, top: int)
    requires Inv(s) && InGapRange(top) && !AnyQuit(events)
    ensures var t := Step(s, events, top).1;
            var moved := Shift(s.pipes);
            var k := DeadPrefix(moved);
            t.pipes == moved[k..] + (if s.spawnTimer == SpawnThreshold then [Pipe(Width - PipeSpeed, top)] else []) &&
            (forall j :: 0 <= j < k ==> !Alive(moved[j])) &&
            (forall j :: k <= j < |moved| ==> Alive(moved[j]))
  {
    NextPipesShape(s.pipes, top, s.spawnTimer == SpawnThreshold);
  }

  /** The surviving pipes of an ascending list, moved and culled, keep the list invariant. */
  lemma KeptOk(ps: seq<Pipe>)
    requires PipesOk(ps)
    ensures var moved := Shift(ps); PipesOk(moved[DeadPrefix(moved)..])
    ensures var moved := Shift(ps);
            forall i :: DeadPrefix(moved) <= i < |moved| ==> moved[i].x < Width - PipeSpeed
  {
    var moved := Shift(ps);
    ShiftAscending(ps);
    AliveAfterDeadPrefix(moved);
    var k := DeadPrefix(moved);
    var kept := moved[k..];
    forall i | 0 <= i < |kept| ensures PipeOk(kept[i]) {
      assert kept[i] == Moved(ps[i + k]) && Alive(kept[i]);
      MovedOk(ps[i + k]);
    }
    AscendingSuffix(moved, k);
  }

  /** A moved pipe that is still on screen keeps its place on the spawn grid. */
  lemma MovedOk(p: Pipe)
    requires PipeOk(p) && Alive(Moved(p))
    ensures PipeOk(Moved(p))
  {
    assert (Moved(p).x - Width) == (p.x - Width) - PipeSpeed;
  }

  /** A pipe to the right of every pipe of a valid list extends it validly. */
  lemma AppendOk(ps: seq<Pipe>, p: Pipe)
    requires PipesOk(ps) && PipeOk(p)
    requires forall i :: 0 <= i < |ps| ==> ps[i].x < p.x
    ensures PipesOk(ps + [p])
  {
  }

  /** Spawning, moving and culling keep the pipe list invariant. */
  lemma NextPipesOk(ps: seq<Pipe>, top: int, spawns: bool)
    requires PipesOk(ps) && InGapRange(top)
    ensures PipesOk(NextPipes(ps, top, spawns))
  {
    NextPipesShape(ps, top, spawns);
    KeptOk(ps);
    var moved := Shift(ps);
    var kept := moved[DeadPrefix(moved)..];
    if spawns {
      AppendOk(kept, Pipe(Width - PipeSpeed, top));
    }
  }

  /** A frame preserves the counter bound, the pipe list invariant and a non-negative score. */
  lemma StepInv(s: GameState, events: seq<Event>, top: int)
    requires Inv(s) && InGapRange(top)
    ensures Inv(Step(s, events, top).1)
  {
    NextPipesOk(s.pipes, top, s.spawnTimer + 1 > SpawnThreshold);
  }

  /** The score grows by the number of pipes in the scoring window, which under
      the invariant is one when a pipe stands at x = -41 and zero otherwise. */
  lemma StepScore(s: GameState, events: seq<Event>, top: int)
    requires Inv(s) && InGapRange(top) && !AnyQuit(events)
    ensures var t := Step(s, events, top).1;
            t.score == s.score + (if exists i :: 0 <= i < |t.pipes| && t.pipes[i].x == -41 then 1 else 0)
  {
    StepInv(s, events, top);
    ScoreGainOk(Step(s, events, top).1.pipes);
  }

  /** The score never decreases. */
  lemma StepScoreMonotone(s: GameState, events: seq<Event>, top: int)
    ensures Step(s, events, top).1.score >= s.score
  {
  }

  /** A frame ends the session with the score exactly when its new position and
      pipes collide; leaving the playfield always does. */
  lemma StepOver(s: GameState, events: seq<Event>, top: int)
    requires !AnyQuit(events)
    ensures var (r, t) := Step(s, events, top);
            (r.Over? <==> Collides(t.y2, t.pipes)) &&
            (r.Over? ==> r.score == t.score) &&
            (OutOfBounds(t.y2) ==> r.Over?)
  {
  }

  /** How a session ended: the last result, the state after the last tick and the
      number of ticks run. */
  datatype SessionEnd = SessionEnd(result: TickResult, last: GameState, ticks: nat)

  /** game_loop's `while True`: ticks until one returns, or until the frames run out. */
  function Session(s: GameState, frames: seq<seq<Event>>, tops: seq<int>): SessionEnd
    requires |tops| == |frames|
    decreases |frames|
  {
    if frames == [] then SessionEnd(Running, s, 0)
    else
      var (r, t) := Step(s, frames[0], tops[0]);
      if r != Running then SessionEnd(r, t, 1)
      else
        var e := Session(t, frames[1..], tops[1..]);
        e.(ticks := e.ticks + 1)
  }

  /** A session's end seen from n ticks earlier. */
  function Later(e: SessionEnd, n: nat): SessionEnd {
    e.(ticks := e.ticks + n)
  }

  /** The session from tick i, once tick i has given (r, t). */
  lemma SessionAfterTick(s: GameState, frames: seq<seq<Event>>, tops: seq<int>, i: nat,
                         r: TickResult, t: GameState)
    requires |tops| == |frames| && i < |frames|
    requires (r, t) == Step(s, frames[i], tops[i])
    ensures Session(s, frames[i..], tops[i..]) ==
              if r != Running then SessionEnd(r, t, 1)
              else Later(Session(t, frames[i + 1..], tops[i + 1..]), 1)
  {
    assert frames[i..][1..] == frames[i + 1..] && tops[i..][1..] == tops[i + 1..];
  }

  /** The session returns a score only after a tick that collided, and the score
      it returns is the score at that point; the invariant holds throughout and
      the score never falls. */
  lemma {:induction false} SessionEnds(s: GameState, frames: seq<seq<Event>>, tops: seq<int>)
    requires Inv(s) && |tops| == |frames| && forall i :: 0 <= i < |tops| ==> InGapRange(tops[i])
    ensures var e := Session(s, frames, tops);
            Inv(e.last) && e.last.score >= s.score && e.ticks <= |frames| &&
            (e.result.Over? ==> e.result.score == e.last.score && Collides(e.last.y2, e.last.pipes)) &&
            (e.result == Running ==> e.ticks == |frames|)
    decreases |frames|
  {
    if frames != [] {
      StepInv(s, frames[0], tops[0]);
      var (r, t) := Step(s, frames[0], tops[0]);
      if r == Running {
        SessionEnds(t, frames[1..], tops[1..]);
      } else if r.Over? {
        StepOver(s, frames[0], tops[0]);
      }
    }
  }

  /** A session uses every frame while it keeps running, and at least one frame
      before it returns. */
  lemma {:induction false} SessionTicks(s: GameState, frames: seq<seq<Event>>, tops: seq<int>)
    requires |tops| == |frames|
    ensures var e := Session(s, frames, tops);
            e.ticks <= |frames| &&
            (e.result == Running ==> e.ticks == |frames|) &&
            (e.result != Running ==> 0 < e.ticks)
    decreases |frames|
  {
    if frames != [] {
      var (r, t) := Step(s, frames[0], tops[0]);
      if r == Running {
        SessionTicks(t, frames[1..], tops[1..]);
      }
    }
  }

  /** A tick returns "quit" exactly when its frame held a QUIT event. */
  lemma StepQuitIff(s: GameState, events: seq<Event>, top: int)
    ensures Step(s, events, top).0 == Quit <==> AnyQuit(events)
  {
  }

  /** A session returns "quit" only after a frame that held a QUIT event, among
      the frames it used. */
  lemma {:induction false} SessionQuit(s: GameState, frames: seq<seq<Event>>, tops: seq<int>)
    requires |tops| == |frames|
    ensures Session(s, frames, tops).ticks <= |frames|
    ensures var e := Session(s, frames, tops);
            e.result == Quit ==> exists k :: 0 <= k < e.ticks && AnyQuit(frames[k])
    decreases |frames|
  {
    if frames != [] {
      var rt := Step(s, frames[0], tops[0]);
      assert frames[0..] == frames && tops[0..] == tops;
      SessionAfterTick(s, frames, tops, 0, rt.0, rt.1);
      StepQuitIff(s, frames[0], tops[0]);
      if rt.0 == Running {
        SessionQuit(rt.1, frames[1..], tops[1..]);
        var e := Session(rt.1, frames[1..], tops[1..]);
        if e.result == Quit {
          var k :| 0 <= k < e.ticks && AnyQuit(frames[1..][k]);
          assert frames[1..][k] == frames[k + 1];
        }
      }
    }
  }

  /** A frame with neither a QUIT nor a jump in it. */
  predicate NoInput(events: seq<Event>) {
    !AnyQuit(events) && !AnyJump(events)
  }

  /** The player's height after k frames without input: 300 + (1 + 2 + ... + k) / 2. */
  function IdleY2(k: nat): int {
    if k == 0 then StartY2 else IdleY2(k - 1) + k
  }

  lemma {:induction false} IdleY2Closed(k: nat)
    ensures 2 * IdleY2(k) == 2 * StartY2 + k * (k + 1)
  {
    if k > 0 { IdleY2Closed(k - 1); }
  }

  lemma {:induction false} IdleY2Grows(j: nat, k: nat)
    requires j <= k
    ensures StartY2 <= IdleY2(j) <= IdleY2(k)
    decreases k
  {
    if j < k { IdleY2Grows(j, k - 1); }
    else if k > 0 { IdleY2Grows(k - 1, k - 1); }
  }

  /** The state after k frames without input, for k <= 30. */
  function IdleState(k: nat): GameState {
    GameState(IdleY2(k), k * Gravity2, [], k, 0)
  }

  lemma IdleStep(k: nat, events: seq<Event>, top: int)
    requires k < 30 && NoInput(events)
    ensures Step(IdleState(k), events, top) ==
              (if k + 1 == 30 then Over(0) else Running, IdleState(k + 1))
  {
    IdleY2Closed(29);
    IdleY2Closed(30);
    if k + 1 < 30 { IdleY2Grows(k + 1, 29); }
  }

  lemma {:induction false} IdleSessionFrom(k: nat, frames: seq<seq<Event>>, tops: seq<int>)
    requires k < 30 && |tops| == |frames| && |frames| >= 30
    requires forall i :: 0 <= i < 30 ==> NoInput(frames[i])
    ensures Session(IdleState(k), frames[k..], tops[k..]) == SessionEnd(Over(0), IdleState(30), 30 - k)
    decreases 30 - k
  {
    IdleStep(k, frames[k], tops[k]);
    assert frames[k..][1..] == frames[k + 1..] && tops[k..][1..] == tops[k + 1..];
    if k + 1 < 30 {
      IdleSessionFrom(k + 1, frames, tops);
    }
  }

  /** From the initial state, with no input, the first collision is on tick 30: the
      player has fallen through the bottom bound, no pipe has spawned, the score is 0. */
  lemma IdleRun(frames: seq<seq<Event>>, tops: seq<int>)
    requires |tops| == |frames| && |frames| >= 30
    requires forall i :: 0 <= i < 30 ==> NoInput(frames[i])
    ensures var e := Session(Initial(), frames, tops);
            e.result == Over(0) && e.ticks == 30 && e.last.pipes == [] &&
            OutOfBounds(e.last.y2)
  {
    assert IdleState(0) == Initial();
    IdleSessionFrom(0, frames, tops);
    IdleY2Closed(30);
  }

  /** The input loop of game_loop: a QUIT ends the session; every SPACE or touch
      sets the velocity to the jump value. */
  method ScanEvents(events: seq<Event>, vel: int) returns (quit: bool, v: int)
    ensures quit <==> AnyQuit(events)
    ensures !quit ==> v == if AnyJump(events) then Jump2 else vel
  {
    v := vel;
    var i := 0;
    while i < |events|
      invariant 0 <= i <= |events|
      invariant forall j :: 0 <= j < i ==> events[j] != QuitEvent
      invariant v == if exists j :: 0 <= j < i && IsJump(events[j]) then Jump2 else vel
    {
      if events[i] == QuitEvent {
        return true, v;
      }
      if IsJump(events[i]) {
        v := Jump2;
      }
      i := i + 1;
    }
    quit := false;
  }

  /** game_loop's state, updated in place frame by frame. */
  class Game {
    var y2: int
    var vel2: int
    var pipes: seq<Pipe>
    var spawnTimer: int
    var score: int

    function State(): GameState
      reads this
    {
      GameState(y2, vel2, pipes, spawnTimer, score)
    }

    /** A fresh session, as game_loop sets up its locals. */
    constructor ()
      ensures State() == Initial()
    {
      y2, vel2, pipes, spawnTimer, score := StartY2, 0, [], 0, 0;
    }

    /** One pass through the body of game_loop's `while True` (lines 204-258). */
    method Tick(events: seq<Event>, top: int) returns (r: TickResult)
      requires InGapRange(top)
      modifies this
      ensures (r, State()) == Step(old(State()), events, top)
    {
      // input
      var quit, vel := ScanEvents(events, vel2);
      if quit {
        return Quit;
      }
      Update(vel, top);
      // collision
      var collided := DetectCollision(y2, pipes);
      r := if collided then Over(score) else Running;
    }

    /** The rest of the loop body before the collision test: physics, spawn, move,
        cull and score (lines 213-232). */
    method Update(vel: int, top: int)
      modifies this
      ensures State() == AfterFrame(old(State()), vel, top)
    {
      // physics
      vel2 := vel + Gravity2;
      y2 := y2 + vel2;
      // spawn
      ghost var spawns := spawnTimer + 1 > SpawnThreshold;
      ghost var grown := if spawns then pipes + [Pipe(Width, top)] else pipes;
      spawnTimer := spawnTimer + 1;
      if spawnTimer > SpawnThreshold {
        spawnTimer := 0;
        pipes := pipes + [Pipe(Width, top)];
      }
      assert pipes == grown;
      // move, cull, score
      MovePipes();
      assert pipes == Shift(grown);
      pipes := Cull(pipes);
      assert pipes == NextPipes(old(pipes), top, spawns);
      AddScore();
    }

    /** `for pipe in pipes: pipe[0] -= PIPE_SPEED`, one pipe at a time. */
    method MovePipes()
      modifies this`pipes
      ensures pipes == Shift(old(pipes))
    {
      var k := 0;
      while k < |pipes|
        invariant 0 <= k <= |pipes| == |old(pipes)|
        invariant forall j :: 0 <= j < k ==> pipes[j] == Moved(old(pipes)[j])
        invariant forall j :: k <= j < |pipes| ==> pipes[j] == old(pipes)[j]
      {
        pipes := pipes[k := pipes[k].(x := pipes[k].x - PipeSpeed)];
        k := k + 1;
      }
    }

    /** The scoring loop: one point per pipe in the scoring window. */
    method AddScore()
      modifies this`score
      ensures score == old(score) + ScoreGain(pipes)
    {
      var n := 0;
      assert pipes[..0] == [];
      while n < |pipes|
        invariant 0 <= n <= |pipes|
        invariant score == old(score) + ScoreGain(pipes[..n])
      {
        assert pipes[..n + 1][..n] == pipes[..n];
        if InScoreWindow(pipes[n]) {
          score := score + 1;
        }
        n := n + 1;
      }
      assert pipes[..n] == pipes;
    }

    /** game_loop's `while True` over the frames given, one random gap top per frame. */
    method Play(frames: seq<seq<Event>>, tops: seq<int>) returns (r: TickResult, ticks: nat)
      requires |tops| == |frames| && forall i :: 0 <= i < |tops| ==> InGapRange(tops[i])
      modifies this
      ensures Session(old(State()), frames, tops) == SessionEnd(r, State(), ticks)
    {
      ticks := 0;
      r := Running;
      while ticks < |frames|
        invariant ticks <= |frames| && r == Running
        invariant Session(old(State()), frames, tops) ==
                  Later(Session(State(), frames[ticks..], tops[ticks..]), ticks)
      {
        ghost var s0 := State();
        r := Tick(frames[ticks], tops[ticks]);
        SessionAfterTick(s0, frames, tops, ticks, r, State());
        ticks := ticks + 1;
        if r != Running {
          return;
        }
      }
      assert frames[ticks..] == [] && tops[ticks..] == [];
    }
  }

  /** A fresh session from the initial state (a call of game_loop). */
  method GameLoop(frames: seq<seq<Event>>, tops: seq<int>) returns (r: TickResult, ticks: nat)
    requires |tops| == |frames| && forall i :: 0 <= i < |tops| ==> InGapRange(tops[i])
    ensures var e := Session(Initial(), frames, tops);
            r == e.result && ticks == e.ticks
  {
    var g := new Game();
    r, ticks := g.Play(frames, tops);
  }
}
