# Flappy Burger: a verified model of the game loop

Flappy Burger is a small pygame side-scroller. A burger falls under gravity. Each SPACE
press or screen tap makes it jump. Pipes with a fixed 180-pixel gap scroll in from the
right. A point is scored each time a pipe's right edge passes the burger. A collision
with a pipe, or leaving the playfield, ends the run. A start screen, the game and a
game-over screen follow each other until the player quits.

This project models the logic of `main.py`:

- `config.dfy` (module `Config`): the constants of the game.
- `input.dfy` (module `Input`): input events, `is_touch_event`, and the event scan of the
  start and game-over screens.
- `pipes.dfy` (module `Pipes`): a pipe, moving it, the culling comprehension, the scoring
  window and the invariant of the pipe list.
- `collision.dfy` (module `Collision`): the player's hitbox, the pipe rectangles,
  `colliderect`, and the bounds test.
- `game.dfy` (module `Gameplay`): the state `game_loop` keeps between frames. A pure
  `Step` gives one frame as a function. The class `Game` holds the same state in fields.
  Its `Tick` method runs a frame in place (input loop, physics, spawn, in-place move, cull,
  scoring loop, collision loop) and is proved equal to `Step`. `Play` runs frames until a
  tick returns, and is proved equal to the pure `Session`.
- `screens.dfy` (module `Screens`): the two waiting screens, the game as `main` sees it,
  and `main`'s cycle as a state machine over screens. The pure `MainRun` gives what `main`
  does on an event stream, each screen running on the frames the previous one left.
  `RunMain`, the loop of `main`, is proved equal to it.

The player's height and velocity only take multiples of 0.5. They are kept as integers in
half-pixels: start 600, gravity 1, jump -14. Pipe coordinates are integers, as in the
code. The random gap top is a parameter in [80, 340] passed to every frame. Input arrives
as a sequence of frames, each the list of events `pygame.event.get()` returns for that
frame.

Behaviour taken from `main.py` as written:

- A pipe is removed when x + 120 <= 0. A pipe whose right edge is exactly at 0 is gone.
- A point is scored when x + 120 < 80 <= x + 123. The window is open on the left and
  closed on the right.
- `colliderect` is strict: rectangles whose edges only touch do not collide.
- The spawn counter fires when it exceeds 100. So a pipe spawns every 101 frames, and the
  first one on frame 101.
- The bottom bound fires when y + 90 >= 610, so at y >= 520.

## Model

| member | source | states |
|---|---|---|
| `Input.IsTouchEvent` | main.py:110-112 | A touch is exactly a mouse-button-down event. Defines the predicate. |
| `Input.IsJump` | main.py:210 | SPACE pressed or a touch: a jump in play, "start" or "retry" on the screens. Defines the predicate. |
| `Input.FrameChoiceIsFirst` | main.py:123-130 | A screen's frame decides "quit" exactly when the first QUIT-or-jump event is a QUIT. It decides "go on" exactly when that event is SPACE or a touch. It stays undecided exactly when the frame has neither. |
| `Input.ClassifyFrame` | main.py:155-161 | The in-order scan of one frame's events returns the choice of its first deciding event. |
| `Input.Await` | main.py:154-161 | A screen's `while True` as a value. It stops on the first frame that decides, with that frame's choice, after at most as many frames as it is given. With no deciding frame it uses every frame. |
| `Input.AwaitChoice` | main.py:154-161 | The frame loop returns what `Await` gives. It returns on the first frame that decides, with that frame's choice. Every earlier frame was undecided. With no deciding frame it is still waiting after all frames. |
| `Pipes.Cull` | main.py:227 | The comprehension keeps exactly the pipes with x + 120 > 0 and never lengthens the list. |
| `Pipes.CullAppend` | main.py:227 | Filtering a concatenation filters each part, in order. |
| `Pipes.ScoreGain` | main.py:230-232 | The points one frame adds: one per pipe in the window x + 120 < 80 <= x + 123. `Pipes.ScoreGainOk` states what it comes to. |
| `Pipes.DeadPrefix` | main.py:227 | The count of leading pipes that have left the screen. The pipe after them is still on screen. |
| `Pipes.CullAscending` | main.py:224-227 | On a list ordered by x, culling keeps a suffix in order. Every dropped pipe is off screen and every kept pipe is on screen. |
| `Pipes.ShiftAscending` | main.py:224-225 | Moving every pipe left by the same amount keeps the list ordered by x. |
| `Pipes.WindowIsOneColumn` | main.py:231 | On the spawn x's grid of multiples of 3, the scoring window holds exactly x = -41. |
| `Pipes.ScoreGainOk` | main.py:229-232 | Under the pipe list invariant, one frame scores 1 if some pipe stands at x = -41 and 0 otherwise. |
| `Pipes.ScoredOnceInLifetime` | main.py:222-232 | A pipe spawned at x = 400 is in the scoring window on its 147th move and on no other. It is still on screen then. |
| `Collision.RectCoordWithinHalf` | main.py:241-246 | The integer hitbox top is within half a pixel of y + 20. |
| `Collision.Overlaps` | main.py:253 | `colliderect` as strict overlap on both axes. `Collision.HitsPipeIff` states what it means for the hitbox and a pipe. |
| `Collision.HitsPipeIff` | main.py:248-255 | The hitbox hits a pipe exactly when their columns overlap and the hitbox is outside the gap, overlapping the top or the bottom rectangle. |
| `Collision.NoHitInsideGap` | main.py:240-255 | A hitbox whose vertical extent lies inside [top, top + 180] hits no pipe, whatever rounding gives its integer top. |
| `Collision.NoHitWhenClear` | main.py:240-255 | A pipe whose columns miss [100, 150) is never hit. |
| `Collision.DetectCollision` | main.py:248-258 | The loop over pipes (with `break`) and the bounds test flag a collision exactly when the hitbox hits some pipe or the player is out of bounds. |
| `Collision.BoundsAlwaysCollide` | main.py:257-258 | y <= -10 or y + 90 >= 610 is a collision whatever the pipes are. |
| `Gameplay.ScanEvents` | main.py:205-211 | The input loop reports a quit exactly when a QUIT is among the events. Otherwise the velocity is -7 after any SPACE or touch, and unchanged if there is none. |
| `Gameplay.Step` | main.py:204-258 | One frame as a value: a QUIT returns "quit" with the state untouched, otherwise input, physics, spawn, move, cull, score, then the collision verdict. `Gameplay.Game.Tick` is proved equal to it; the `Step…` lemmas state its properties. |
| `Gameplay.StepQuit` | main.py:205-207 | A QUIT ends the session before any physics, leaving the state as it was. |
| `Gameplay.StepQuitIff` | main.py:205-207 | A tick returns "quit" exactly when its frame holds a QUIT event. A collision never reads as a quit. |
| `Gameplay.StepPhysics` | main.py:209-215 | The new velocity is the jump value or the old velocity, plus 0.5. The new height is the old height plus the new velocity. |
| `Gameplay.JumpIdempotent` | main.py:209-211 | A second jump in the same frame has no further effect. |
| `Gameplay.StepSpawnTimer` | main.py:217-220 | The counter stays in 0..100. It wraps from 100 to 0 and otherwise grows by one. |
| `Gameplay.StepPipes` | main.py:217-227 | After a frame, the pipes are the old pipes moved 3 left with their gaps kept and in order, minus the leading ones now off screen. A new pipe at x = 397 with the drawn gap top goes at the end exactly when the counter stood at 100. |
| `Gameplay.NextPipesShape` | main.py:217-227 | On a list ordered by x, spawn, move and cull give the old pipes moved 3 left minus the leading ones now off screen, then the new pipe at x = 397 if one spawned. Every kept pipe is on screen. |
| `Gameplay.NextPipesOk` | main.py:217-227 | Spawning with a gap top in [80, 340], moving and culling keep the pipe list invariant. |
| `Gameplay.StepInv` | main.py:217-227 | A frame keeps the counter in 0..100, the pipe x values strictly increasing, on the grid x = 400 (mod 3), on screen and below 400, the gap tops in [80, 340], and the score non-negative. |
| `Gameplay.StepScore` | main.py:229-232 | The score grows by exactly 1 when a pipe stands at x = -41 after the move and by 0 otherwise. |
| `Gameplay.StepScoreMonotone` | main.py:229-232 | The score never decreases. |
| `Gameplay.StepOver` | main.py:239-258 | A frame ends the session exactly when its new height and pipes collide, returning the new score. Leaving the bounds always ends it. |
| `Gameplay.Session` | main.py:202-279 | The `while True` loop as a value: ticks until one returns "quit" or a score, or the frames run out. `Gameplay.Game.Play` is proved equal to it. |
| `Gameplay.SessionTicks` | main.py:202-279 | A session uses every frame while it keeps running, and at least one frame before it returns. |
| `Gameplay.SessionEnds` | main.py:202-279 | Over a session the invariant holds and the score never falls. A score is returned only after a tick that collided, and it is the score at that tick. A session still running has used every frame. |
| `Gameplay.SessionQuit` | main.py:202-207 | A session never uses more frames than it is given. It returns "quit" only after one of the frames it used held a QUIT event. |
| `Gameplay.IdleRun` | main.py:196-258 | From the initial state with no input, the first collision is on tick 30. The player is out of bounds, no pipe has spawned, and the score is 0. |
| `Gameplay.Game.constructor` | main.py:196-200 | A session starts at height 300 with velocity 0, no pipes, counter 0 and score 0. |
| `Gameplay.Game.Tick` | main.py:204-258 | One pass of the loop body, on the fields in place, gives the result and new state of `Step`. |
| `Gameplay.Game.Update` | main.py:213-232 | Physics, spawn, in-place move, cull and the scoring loop, run on the fields, give the state `AfterFrame` describes. |
| `Gameplay.Game.MovePipes` | main.py:224-225 | Moving each pipe in place leaves the list equal to every old pipe moved 3 to the left. |
| `Gameplay.Game.AddScore` | main.py:229-232 | The scoring loop adds one point per pipe in the window. |
| `Gameplay.Game.Play` | main.py:202-279 | The `while True` loop runs ticks until one returns "quit" or a score, as `Session` does. |
| `Gameplay.GameLoop` | main.py:195-200 | A call of `game_loop` is the session from the initial state. |
| `Screens.RunStartScreen` | main.py:147-161 | The start screen returns what `Await` gives: "quit" or "start" on its first deciding frame, as that frame's first deciding event says. It returns "quit" only from a frame holding a QUIT event. |
| `Screens.RunGameOverScreen` | main.py:116-130 | The game-over screen returns what `Await` gives: "quit" or "retry" on its first deciding frame. It returns "quit" only from a frame holding a QUIT event. |
| `Screens.RunGame` | main.py:289-291 | `main` gets exactly the session's result: nothing while it runs, "quit" exactly when the session returns "quit", and a score exactly when the session returns that score. It uses the session's frames. A score is non-negative and comes from a frame that collided. |
| `Screens.Next` | main.py:283-295 | One step of `main`: a "quit" from any screen ends it; otherwise start, then play, then game over with the score, then start again. |
| `Screens.ExitOnlyOnQuit` | main.py:283-295 | `main` exits exactly when some screen has returned "quit". |
| `Screens.ScreenCycle` | main.py:283-295 | Without a "quit", `main` goes round Start, Play, GameOver and back to Start. After n results it is n steps further round this cycle. |
| `Screens.ScreenRun` | main.py:285-293 | What the current screen returns to `main` and how many frames it takes. It returns only a result that screen can give, after at least one frame, and uses every frame while it waits. |
| `Screens.MainRun` | main.py:283-295 | `main` as a value: the screen it ends on and the results the screens returned, each screen run on the frames the previous one left. |
| `Screens.MainRunFollowsScript` | main.py:283-295 | The results `main` collects are ones the screens can return one after the other, and `main` ends on the screen they lead to. |
| `Screens.MainExitsOnQuit` | main.py:283-295 | `main` exits exactly when one of its screens returned "quit". |
| `Screens.MainQuitFrame` | main.py:283-295 | `main` exits only after a frame that held a QUIT event. |
| `Screens.QuitFirstFrame` | main.py:283-295 | A QUIT that decides the first frame of any screen makes `main` return at once, with "quit" as the only result. |
| `Screens.MainRunAt` | main.py:283-295 | After a screen returns, `main` either stops on that screen, stops on "quit", or goes on from the next screen on the frames left. |
| `Screens.RunScreen` | main.py:285-293 | Awaiting the current screen gives what `ScreenRun` says, and how `main` goes on after it. |
| `Screens.RunMain` | main.py:283-295 | The loop of `main` returns exactly what `MainRun` gives on the whole event stream. So it follows the screen state machine, exits exactly on a "quit", and exits only if some frame held a QUIT event. |

## Left out

- Rendering: the gradient background, text with shadow, every blit, `font.render` and `pygame.display.update`. They only draw.
- Asset, sound and music loading with their fallbacks, and every `.play()`. They are I/O with no effect on the game state.
- Frame pacing and scheduling (`clock.tick(60)`, `asyncio.sleep(0)`, `asyncio.run`) and the final `pygame.quit()`. They do not change the state.
- The start screen's floating burger and blinking prompt (`float_offset`, `blink_timer`). They are cosmetic.
- `random.randint(80, 340)`: a gap top in that range is supplied with every frame instead.
- pygame itself. `colliderect` is a predicate of strict overlap on both axes. The conversion of `player_y + 20` to an integer rectangle coordinate is `RectCoord`, which rounds down. The lemmas about the hitbox hold for any rounding within half a pixel.
- Floating point. The player's values are exact multiples of 0.5 stored as integers. They stay far below where a double loses precision, because a run ends once the player leaves the playfield.
- Pipe identity. Each pipe is a value in a sequence, and the move loop replaces each element in place. The source never shares a pipe list between two owners, so there is no aliasing to model.
- Waiting forever. A screen or session that has used all the given frames without returning reports that it is still waiting (`None`, or `Running`). It does not block.
