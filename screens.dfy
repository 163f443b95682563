/** The three screens and the `main` loop that cycles through them. */
module Screens {
  import opened Input
  import opened Collision
  import opened Gameplay

  datatype Option<T> = None | Some(value: T)

  /** What a screen returns to `main`: "quit", "start", "retry" or a session's score. */
  datatype Outcome = QuitOutcome | Started | Retried | Finished(score: int)

  datatype Screen = StartScreen | Playing | GameOverScreen(score: int) | Exited

  /** What a waiting screen returns for a choice: nothing yet, "quit", or its own
      answer to SPACE or a touch. */
  function Answer(c: Choice, advance: Outcome): Option<Outcome> {
    match c
    case Undecided => None
    case QuitChosen => Some(QuitOutcome)
    case Advance => Some(advance)
  }

  /** A waiting screen run on the frames: what it returns and how many frames it takes. */
  function WaitRun(frames: seq<seq<Event>>, advance: Outcome): (Option<Outcome>, nat) {
    var (c, used) := Await(frames);
    (Answer(c, advance), used)
  }

  /** game_loop's result as `main` sees it. */
  function GameAnswer(r: TickResult): Option<Outcome> {
    match r
    case Running => None
    case Quit => Some(QuitOutcome)
    case Over(n) => Some(Finished(n))
  }

  /** A session from the initial state: what game_loop returns and how many frames it takes. */
  function GameRun(frames: seq<seq<Event>>, tops: seq<int>): (Option<Outcome>, nat)
    requires |tops| == |frames|
  {
    var e := Session(Initial(), frames, tops);
    (GameAnswer(e.result), e.ticks)
  }

  /** start_screen: waits for the first frame that decides. None: still waiting
      when the frames run out. */
  method RunStartScreen(frames: seq<seq<Event>>) returns (o: Option<Outcome>, used: nat)
    ensures (o, used) == WaitRun(frames, Started)
    ensures used <= |frames|
    ensures o == None <==> forall k :: 0 <= k < |frames| ==> FrameChoice(frames[k]) == Undecided
    ensures o != None ==>
              0 < used && FrameChoice(frames[used - 1]) != Undecided &&
              o.value == (if FrameChoice(frames[used - 1]) == QuitChosen then QuitOutcome else Started)
    ensures o != None ==> forall k :: 0 <= k < used - 1 ==> FrameChoice(frames[k]) == Undecided
    ensures o == Some(QuitOutcome) ==> AnyQuit(frames[used - 1])
  {
    var c;
    c, used := AwaitChoice(frames);
    if c == QuitChosen {
      FrameChoiceIsFirst(frames[used - 1]);
    }
    o := match c
      case Undecided => None
      case QuitChosen => Some(QuitOutcome)
      case Advance => Some(Started);
  }

  /** game_over_screen: like the start screen, but a SPACE or touch means "retry". */
  method RunGameOverScreen(frames: seq<seq<Event>>) returns (o: Option<Outcome>, used: nat)
    ensures (o, used) == WaitRun(frames, Retried)
    ensures used <= |frames|
    ensures o == None <==> forall k :: 0 <= k < |frames| ==> FrameChoice(frames[k]) == Undecided
    ensures o != None ==>
              0 < used && FrameChoice(frames[used - 1]) != Undecided &&
              o.value == (if FrameChoice(frames[used - 1]) == QuitChosen then QuitOutcome else Retried)
    ensures o != None ==> forall k :: 0 <= k < used - 1 ==> FrameChoice(frames[k]) == Undecided
    ensures o == Some(QuitOutcome) ==> AnyQuit(frames[used - 1])
  {
    var c;
    c, used := AwaitChoice(frames);
    if c == QuitChosen {
      FrameChoiceIsFirst(frames[used - 1]);
    }
    o := match c
      case Undecided => None
      case QuitChosen => Some(QuitOutcome)
      case Advance => Some(Retried);
  }

  /** game_loop as `main` sees it: "quit", or the score of a session that collided. */
  method RunGame(frames: seq<seq<Event>>, tops: seq<int>) returns (o: Option<Outcome>, used: nat)
    requires |tops| == |frames| && forall i :: 0 <= i < |tops| ==> InGapRange(tops[i])
    ensures (o, used) == GameRun(frames, tops)
    ensures var e := Session(Initial(), frames, tops);
            used == e.ticks && (o == None <==> e.result == Running) &&
            (o == Some(QuitOutcome) <==> e.result == Quit) &&
            (forall n :: o == Some(Finished(n)) <==> e.result == Over(n))
    ensures used <= |frames|
    ensures o == None ==> used == |frames|
    ensures o != None ==> 0 < used && (o.value.QuitOutcome? || o.value.Finished?)
    ensures o == Some(QuitOutcome) ==> exists k :: 0 <= k < used && AnyQuit(frames[k])
    ensures forall n :: o == Some(Finished(n)) ==>
              var e := Session(Initial(), frames, tops);
              n == e.last.score && n >= 0 && Collides(e.last.y2, e.last.pipes)
  {
    var r;
    r, used := GameLoop(frames, tops);
    SessionEnds(Initial(), frames, tops);
    SessionQuit(Initial(), frames, tops);
    SessionTicks(Initial(), frames, tops);
    o := match r
      case Running => None
      case Quit => Some(QuitOutcome)
      case Over(n) => Some(Finished(n));
  }

  /** The results each screen can return. */
  predicate Fits(s: Screen, o: Outcome) {
    match s
    case StartScreen => o.QuitOutcome? || o.Started?
    case Playing => o.QuitOutcome? || o.Finished?
    case GameOverScreen(_) => o.QuitOutcome? || o.Retried?
    case Exited => false
  }

  /** One step of `main`: a "quit" from any screen ends the program; otherwise
      start -> play -> game over (with the score) -> start. */
  function Next(s: Screen, o: Outcome): Screen
    requires Fits(s, o)
  {
    if o.QuitOutcome? then Exited
    else match s
      case StartScreen => Playing
      case Playing => GameOverScreen(o.score)
      case GameOverScreen(_) => StartScreen
  }

  /** A sequence of results the screens can return one after the other from s. */
  predicate Script(s: Screen, os: seq<Outcome>)
    decreases |os|
  {
    os == [] || (Fits(s, os[0]) && Script(Next(s, os[0]), os[1..]))
  }

  /** The screen `main` is on after the results os. */
  function Visit(s: Screen, os: seq<Outcome>): Screen
    requires Script(s, os)
    decreases |os|
  {
    if os == [] then s else Visit(Next(s, os[0]), os[1..])
  }

  lemma {:induction false} VisitAppend(s: Screen, os: seq<Outcome>, o: Outcome)
    requires Script(s, os) && Fits(Visit(s, os), o)
    ensures Script(s, os + [o]) && Visit(s, os + [o]) == Next(Visit(s, os), o)
    decreases |os|
  {
    if os != [] {
      assert (os + [o])[1..] == os[1..] + [o];
      VisitAppend(Next(s, os[0]), os[1..], o);
    } else {
      assert [o][1..] == [];
    }
  }

  /** `main` ends exactly when a screen returned "quit". */
  lemma {:induction false} ExitOnlyOnQuit(s: Screen, os: seq<Outcome>)
    requires s != Exited && Script(s, os)
    ensures Visit(s, os) == Exited <==> QuitOutcome in os
    decreases |os|
  {
    if os != [] {
      if os[0] == QuitOutcome {
        assert os[1..] == [];
      } else {
        ExitOnlyOnQuit(Next(s, os[0]), os[1..]);
        assert QuitOutcome in os <==> QuitOutcome in os[1..] by {
          assert os == [os[0]] + os[1..];
        }
      }
    }
  }

  /** The position of a screen in the cycle. */
  function Phase(s: Screen): nat {
    match s
    case StartScreen => 0
    case Playing => 1
    case GameOverScreen(_) => 2
    case Exited => 3
  }

  /** Without a "quit", `main` goes round Start -> Play -> GameOver -> Start:
      after n results it is n steps further round the cycle. */
  lemma {:induction false} ScreenCycle(s: Screen, os: seq<Outcome>)
    requires s != Exited && Script(s, os) && QuitOutcome !in os
    ensures Visit(s, os) != Exited
    ensures Phase(Visit(s, os)) == (Phase(s) + |os|) % 3
    decreases |os|
  {
    if os != [] {
      assert os[0] in os;
      assert forall o :: o in os[1..] ==> o in os;
      ScreenCycle(Next(s, os[0]), os[1..]);
    }
  }

  /** The screen s run on the frames from the first: what it returns to `main`
      and how many frames it takes. */
  function ScreenRun(s: Screen, frames: seq<seq<Event>>, tops: seq<int>): (r: (Option<Outcome>, nat))
    requires s != Exited && |tops| == |frames|
    ensures r.1 <= |frames|
    ensures r.0 == None ==> r.1 == |frames|
    ensures r.0 != None ==> 0 < r.1 && Fits(s, r.0.value)
  {
    match s
    case StartScreen => WaitRun(frames, Started)
    case GameOverScreen(_) => WaitRun(frames, Retried)
    case Playing =>
      SessionTicks(Initial(), frames, tops);
      GameRun(frames, tops)
  }

  /** `main` as a value: the screen it is on when it returns or the frames run
      out, and the results the screens returned on the way. */
  function MainRun(s: Screen, frames: seq<seq<Event>>, tops: seq<int>): (Screen, seq<Outcome>)
    requires |tops| == |frames|
    decreases |frames|
  {
    if s == Exited || frames == [] then (s, [])
    else
      var (o, used) := ScreenRun(s, frames, tops);
      if o == None then (s, [])
      else
        var m := MainRun(Next(s, o.value), frames[used..], tops[used..]);
        (m.0, [o.value] + m.1)
  }

  /** The results `main` collects are ones the screens can return one after the
      other, and it ends on the screen they lead to. */
  lemma {:induction false} MainRunFollowsScript(s: Screen, frames: seq<seq<Event>>, tops: seq<int>)
    requires s != Exited && |tops| == |frames|
    ensures var m := MainRun(s, frames, tops);
            Script(s, m.1) && m.0 == Visit(s, m.1)
    decreases |frames|
  {
    if frames != [] {
      var (o, used) := ScreenRun(s, frames, tops);
      if o != None {
        var s' := Next(s, o.value);
        var m := MainRun(s', frames[used..], tops[used..]);
        if s' != Exited {
          MainRunFollowsScript(s', frames[used..], tops[used..]);
        } else {
          assert frames[used..] == [] || s' == Exited;
        }
        assert ([o.value] + m.1)[1..] == m.1;
      }
    }
  }

  /** `main` exits exactly when a screen returned "quit". */
  lemma MainExitsOnQuit(frames: seq<seq<Event>>, tops: seq<int>)
    requires |tops| == |frames|
    ensures var m := MainRun(StartScreen, frames, tops);
            m.0 == Exited <==> QuitOutcome in m.1
  {
    MainRunFollowsScript(StartScreen, frames, tops);
    ExitOnlyOnQuit(StartScreen, MainRun(StartScreen, frames, tops).1);
  }

  /** A QUIT that decides the first frame of any screen makes `main` return at once. */
  lemma QuitFirstFrame(s: Screen, frames: seq<seq<Event>>, tops: seq<int>)
    requires s != Exited && |tops| == |frames| && frames != []
    requires if s == Playing then AnyQuit(frames[0]) else FrameChoice(frames[0]) == QuitChosen
    ensures MainRun(s, frames, tops) == (Exited, [QuitOutcome])
  {
    if s == Playing {
      StepQuitIff(Initial(), frames[0], tops[0]);
      assert Session(Initial(), frames, tops).result == Quit;
    } else {
      assert Await(frames) == (QuitChosen, 1);
    }
    assert ScreenRun(s, frames, tops) == (Some(QuitOutcome), 1);
    assert MainRun(Exited, frames[1..], tops[1..]) == (Exited, []);
    assert [QuitOutcome] + [] == [QuitOutcome];
  }

  /** `main` exits only after a frame that held a QUIT event. */
  lemma {:induction false} MainQuitFrame(s: Screen, frames: seq<seq<Event>>, tops: seq<int>)
    requires s != Exited && |tops| == |frames|
    ensures MainRun(s, frames, tops).0 == Exited ==> exists k :: 0 <= k < |frames| && AnyQuit(frames[k])
    decreases |frames|
  {
    if frames != [] {
      var (o, used) := ScreenRun(s, frames, tops);
      if o == Some(QuitOutcome) {
        if s == Playing {
          SessionQuit(Initial(), frames, tops);
        } else {
          FrameChoiceIsFirst(frames[used - 1]);
        }
      } else if o != None {
        var s' := Next(s, o.value);
        MainQuitFrame(s', frames[used..], tops[used..]);
        if MainRun(s', frames[used..], tops[used..]).0 == Exited {
          var k :| 0 <= k < |frames[used..]| && AnyQuit(frames[used..][k]);
          assert frames[used..][k] == frames[used + k];
        }
      }
    }
  }

  /** `main` on the frames not yet used: `whole` is what it returns on all the frames
      and `trace` the results so far, and the screen s has just returned o after
      `used` more frames. Either `main` stops, or it goes on from the next screen. */
  lemma MainRunAt(whole: (Screen, seq<Outcome>), trace: seq<Outcome>, s: Screen,
                  rest: seq<seq<Event>>, restTops: seq<int>, o: Option<Outcome>, used: nat)
    requires s != Exited && |restTops| == |rest|
    requires (o, used) == ScreenRun(s, rest, restTops)
    requires whole.0 == MainRun(s, rest, restTops).0
    requires whole.1 == trace + MainRun(s, rest, restTops).1
    ensures o == None ==> whole == (s, trace)
    ensures o == Some(QuitOutcome) ==> whole == (Exited, trace + [QuitOutcome])
    ensures o != None ==>
              used <= |rest| &&
              var m := MainRun(Next(s, o.value), rest[used..], restTops[used..]);
              whole.0 == m.0 && whole.1 == trace + [o.value] + m.1
  {
    if o == None {
      assert trace + [] == trace;
    } else {
      var m := MainRun(Next(s, o.value), rest[used..], restTops[used..]);
      assert trace + [o.value] + m.1 == trace + ([o.value] + m.1);
      if o.value == QuitOutcome {
        assert m == (Exited, []);
        assert trace + [o.value] + [] == trace + [o.value];
      }
    }
  }

  /** One `await` of a screen in `main`'s loop body, on the frames not yet used.
      `whole` and `trace` are what `main` returns on all the frames and the results
      so far; the ensures say how `main` goes on after this screen. */
  method RunScreen(s: Screen, rest: seq<seq<Event>>, restTops: seq<int>,
                   ghost whole: (Screen, seq<Outcome>), ghost trace: seq<Outcome>)
    returns (o: Option<Outcome>, used: nat)
    requires s != Exited
    requires |restTops| == |rest| && forall i :: 0 <= i < |restTops| ==> InGapRange(restTops[i])
    requires whole.0 == MainRun(s, rest, restTops).0
    requires whole.1 == trace + MainRun(s, rest, restTops).1
    ensures (o, used) == ScreenRun(s, rest, restTops)
    ensures o == None ==> whole == (s, trace)
    ensures o == Some(QuitOutcome) ==> whole == (Exited, trace + [QuitOutcome])
    ensures o != None ==>
              used <= |rest| &&
              var m := MainRun(Next(s, o.value), rest[used..], restTops[used..]);
              whole.0 == m.0 && whole.1 == trace + [o.value] + m.1
  {
    match s {
      case StartScreen =>
        o, used := RunStartScreen(rest);
      case Playing =>
        o, used := RunGame(rest, restTops);
      case GameOverScreen(_) =>
        o, used := RunGameOverScreen(rest);
    }
    MainRunAt(whole, trace, s, rest, restTops, o, used);
  }

  /** `main` (lines 283-295): start screen, game, game-over screen, again, until a
      screen returns "quit" or the frames run out. The frames are one event stream
      shared by all screens; `tops` holds the gap top randint would draw on each frame. */
  method RunMain(frames: seq<seq<Event>>, tops: seq<int>) returns (screen: Screen, trace: seq<Outcome>)
    requires |tops| == |frames| && forall i :: 0 <= i < |tops| ==> InGapRange(tops[i])
    ensures (screen, trace) == MainRun(StartScreen, frames, tops)
    ensures Script(StartScreen, trace) && screen == Visit(StartScreen, trace)
    ensures screen == Exited <==> QuitOutcome in trace
    ensures screen == Exited ==> exists k :: 0 <= k < |frames| && AnyQuit(frames[k])
  {
    ghost var whole := MainRun(StartScreen, frames, tops);
    trace := [];
    var rest, restTops := frames, tops;
    assert whole.1 == trace + whole.1;
    while true
      invariant |restTops| == |rest| && forall i :: 0 <= i < |restTops| ==> InGapRange(restTops[i])
      invariant whole.0 == MainRun(StartScreen, rest, restTops).0
      invariant whole.1 == trace + MainRun(StartScreen, rest, restTops).1
      decreases |rest|
    {
      var o, used := RunScreen(StartScreen, rest, restTops, whole, trace);
      if o == None {
        screen := StartScreen;
        break;
      } else if o.value == QuitOutcome {
        screen, trace := Exited, trace + [o.value];
        break;
      }
      trace, rest, restTops := trace + [o.value], rest[used..], restTops[used..];

      o, used := RunScreen(Playing, rest, restTops, whole, trace);
      if o == None {
        screen := Playing;
        break;
      } else if o.value == QuitOutcome {
        screen, trace := Exited, trace + [o.value];
        break;
      }
      var score := o.value.score;
      trace, rest, restTops := trace + [o.value], rest[used..], restTops[used..];

      o, used := RunScreen(GameOverScreen(score), rest, restTops, whole, trace);
      if o == None {
        screen := GameOverScreen(score);
        break;
      } else if o.value == QuitOutcome {
        screen, trace := Exited, trace + [o.value];
        break;
      }
      trace, rest, restTops := trace + [o.value], rest[used..], restTops[used..];
    }
    MainRunFollowsScript(StartScreen, frames, tops);
    MainExitsOnQuit(frames, tops);
    MainQuitFrame(StartScreen, frames, tops);
  }
}
