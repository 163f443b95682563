/** Input events as the game reads them, and the per-frame event scan of the
    start and game-over screens. */
module Input {
  /** pygame.K_SPACE */
  const KSpace: int := 32

  datatype Event = QuitEvent | KeyDown(key: int) | MouseButtonDown | OtherEvent

  /** A tap on a phone reaches the game as a mouse-button-down event. */
  predicate IsTouchEvent(e: Event) {
    e.MouseButtonDown?
  }

  /** SPACE or a touch: a jump during play, "start"/"retry" on the screens. */
  predicate IsJump(e: Event) {
    (e.KeyDown? && e.key == KSpace) || IsTouchEvent(e)
  }

  predicate AnyQuit(events: seq<Event>) {
    exists i :: 0 <= i < |events| && events[i] == QuitEvent
  }

  predicate AnyJump(events: seq<Event>) {
    exists i :: 0 <= i < |events| && IsJump(events[i])
  }

  /** What a screen decides after scanning one frame's events. */
  datatype Choice = Undecided | QuitChosen | Advance

  /** An event that makes a screen return. */
  predicate Decisive(e: Event) {
    e == QuitEvent || IsJump(e)
  }

  /** Index i holds the first event that makes a screen return. */
  predicate FirstDecisive(events: seq<Event>, i: int) {
    0 <= i < |events| && Decisive(events[i]) &&
    forall j :: 0 <= j < i ==> !Decisive(events[j])
  }

  /** The choice one frame's events make, scanning them in order. */
  function FrameChoice(events: seq<Event>): Choice {
    if events == [] then Undecided
    else if events[0] == QuitEvent then QuitChosen
    else if IsJump(events[0]) then Advance
    else FrameChoice(events[1..])
  }

  /** The screens return on the first QUIT or SPACE/touch event, whichever comes first. */
  lemma {:induction false} FrameChoiceIsFirst(events: seq<Event>)
    ensures FrameChoice(events) == QuitChosen <==>
              exists i :: FirstDecisive(events, i) && events[i] == QuitEvent
    ensures FrameChoice(events) == Advance <==>
              exists i :: FirstDecisive(events, i) && IsJump(events[i])
    ensures FrameChoice(events) == Undecided <==>
              forall i :: 0 <= i < |events| ==> !Decisive(events[i])
  {
    if events == [] {
    } else if Decisive(events[0]) {
      assert FirstDecisive(events, 0);
    } else {
      var tail := events[1..];
      FrameChoiceIsFirst(tail);
      forall i | 0 <= i < |tail| ensures FirstDecisive(tail, i) <==> FirstDecisive(events, i + 1) {
        if FirstDecisive(events, i + 1) {
          forall j | 0 <= j < i ensures !Decisive(tail[j]) { assert tail[j] == events[j + 1]; }
        }
        if FirstDecisive(tail, i) {
          forall j | 0 <= j < i + 1 ensures !Decisive(events[j]) {
            if j > 0 { assert events[j] == tail[j - 1]; }
          }
        }
      }
      forall i | FirstDecisive(events, i) ensures i > 0 && FirstDecisive(tail, i - 1) { }
      forall i | 0 <= i < |events| && Decisive(events[i]) ensures i > 0 && Decisive(tail[i - 1]) { }
    }
  }

  /** The `for event in pygame.event.get()` scan of start_screen and game_over_screen. */
  method ClassifyFrame(events: seq<Event>) returns (c: Choice)
    ensures c == FrameChoice(events)
  {
    var i := 0;
    while i < |events|
      invariant 0 <= i <= |events|
      invariant FrameChoice(events[i..]) == FrameChoice(events)
    {
      assert events[i..][1..] == events[i + 1..];
      if events[i] == QuitEvent {
        return QuitChosen;
      }
      if IsJump(events[i]) {
        return Advance;
      }
      i := i + 1;
    }
    return Undecided;
  }

  /** A screen's `while True` as a value: the choice of the first frame that decides
      and the number of frames it took, or Undecided after every frame. */
  function Await(frames: seq<seq<Event>>): (r: (Choice, nat))
    ensures r.1 <= |frames|
    ensures r.0 == Undecided ==> r.1 == |frames|
    ensures r.0 != Undecided ==> 0 < r.1 && FrameChoice(frames[r.1 - 1]) == r.0
    decreases |frames|
  {
    if frames == [] then (Undecided, 0)
    else if FrameChoice(frames[0]) != Undecided then (FrameChoice(frames[0]), 1)
    else
      var r := Await(frames[1..]);
      (r.0, r.1 + 1)
  }

  /** Await seen from the frame at index n. */
  function AwaitFrom(frames: seq<seq<Event>>, n: nat): (Choice, nat)
    requires n <= |frames|
  {
    var r := Await(frames[n..]);
    (r.0, r.1 + n)
  }

  /** The `while True` loop of a screen: one frame after the other until a frame decides.
      With the frames used up and no decision, the screen is still waiting. */
  method AwaitChoice(frames: seq<seq<Event>>) returns (c: Choice, used: nat)
    ensures (c, used) == Await(frames)
    ensures used <= |frames|
    ensures c == Undecided ==> used == |frames|
    ensures c != Undecided ==> 0 < used && FrameChoice(frames[used - 1]) == c
    ensures forall k :: 0 <= k < used && (c == Undecided || k < used - 1) ==>
              FrameChoice(frames[k]) == Undecided
  {
    used := 0;
    while used < |frames|
      invariant used <= |frames|
      invariant forall k :: 0 <= k < used ==> FrameChoice(frames[k]) == Undecided
      invariant Await(frames) == AwaitFrom(frames, used)
    {
      assert frames[used..][1..] == frames[used + 1..];
      c := ClassifyFrame(frames[used]);
      used := used + 1;
      if c != Undecided {
        return;
      }
    }
    c := Undecided;
    assert frames[used..] == [];
  }
}
