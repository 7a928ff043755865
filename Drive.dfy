/** The drive decisions of the activity as pure values: the direction table,
    the buttons `onKeyPress` tells apart, and the transition one key event
    makes on the `isMoving` flag together with the motor calls it issues. */
module Drive {
  import M = MotorHat

  /** The four ways the car can be driven. */
  datatype Direction = Forward | Backward | Left | Right

  /** The direction table: the command each motor receives, in `M.MotorOrder`
      (front left, front right, back left, back right), for one direction. */
  function Row(d: Direction): (row: seq<M.Command>)
    ensures |row| == |M.MotorOrder|
    ensures M.Release !in row
  {
    match d
    case Forward => [M.Forward, M.Backward, M.Backward, M.Forward]
    case Backward => [M.Backward, M.Forward, M.Forward, M.Backward]
    case Left => [M.Backward, M.Backward, M.Forward, M.Forward]
    case Right => [M.Forward, M.Forward, M.Backward, M.Backward]
  }

  /** What the `release` routine sends: every motor to rest. */
  const ReleaseRow: seq<M.Command> := [M.Release, M.Release, M.Release, M.Release]

  /** The command that turns a motor the other way. */
  function Reversed(c: M.Command): M.Command {
    match c
    case Forward => M.Backward
    case Backward => M.Forward
    case Release => M.Release
  }

  /** Forward and backward are opposites, and so are the two turns. */
  function Opposite(d: Direction): Direction {
    match d
    case Forward => Backward
    case Backward => Forward
    case Left => Right
    case Right => Left
  }

  /** Opposite directions drive every motor the other way, and distinct
      directions have distinct rows. */
  lemma RowsOfOppositesAreReversed(d: Direction, e: Direction)
    ensures forall i :: 0 <= i < |M.MotorOrder| ==> Row(Opposite(d))[i] == Reversed(Row(d)[i])
    ensures Row(d) == Row(e) ==> d == e
  {
  }

  /** The motors are exactly in the row of `d` after `log`. */
  predicate Driving(log: seq<M.Call>, d: Direction) {
    forall m :: M.LastCommand(log, m) == M.Some(Row(d)[M.Index(m)])
  }

  /** Issuing a direction's four calls leaves the motors driving that direction. */
  lemma DrivingAfterRow(log: seq<M.Call>, d: Direction)
    ensures Driving(log + M.RunAll(Row(d)), d)
  {
    forall m {
      M.LastCommandAfterRunAll(log, Row(d), m);
    }
  }

  /** Issuing the release calls leaves every motor at rest. */
  lemma ReleasedAfterReleaseRow(log: seq<M.Call>)
    ensures M.AllReleased(log + M.RunAll(ReleaseRow))
  {
    forall m {
      M.LastCommandAfterRunAll(log, ReleaseRow, m);
    }
  }

  /** The controller buttons `onKeyPress` tells apart; any other key code is
      `OtherButton`. The `code` of an `OtherButton` is never one of the five
      codes the `switch` names: those are always the five named constructors. */
  datatype Button =
    | ButtonUp
    | ButtonDown
    | ButtonLeft
    | ButtonRight
    | ButtonKonami
    | OtherButton(code: int)

  /** The `switch` on the key code: which direction routine a button starts, if any. */
  function DirectionOf(b: Button): M.Option<Direction> {
    match b
    case ButtonUp => M.Some(Forward)
    case ButtonDown => M.Some(Backward)
    case ButtonLeft => M.Some(Left)
    case ButtonRight => M.Some(Right)
    case ButtonKonami => M.None
    case OtherButton(_) => M.None
  }

  /** One key event from the controller. */
  datatype KeyEvent = KeyEvent(code: Button, isDown: bool)

  /** The new value of `isMoving` and the motor calls issued, in order. */
  datatype Transition = Transition(isMoving: bool, calls: seq<M.Call>)

  /** What `onKeyPress(code, isDown)` does when `isMoving` is `moving`. */
  function KeyPress(moving: bool, code: Button, isDown: bool): (t: Transition)
    ensures t.isMoving == isDown
    ensures t.calls == [] || |t.calls| == |M.MotorOrder|
    ensures forall i :: 0 <= i < |t.calls| ==> t.calls[i].Run? && t.calls[i].motor == M.MotorOrder[i]
  {
    if isDown && moving then Transition(true, [])
    else if !isDown then Transition(false, M.RunAll(ReleaseRow))
    else match DirectionOf(code)
      case Some(d) => Transition(true, M.RunAll(Row(d)))
      case None => Transition(true, [])
  }

  /** A press while moving is suppressed, whatever the button. */
  lemma PressWhileMovingIsSuppressed(code: Button)
    ensures KeyPress(true, code, true) == Transition(true, [])
  {
  }

  /** A release always sends every motor to rest, in the fixed order, and
      clears `isMoving`, even if the car was not moving. */
  lemma ReleaseAlwaysStops(moving: bool, code: Button)
    ensures KeyPress(moving, code, false) == Transition(false,
      [M.Run(M.FrontLeft, M.Release), M.Run(M.FrontRight, M.Release),
       M.Run(M.BackLeft, M.Release), M.Run(M.BackRight, M.Release)])
  {
  }

  /** A press of a direction button while idle issues exactly that row of the table. */
  lemma IdlePressDrivesRow(code: Button)
    ensures code == ButtonUp ==> (KeyPress(false, code, true).calls ==
      [M.Run(M.FrontLeft, M.Forward), M.Run(M.FrontRight, M.Backward),
       M.Run(M.BackLeft, M.Backward), M.Run(M.BackRight, M.Forward)])
    ensures code == ButtonDown ==> (KeyPress(false, code, true).calls ==
      [M.Run(M.FrontLeft, M.Backward), M.Run(M.FrontRight, M.Forward),
       M.Run(M.BackLeft, M.Forward), M.Run(M.BackRight, M.Backward)])
    ensures code == ButtonLeft ==> (KeyPress(false, code, true).calls ==
      [M.Run(M.FrontLeft, M.Backward), M.Run(M.FrontRight, M.Backward),
       M.Run(M.BackLeft, M.Forward), M.Run(M.BackRight, M.Forward)])
    ensures code == ButtonRight ==> (KeyPress(false, code, true).calls ==
      [M.Run(M.FrontLeft, M.Forward), M.Run(M.FrontRight, M.Forward),
       M.Run(M.BackLeft, M.Backward), M.Run(M.BackRight, M.Backward)])
    ensures KeyPress(false, code, true).isMoving
  {
  }

  /** The Konami button, or any unrecognised code, pressed while idle issues no
      motor call and still sets `isMoving`. */
  lemma UnmappedPressLatches(code: Button)
    ensures DirectionOf(code).None? <==> code == ButtonKonami || code.OtherButton?
    ensures DirectionOf(code).None? ==> KeyPress(false, code, true) == Transition(true, [])
  {
  }

  /** The effect of a sequence of key events, fed one at a time to `onKeyPress`. */
  function Replay(moving: bool, events: seq<KeyEvent>): (t: Transition)
    decreases |events|
  {
    if events == [] then Transition(moving, [])
    else
      var first := KeyPress(moving, events[0].code, events[0].isDown);
      var rest := Replay(first.isMoving, events[1..]);
      Transition(rest.isMoving, first.calls + rest.calls)
  }

  /** After any non-empty sequence of events, `isMoving` is the last event's `isDown`. */
  lemma {:induction false} MovingFollowsLastEvent(moving: bool, events: seq<KeyEvent>)
    requires events != []
    ensures Replay(moving, events).isMoving == events[|events| - 1].isDown
    decreases |events|
  {
    if |events| > 1 {
      var first := KeyPress(moving, events[0].code, events[0].isDown);
      MovingFollowsLastEvent(first.isMoving, events[1..]);
    }
  }

  /** While moving, any run of presses without a release is suppressed entirely. */
  lemma {:induction false} HeldPressesAreSuppressed(events: seq<KeyEvent>)
    requires forall i :: 0 <= i < |events| ==> events[i].isDown
    ensures Replay(true, events) == Transition(true, [])
  {
    if events != [] {
      HeldPressesAreSuppressed(events[1..]);
    }
  }

  /** Debouncing: of a press followed by further presses with no release, only
      the first one reaches the motors, and only if the car was idle. */
  lemma OnlyFirstPressCounts(moving: bool, press: KeyEvent, more: seq<KeyEvent>)
    requires press.isDown
    requires forall i :: 0 <= i < |more| ==> more[i].isDown
    ensures Replay(moving, [press] + more) ==
      Transition(true, KeyPress(moving, press.code, true).calls)
  {
    assert ([press] + more)[1..] == more;
    HeldPressesAreSuppressed(more);
  }

  /** `calls` is a run of whole groups of four `run` calls, each group
      addressing the motors in `M.MotorOrder`. */
  predicate InGroupsOfFour(calls: seq<M.Call>) {
    && |calls| % 4 == 0
    && forall k :: 0 <= k < |calls| ==> calls[k].Run? && calls[k].motor == M.MotorOrder[k % 4]
  }

  /** Putting one whole group, or nothing, in front of whole groups keeps whole groups. */
  lemma PrependGroup(group: seq<M.Call>, rest: seq<M.Call>)
    requires group == [] || |group| == |M.MotorOrder|
    requires forall i :: 0 <= i < |group| ==> group[i].Run? && group[i].motor == M.MotorOrder[i]
    requires InGroupsOfFour(rest)
    ensures InGroupsOfFour(group + rest)
  {
    var calls := group + rest;
    forall k | |group| <= k < |calls|
      ensures calls[k].Run? && calls[k].motor == M.MotorOrder[k % 4]
    {
      assert calls[k] == rest[k - |group|];
      assert (k - |group|) % 4 == k % 4;
    }
  }

  /** Every sequence of events issues whole groups of four `run` calls, each
      group addressing front left, front right, back left, back right in turn. */
  lemma {:induction false} CallsComeInGroupsOfFour(moving: bool, events: seq<KeyEvent>)
    ensures InGroupsOfFour(Replay(moving, events).calls)
    decreases |events|
  {
    if events != [] {
      var first := KeyPress(moving, events[0].code, events[0].isDown);
      CallsComeInGroupsOfFour(first.isMoving, events[1..]);
      PrependGroup(first.calls, Replay(first.isMoving, events[1..]).calls);
    }
  }

  /** Press UP, release, press LEFT, press UP while LEFT is held: the forward
      row, the release row, the left row, and then nothing. */
  lemma PressReleasePressHeldScenario()
    ensures Replay(false, [KeyEvent(ButtonUp, true), KeyEvent(ButtonUp, false),
                           KeyEvent(ButtonLeft, true), KeyEvent(ButtonUp, true)])
      == Transition(true, M.RunAll(Row(Forward)) + M.RunAll(ReleaseRow) + M.RunAll(Row(Left)))
  {
  }
}
