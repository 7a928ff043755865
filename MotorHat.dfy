/** The motor side of the car: the four DC motors on the motor hat, the three
    commands a motor's `run` accepts, and the log of calls the drive logic
    makes into the hat. The hat's own I/O is not modelled; the log is what it
    was asked to do, in order. */
module MotorHat {

  datatype Option<T> = None | Some(value: T)

  /** The four wheel motors of the skid-steer chassis. */
  datatype Motor = FrontLeft | FrontRight | BackLeft | BackRight

  /** The argument of a motor's `run` call (the hat's FORWARD, BACKWARD, RELEASE). */
  datatype Command = Forward | Backward | Release

  /** One call from the drive logic into the motor hat. */
  datatype Call =
    | SetSpeed(motor: Motor, speed: int)
    | Run(motor: Motor, command: Command)
    | Close

  /** The hat takes speeds from 0 (off) to this value (full speed). */
  const MaxSpeed: int := 255

  /** The speed every motor is given at startup. */
  const MotorSpeed: int := 255

  /** The fixed order in which every drive routine addresses the motors. */
  const MotorOrder: seq<Motor> := [FrontLeft, FrontRight, BackLeft, BackRight]

  /** Where a motor stands in `MotorOrder`. */
  function Index(m: Motor): (i: nat)
    ensures i < |MotorOrder| && MotorOrder[i] == m
  {
    match m
    case FrontLeft => 0
    case FrontRight => 1
    case BackLeft => 2
    case BackRight => 3
  }

  /** The hat channel, 1 to 4, each motor is wired to. */
  function Channel(m: Motor): (c: int)
    ensures 1 <= c <= 4
  {
    match m
    case FrontLeft => 1
    case BackLeft => 2
    case FrontRight => 3
    case BackRight => 4
  }

  /** The hat's `getMotor(channel)`: the motor wired to a channel. */
  function MotorAt(channel: int): (m: Motor)
    requires 1 <= channel <= 4
    ensures Channel(m) == channel
  {
    if channel == 1 then FrontLeft
    else if channel == 2 then BackLeft
    else if channel == 3 then FrontRight
    else BackRight
  }

  /** Each motor sits on its own channel, and each channel drives one motor. */
  lemma ChannelsAreOneToOne(m: Motor, n: Motor)
    ensures Channel(m) == Channel(n) ==> m == n
    ensures MotorAt(Channel(m)) == m
  {
  }

  /** `MotorOrder` names every motor exactly once. */
  lemma MotorOrderIsComplete(m: Motor)
    ensures m in MotorOrder
    ensures forall i, j :: 0 <= i < j < |MotorOrder| ==> MotorOrder[i] != MotorOrder[j]
  {
  }

  /** The four `run` calls of one drive routine: `row[i]` goes to `MotorOrder[i]`. */
  function RunAll(row: seq<Command>): (calls: seq<Call>)
    requires |row| == |MotorOrder|
    ensures |calls| == |MotorOrder|
    ensures forall i :: 0 <= i < |calls| ==> calls[i] == Run(MotorOrder[i], row[i])
  {
    [Run(FrontLeft, row[0]), Run(FrontRight, row[1]), Run(BackLeft, row[2]), Run(BackRight, row[3])]
  }

  /** The command a motor last received in `log`, or None if it was never run:
      the state the hat holds that motor in. */
  function LastCommand(log: seq<Call>, m: Motor): (c: Option<Command>)
    ensures c.Some? ==> Run(m, c.value) in log
    ensures c.None? ==> forall i :: 0 <= i < |log| && log[i].Run? ==> log[i].motor != m
    decreases |log|
  {
    if log == [] then None
    else if log[|log| - 1].Run? && log[|log| - 1].motor == m then Some(log[|log| - 1].command)
    else LastCommand(log[..|log| - 1], m)
  }

  /** A motor is at rest if it was never run or was last told to release. A
      never-run motor counts as at rest because the hat is taken to power up
      with its motors stopped; startup sends no RELEASE. */
  predicate Released(c: Option<Command>) {
    c.None? || c == Some(Release)
  }

  /** Every motor is at rest after `log`. */
  predicate AllReleased(log: seq<Call>) {
    forall m :: Released(LastCommand(log, m))
  }

  /** Appending one call changes the state only of the motor it runs. */
  lemma LastCommandAfterCall(log: seq<Call>, call: Call, m: Motor)
    ensures LastCommand(log + [call], m) ==
      if call.Run? && call.motor == m then Some(call.command) else LastCommand(log, m)
  {
  }

  /** After the four calls of a drive routine, each motor holds its entry of the row. */
  lemma {:induction false} LastCommandAfterRunAll(log: seq<Call>, row: seq<Command>, m: Motor)
    requires |row| == |MotorOrder|
    ensures LastCommand(log + RunAll(row), m) == Some(row[Index(m)])
  {
    var c := RunAll(row);
    assert log + c == log + [c[0]] + [c[1]] + [c[2]] + [c[3]];
    LastCommandAfterCall(log, c[0], m);
    LastCommandAfterCall(log + [c[0]], c[1], m);
    LastCommandAfterCall(log + [c[0]] + [c[1]], c[2], m);
    LastCommandAfterCall(log + [c[0]] + [c[1]] + [c[2]], c[3], m);
  }
}
