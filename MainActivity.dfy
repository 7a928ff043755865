/** The activity that owns the motor hat and turns controller key events into
    motor commands. Its one piece of drive state is `isMoving`; every call it
    makes into the hat is appended to `log`. */
module Robocar {
  import M = MotorHat
  import D = Drive

  /** The `setSpeed` calls of startup: channels 1 to 4 in turn, each at full speed. */
  function StartupCalls(): (calls: seq<M.Call>)
    ensures |calls| == |M.MotorOrder|
    ensures forall i :: 0 <= i < |calls| ==> calls[i].SetSpeed? && calls[i].speed == M.MaxSpeed
    ensures forall m :: calls[M.Channel(m) - 1] == M.SetSpeed(m, M.MotorSpeed)
    ensures forall i, j :: 0 <= i < j < |calls| ==> calls[i].motor != calls[j].motor
  {
    [M.SetSpeed(M.MotorAt(1), M.MotorSpeed), M.SetSpeed(M.MotorAt(2), M.MotorSpeed),
     M.SetSpeed(M.MotorAt(3), M.MotorSpeed), M.SetSpeed(M.MotorAt(4), M.MotorSpeed)]
  }

  class MainActivity {
    var isMoving: bool
    var log: seq<M.Call>

    /** The log starts with the four speed settings and then holds only `run`
        calls; when the car is not moving every motor is at rest; and the
        motors are always either all at rest or exactly in one row of the
        direction table. */
    ghost predicate Valid()
      reads this
    {
      && StartedLog(log)
      && (!isMoving ==> M.AllReleased(log))
      && (M.AllReleased(log) || exists d :: D.Driving(log, d))
    }

    /** Creation of the activity and the motor part of `onCreate`: `isMoving`
        starts false and each motor is given full speed once. */
    constructor OnCreate()
      ensures Valid()
      ensures !isMoving
      ensures log == StartupCalls()
    {
      isMoving := false;
      log := [];
      new;
      SetSpeed(M.MotorAt(1), M.MotorSpeed);
      SetSpeed(M.MotorAt(2), M.MotorSpeed);
      SetSpeed(M.MotorAt(3), M.MotorSpeed);
      SetSpeed(M.MotorAt(4), M.MotorSpeed);
    }

    /** A motor's `setSpeed`. */
    method SetSpeed(m: M.Motor, speed: int)
      modifies this
      ensures isMoving == old(isMoving)
      ensures log == old(log) + [M.SetSpeed(m, speed)]
    {
      log := log + [M.SetSpeed(m, speed)];
    }

    /** A motor's `run`. */
    method RunMotor(m: M.Motor, c: M.Command)
      modifies this
      ensures isMoving == old(isMoving)
      ensures log == old(log) + [M.Run(m, c)]
    {
      log := log + [M.Run(m, c)];
    }

    /** The hat's `close`. */
    method CloseHat()
      modifies this
      ensures isMoving == old(isMoving)
      ensures log == old(log) + [M.Close]
    {
      log := log + [M.Close];
    }

    /** `onKeyPress`: a press while moving is ignored; otherwise `isMoving`
        becomes `isDown`, a release stops every motor, and a press starts the
        direction routine of its button, if it has one. */
    method OnKeyPress(code: D.Button, isDown: bool)
      requires Valid()
      modifies this
      ensures Valid()
      ensures isMoving == isDown
      ensures log == old(log) + D.KeyPress(old(isMoving), code, isDown).calls
    {
      if isDown && isMoving {
        return;
      } else {
        isMoving := isDown;
        if !isMoving {
          Release();
          return;
        }
      }

      match code
      case ButtonUp => MoveForward();
      case ButtonDown => MoveBackward();
      case ButtonLeft => TurnLeft();
      case ButtonRight => TurnRight();
      case ButtonKonami =>
      case OtherButton(_) =>
    }

    method MoveForward()
      requires Valid() && isMoving
      modifies this
      ensures Valid() && isMoving
      ensures log == old(log) + M.RunAll(D.Row(D.Forward))
      ensures D.Driving(log, D.Forward)
    {
      RunMotor(M.FrontLeft, M.Forward);
      RunMotor(M.FrontRight, M.Backward);
      RunMotor(M.BackLeft, M.Backward);
      RunMotor(M.BackRight, M.Forward);
      RoutineKeepsLogShape(old(log), D.Row(D.Forward));
      D.DrivingAfterRow(old(log), D.Forward);
    }

    method MoveBackward()
      requires Valid() && isMoving
      modifies this
      ensures Valid() && isMoving
      ensures log == old(log) + M.RunAll(D.Row(D.Backward))
      ensures D.Driving(log, D.Backward)
    {
      RunMotor(M.FrontLeft, M.Backward);
      RunMotor(M.FrontRight, M.Forward);
      RunMotor(M.BackLeft, M.Forward);
      RunMotor(M.BackRight, M.Backward);
      RoutineKeepsLogShape(old(log), D.Row(D.Backward));
      D.DrivingAfterRow(old(log), D.Backward);
    }

    method TurnLeft()
      requires Valid() && isMoving
      modifies this
      ensures Valid() && isMoving
      ensures log == old(log) + M.RunAll(D.Row(D.Left))
      ensures D.Driving(log, D.Left)
    {
      RunMotor(M.FrontLeft, M.Backward);
      RunMotor(M.FrontRight, M.Backward);
      RunMotor(M.BackLeft, M.Forward);
      RunMotor(M.BackRight, M.Forward);
      RoutineKeepsLogShape(old(log), D.Row(D.Left));
      D.DrivingAfterRow(old(log), D.Left);
    }

    method TurnRight()
      requires Valid() && isMoving
      modifies this
      ensures Valid() && isMoving
      ensures log == old(log) + M.RunAll(D.Row(D.Right))
      ensures D.Driving(log, D.Right)
    {
      RunMotor(M.FrontLeft, M.Forward);
      RunMotor(M.FrontRight, M.Forward);
      RunMotor(M.BackLeft, M.Backward);
      RunMotor(M.BackRight, M.Backward);
      RoutineKeepsLogShape(old(log), D.Row(D.Right));
      D.DrivingAfterRow(old(log), D.Right);
    }

    /** `release`: every motor to rest. */
    method Release()
      requires StartedLog(log)
      modifies this
      ensures Valid() && isMoving == old(isMoving)
      ensures log == old(log) + M.RunAll(D.ReleaseRow)
      ensures M.AllReleased(log)
    {
      RunMotor(M.FrontLeft, M.Release);
      RunMotor(M.FrontRight, M.Release);
      RunMotor(M.BackLeft, M.Release);
      RunMotor(M.BackRight, M.Release);
      assert log == old(log) + M.RunAll(D.ReleaseRow);
      RoutineKeepsLogShape(old(log), D.ReleaseRow);
      D.ReleasedAfterReleaseRow(old(log));
    }

    /** The motor part of `onDestroy`: every motor is released before the hat
        is closed, whatever the car was doing. */
    method OnDestroy()
      requires Valid()
      modifies this
      ensures isMoving == old(isMoving)
      ensures log == old(log) + M.RunAll(D.ReleaseRow) + [M.Close]
      ensures M.AllReleased(log[..|log| - 1]) && log[|log| - 1] == M.Close
    {
      Release();
      CloseHat();
      assert log[..|log| - 1] == old(log) + M.RunAll(D.ReleaseRow);
    }
  }

  /** The log of a started activity: the four speed settings, then only `run` calls. */
  predicate StartedLog(log: seq<M.Call>) {
    && |log| >= |StartupCalls()|
    && log[..|StartupCalls()|] == StartupCalls()
    && (forall i :: |StartupCalls()| <= i < |log| ==> log[i].Run?)
  }

  /** The four calls of a drive or release routine keep the log's shape. */
  lemma RoutineKeepsLogShape(log: seq<M.Call>, row: seq<M.Command>)
    requires |row| == |M.MotorOrder|
    requires StartedLog(log)
    ensures StartedLog(log + M.RunAll(row))
  {
  }
}
