# Robocar drive logic in Dafny

This project models the drive logic of the robocar Android app's `MainActivity`. The app
drives a four-wheel skid-steer car from a game controller. It keeps one boolean, `isMoving`,
and uses it to debounce button events. A key press while idle starts one of four drive
routines: forward, backward, left turn or right turn. Each routine runs the four DC motors
(front left, front right, back left, back right) in a fixed pattern of FORWARD and BACKWARD.
A key release runs all four motors with RELEASE. At startup each motor is set to full speed
(255). At shutdown every motor is released and then the motor hat is closed.

The project has three modules:

- `MotorHat` (MotorHat.dfy) holds the motors and their hat channels, the three run commands,
  and the calls into the hat as a datatype. `LastCommand` reads a motor's current state off
  the log of calls, and lemmas say how a group of four `run` calls changes that state.
- `Drive` (Drive.dfy) holds the direction table `Row` and the buttons the activity tells
  apart. `KeyPress` is the pure transition one `onKeyPress` call makes: the new `isMoving` and
  the motor calls issued. `Replay` folds a sequence of key events through it. The lemmas prove
  the debounce rules, the table, and the grouping of calls in fours.
- `Robocar` (MainActivity.dfy) holds the class `MainActivity`. It has the field `isMoving`
  and a field `log` that records every call made into the motor hat, in order. The
  constructor covers startup. `OnKeyPress` has the same branches as the source. The drive
  routines call `RunMotor` once per motor. `OnDestroy` releases all motors and then closes
  the hat. `OnKeyPress` is proved to append exactly `KeyPress(old(isMoving), code,
  isDown).calls`. It also preserves the invariant `Valid`: when the car is not moving every
  motor is at rest, and the four motors are always either all at rest or exactly in one row
  of the direction table. A motor that has never been run counts as at rest (see
  "## Left out").

The calls that act on the hardware (`setSpeed`, `run`, `close`) are appended to `log`; that
is the whole model of the hat. `getMotor` acts on nothing: it is the channel-to-motor function
`MotorHat.MotorAt`. Creating the hat (`new AdafruitMotorHat()`) is not logged. The button
codes are integer constants of `NES30Manager`, which is not part of this model. They become
the datatype `Drive.Button`, and `OtherButton(code)` stands for any key code the `switch`
does not name.

In four places the code does less than an idealised drive controller would. The model
follows the code:

- One would expect an unrecognised button code, or the special (Konami) code, to change no
  state. In the code, `isMoving := isDown` runs before the `switch`. So such a press while
  idle sets `isMoving` to true with no motor call, and later presses are suppressed until a
  release (`Drive.UnmappedPressLatches`, `Drive.HeldPressesAreSuppressed`).
- One would expect the controller to keep the current direction, or none. The code keeps only
  the boolean `isMoving`. The direction the motors are in is recovered from the log
  (`Drive.Driving`).
- One would expect startup to fail cleanly when the motor hat cannot be opened. The code has
  no such path, and neither does the model.
- One would expect every motor to be sent RELEASE at startup, so that the idle car is known
  to be at rest. The code sends no RELEASE at startup: it only sets the speeds. The first
  RELEASE comes with the first key release or with `onDestroy`.

## Model

| member | source | states |
|---|---|---|
| `MotorHat.MotorAt` | robocar/app/src/main/java/com/zugaldia/robocar/app/MainActivity.java:49-57 | `getMotor(channel)` for channels 1 to 4 gives the motor wired there: 1 front left, 2 back left, 3 front right, 4 back right; `Channel` is its inverse |
| `MotorHat.ChannelsAreOneToOne` | robocar/app/src/main/java/com/zugaldia/robocar/app/MainActivity.java:49-57 | distinct motors sit on distinct channels, and the channel of a motor leads back to that motor |
| `MotorHat.MotorOrderIsComplete` | robocar/app/src/main/java/com/zugaldia/robocar/app/MainActivity.java:157-195 | the fixed order front left, front right, back left, back right names every motor exactly once |
| `MotorHat.RunAll` | robocar/app/src/main/java/com/zugaldia/robocar/app/MainActivity.java:157-195 | a routine's calls are exactly four `run` calls, the i-th to the i-th motor of the fixed order with the i-th command of the row |
| `MotorHat.LastCommand` | robocar/app/src/main/java/com/zugaldia/robocar/app/MainActivity.java:157-195 | a motor's state is the command of its latest `run` call; if it has one, that call is in the log; if it has none, no `run` call in the log names that motor |
| `MotorHat.LastCommandAfterCall` | robocar/app/src/main/java/com/zugaldia/robocar/app/MainActivity.java:159-162 | one `run` call changes the state of the motor it names, to its command, and of no other motor |
| `MotorHat.LastCommandAfterRunAll` | robocar/app/src/main/java/com/zugaldia/robocar/app/MainActivity.java:157-195 | after a routine's four calls, every motor holds its own entry of the row, whatever the log held before |
| `Drive.Row` | robocar/app/src/main/java/com/zugaldia/robocar/app/MainActivity.java:157-187 | the direction table has four entries per direction, one per motor, and no entry is RELEASE |
| `Drive.RowsOfOppositesAreReversed` | robocar/app/src/main/java/com/zugaldia/robocar/app/MainActivity.java:157-187 | the forward and backward rows are elementwise opposites, and so are the left and right rows; no two directions share a row |
| `Drive.DrivingAfterRow` | robocar/app/src/main/java/com/zugaldia/robocar/app/MainActivity.java:157-187 | after a direction routine's calls, the four motors are exactly in that direction's row |
| `Drive.ReleasedAfterReleaseRow` | robocar/app/src/main/java/com/zugaldia/robocar/app/MainActivity.java:189-195 | after the release routine's calls, every motor is at rest |
| `Drive.KeyPress` | robocar/app/src/main/java/com/zugaldia/robocar/app/MainActivity.java:122-155 | after any key event `isMoving` equals `isDown`; the event issues no motor call or exactly four, and the four address each motor once in the fixed order |
| `Drive.PressWhileMovingIsSuppressed` | robocar/app/src/main/java/com/zugaldia/robocar/app/MainActivity.java:123-127 | a press while moving issues no motor call and leaves `isMoving` true, for every button |
| `Drive.ReleaseAlwaysStops` | robocar/app/src/main/java/com/zugaldia/robocar/app/MainActivity.java:128-134 | a release issues RELEASE to front left, front right, back left and back right, in that order, and clears `isMoving`, whether or not the car was moving |
| `Drive.IdlePressDrivesRow` | robocar/app/src/main/java/com/zugaldia/robocar/app/MainActivity.java:138-187 | a press while idle of UP, DOWN, LEFT or RIGHT issues exactly the routine's four calls: forward, backward, left turn, right turn, written out motor by motor; it sets `isMoving` |
| `Drive.UnmappedPressLatches` | robocar/app/src/main/java/com/zugaldia/robocar/app/MainActivity.java:128-154 | exactly the Konami button and the unrecognised codes start no routine; pressing one while idle issues no motor call and still sets `isMoving` |
| `Drive.MovingFollowsLastEvent` | robocar/app/src/main/java/com/zugaldia/robocar/app/MainActivity.java:123-130 | after any non-empty sequence of key events, `isMoving` is the last event's `isDown` |
| `Drive.HeldPressesAreSuppressed` | robocar/app/src/main/java/com/zugaldia/robocar/app/MainActivity.java:123-127 | while moving, a sequence of presses with no release issues no motor call and leaves `isMoving` true |
| `Drive.OnlyFirstPressCounts` | robocar/app/src/main/java/com/zugaldia/robocar/app/MainActivity.java:122-136 | of a press followed by more presses without a release, only the first reaches the motors |
| `Drive.PrependGroup` | robocar/app/src/main/java/com/zugaldia/robocar/app/MainActivity.java:122-155 | one event's calls put in front of whole groups of four leave whole groups of four |
| `Drive.CallsComeInGroupsOfFour` | robocar/app/src/main/java/com/zugaldia/robocar/app/MainActivity.java:122-195 | any sequence of key events issues whole groups of four `run` calls, each group addressing front left, front right, back left, back right in turn |
| `Drive.PressReleasePressHeldScenario` | robocar/app/src/main/java/com/zugaldia/robocar/app/MainActivity.java:122-187 | press UP, release, press LEFT, press UP while held: forward row, then release row, then left row, then nothing, ending with `isMoving` true |
| `Robocar.StartupCalls` | robocar/app/src/main/java/com/zugaldia/robocar/app/MainActivity.java:49-57 | startup is four `setSpeed` calls at 255, one per motor, in channel order, no motor twice |
| `Robocar.RoutineKeepsLogShape` | robocar/app/src/main/java/com/zugaldia/robocar/app/MainActivity.java:157-195 | after startup, the drive and release routines add only `run` calls, so speed is never set again |
| `Robocar.MainActivity.OnCreate` | robocar/app/src/main/java/com/zugaldia/robocar/app/MainActivity.java:28-57 | `isMoving` starts false, the log is exactly the four speed settings, and the invariant holds |
| `Robocar.MainActivity.SetSpeed` | robocar/app/src/main/java/com/zugaldia/robocar/app/MainActivity.java:51 | a `setSpeed` call appends itself to the log and changes nothing else |
| `Robocar.MainActivity.RunMotor` | robocar/app/src/main/java/com/zugaldia/robocar/app/MainActivity.java:159 | a `run` call appends itself to the log and changes nothing else |
| `Robocar.MainActivity.CloseHat` | robocar/app/src/main/java/com/zugaldia/robocar/app/MainActivity.java:93 | the hat's `close` appends itself to the log and changes nothing else |
| `Robocar.MainActivity.OnKeyPress` | robocar/app/src/main/java/com/zugaldia/robocar/app/MainActivity.java:122-155 | afterwards `isMoving == isDown`; the log grows by exactly the calls of `Drive.KeyPress` from the old `isMoving`; the invariant is kept |
| `Robocar.MainActivity.MoveForward` | robocar/app/src/main/java/com/zugaldia/robocar/app/MainActivity.java:157-163 | appends exactly the forward row's four calls and leaves the motors driving forward |
| `Robocar.MainActivity.MoveBackward` | robocar/app/src/main/java/com/zugaldia/robocar/app/MainActivity.java:165-171 | appends exactly the backward row's four calls and leaves the motors driving backward |
| `Robocar.MainActivity.TurnLeft` | robocar/app/src/main/java/com/zugaldia/robocar/app/MainActivity.java:173-179 | appends exactly the left row's four calls and leaves the motors turning left |
| `Robocar.MainActivity.TurnRight` | robocar/app/src/main/java/com/zugaldia/robocar/app/MainActivity.java:181-187 | appends exactly the right row's four calls and leaves the motors turning right |
| `Robocar.MainActivity.Release` | robocar/app/src/main/java/com/zugaldia/robocar/app/MainActivity.java:189-195 | appends four RELEASE calls in the fixed order, leaves every motor at rest and re-establishes the invariant whatever `isMoving` is |
| `Robocar.MainActivity.OnDestroy` | robocar/app/src/main/java/com/zugaldia/robocar/app/MainActivity.java:90-95 | appends the four RELEASE calls and then `close`, so every motor is at rest when the hat is closed; `isMoving` is unchanged |

## Left out

- Bluetooth setup and discovery (`setupBluetooth`, and `cancelDiscovery` in `onDestroy`): device I/O through classes not shown.
- The local web server (`setupWebServer`, `onRequest`, `onStatus`, `onMove`): `onStatus` and `onMove` only return fixed answers and never reach the motors.
- Key forwarding to `NES30Manager` (`onKeyDown`, `onKeyLongPress`, `onKeyUp`, `onKeyMultiple`): thin calls into a library that is not part of this model; its output is taken as the `(code, isDown)` events given to `OnKeyPress`.
- The numeric values of the `NES30Manager` button codes: that class is not part of this model, so the codes are a datatype; two distinct constructors stand for two distinct codes, and the `code` of an `OtherButton` is never one of the five codes the `switch` names.
- The internals of `AdafruitMotorHat` and `AdafruitDCMotor` (the hardware I/O): `setSpeed`, `run` and `close` only append to the log, `getMotor` is the function `MotorHat.MotorAt`, and no call can fail.
- The motors' state before their first `run` call: the model assumes the hat powers up with every motor at rest. That is why `MotorHat.Released` counts a motor that was never run as released, and why `OnCreate` can establish `Valid` with no RELEASE call.
- Timber logging, `setContentView`, `super.onCreate` and `super.onDestroy`: Android plumbing with no effect on the drive state.
- The Android lifecycle itself: object creation (the initialiser of `isMoving`) and the motor part of `onCreate` are one constructor, and key events are only accepted between startup and `OnDestroy` (the invariant rules out a closed hat).
