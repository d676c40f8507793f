/**
 * The 60 Hz throttle simulation of the controller screen (ControllerViewModel.StartTimerAsync).
 * Each tick turns the accelerate and brake buttons into a new speed, truncates it to whole
 * units, maps those to the angle of servo 2, and reports to the UI and to the servo only what
 * changed since the last report; a tick counter is published about once a second.
 *
 * Every rate of the source is a multiple of 1/60 of a speed unit, so speed is held here exactly
 * as a whole number of sixtieths: `speed` is the source's `speed` times 60, in [0, 255 * 60].
 */
module Controller {
  import opened Prelude

  /** The top speed, 255 whole units. */
  const MaxSpeed: int := 15300

  // Per-tick rates, in sixtieths of a unit (the source's 64d / 60 and so on).
  const AccelVelocity1: int := 64
  const AccelVelocity2: int := 48
  const AccelVelocity3: int := 32
  const AccelVelocity4: int := 16
  const BrakeVelocity: int := 96
  const DefaultVelocity: int := 32

  /** The tick counter is published once the stopwatch reads more than this. */
  const ReportPeriodMs: int := 1000
  /** `prevServoAngle` before any angle was sent. */
  const NoAngle: int := -1

  /** The servo channel driven by the loop; the channel enumeration itself is not part of this model. */
  datatype ServoChannel = Servo2

  /** What the loop does to the outside world, in order. */
  datatype Output =
    | Post(speed: int, accel: bool, brake: bool)   // UI update of Speed, Accel and Brake
    | PostFps(fps: int)                            // UI update of Fps
    | SetServo(channel: ServoChannel, angle: int)  // servo command to the motor board
    | MotorOpened
    | GamepadStarted
    | MotorClosed

  /** One tick's readings: buttons 0 (A, accelerate) and 1 (B, brake), and the stopwatch. */
  datatype TickInput = TickInput(accel: bool, brake: bool, elapsedMs: int)

  /** The loop's local variables between two ticks. */
  datatype LoopState = LoopState(
    speed: int, prevSpeed: int, prevServoAngle: int, prevAccel: bool, prevBrake: bool, fps: int)

  datatype StepResult = StepResult(state: LoopState, outputs: seq<Output>)

  const Initial: LoopState := LoopState(0, 0, NoAngle, false, false, 0)

  /**
   * What holds between ticks: the speed is within [0, 255] units, the last reported whole speed
   * is a valid one, and the last angle sent (if any) is the angle of the last reported speed.
   */
  predicate Valid(st: LoopState) {
    && 0 <= st.speed <= MaxSpeed
    && 0 <= st.prevSpeed <= 255
    && (st.prevServoAngle == NoAngle || st.prevServoAngle == ServoAngle(st.prevSpeed))
    && st.fps >= 0
  }

  /** The rate added while accelerating: it never exceeds the first tier nor drops below the last. */
  function AccelVelocity(speed: int): (v: int)
    ensures AccelVelocity4 <= v <= AccelVelocity1
  {
    if speed < 128 * 60 then AccelVelocity1
    else if speed < 192 * 60 then AccelVelocity2
    else if speed < 224 * 60 then AccelVelocity3
    else AccelVelocity4
  }

  /** The speed update of one tick: brake first, then accelerate, else coast. */
  function NextSpeed(speed: int, accel: bool, brake: bool): (next: int)
    ensures 0 <= speed <= MaxSpeed ==> 0 <= next <= MaxSpeed
    ensures 0 <= speed && (brake || !accel) ==> next <= speed
    ensures speed <= MaxSpeed && accel && !brake ==> speed <= next
  {
    if brake then Max(0, speed - BrakeVelocity)
    else if accel then Min(MaxSpeed, speed + AccelVelocity(speed))
    else Max(0, speed - DefaultVelocity)
  }

  /** `(int)speed`: the whole units of the speed. */
  function WholeSpeed(speed: int): (whole: int)
    ensures 0 <= speed ==> 0 <= whole * 60 <= speed < whole * 60 + 60
    ensures 0 <= speed <= MaxSpeed ==> 0 <= whole <= 255
  {
    Quot(speed, 60)
  }

  /** The servo angle for a whole speed: speeds 0..255 spread over 90..180 degrees. */
  function ServoAngle(whole: int): (angle: int)
    ensures 0 <= whole <= 255 ==> 90 <= angle <= 180
  {
    90 + Quot(whole * 90, 255)
  }

  /** Whether a tick that reached `speed` has something new to report. */
  predicate Changed(st: LoopState, speed: int, input: TickInput): (changed: bool)
    ensures !changed <==> (WholeSpeed(speed), input.accel, input.brake) == (st.prevSpeed, st.prevAccel, st.prevBrake)
  {
    WholeSpeed(speed) != st.prevSpeed || input.accel != st.prevAccel || input.brake != st.prevBrake
  }

  /** One tick of the loop: the new local variables and what the tick posts and sends. */
  function Step(st: LoopState, input: TickInput): (r: StepResult)
    ensures Valid(st) ==> Valid(r.state)
  {
    var speed := NextSpeed(st.speed, input.accel, input.brake);
    var current := WholeSpeed(speed);
    var changed := Changed(st, speed, input);
    var angle := ServoAngle(current);
    var send := changed && angle != st.prevServoAngle;
    var fps := st.fps + 1;
    var report := input.elapsedMs > ReportPeriodMs;
    StepResult(
      LoopState(
        speed,
        if changed then current else st.prevSpeed,
        if send then angle else st.prevServoAngle,
        if changed then input.accel else st.prevAccel,
        if changed then input.brake else st.prevBrake,
        if report then 0 else fps),
      (if changed then [Post(current, input.accel, input.brake)] else [])
      + (if send then [SetServo(Servo2, angle)] else [])
      + (if report then [PostFps(fps)] else []))
  }

  /** A sequence of ticks from `st`: the final local variables and everything posted and sent. */
  function RunTicks(st: LoopState, inputs: seq<TickInput>): StepResult
    decreases |inputs|
  {
    if inputs == [] then StepResult(st, [])
    else
      var first := Step(st, inputs[0]);
      var rest := RunTicks(first.state, inputs[1..]);
      StepResult(rest.state, first.outputs + rest.outputs)
  }

  /** The speed after `ticks` ticks with the same buttons held. */
  function Hold(speed: int, accel: bool, brake: bool, ticks: nat): int
  {
    if ticks == 0 then speed else NextSpeed(Hold(speed, accel, brake, ticks - 1), accel, brake)
  }

  // ---------------------------------------------------------------------------------------------
  // Speed update

  /** The acceleration rate never grows as the speed grows. */
  lemma VelocityNeverGrows(slower: int, faster: int)
    requires slower <= faster
    ensures AccelVelocity(faster) <= AccelVelocity(slower)
  {
  }

  /**
   * Holding the brake takes 96/60 off per tick down to 0 and then stays there, whatever the
   * accelerate button says: the brake has priority.
   */
  lemma {:induction false} BrakingStops(speed: int, accel: bool, ticks: nat)
    requires 0 <= speed
    ensures Hold(speed, accel, true, ticks) == Max(0, speed - ticks * BrakeVelocity)
  {
    if ticks > 0 {
      BrakingStops(speed, accel, ticks - 1);
    }
  }

  /** With no button held, the speed falls by 32/60 per tick down to 0. */
  lemma {:induction false} CoastingStops(speed: int, ticks: nat)
    requires 0 <= speed
    ensures Hold(speed, false, false, ticks) == Max(0, speed - ticks * DefaultVelocity)
  {
    if ticks > 0 {
      CoastingStops(speed, ticks - 1);
    }
  }

  /** Holding only accelerate gains at least 16/60 per tick until the top speed, never beyond it. */
  lemma {:induction false} AcceleratingProgresses(speed: int, ticks: nat)
    requires 0 <= speed <= MaxSpeed
    ensures Min(MaxSpeed, speed + ticks * AccelVelocity4) <= Hold(speed, true, false, ticks) <= MaxSpeed
  {
    if ticks > 0 {
      AcceleratingProgresses(speed, ticks - 1);
    }
  }

  /**
   * The speed after n ticks of full throttle from standstill: 120 ticks at 64/60 reach 128, 80 at
   * 48/60 reach 192, 60 at 32/60 reach 224, and then 16/60 per tick up to the cap.
   */
  function ThrottleCurve(n: nat): int {
    if n <= 120 then n * AccelVelocity1
    else if n <= 200 then 128 * 60 + (n - 120) * AccelVelocity2
    else if n <= 260 then 192 * 60 + (n - 200) * AccelVelocity3
    else Min(MaxSpeed, 224 * 60 + (n - 260) * AccelVelocity4)
  }

  /** Full throttle from standstill follows the four tiers of the acceleration rate exactly. */
  lemma {:induction false} FullThrottleCurve(n: nat)
    ensures Hold(0, true, false, n) == ThrottleCurve(n)
  {
    if n > 0 {
      FullThrottleCurve(n - 1);
    }
  }

  /** Full throttle from standstill is at the top speed exactly from tick 377 on (about 6.3 seconds). */
  lemma ThrottleTimeline(n: nat)
    ensures Hold(0, true, false, n) == MaxSpeed <==> n >= 377
  {
    FullThrottleCurve(n);
  }

  // ---------------------------------------------------------------------------------------------
  // Servo angle

  /** Speed 0 maps to 90 degrees and top speed to 180. */
  lemma ServoAngleEnds()
    ensures ServoAngle(0) == 90 && ServoAngle(255) == 180
  {
  }

  /** A higher whole speed never gives a smaller angle. */
  lemma ServoAngleMonotone(lower: int, higher: int)
    requires 0 <= lower <= higher
    ensures ServoAngle(lower) <= ServoAngle(higher)
  {
    var q, p := Quot(lower * 90, 255), Quot(higher * 90, 255);
    assert lower * 90 <= higher * 90;
    assert q * 255 <= lower * 90 <= higher * 90 < p * 255 + 255;
  }

  // ---------------------------------------------------------------------------------------------
  // Change detection and reporting

  /**
   * The UI is posted to, and the remembered speed and buttons move on, exactly when the whole
   * speed or a button differs from the last report; a tick with nothing new posts and sends
   * nothing but (possibly) the tick count.
   */
  lemma ReportsOnlyChanges(st: LoopState, input: TickInput)
    ensures var r := Step(st, input);
      var current := WholeSpeed(r.state.speed);
      var changed := current != st.prevSpeed || input.accel != st.prevAccel || input.brake != st.prevBrake;
      && (Post(current, input.accel, input.brake) in r.outputs <==> changed)
      && (changed <==> exists o :: o in r.outputs && !o.PostFps?)
      && (changed ==> r.state.prevSpeed == current && r.state.prevAccel == input.accel && r.state.prevBrake == input.brake)
      && (!changed ==> r.state.prevSpeed == st.prevSpeed && r.state.prevAccel == st.prevAccel && r.state.prevBrake == st.prevBrake)
      && (!changed ==> r.state.prevServoAngle == st.prevServoAngle)
  {
    var r := Step(st, input);
    var current := WholeSpeed(r.state.speed);
    if current != st.prevSpeed || input.accel != st.prevAccel || input.brake != st.prevBrake {
      assert r.outputs[0] == Post(current, input.accel, input.brake);
    }
  }

  /**
   * A servo command goes out only on a reporting tick whose angle differs from the last one
   * sent, and it carries the angle of the reported speed.
   */
  lemma ServoOnlyOnNewAngle(st: LoopState, input: TickInput)
    ensures var r := Step(st, input);
      var current := WholeSpeed(r.state.speed);
      var changed := current != st.prevSpeed || input.accel != st.prevAccel || input.brake != st.prevBrake;
      && (SetServo(Servo2, ServoAngle(current)) in r.outputs
          <==> changed && ServoAngle(current) != st.prevServoAngle)
      && (forall o | o in r.outputs && o.SetServo? :: o.angle == ServoAngle(current))
      && r.state.prevServoAngle == (if changed then ServoAngle(current) else st.prevServoAngle)
  {
  }

  /** Before any angle was sent, the first reporting tick always drives the servo. */
  lemma FirstReportDrivesServo(st: LoopState, input: TickInput)
    requires Valid(st) && st.prevServoAngle == NoAngle
    requires Changed(st, Step(st, input).state.speed, input)
    ensures SetServo(Servo2, ServoAngle(WholeSpeed(Step(st, input).state.speed))) in Step(st, input).outputs
  {
  }

  /**
   * Once an angle was sent, a tick that only changes a button (not the whole speed) posts to the
   * UI but sends no servo command.
   */
  lemma ButtonChangeKeepsServo(st: LoopState, input: TickInput)
    requires Valid(st) && st.prevServoAngle != NoAngle
    requires WholeSpeed(Step(st, input).state.speed) == st.prevSpeed
    ensures forall o | o in Step(st, input).outputs :: !o.SetServo?
  {
  }

  /**
   * The tick count goes up by one per tick, and is posted and restarted from 0 exactly when the
   * stopwatch reads more than 1000 ms.
   */
  lemma FpsWindow(st: LoopState, input: TickInput)
    ensures var r := Step(st, input);
      && (PostFps(st.fps + 1) in r.outputs <==> input.elapsedMs > ReportPeriodMs)
      && (forall o | o in r.outputs && o.PostFps? :: o.fps == st.fps + 1)
      && r.state.fps == (if input.elapsedMs > ReportPeriodMs then 0 else st.fps + 1)
  {
  }

  // ---------------------------------------------------------------------------------------------
  // Whole runs

  /** Every run keeps the state valid; from the initial state the speed stays within [0, 255]. */
  lemma {:induction false} RunKeepsValid(st: LoopState, inputs: seq<TickInput>)
    requires Valid(st)
    decreases |inputs|
    ensures Valid(RunTicks(st, inputs).state)
    ensures 0 <= WholeSpeed(RunTicks(st, inputs).state.speed) <= 255
  {
    if inputs != [] {
      RunKeepsValid(Step(st, inputs[0]).state, inputs[1..]);
    }
  }

  /** Within a window where the stopwatch never passes 1000 ms, the count equals the ticks run. */
  lemma {:induction false} FpsCountsTicks(st: LoopState, inputs: seq<TickInput>)
    requires forall i | 0 <= i < |inputs| :: inputs[i].elapsedMs <= ReportPeriodMs
    decreases |inputs|
    ensures RunTicks(st, inputs).state.fps == st.fps + |inputs|
    ensures forall o | o in RunTicks(st, inputs).outputs :: !o.PostFps?
  {
    if inputs != [] {
      FpsCountsTicks(Step(st, inputs[0]).state, inputs[1..]);
    }
  }

  /**
   * The loop's locals (StartTimerAsync), the abstract outside world it acts on (`log`) and
   * whether the motor's port is open.
   */
  class ControlLoop {
    var speed: int
    var prevSpeed: int
    var prevServoAngle: int
    var prevAccel: bool
    var prevBrake: bool
    var fps: int
    var motorOpen: bool
    var log: seq<Output>

    function State(): LoopState
      reads this
    {
      LoopState(speed, prevSpeed, prevServoAngle, prevAccel, prevBrake, fps)
    }

    constructor ()
      ensures State() == Initial && !motorOpen && log == []
    {
      speed, prevSpeed, prevServoAngle, prevAccel, prevBrake, fps := 0, 0, NoAngle, false, false, 0;
      motorOpen := false;
      log := [];
    }

    /** The speed part of a tick: brake first, then accelerate by the speed's tier, else coast. */
    method UpdateSpeed(accel: bool, brake: bool)
      modifies this`speed
      ensures speed == NextSpeed(old(speed), accel, brake)
    {
      if brake {
        speed := Max(0, speed - BrakeVelocity);
      } else if accel {
        var velocity := AccelVelocity(speed);
        speed := Min(MaxSpeed, speed + velocity);
      } else {
        speed := Max(0, speed - DefaultVelocity);
      }
    }

    /** One tick of the loop body, given the buttons read and the stopwatch reading. */
    method Tick(accel: bool, brake: bool, elapsedMs: int)
      modifies this
      ensures State() == Step(old(State()), TickInput(accel, brake, elapsedMs)).state
      ensures log == old(log) + Step(old(State()), TickInput(accel, brake, elapsedMs)).outputs
      ensures motorOpen == old(motorOpen)
    {
      ghost var st, before := State(), log;
      ghost var r := Step(st, TickInput(accel, brake, elapsedMs));
      UpdateSpeed(accel, brake);
      var currentSpeed := WholeSpeed(speed);
      ReportChanges(currentSpeed, accel, brake);
      ghost var reported := log[|before|..];
      assert log == before + reported;
      ghost var changed := Changed(st, speed, TickInput(accel, brake, elapsedMs));
      ghost var send := changed && ServoAngle(currentSpeed) != st.prevServoAngle;
      assert reported == (if changed then [Post(currentSpeed, accel, brake)] else [])
        + (if send then [SetServo(Servo2, ServoAngle(currentSpeed))] else []);

      fps := fps + 1;
      ghost var counted: seq<Output> := [];
      if elapsedMs > ReportPeriodMs {
        log := log + [PostFps(fps)];
        counted := [PostFps(fps)];
        fps := 0;
      }
      assert log == (before + reported) + counted;
      assert r.outputs == reported + counted;
      ConcatAssoc(before, reported, counted);
    }

    /**
     * The reporting part of a tick: when the whole speed or a button changed, post them to the UI,
     * send the servo the new angle if it differs from the last one sent, and remember them.
     */
    method ReportChanges(currentSpeed: int, accel: bool, brake: bool)
      modifies this`prevSpeed, this`prevServoAngle, this`prevAccel, this`prevBrake, this`log
      ensures var changed := currentSpeed != old(prevSpeed) || accel != old(prevAccel) || brake != old(prevBrake);
        var send := changed && ServoAngle(currentSpeed) != old(prevServoAngle);
        && prevSpeed == (if changed then currentSpeed else old(prevSpeed))
        && prevAccel == (if changed then accel else old(prevAccel))
        && prevBrake == (if changed then brake else old(prevBrake))
        && prevServoAngle == (if send then ServoAngle(currentSpeed) else old(prevServoAngle))
        && log == old(log) + (if changed then [Post(currentSpeed, accel, brake)] else [])
                           + (if send then [SetServo(Servo2, ServoAngle(currentSpeed))] else [])
    {
      if currentSpeed != prevSpeed || accel != prevAccel || brake != prevBrake {
        log := log + [Post(currentSpeed, accel, brake)];
        var servoAngle := ServoAngle(currentSpeed);
        if servoAngle != prevServoAngle {
          log := log + [SetServo(Servo2, servoAngle)];
          prevServoAngle := servoAngle;
        }
        prevSpeed := currentSpeed;
        prevAccel := accel;
        prevBrake := brake;
      }
    }

    /**
     * StartTimerAsync: reset the locals, open the motor, start the gamepad, run one tick per
     * input, and close the motor when the ticks end (cancellation at any tick boundary).
     */
    method StartTimer(inputs: seq<TickInput>)
      modifies this
      ensures State() == RunTicks(Initial, inputs).state
      ensures log == old(log) + [MotorOpened, GamepadStarted] + RunTicks(Initial, inputs).outputs + [MotorClosed]
      ensures !motorOpen
    {
      speed, prevSpeed, prevServoAngle, prevAccel, prevBrake, fps := 0, 0, NoAngle, false, false, 0;
      motorOpen := true;
      log := log + [MotorOpened, GamepadStarted];
      TickAll(inputs);
      motorOpen := false;
      log := log + [MotorClosed];
    }

    /** The timer loop: one tick per input, in order. */
    method TickAll(inputs: seq<TickInput>)
      modifies this
      ensures State() == RunTicks(old(State()), inputs).state
      ensures log == old(log) + RunTicks(old(State()), inputs).outputs
      ensures motorOpen == old(motorOpen)
    {
      ghost var start, started := State(), log;
      ghost var total := RunTicks(start, inputs);
      var i := 0;
      while i < |inputs|
        invariant 0 <= i <= |inputs|
        invariant total.state == RunTicks(State(), inputs[i..]).state
        invariant started + total.outputs == log + RunTicks(State(), inputs[i..]).outputs
        invariant motorOpen == old(motorOpen)
      {
        var accel, brake, elapsedMs := inputs[i].accel, inputs[i].brake, inputs[i].elapsedMs;
        assert inputs[i..][0] == inputs[i] == TickInput(accel, brake, elapsedMs);
        assert inputs[i..][1..] == inputs[i + 1..];
        ghost var before, step := log, Step(State(), inputs[i]);
        Tick(accel, brake, elapsedMs);
        ConcatAssoc(before, step.outputs, RunTicks(State(), inputs[i + 1..]).outputs);
        i := i + 1;
      }
    }
  }
}
