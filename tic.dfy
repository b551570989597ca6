/** The Tic stepper-motor controller as the motion controller sees it: the commands
    it sends, the configuration it pushes at setup, and, for one iteration of the
    monitor loop, which device call (if any) raises and what a position read returns. */
module Tic {

  datatype Option<T> = None | Some(value: T)

  /** A command the controller issues to the device. The controller's command log
      records every command in the order it was issued, including one that raised. */
  datatype DeviceCmd =
    | SetStepMode(mode: int)
    | SetCurrentLimit(limit: int)
    | SetMaxSpeed(speed: int)
    | SetStartingSpeed(speed: int)
    | SetMaxAcceleration(acceleration: int)
    | SetMaxDeceleration(deceleration: int)
    | SetDecayMode(mode: int)
    | SetTargetPosition(position: int)
    | HaltAndSetPosition(position: int)
    | Energize
    | Deenergize
    | ExitSafeStart
    | EnterSafeStart
    | ResetCommandTimeout

  /** The fixed motion parameters that setup pushes to the device. */
  datatype Tuning = Tuning(
    stepMode: int,
    currentLimit: int,
    maxSpeed: int,
    startingSpeed: int,
    maxAcceleration: int,
    maxDeceleration: int,
    decayMode: int)

  /** The parameters of explore/tic_controller.py. */
  const TicControllerTuning: Tuning := Tuning(0, 46, 100000000, 0, 2000000, 2000000, 0)

  /** The parameters of explore/stepper_motor_example.py: gentler acceleration and deceleration. */
  const StepperExampleTuning: Tuning := Tuning(0, 46, 100000000, 0, 500000, 500000, 0)

  /** Each file's setup pushes its own acceleration and deceleration. */
  lemma TuningsDiffer()
    ensures SetMaxAcceleration(2000000) in ConfigCommands(TicControllerTuning)
    ensures SetMaxAcceleration(500000) in ConfigCommands(StepperExampleTuning)
    ensures SetMaxDeceleration(500000) in ConfigCommands(StepperExampleTuning)
    ensures ConfigCommands(TicControllerTuning) != ConfigCommands(StepperExampleTuning)
  {
  }

  /** The configuration commands of setup, in the order they are issued. */
  function ConfigCommands(t: Tuning): (cmds: seq<DeviceCmd>)
    ensures |cmds| == 7
    ensures cmds[0] == SetStepMode(t.stepMode) && cmds[6] == SetDecayMode(t.decayMode)
    ensures SetMaxAcceleration(t.maxAcceleration) in cmds && SetMaxDeceleration(t.maxDeceleration) in cmds
    ensures forall c <- cmds :: !c.SetTargetPosition? && !c.HaltAndSetPosition?
  {
    [ SetStepMode(t.stepMode),
      SetCurrentLimit(t.currentLimit),
      SetMaxSpeed(t.maxSpeed),
      SetStartingSpeed(t.startingSpeed),
      SetMaxAcceleration(t.maxAcceleration),
      SetMaxDeceleration(t.maxDeceleration),
      SetDecayMode(t.decayMode) ]
  }

  /** The positions sent with set_target_position, in the order sent. */
  function Targets(log: seq<DeviceCmd>): seq<int>
  {
    if log == [] then []
    else (if log[0].SetTargetPosition? then [log[0].position] else []) + Targets(log[1..])
  }

  lemma {:induction false} TargetsAppend(a: seq<DeviceCmd>, b: seq<DeviceCmd>)
    ensures Targets(a + b) == Targets(a) + Targets(b)
  {
    if a == [] {
      assert a + b == b;
    } else {
      assert (a + b)[0] == a[0];
      assert (a + b)[1..] == a[1..] + b;
      TargetsAppend(a[1..], b);
    }
  }

  lemma TargetsAppendOne(log: seq<DeviceCmd>, c: DeviceCmd)
    ensures Targets(log + [c]) == Targets(log) + (if c.SetTargetPosition? then [c.position] else [])
  {
    TargetsAppend(log, [c]);
    assert Targets([c]) == (if c.SetTargetPosition? then [c.position] else []) + Targets([]);
  }

  /** The device call that raises during one iteration of the monitor loop, if that
      call is made at all: the first three belong to dispatching a dequeued position
      and are not made when the queue is empty. */
  datatype Fault =
    | NoFault
    | SetTargetRaises        // set_target_position(p)
    | ExitSafeStartRaises    // the exit_safe_start() right after it
    | CommandTimeoutRaises   // reset_command_timeout()
    | ReadRaises             // get_current_position()
    | KeepAliveRaises        // the closing exit_safe_start() of the iteration
  {
    predicate InDispatch() {
      SetTargetRaises? || ExitSafeStartRaises? || CommandTimeoutRaises?
    }
  }

  /** What the device does during one iteration: where it raises, and the position
      get_current_position returns if it is called and does not raise. */
  datatype Tick = Tick(fault: Fault, reading: int)
  {
    /** Whether the position read of the iteration happens and returns. */
    predicate ReadSucceeds(dispatching: bool) {
      !fault.ReadRaises? && !(dispatching && fault.InDispatch())
    }
  }
}
