# TicController motion state machine in Dafny

This project models the motion controller of the radar motion platform's exploratory
scripts. The controller is the `TicController` class, which drives a Tic stepper-motor
controller over USB. It owns four pieces of state:

- a FIFO queue of pending target positions;
- the last target sent and the last position read;
- the "position reached" event;
- the stop event.

Callers queue positions with `move_to`. A monitor loop takes at most one position per pass,
sends it to the device and clears the event. It then reads the device position and sets
the event when the position equals the target. `reset_position` discards the queue and
halts the device at 0.

`explore/tic_controller.py` and `explore/stepper_motor_example.py` contain the same class.
Their state machines are identical line for line; only two things differ:

- the acceleration and deceleration that setup pushes;
- a sensor-recording thread in the second file, which is not modelled.

The model therefore has one class, `Controller.TicController`. It is built from a `Tic.Tuning`
that holds setup's constants. `Tic.TicControllerTuning` has the constants of the first file
and `Tic.StepperExampleTuning` those of the second. The table below cites the first file for
the class's methods and the second file for the state functions they follow.

The model has three modules:

- `Tic` (tic.dfy): the device as the controller sees it.
  - `DeviceCmd` is a command the controller issues. The controller keeps a ghost log of
    every command it issues, in order, including one that raised.
  - `Tuning` and `ConfigCommands` are the configuration setup pushes.
  - For one pass of the loop, a `Tick` says which device call raises, if any (`Fault`),
    and what `get_current_position` returns.
  - `Targets` extracts the positions sent with `set_target_position`.
- `Motion` (motion.dfy): the controller's state as a value (`State`) and one function per
  operation. It also holds runs of interleaved events (`Move`, `Iterate`, `RequestStop`)
  and the lemmas about such runs.
- `Controller` (controller.dfy): the class. Its fields are updated in place. Each method
  ensures `State() == Motion.F(old(State()), ...)` for its operation's function `F`, so
  everything proved in `Motion` holds of the object.

Device reads are method arguments. `Option<int>` is used at setup, where a failing read
propagates out of `setup`. A `Tick` is used in the loop, where a failing call is caught.
There are no threads: a caller drives the loop one pass at a time (`PollStep`) or over a
sequence of passes (`Monitor`).

Two facts about the code shape the model:

- `queue.get(block=False)` returns the oldest queued position, one per pass, so a burst of
  `move_to` calls is applied in enqueue order rather than last-wins (`Motion.RunKeepsFifo`).
- The flag is set on the first matching poll, and no later poll that reads another
  position clears it; only a dequeue does (`Motion.Iteration`).

One consequence of the code is worth spelling out. `move_to` does not clear the reached
flag; only the pass that dequeues the position does (`Motion.MoveTo`, `Motion.Iteration`).
So `wait_for_position_reached` called right after `move_to` returns the flag left by the
previous target until the loop takes the new position. `Motion.MoveThenWait` states what
holds once the position is taken. A `set_target_position` that raises drops that move
without a retry: the position has left the queue and is the target, and the flag then stays
clear until a read happens to equal it.

## Model

| member | source | states |
|---|---|---|
| `Tic.ConfigCommands` | explore/stepper_motor_example.py:23-29 | setup issues exactly seven configuration commands: step mode first, decay mode last, with the file's acceleration and deceleration; none of them moves the motor |
| `Tic.TuningsDiffer` | explore/tic_controller.py:25-26 | the two files' setups differ: this file pushes acceleration 2000000, explore/stepper_motor_example.py pushes acceleration and deceleration 500000 |
| `Controller.TicController.constructor` | explore/tic_controller.py:7-15 | a new controller has an empty queue, both positions 0, both events clear and has sent nothing |
| `Motion.Setup` | explore/stepper_motor_example.py:19-37 | after setup the configuration follows the earlier log; a successful read leaves current and target both equal to the value read; a raising read leaves both positions as they were; queue and flags unchanged |
| `Controller.TicController.Setup` | explore/tic_controller.py:17-32 | the object moves exactly as Motion.Setup prescribes; ok is true exactly when the position read succeeds |
| `Motion.Start` | explore/stepper_motor_example.py:125-143 | after a successful setup, start clears both the stop flag and the reached flag, keeps the seeded positions and issues energize then exit-safe-start; if setup raises, nothing after it happens |
| `Controller.TicController.Start` | explore/tic_controller.py:85-98 | the object moves exactly as Motion.Start prescribes; ok reports whether setup succeeded |
| `Motion.Stop` | explore/stepper_motor_example.py:145-157 | stop raises the stop flag, deenergizes and re-enters safe-start, changes no position, queue or reached flag, and afterwards every pass of the loop leaves the state untouched |
| `Controller.TicController.Stop` | explore/tic_controller.py:100-110 | the object moves exactly as Motion.Stop prescribes |
| `Motion.MoveTo` | explore/stepper_motor_example.py:161-163 | move_to puts the position at the back of the queue and changes nothing else, the reached flag included |
| `Controller.TicController.MoveTo` | explore/tic_controller.py:114-116 | the object moves exactly as Motion.MoveTo prescribes |
| `Motion.Iteration` | explore/stepper_motor_example.py:43-86 | a pass runs only while the stop flag is down, and a raising call never ends the loop. It removes at most the front position and makes it the target. With an empty queue, queue and target are unchanged. The current position becomes the reading exactly when the read happens. After a successful read the flag is (flag after the dequeue step) or current == target. After a dequeue of p the flag is set exactly when the read succeeded and returned p. Only a dequeue clears the flag, and only a successful read that sees the target sets it. The log only grows |
| `Controller.TicController.PollStep` | explore/tic_controller.py:38-81 | one guard check plus loop body moves the object exactly as Motion.Iteration prescribes; ran is true exactly when the stop flag was down |
| `Controller.TicController.Monitor` | explore/tic_controller.py:34-83 | with the stop flag down the loop runs one pass per device behaviour given, and the object ends as the run of those passes prescribes; with it up no pass runs |
| `Motion.IterationTargets` | explore/tic_controller.py:41-57 | a pass sends set_target_position exactly for the dequeued front position and otherwise sends no target |
| `Motion.RunKeepsFifo` | explore/tic_controller.py:41-116 | over any interleaving of move_to, stop and passes, the log only grows, and (targets sent) + (queue) + (positions enqueued) before equals (targets sent) + (queue) after: every queued or enqueued position is issued with set_target_position exactly once, in enqueue order, or is still queued |
| `Motion.ReachedOnceObserved` | explore/tic_controller.py:62-72 | with an empty queue and the loop running, passes keep the queue empty and the target fixed, and the flag ends set exactly when it was already set or some pass read the target |
| `Motion.MoveThenWait` | explore/stepper_motor_example.py:45-77 | after move_to(p) on an idle controller and a run of passes, the target is p and the flag is set exactly when a pass read p (the first pass counts only if its dispatch calls did not raise) |
| `Motion.StopIsFinal` | explore/tic_controller.py:38-42 | once the stop flag is set, no later event sends a target or changes target, current or the flag; move_to still enqueues |
| `Motion.Reset` | explore/stepper_motor_example.py:179-200 | whatever was queued, reset leaves the queue empty, both positions 0 and the flag set, issues halt_and_set_position(0), and leaves the stop flag as it was |
| `Controller.TicController.ResetPosition` | explore/tic_controller.py:127-148 | draining the queue in a loop and then halting moves the object exactly as Motion.Reset prescribes |
| `Motion.ResetCancelsPending` | explore/stepper_motor_example.py:183-200 | after reset, passes of the loop send no target command, keep the queue empty and the target 0, and keep the flag set: queued moves are cancelled, not applied |
| `Controller.TicController.WaitForPositionReached` | explore/tic_controller.py:118-120 | returns the reached flag |
| `Controller.TicController.GetCurrentPosition` | explore/tic_controller.py:122-125 | returns the cached current position; it changes nothing and issues no device command |

## Left out

- Threads, the lock, `Event.wait` timeouts, `join(timeout=5.0)` and `time.sleep`: these are
  about concurrency and timing. Operations happen one at a time, in an order the caller
  picks (the `Motion.Event` runs).
- Controller.TicController.WaitForPositionReached: returns the flag as it stands; it does
  not block until the flag is set or a timeout passes, because there is no clock or second
  thread.
- The `ticlib.TicUSB` driver itself: reads are inputs, and commands go to the ghost log.
  Within a pass of the loop any device call may raise (`Tic.Fault`). A raise from the
  configuration setters, `halt_and_set_position`, `energize`, the closing `exit_safe_start`
  of start, `deenergize` or `enter_safe_start` is not modelled; in the Python code it propagates to the caller of setup,
  start, reset_position or stop.
- The 32-bit range of the device's position registers: positions are unbounded integers,
  as in Python.
- `queue.task_done` bookkeeping: nothing in the core calls `queue.join`.
- The `except queue.Empty: break` in reset_position's drain loop: it can fire only when
  another thread empties the queue between the check and the get.
- `start` called twice: in the Python code it spawns a second monitor thread.
- `sensor_monitor` and `get_sensor_data` of explore/stepper_motor_example.py: a second
  thread that records readings in a dict keyed by wall-clock time.
- explore/simple_controll.py: a linear hardware script with no state of its own.
- Console printing and the `run_test` drivers.
