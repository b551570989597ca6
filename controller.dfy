/** TicController: the motion controller object. Its fields are the ones the monitor
    thread and the callers update in place; every method is proved to move the object
    from one Motion.State to the next exactly as the Motion function of the same
    operation prescribes, so the lemmas of module Motion hold of the object. */
module Controller {
  import opened Tic
  import Motion

  class TicController {
    /** The motion parameters setup pushes to the device. */
    const tuning: Tuning

    var queue: seq<int>
    var target: int
    var current: int
    var reached: bool
    var stopRequested: bool
    /** Every command issued to the device, in order. */
    ghost var log: seq<DeviceCmd>

    ghost function State(): Motion.State
      reads this
    {
      Motion.State(queue, target, current, reached, stopRequested, log)
    }

    constructor (tuning: Tuning)
      ensures this.tuning == tuning
      ensures State() == Motion.Initial
    {
      this.tuning := tuning;
      queue := [];
      target, current := 0, 0;
      reached, stopRequested := false, false;
      log := [];
    }

    /** reading is what get_current_position returns, or None when it raises; the
        exception then propagates (ok is false). */
    method Setup(reading: Option<int>) returns (ok: bool)
      modifies this
      ensures ok == reading.Some?
      ensures State() == Motion.Setup(old(State()), tuning, reading)
    {
      log := log + ConfigCommands(tuning);
      if reading.None? {
        return false;
      }
      current := reading.value;
      target := current;
      ok := true;
    }

    /** Starting the monitor thread is not modelled: callers drive PollStep or Monitor. */
    method Start(reading: Option<int>) returns (ok: bool)
      modifies this
      ensures ok == reading.Some?
      ensures State() == Motion.Start(old(State()), tuning, reading)
    {
      ok := Setup(reading);
      if !ok {
        return;
      }
      stopRequested := false;
      reached := false;
      log := log + [Energize];
      log := log + [ExitSafeStart];
    }

    /** One pass of motor_position_monitor's loop: the guard, then the body. A device
        call that raises ends the body where it stands (`motor_position_monitor` catches
        it and goes on with the next pass); ran says whether the body ran. */
    method PollStep(tick: Tick) returns (ran: bool)
      modifies this
      ensures ran == !old(stopRequested)
      ensures State() == Motion.Iteration(old(State()), tick)
    {
      if stopRequested {
        return false;
      }
      ran := true;
      if queue != [] {
        var position := queue[0];
        queue := queue[1..];
        reached := false;
        target := position;
        log := log + [SetTargetPosition(position)];
        if tick.fault == SetTargetRaises {
          return;
        }
        log := log + [ExitSafeStart];
        if tick.fault == ExitSafeStartRaises {
          return;
        }
        log := log + [ResetCommandTimeout];
        if tick.fault == CommandTimeoutRaises {
          return;
        }
      }
      if tick.fault == ReadRaises {
        return;
      }
      current := tick.reading;
      if !reached && current == target {
        reached := true;
      }
      log := log + [ExitSafeStart];
    }

    /** The monitor loop, run over the device behaviours of successive passes for as
        long as the stop flag is down. */
    method Monitor(ticks: seq<Tick>) returns (iterations: nat)
      modifies this
      ensures iterations == if old(stopRequested) then 0 else |ticks|
      ensures State() == Motion.Run(old(State()), Motion.Polls(ticks[..iterations]))
    {
      iterations := 0;
      while iterations < |ticks| && !stopRequested
        invariant iterations <= |ticks|
        invariant stopRequested == old(stopRequested)
        invariant old(stopRequested) ==> iterations == 0
        invariant State() == Motion.Run(old(State()), Motion.Polls(ticks[..iterations]))
      {
        var ran := PollStep(ticks[iterations]);
        assert Motion.Polls(ticks[..iterations + 1])
          == Motion.Polls(ticks[..iterations]) + [Motion.Iterate(ticks[iterations])];
        iterations := iterations + 1;
      }
    }

    /** Joining the thread is not modelled; the device is always switched off. */
    method Stop()
      modifies this
      ensures State() == Motion.Stop(old(State()))
    {
      stopRequested := true;
      log := log + [Deenergize];
      log := log + [EnterSafeStart];
    }

    method MoveTo(position: int)
      modifies this
      ensures State() == Motion.MoveTo(old(State()), position)
    {
      queue := queue + [position];
    }

    /** Without a clock, waiting reduces to reading the flag as it stands. */
    method WaitForPositionReached() returns (r: bool)
      ensures r == reached
    {
      r := reached;
    }

    /** A read of the cached position: no device call, nothing changes. */
    method GetCurrentPosition() returns (position: int)
      ensures position == current
    {
      position := current;
    }

    method ResetPosition()
      modifies this
      ensures State() == Motion.Reset(old(State()))
    {
      while queue != []
        invariant target == old(target) && current == old(current) && reached == old(reached)
        invariant stopRequested == old(stopRequested) && log == old(log)
        decreases |queue|
      {
        queue := queue[1..];
      }
      log := log + [HaltAndSetPosition(0)];
      current := 0;
      target := 0;
      reached := true;
    }
  }
}
