/** The motion state machine of TicController as values: its state, one function per
    operation, and what runs of operations guarantee. The class in module Controller
    is proved to follow these functions. */
module Motion {
  import opened Tic

  /** queue: the pending target positions, front first; target, current: the last
      position sent as a target and the last position read; reached, stopRequested:
      whether position_reached_event and stop_event are set; log: the commands issued. */
  datatype State = State(
    queue: seq<int>,
    target: int,
    current: int,
    reached: bool,
    stopRequested: bool,
    log: seq<DeviceCmd>)

  /** What the constructor leaves: nothing queued, both positions 0, both events clear. */
  const Initial: State := State([], 0, 0, false, false, [])

  /** setup: push the configuration, then seed both positions from one device read.
      A read that raises (None) propagates out of setup with the positions untouched. */
  function Setup(s: State, tuning: Tuning, reading: Option<int>): (r: State)
    ensures r.log == s.log + ConfigCommands(tuning)
    ensures reading.Some? ==> r.current == reading.value && r.target == reading.value
    ensures reading.None? ==> r.current == s.current && r.target == s.target
    ensures r.queue == s.queue && r.reached == s.reached && r.stopRequested == s.stopRequested
  {
    var configured := s.(log := s.log + ConfigCommands(tuning));
    match reading
    case None => configured
    case Some(p) => configured.(current := p, target := p)
  }

  /** start: setup, then clear both events, energize and leave safe-start. */
  function Start(s: State, tuning: Tuning, reading: Option<int>): (r: State)
    ensures reading.None? ==> r == Setup(s, tuning, reading)
    ensures reading.Some? ==>
      !r.stopRequested && !r.reached && r.queue == s.queue &&
      r.current == reading.value && r.target == reading.value &&
      r.log == s.log + ConfigCommands(tuning) + [Energize, ExitSafeStart]
  {
    var seeded := Setup(s, tuning, reading);
    if reading.None? then seeded
    else seeded.(stopRequested := false, reached := false, log := seeded.log + [Energize, ExitSafeStart])
  }

  /** stop: raise the stop flag, then deenergize and re-enter safe-start. */
  function Stop(s: State): (r: State)
    ensures r.stopRequested
    ensures r.queue == s.queue && r.target == s.target && r.current == s.current && r.reached == s.reached
    ensures r.log == s.log + [Deenergize, EnterSafeStart]
    ensures forall tick :: Iteration(r, tick) == r
  {
    s.(stopRequested := true, log := s.log + [Deenergize, EnterSafeStart])
  }

  /** move_to: put a position at the back of the queue. */
  function MoveTo(s: State, position: int): (r: State)
    ensures r.queue == s.queue + [position]
    ensures r.(queue := s.queue) == s
  {
    s.(queue := s.queue + [position])
  }

  /** Whether the pass that starts from s reaches the position read and the read returns. */
  predicate PassReads(s: State, tick: Tick) {
    !s.stopRequested && tick.ReadSucceeds(s.queue != [])
  }

  /** One pass of the monitor loop, guard included. A raising device call ends the
      pass where it stands: what the pass changed before it is kept. */
  function Iteration(s: State, tick: Tick): (r: State)
    // the stop flag is the loop guard; a raising call never ends the loop
    ensures s.stopRequested ==> r == s
    ensures r.stopRequested == s.stopRequested
    // at most one command is consumed, always the front one, and it becomes the target
    ensures !s.stopRequested && s.queue != [] ==> r.queue == s.queue[1..] && r.target == s.queue[0]
    ensures s.stopRequested || s.queue == [] ==> r.queue == s.queue && r.target == s.target
    // the current position is the reading exactly when the read happens
    ensures PassReads(s, tick) ==> r.current == tick.reading
    ensures !PassReads(s, tick) ==> r.current == s.current
    // the flag after the pass: (flag after the dequeue step) or current == target
    ensures PassReads(s, tick) ==>
      (r.reached <==> (s.reached && s.queue == []) || r.current == r.target)
    ensures !s.stopRequested && s.queue != [] ==>
      (r.reached <==> PassReads(s, tick) && tick.reading == s.queue[0])
    // only a dequeue clears the flag
    ensures s.reached && !r.reached ==> !s.stopRequested && s.queue != []
    // only a successful read that sees the target sets it
    ensures !s.reached && r.reached ==> PassReads(s, tick) && r.current == r.target
    ensures |s.log| <= |r.log| && r.log[..|s.log|] == s.log
  {
    if s.stopRequested then s
    else if s.queue == [] then Observe(s, tick)
    else
      var p := s.queue[0];
      var sent := s.(queue := s.queue[1..], reached := false, target := p,
                     log := s.log + [SetTargetPosition(p)]);
      if tick.fault == SetTargetRaises then sent
      else
        var released := sent.(log := sent.log + [ExitSafeStart]);
        if tick.fault == ExitSafeStartRaises then released
        else
          var kept := released.(log := released.log + [ResetCommandTimeout]);
          if tick.fault == CommandTimeoutRaises then kept else Observe(kept, tick)
  }

  /** The rest of a pass: read the position, set the flag if it equals the target,
      and leave safe-start as a keep-alive. */
  function Observe(s: State, tick: Tick): State {
    if tick.fault == ReadRaises then s
    else
      var read := s.(current := tick.reading);
      var checked := if !read.reached && read.current == read.target then read.(reached := true) else read;
      checked.(log := checked.log + [ExitSafeStart])
  }

  /** reset_position: discard every queued position, halt the device at 0, zero both
      positions and set the flag. */
  function Reset(s: State): (r: State)
    ensures r.queue == [] && r.current == 0 && r.target == 0 && r.reached
    ensures r.stopRequested == s.stopRequested
    ensures r.log == s.log + [HaltAndSetPosition(0)]
  {
    var drained := s.(queue := []);
    drained.(log := drained.log + [HaltAndSetPosition(0)], current := 0, target := 0, reached := true)
  }

  // ---------------------------------------------------------------------------
  // Runs: callers' move_to and stop requests interleaved with passes of the loop.

  datatype Event = Move(position: int) | Iterate(tick: Tick) | RequestStop

  function Apply(s: State, e: Event): State {
    match e
    case Move(p) => MoveTo(s, p)
    case Iterate(tick) => Iteration(s, tick)
    case RequestStop => Stop(s)
  }

  function Run(s: State, es: seq<Event>): State
    decreases |es|
  {
    if es == [] then s else Apply(Run(s, es[..|es| - 1]), es[|es| - 1])
  }

  /** The positions the events put on the queue, in order. */
  function Enqueued(es: seq<Event>): seq<int>
    decreases |es|
  {
    if es == [] then []
    else Enqueued(es[..|es| - 1]) + (if es[|es| - 1].Move? then [es[|es| - 1].position] else [])
  }

  /** The passes of the loop over the given device behaviours. */
  function Polls(ticks: seq<Tick>): seq<Event> {
    seq(|ticks|, i requires 0 <= i < |ticks| => Iterate(ticks[i]))
  }

  predicate OnlyPolls(es: seq<Event>) {
    forall i :: 0 <= i < |es| ==> es[i].Iterate?
  }

  /** Some pass with an empty queue reads the position p. */
  predicate Observed(es: seq<Event>, p: int) {
    exists i :: 0 <= i < |es| && es[i].Iterate? && es[i].tick.ReadSucceeds(false) && es[i].tick.reading == p
  }

  lemma {:induction false} RunAppend(s: State, a: seq<Event>, b: seq<Event>)
    ensures Run(s, a + b) == Run(Run(s, a), b)
    decreases |b|
  {
    if b == [] {
      assert a + b == a;
    } else {
      assert (a + b)[..|a + b| - 1] == a + b[..|b| - 1];
      assert (a + b)[|a + b| - 1] == b[|b| - 1];
      RunAppend(s, a, b[..|b| - 1]);
    }
  }

  lemma {:induction false} PollsEnqueueNothing(es: seq<Event>)
    requires OnlyPolls(es)
    ensures Enqueued(es) == []
    decreases |es|
  {
    if es != [] {
      PollsEnqueueNothing(es[..|es| - 1]);
    }
  }

  /** A pass sends set_target_position for the front of the queue when it dequeues,
      and no other target. */
  lemma IterationTargets(s: State, tick: Tick)
    ensures Targets(Iteration(s, tick).log) ==
      Targets(s.log) + (if !s.stopRequested && s.queue != [] then [s.queue[0]] else [])
  {
    TargetsAppendOne(s.log, ExitSafeStart);
    if !s.stopRequested && s.queue != [] {
      var l1 := s.log + [SetTargetPosition(s.queue[0])];
      var l2 := l1 + [ExitSafeStart];
      var l3 := l2 + [ResetCommandTimeout];
      TargetsAppendOne(s.log, SetTargetPosition(s.queue[0]));
      TargetsAppendOne(l1, ExitSafeStart);
      TargetsAppendOne(l2, ResetCommandTimeout);
      TargetsAppendOne(l3, ExitSafeStart);
    }
  }

  /** One event keeps the log's past and conserves the commands: what was sent or
      queued before, followed by what it enqueues, is what is sent or queued after. */
  lemma ApplyKeepsFifo(s: State, e: Event)
    ensures |s.log| <= |Apply(s, e).log| && Apply(s, e).log[..|s.log|] == s.log
    ensures Targets(s.log) + s.queue + Enqueued([e]) == Targets(Apply(s, e).log) + Apply(s, e).queue
  {
    assert Enqueued([e]) == Enqueued([]) + (if e.Move? then [e.position] else []);
    match e
    case Move(p) =>
    case RequestStop =>
      TargetsAppendOne(s.log, Deenergize);
      TargetsAppendOne(s.log + [Deenergize], EnterSafeStart);
      assert s.log + [Deenergize, EnterSafeStart] == s.log + [Deenergize] + [EnterSafeStart];
    case Iterate(tick) =>
      IterationTargets(s, tick);
      if !s.stopRequested && s.queue != [] {
        assert s.queue == [s.queue[0]] + s.queue[1..];
      }
  }

  /** First in, first out: over any run of move_to calls, stop requests and passes of
      the loop, every position already queued or enqueued during the run is either issued
      with set_target_position exactly once, in enqueue order, or still queued. An issued
      command that raised is not retried. */
  lemma {:induction false} RunKeepsFifo(s: State, es: seq<Event>)
    ensures |s.log| <= |Run(s, es).log| && Run(s, es).log[..|s.log|] == s.log
    ensures Targets(s.log) + s.queue + Enqueued(es) == Targets(Run(s, es).log) + Run(s, es).queue
    decreases |es|
  {
    if es == [] {
      assert s.queue + Enqueued(es) == s.queue;
    } else {
      var init, e := es[..|es| - 1], es[|es| - 1];
      RunKeepsFifo(s, init);
      var mid := Run(s, init);
      ApplyKeepsFifo(mid, e);
      assert Enqueued(es) == Enqueued(init) + Enqueued([e]) by {
        assert Enqueued([e]) == Enqueued([]) + (if e.Move? then [e.position] else []);
      }
      calc {
        Targets(s.log) + s.queue + Enqueued(es);
        (Targets(s.log) + s.queue + Enqueued(init)) + Enqueued([e]);
        Targets(mid.log) + mid.queue + Enqueued([e]);
        Targets(Run(s, es).log) + Run(s, es).queue;
      }
    }
  }

  /** With nothing queued and the loop running, passes never change the target, and the
      flag ends set exactly when it was set already or some pass read the target. */
  lemma {:induction false} ReachedOnceObserved(s: State, es: seq<Event>)
    requires s.queue == [] && !s.stopRequested && OnlyPolls(es)
    ensures Run(s, es).queue == [] && Run(s, es).target == s.target && !Run(s, es).stopRequested
    ensures Run(s, es).reached <==> s.reached || Observed(es, s.target)
    decreases |es|
  {
    if es != [] {
      var init, e := es[..|es| - 1], es[|es| - 1];
      assert OnlyPolls(init) by {
        assert forall i :: 0 <= i < |init| ==> init[i] == es[i];
      }
      ReachedOnceObserved(s, init);
      var mid := Run(s, init);
      if Observed(init, s.target) {
        var i :| 0 <= i < |init| && init[i].Iterate? && init[i].tick.ReadSucceeds(false) && init[i].tick.reading == s.target;
        assert es[i] == init[i];
      }
      if Observed(es, s.target) && !Observed(init, s.target) {
        var i :| 0 <= i < |es| && es[i].Iterate? && es[i].tick.ReadSucceeds(false) && es[i].tick.reading == s.target;
      }
    }
  }

  /** What move_to guarantees once the loop takes it: with nothing else queued, the run
      of passes that follows sets the target to p, and the flag ends set exactly when a
      pass read p, the first pass counting only if its dispatch did not raise. */
  lemma MoveThenWait(s: State, p: int, es: seq<Event>)
    requires s.queue == [] && !s.stopRequested && OnlyPolls(es) && es != []
    ensures Run(s, [Move(p)] + es).target == p && Run(s, [Move(p)] + es).queue == []
    ensures Run(s, [Move(p)] + es).reached <==>
      (es[0].tick.ReadSucceeds(true) && es[0].tick.reading == p) || Observed(es[1..], p)
  {
    var moved := MoveTo(s, p);
    assert Run(s, [Move(p)]) == moved by {
      assert [Move(p)][..0] == [];
    }
    var first := Iteration(moved, es[0].tick);
    assert Run(moved, [es[0]]) == first by {
      assert [es[0]][..0] == [];
    }
    assert OnlyPolls(es[1..]) by {
      assert forall i :: 0 <= i < |es| - 1 ==> es[1..][i] == es[i + 1];
    }
    ReachedOnceObserved(first, es[1..]);
    RunAppend(s, [Move(p)], es);
    RunAppend(moved, [es[0]], es[1..]);
    assert [es[0]] + es[1..] == es;
  }

  /** Once the stop flag is raised, no pass of the loop runs: no target is sent again and
      the positions and the flag stay as they were, while move_to still queues. */
  lemma {:induction false} StopIsFinal(s: State, es: seq<Event>)
    requires s.stopRequested
    ensures Run(s, es).stopRequested
    ensures Run(s, es).target == s.target && Run(s, es).current == s.current && Run(s, es).reached == s.reached
    ensures Run(s, es).queue == s.queue + Enqueued(es)
    ensures Targets(Run(s, es).log) == Targets(s.log)
    decreases |es|
  {
    if es != [] {
      var init, e := es[..|es| - 1], es[|es| - 1];
      StopIsFinal(s, init);
      var mid := Run(s, init);
      assert Enqueued([e]) == Enqueued([]) + (if e.Move? then [e.position] else []);
      if e.RequestStop? {
        TargetsAppend(mid.log, [Deenergize, EnterSafeStart]);
        assert Targets([EnterSafeStart]) == [];
      }
    }
  }

  /** reset_position cancels every queued move: passes of the loop that follow it send no
      target command, keep the target at 0 and keep the flag set. */
  lemma ResetCancelsPending(s: State, es: seq<Event>)
    requires OnlyPolls(es)
    ensures Run(Reset(s), es).queue == [] && Run(Reset(s), es).target == 0 && Run(Reset(s), es).reached
    ensures Targets(Run(Reset(s), es).log) == Targets(s.log)
  {
    var z := Reset(s);
    RunKeepsFifo(z, es);
    PollsEnqueueNothing(es);
    TargetsAppendOne(s.log, HaltAndSetPosition(0));
    if s.stopRequested {
      StopIsFinal(z, es);
    } else {
      ReachedOnceObserved(z, es);
    }
    assert Targets(z.log) + z.queue + Enqueued(es) == Targets(z.log);
    assert Targets(Run(z, es).log) + Run(z, es).queue == Targets(Run(z, es).log);
  }
}
