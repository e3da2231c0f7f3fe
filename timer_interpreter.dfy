/** The running machine (the interpreter behind `useMachine`,
    frontend/index.tsx line 150): it holds the current state and context,
    which every event sent to it overwrites, and the log of effects it has
    emitted so far. */
module TimerInterpreter {
  import opened TimerMachine
  import TimerProperties

  class Interpreter {
    var state: State
    var context: Context
    var effects: seq<Effect>

    function Current(): Machine
      reads this
    {
      Machine(state, context)
    }

    /** The current machine is one that can be reached from the start. */
    ghost predicate Valid()
      reads this
    {
      Consistent(Current())
    }

    constructor ()
      ensures Valid()
      ensures Current() == Initial && effects == []
    {
      state := Initial.state;
      context := Initial.ctx;
      effects := [];
      new;
      TimerProperties.InitialIsConsistent();
    }

    /** Processes one event: the new state and context are those of one
        machine step, and the step's effects are appended to the log. */
    method Send(e: Event)
      requires Valid()
      modifies this
      ensures Valid()
      ensures Current() == Step(old(Current()), e).machine
      ensures effects == old(effects) + Step(old(Current()), e).effects
      ensures |effects| <= |old(effects)| + 2
    {
      var r := Step(Current(), e);
      TimerProperties.StepPreservesConsistent(Current(), e);
      TimerProperties.StepSounds(Current(), e);
      state := r.machine.state;
      context := r.machine.ctx;
      effects := effects + r.effects;
    }
  }

  /** A client: five seconds entered, started, and five ticks later the
      interpreter is finished, having played the sound twice. */
  method FiveSecondsClient(t: int)
  {
    var timer := new Interpreter();
    timer.Send(UpdateSeconds(Wrappers.Some(5)));
    assert timer.state == Idle && timer.context.durationInMs == 5000 && timer.effects == [];
    timer.Send(Start(t));
    assert timer.state == Working && timer.context.durationInMs == 5000 && timer.effects == [PlaySound];
    timer.Send(Tick);
    assert timer.state == Working && timer.context.durationInMs == 4000 && timer.effects == [PlaySound];
    timer.Send(Tick);
    assert timer.state == Working && timer.context.durationInMs == 3000 && timer.effects == [PlaySound];
    timer.Send(Tick);
    assert timer.state == Working && timer.context.durationInMs == 2000 && timer.effects == [PlaySound];
    timer.Send(Tick);
    assert timer.state == Working && timer.context.durationInMs == 1000 && timer.effects == [PlaySound];
    timer.Send(Tick);
    assert timer.state == Finished && timer.context.durationInMs == 0;
    assert timer.effects == [PlaySound, PlaySound];
    timer.Send(Clear);
    assert timer.state == Finished;
  }
}
