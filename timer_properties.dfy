/** Properties of the timer state machine: the reachable-state invariant,
    the effect of each declared event, the countdown, termination and the
    sound effects. */
module TimerProperties {
  import opened Wrappers
  import opened Duration
  import opened TimerMachine

  // ---- the invariant ----

  lemma InitialIsConsistent()
    ensures Consistent(Initial) && DurationMatchesFields(Initial.ctx)
    ensures Initial.ctx.hours.value == 0 && Initial.ctx.minutes.value == 0 && Initial.ctx.seconds.value == 0
  {
  }

  /** Every event keeps the invariant. */
  lemma StepPreservesConsistent(m: Machine, e: Event)
    requires Consistent(m)
    ensures Consistent(Step(m, e).machine)
  {
    if m.state == Idle {
      match e
      case UpdateHours(v) => assert ValueExtractor(v, HoursInput) <= HoursInput.max;
      case UpdateMinutes(v) => assert ValueExtractor(v, MinutesInput) <= MinutesInput.max;
      case UpdateSeconds(v) => assert ValueExtractor(v, SecondsInput) <= SecondsInput.max;
      case _ =>
    }
  }

  /** Every sequence of events keeps the invariant. */
  lemma {:induction false} RunPreservesConsistent(m: Machine, events: seq<Event>)
    requires Consistent(m)
    ensures Consistent(Run(m, events).machine)
    decreases |events|
  {
    if events != [] {
      StepPreservesConsistent(m, events[0]);
      RunPreservesConsistent(Step(m, events[0]).machine, events[1..]);
    }
  }

  /** In every reachable `idle` machine the duration is the sum of the
      three fields in milliseconds, and no field exceeds its maximum. */
  lemma ReachableIdleDurationMatchesFields(events: seq<Event>)
    ensures var m := Run(Initial, events).machine;
      FieldsAtMostMax(m.ctx) && (m.state == Idle ==> DurationMatchesFields(m.ctx))
  {
    InitialIsConsistent();
    RunPreservesConsistent(Initial, events);
  }

  // ---- idle ----

  /** `UPDATE_HOURS`, `UPDATE_MINUTES`, `UPDATE_SECONDS` in `idle` set the
      one field to the normalised input, recompute the duration, and
      change nothing else. */
  lemma UpdateInIdle(m: Machine, v: Option<int>)
    requires m.state == Idle
    ensures var r := Step(m, UpdateHours(v));
      r.effects == [] && r.machine.state == Idle && DurationMatchesFields(r.machine.ctx) &&
      r.machine.ctx.hours == Hours(ValueExtractor(v, HoursInput)) &&
      r.machine.ctx.(hours := m.ctx.hours, durationInMs := m.ctx.durationInMs) == m.ctx
    ensures var r := Step(m, UpdateMinutes(v));
      r.effects == [] && r.machine.state == Idle && DurationMatchesFields(r.machine.ctx) &&
      r.machine.ctx.minutes == Minutes(ValueExtractor(v, MinutesInput)) &&
      r.machine.ctx.(minutes := m.ctx.minutes, durationInMs := m.ctx.durationInMs) == m.ctx
    ensures var r := Step(m, UpdateSeconds(v));
      r.effects == [] && r.machine.state == Idle && DurationMatchesFields(r.machine.ctx) &&
      r.machine.ctx.seconds == Seconds(ValueExtractor(v, SecondsInput)) &&
      r.machine.ctx.(seconds := m.ctx.seconds, durationInMs := m.ctx.durationInMs) == m.ctx
  {
  }

  /** `CLEAR` in `idle` zeroes the fields and the duration, keeps the start
      time, plays nothing, and a second `CLEAR` changes nothing more. */
  lemma ClearInIdle(m: Machine)
    requires m.state == Idle
    ensures var r := Step(m, Clear);
      r.effects == [] && r.machine.state == Idle &&
      r.machine.ctx == Context(Hours(0), Minutes(0), Seconds(0), 0, m.ctx.scheduledAtTimestamp)
    ensures Step(Step(m, Clear).machine, Clear) == Step(m, Clear)
  {
  }

  /** `START` in `idle`: with no positive field it is a no-op; otherwise
      only the start time changes, the sound plays, and the machine is
      `working`, or at once `finished` (with the finishing sound as well)
      when the duration is not positive. */
  lemma StartInIdle(m: Machine, t: int)
    requires m.state == Idle
    ensures !IsTimeNotEmpty(m.ctx) ==> Step(m, Start(t)) == StepResult(m, [])
    ensures IsTimeNotEmpty(m.ctx) ==>
      var r := Step(m, Start(t));
      r.machine.ctx == m.ctx.(scheduledAtTimestamp := Some(t)) &&
      (if HasTimeElapsed(m.ctx)
       then r.machine.state == Finished && r.effects == [PlaySound, PlaySound]
       else r.machine.state == Working && r.effects == [PlaySound])
  {
  }

  /** With no negative field, a reachable `idle` machine that passes the
      guard always has time left, so `START` leads to `working`. */
  lemma StartWithoutNegativeFieldsWorks(m: Machine, t: int)
    requires Consistent(m) && m.state == Idle
    requires m.ctx.hours.value >= 0 && m.ctx.minutes.value >= 0 && m.ctx.seconds.value >= 0
    ensures IsTimeNotEmpty(m.ctx) <==> Step(m, Start(t)).machine.state == Working
  {
  }

  /** With a negative field the guard can pass while the duration is not
      positive: one negative hour and thirty minutes finish immediately,
      with both sounds played at once. */
  lemma NegativeFieldFinishesAtStart(t: int)
    ensures var r := Run(Initial, [UpdateHours(Some(-1)), UpdateMinutes(Some(30)), Start(t)]);
      r.machine.state == Finished && r.machine.ctx.durationInMs == -1_800_000 &&
      r.effects == [PlaySound, PlaySound]
  {
    var es := [UpdateHours(Some(-1)), UpdateMinutes(Some(30)), Start(t)];
    var m1 := Step(Initial, UpdateHours(Some(-1))).machine;
    var m2 := Step(m1, UpdateMinutes(Some(30))).machine;
    assert m2 == Machine(Idle, Context(Hours(-1), Minutes(30), Seconds(0), -1_800_000, None));
    var r3 := Step(m2, Start(t));
    assert r3 == StepResult(Machine(Finished, m2.ctx.(scheduledAtTimestamp := Some(t))), [PlaySound, PlaySound]);
    assert es[1..][1..] == [Start(t)];
    assert Run(m2, [Start(t)]) == r3;
    assert es[1..] == [UpdateMinutes(Some(30)), Start(t)];
    assert Run(m1, es[1..]) == r3;
  }

  // ---- working ----

  /** `TICK` in `working` takes exactly one second off the duration and
      changes nothing else; the machine finishes, with the sound, exactly
      when the new duration is not positive. */
  lemma TickInWorking(m: Machine)
    requires m.state == Working
    ensures var r := Step(m, Tick);
      r.machine.ctx.durationInMs == m.ctx.durationInMs - 1000 &&
      r.machine.ctx.(durationInMs := m.ctx.durationInMs) == m.ctx &&
      (r.machine.state == Finished <==> m.ctx.durationInMs - 1000 <= 0) &&
      (r.machine.state == Working <==> m.ctx.durationInMs - 1000 > 0) &&
      r.effects == (if m.ctx.durationInMs - 1000 <= 0 then [PlaySound] else [])
  {
  }

  /** Time that has elapsed stays elapsed under `decreaseTime`, and the
      next `decreaseTime` makes it elapse exactly when at most one second
      is left. */
  lemma ElapsedIsStable(ctx: Context)
    ensures HasTimeElapsed(ctx) ==> HasTimeElapsed(DecreaseTime(ctx))
    ensures HasTimeElapsed(DecreaseTime(ctx)) <==> ctx.durationInMs <= MsPerSecond
  {
  }

  /** In a reachable `working` machine every event but `TICK` is ignored. */
  lemma WorkingIgnoresAllButTick(m: Machine, e: Event)
    requires Consistent(m) && m.state == Working && !e.Tick?
    ensures Step(m, e) == StepResult(m, [])
  {
  }

  /** `TICK` is not declared in `idle` and is ignored there. */
  lemma IdleIgnoresTick(m: Machine)
    requires m.state == Idle
    ensures Step(m, Tick) == StepResult(m, [])
  {
  }

  /** Fewer ticks than the remaining seconds (rounded up) keep the machine
      `working`, silently, one second less per tick. */
  lemma {:induction false} WorkingWhileTimeLeft(m: Machine, j: nat)
    requires m.state == Working
    requires j * 1000 < m.ctx.durationInMs
    ensures Run(m, Ticks(j)) ==
      StepResult(Machine(Working, m.ctx.(durationInMs := m.ctx.durationInMs - j * 1000)), [])
    decreases j
  {
    if j > 0 {
      var next := Step(m, Tick);
      assert next == StepResult(Machine(Working, m.ctx.(durationInMs := m.ctx.durationInMs - 1000)), []);
      assert Ticks(j)[0] == Tick && Ticks(j)[1..] == Ticks(j - 1);
      WorkingWhileTimeLeft(next.machine, j - 1);
    }
  }

  /** A `working` machine with duration `d > 0` finishes after exactly
      `ceil(d / 1000)` ticks, playing the sound once, with a final duration
      in `(-1000, 0]`; before that it is still `working`. */
  lemma {:induction false} CountdownFinishes(m: Machine)
    requires m.state == Working && m.ctx.durationInMs > 0
    ensures var d := m.ctx.durationInMs; var k := TicksToElapse(d);
      Run(m, Ticks(k)) == StepResult(Machine(Finished, m.ctx.(durationInMs := d - k * 1000)), [PlaySound]) &&
      -1000 < d - k * 1000 <= 0 &&
      (forall j: nat :: j < k ==> Run(m, Ticks(j)).machine.state == Working)
    decreases m.ctx.durationInMs
  {
    var d := m.ctx.durationInMs;
    var k := TicksToElapse(d);
    var next := Step(m, Tick);
    assert Ticks(k)[0] == Tick && Ticks(k)[1..] == Ticks(k - 1);
    if d <= 1000 {
      assert k == 1;
      assert next == StepResult(Machine(Finished, m.ctx.(durationInMs := d - 1000)), [PlaySound]);
    } else {
      assert next == StepResult(Machine(Working, m.ctx.(durationInMs := d - 1000)), []);
      assert TicksToElapse(d - 1000) == k - 1;
      CountdownFinishes(next.machine);
    }
    forall j: nat | j < k
      ensures Run(m, Ticks(j)).machine.state == Working
    {
      WorkingWhileTimeLeft(m, j);
    }
  }

  /** With no negative field, a started countdown ends at exactly zero:
      the duration is a whole number of seconds, so the last tick lands on
      0 rather than below it. */
  lemma {:induction false} CountdownEndsAtZero(m: Machine, t: int)
    requires Consistent(m) && m.state == Idle && IsTimeNotEmpty(m.ctx)
    requires m.ctx.hours.value >= 0 && m.ctx.minutes.value >= 0 && m.ctx.seconds.value >= 0
    ensures var w := Step(m, Start(t)).machine;
      w.state == Working &&
      Run(w, Ticks(TicksToElapse(w.ctx.durationInMs))).machine ==
        Machine(Finished, w.ctx.(durationInMs := 0))
  {
    var w := Step(m, Start(t)).machine;
    var d := m.ctx.durationInMs;
    assert d == FieldsMs(m.ctx) && d > 0 && d % 1000 == 0;
    assert w == Machine(Working, m.ctx.(scheduledAtTimestamp := Some(t)));
    CountdownFinishes(w);
    var k := TicksToElapse(d);
    assert d == (d / 1000) * 1000;
    assert k == d / 1000;
  }

  /** Five seconds entered in `idle`, `START`, and the machine is
      `finished` after the fifth tick and not before. */
  lemma FiveSecondScenario(t: int)
    ensures var m := Run(Initial, [UpdateSeconds(Some(5)), Start(t)]).machine;
      m == Machine(Working, Context(Hours(0), Minutes(0), Seconds(5), 5000, Some(t))) &&
      Run(m, Ticks(4)).machine.state == Working &&
      Run(m, Ticks(5)).machine == Machine(Finished, m.ctx.(durationInMs := 0))
  {
    var es := [UpdateSeconds(Some(5)), Start(t)];
    var m1 := Step(Initial, UpdateSeconds(Some(5))).machine;
    assert m1 == Machine(Idle, Context(Hours(0), Minutes(0), Seconds(5), 5000, None));
    var m := Machine(Working, Context(Hours(0), Minutes(0), Seconds(5), 5000, Some(t)));
    assert Step(m1, Start(t)).machine == m;
    assert es[1..] == [Start(t)];
    assert Run(m1, [Start(t)]).machine == m;
    assert Run(Initial, es).machine == m;
    WorkingWhileTimeLeft(m, 4);
    CountdownFinishes(m);
    assert TicksToElapse(5000) == 5;
  }

  // ---- finished ----

  /** `finished` accepts no event. */
  lemma {:induction false} FinishedIsTerminal(m: Machine, events: seq<Event>)
    requires m.state == Finished
    ensures Run(m, events) == StepResult(m, [])
    decreases |events|
  {
    if events != [] {
      FinishedIsTerminal(m, events[1..]);
    }
  }

  // ---- progress and sounds ----

  /** A step leaves `idle` exactly on a `START` that passes the guard. */
  lemma LeavesIdleOnlyOnStart(m: Machine, e: Event)
    requires m.state == Idle
    ensures
      (Step(m, e).machine.state != Idle <==> e.Start? && IsTimeNotEmpty(m.ctx))
  {
  }

  /** One step plays the sound once for a `START` that passes the guard and
      once for entering `finished`, and at no other time. */
  lemma StepSounds(m: Machine, e: Event)
    ensures var r := Step(m, e);
      |r.effects| ==
        (if m.state == Idle && e.Start? && IsTimeNotEmpty(m.ctx) then 1 else 0) +
        (if m.state != Finished && r.machine.state == Finished then 1 else 0)
  {
  }

  /** Over any run, the sound plays once for leaving `idle` and once for
      reaching `finished`. */
  lemma {:induction false} RunSounds(m: Machine, events: seq<Event>)
    ensures var r := Run(m, events);
      |r.effects| ==
        (if m.state == Idle && r.machine.state != Idle then 1 else 0) +
        (if m.state != Finished && r.machine.state == Finished then 1 else 0)
    decreases |events|
  {
    if events != [] {
      var first := Step(m, events[0]);
      StepSounds(m, events[0]);
      RunSounds(first.machine, events[1..]);
    }
  }

  /** From the initial machine, no run plays the sound more than twice. */
  lemma AtMostTwoSounds(events: seq<Event>)
    ensures |Run(Initial, events).effects| <= 2
  {
    RunSounds(Initial, events);
  }
}
