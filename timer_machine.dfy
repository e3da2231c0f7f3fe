/** The countdown timer's state machine (frontend/index.tsx, lines 12-144):
    its states, context, events, the `assign` actions, the two guards and
    one step of the machine, including the eventless `always` transition
    out of `working`. Playing the sound is an emitted effect. */
module TimerMachine {
  import opened Wrappers
  import opened Duration

  datatype State = Idle | Working | Finished

  /** The machine's context. `scheduledAtTimestamp` is `None` where the
      source holds `null`. */
  datatype Context = Context(
    hours: Hours,
    minutes: Minutes,
    seconds: Seconds,
    durationInMs: int,
    scheduledAtTimestamp: Option<int>)

  /** The events. The value carried by an update is the raw number read
      from the input, `None` when it is NaN. */
  datatype Event =
    | Start(scheduledAtTimestamp: int)
    | Clear
    | UpdateHours(value: Option<int>)
    | UpdateMinutes(value: Option<int>)
    | UpdateSeconds(value: Option<int>)
    | Tick

  /** The only side effect of the machine: the `playSound` action. */
  datatype Effect = PlaySound

  datatype Machine = Machine(state: State, ctx: Context)

  /** The machine after one event, with the effects it emitted, in order. */
  datatype StepResult = StepResult(machine: Machine, effects: seq<Effect>)

  /** The total duration the three fields stand for: always a whole
      number of seconds, and, for fields within their inputs' bounds,
      between zero and 23:59:59. */
  function FieldsMs(ctx: Context): (ms: int)
    ensures ms % MsPerSecond == 0
    ensures (0 <= ctx.hours.value <= HoursInput.max && 0 <= ctx.minutes.value <= MinutesInput.max &&
             0 <= ctx.seconds.value <= SecondsInput.max) ==> 0 <= ms <= 86_399_000
  {
    var ms := ctx.hours.ToMs() + ctx.minutes.ToMs() + ctx.seconds.ToMs();
    assert ms == (ctx.hours.value * 3600 + ctx.minutes.value * 60 + ctx.seconds.value) * 1000;
    ms
  }

  /** `durationInMs` agrees with the three fields. */
  predicate DurationMatchesFields(ctx: Context) {
    ctx.durationInMs == FieldsMs(ctx)
  }

  const InitialContext: Context :=
    Context(Hours(HoursInput.default), Minutes(MinutesInput.default),
            Seconds(SecondsInput.default), 0, None)

  const Initial: Machine := Machine(Idle, InitialContext)

  // ---- guards ----

  /** Guard `hasTimeElapsed`. */
  predicate HasTimeElapsed(ctx: Context) {
    ctx.durationInMs <= 0
  }

  /** Guard `isTimeNotEmpty`: some field is positive. When no field is
      negative this is the same as the fields standing for a positive
      duration; a negative field can make the two disagree. */
  predicate IsTimeNotEmpty(ctx: Context)
    ensures ctx.hours.value >= 0 && ctx.minutes.value >= 0 && ctx.seconds.value >= 0 ==>
      (IsTimeNotEmpty(ctx) <==> FieldsMs(ctx) > 0)
    ensures !IsTimeNotEmpty(ctx) ==> FieldsMs(ctx) <= 0
  {
    ctx.hours.value > 0 || ctx.minutes.value > 0 || ctx.seconds.value > 0
  }

  // ---- actions ----

  /** Action `clearTimer`: fields to their defaults, duration to zero. */
  function ClearTimer(ctx: Context): (r: Context)
    ensures r.hours.value == 0 && r.minutes.value == 0 && r.seconds.value == 0
    ensures r.durationInMs == 0 && DurationMatchesFields(r)
    ensures r.scheduledAtTimestamp == ctx.scheduledAtTimestamp
  {
    ctx.(hours := Hours(HoursInput.default),
         minutes := Minutes(MinutesInput.default),
         seconds := Seconds(SecondsInput.default),
         durationInMs := 0)
  }

  /** Action `decreaseTime`: one second less, nothing else changes. */
  function DecreaseTime(ctx: Context): (r: Context)
    ensures r.durationInMs + MsPerSecond == ctx.durationInMs
    ensures r.hours == ctx.hours && r.minutes == ctx.minutes && r.seconds == ctx.seconds
    ensures r.scheduledAtTimestamp == ctx.scheduledAtTimestamp
  {
    ctx.(durationInMs := ctx.durationInMs - 1000)
  }

  /** Action `updateDurationInMs`: the duration is brought in line with
      the fields, and nothing else changes. */
  function UpdateDurationInMs(ctx: Context): (r: Context)
    ensures DurationMatchesFields(r)
    ensures r.(durationInMs := ctx.durationInMs) == ctx
  {
    ctx.(durationInMs := FieldsMs(ctx))
  }

  /** The `assign` of `UPDATE_HOURS` followed by `updateDurationInMs`. */
  function SetHours(ctx: Context, raw: Option<int>): (r: Context)
    ensures r.hours == Hours(ValueExtractor(raw, HoursInput)) && DurationMatchesFields(r)
    ensures r.(hours := ctx.hours, durationInMs := ctx.durationInMs) == ctx
  {
    UpdateDurationInMs(ctx.(hours := Hours(ValueExtractor(raw, HoursInput))))
  }

  /** The `assign` of `UPDATE_MINUTES` followed by `updateDurationInMs`. */
  function SetMinutes(ctx: Context, raw: Option<int>): (r: Context)
    ensures r.minutes == Minutes(ValueExtractor(raw, MinutesInput)) && DurationMatchesFields(r)
    ensures r.(minutes := ctx.minutes, durationInMs := ctx.durationInMs) == ctx
  {
    UpdateDurationInMs(ctx.(minutes := Minutes(ValueExtractor(raw, MinutesInput))))
  }

  /** The `assign` of `UPDATE_SECONDS` followed by `updateDurationInMs`. */
  function SetSeconds(ctx: Context, raw: Option<int>): (r: Context)
    ensures r.seconds == Seconds(ValueExtractor(raw, SecondsInput)) && DurationMatchesFields(r)
    ensures r.(seconds := ctx.seconds, durationInMs := ctx.durationInMs) == ctx
  {
    UpdateDurationInMs(ctx.(seconds := Seconds(ValueExtractor(raw, SecondsInput))))
  }

  // ---- transitions ----

  /** The transition an event selects in the current state, with its
      actions applied, before eventless transitions are considered. An
      event the state does not declare leaves the machine as it is. */
  function Transition(m: Machine, e: Event): (r: StepResult)
    ensures (m.state == Finished || (m.state == Working && !e.Tick?) || (m.state == Idle && e.Tick?))
      ==> r == StepResult(m, [])
    ensures m.state == Idle ==> (r.machine.state != Idle <==> e.Start? && IsTimeNotEmpty(m.ctx))
    ensures r.machine.state == Finished <==> m.state == Finished
    ensures r.machine.state == Working ==> m.state != Finished
    ensures r.effects == (if m.state == Idle && r.machine.state == Working then [PlaySound] else [])
    ensures m.state == Working && e.Tick? ==> r.machine == Machine(Working, DecreaseTime(m.ctx))
  {
    match m.state
    case Idle =>
      (match e
       case Start(t) =>
         if IsTimeNotEmpty(m.ctx)
         then StepResult(Machine(Working, m.ctx.(scheduledAtTimestamp := Some(t))), [PlaySound])
         else StepResult(m, [])
       case Clear => StepResult(Machine(Idle, ClearTimer(m.ctx)), [])
       case UpdateHours(v) => StepResult(Machine(Idle, SetHours(m.ctx, v)), [])
       case UpdateMinutes(v) => StepResult(Machine(Idle, SetMinutes(m.ctx, v)), [])
       case UpdateSeconds(v) => StepResult(Machine(Idle, SetSeconds(m.ctx, v)), [])
       case Tick => StepResult(m, []))
    case Working =>
      if e.Tick? then StepResult(Machine(Working, DecreaseTime(m.ctx)), [])
      else StepResult(m, [])
    case Finished => StepResult(m, [])
  }

  /** The `always` transition of `working`: once the time has elapsed the
      machine enters `finished`, whose entry action plays the sound. */
  function Settle(r: StepResult): (s: StepResult)
    ensures !(r.machine.state == Working && HasTimeElapsed(r.machine.ctx)) ==> s == r
    ensures r.machine.state == Working && HasTimeElapsed(r.machine.ctx) ==>
      s.effects == r.effects + [PlaySound]
    ensures s.machine.ctx == r.machine.ctx
    ensures s.machine.state == Working ==> !HasTimeElapsed(s.machine.ctx)
    ensures s.machine.state == Finished <==>
      (r.machine.state == Finished || (r.machine.state == Working && HasTimeElapsed(r.machine.ctx)))
  {
    if r.machine.state == Working && HasTimeElapsed(r.machine.ctx)
    then StepResult(Machine(Finished, r.machine.ctx), r.effects + [PlaySound])
    else r
  }

  /** One event processed to completion. */
  function Step(m: Machine, e: Event): (r: StepResult)
    ensures r.machine.state == Working ==> !HasTimeElapsed(r.machine.ctx)
    ensures Rank(r.machine.state) >= Rank(m.state)
    ensures m.state == Finished ==> r == StepResult(m, [])
  {
    Settle(Transition(m, e))
  }

  /** A sequence of events processed one after another; the effects of
      all steps are concatenated in order. */
  function Run(m: Machine, events: seq<Event>): (r: StepResult)
    ensures events != [] && r.machine.state == Working ==> !HasTimeElapsed(r.machine.ctx)
    ensures Rank(r.machine.state) >= Rank(m.state)
    decreases |events|
  {
    if events == [] then StepResult(m, [])
    else
      var first := Step(m, events[0]);
      var rest := Run(first.machine, events[1..]);
      StepResult(rest.machine, first.effects + rest.effects)
  }

  /** `n` consecutive ticks. */
  function Ticks(n: nat): (ts: seq<Event>)
    ensures |ts| == n
    ensures forall i :: 0 <= i < n ==> ts[i] == Tick
  {
    if n == 0 then [] else [Tick] + Ticks(n - 1)
  }

  /** The number of ticks after which a positive duration has elapsed:
      the duration in seconds, rounded up. */
  function TicksToElapse(d: int): (k: nat)
    requires d > 0
    ensures (k - 1) * MsPerSecond < d <= k * MsPerSecond
  {
    (d + 999) / 1000
  }

  /** No field exceeds its input's maximum. */
  predicate FieldsAtMostMax(ctx: Context) {
    ctx.hours.value <= HoursInput.max &&
    ctx.minutes.value <= MinutesInput.max &&
    ctx.seconds.value <= SecondsInput.max
  }

  /** What holds of every machine reachable from `Initial`: in `idle` the
      duration matches the fields and no start time is recorded; once
      started, the start time is recorded and the fields are not all
      empty; `working` always has time left and `finished` never has. */
  predicate Consistent(m: Machine) {
    FieldsAtMostMax(m.ctx) &&
    (m.state == Idle ==> DurationMatchesFields(m.ctx) && m.ctx.scheduledAtTimestamp.None?) &&
    (m.state != Idle ==> m.ctx.scheduledAtTimestamp.Some? && IsTimeNotEmpty(m.ctx)) &&
    (m.state == Working ==> !HasTimeElapsed(m.ctx)) &&
    (m.state == Finished ==> HasTimeElapsed(m.ctx))
  }

  /** Progress order of the states: the machine never goes back. */
  function Rank(s: State): nat {
    match s
    case Idle => 0
    case Working => 1
    case Finished => 2
  }
}
