# Countdown timer state machine, in Dafny

This project models the control core of a single-page countdown timer. The
core is `frontend/index.tsx`: an xstate machine with three states, `idle`,
`working` and `finished`, plus the helper `valueExtractor`, which normalises
the numbers typed into the hours, minutes and seconds inputs.

The user edits the three fields while the machine is `idle`. Each edit goes
through `valueExtractor` and recomputes `durationInMs`. `START` is guarded by
`isTimeNotEmpty`. It records the start timestamp, plays a sound and enters
`working`. There each `TICK` takes 1000 ms off the duration. The eventless
`always` transition moves the machine to `finished` as soon as
`durationInMs <= 0`. Entering `finished` plays the sound again, and
`finished` accepts no events.

Files:

- `wrappers.dfy`: `Option`. `None` stands for a NaN read from a number input.
- `duration.dfy` (module `Duration`): the `Hours`, `Minutes` and `Seconds`
  value objects, the three input descriptions with their bounds (0-23,
  0-59, 0-59), and `ValueExtractor`.
- `timer_machine.dfy` (module `TimerMachine`): the states, the context, the
  events, and the `PlaySound` effect. It also holds the guards and the
  actions `clearTimer`, `decreaseTime` and `updateDurationInMs`. `Transition`
  picks and applies the transition an event selects. `Settle` applies the
  `always` check. `Step` is `Settle` after `Transition`, and `Run` folds
  `Step` over a sequence of events. `InitialContext` and `Initial` are the
  initial context and machine of lines 37-43. It also defines `Consistent`,
  the invariant of every reachable machine.
- `timer_properties.dfy` (module `TimerProperties`): the lemmas.
- `timer_interpreter.dfy` (module `TimerInterpreter`): the running machine
  behind `useMachine`. It is a class whose `Send` method overwrites the
  current state and context and appends the step's effects to a log.
  `FiveSecondsClient` is a usage example: it shows what a caller can
  conclude from `Send`'s contract alone for five seconds and five ticks.

Modelling decisions:

- `bg.Hours`, `bg.Minutes` and `bg.Seconds` come from a library that is not
  part of this model. They are modelled as integer wrappers whose `ToMs()` is
  `value * 3_600_000`, `value * 60_000` and `value * 1_000`. The model assumes
  the constructors keep the value unchanged.
- The raw input of `valueExtractor` is an `Option<int>`. `valueExtractor` only
  clamps from above, so negative inputs pass through. The model therefore
  allows negative fields. Then `isTimeNotEmpty` can hold while
  `durationInMs <= 0`, and `START` goes straight from `idle` to `finished`,
  emitting both sounds in one step (`NegativeFieldFinishesAtStart`).
- Assign actions run in the order they are listed, so `updateDurationInMs`
  sees the field that was just assigned.
- The `always` check runs after every step, as xstate runs eventless
  transitions after each macrostep.
- `TICK` is an ordinary event. Its `target: "working"` re-enters `working`,
  which restarts the tick service. Nothing else observable depends on that
  re-entry.
- This timer has no `STOP`, `CONTINUE` or `RESTART` transitions and no
  persistence. In particular:
  - `START` is guarded by the fields, not by the total duration.
  - `CLEAR` is accepted only in `idle`.
  - `durationInMs` can be negative. After the last tick it lies in
    `(-1000, 0]`, and it can be lower at `START` when a field is negative.

## Model

| member | source | states |
|---|---|---|
| `Duration.ValueExtractor` | frontend/index.tsx:289-298 | NaN gives the minimum; a value above the maximum gives the maximum; any other value, including one below the minimum, is returned unchanged; so the result never exceeds the maximum |
| `Duration.ValueExtractorIdempotent` | frontend/index.tsx:289-298 | normalising an already normalised value returns it unchanged |
| `Duration.ValueExtractorInBounds` | frontend/index.tsx:289-298 | the result lies within the field's bounds exactly when the input is NaN or not below the minimum (no lower clamp) |
| `Duration.NegativeInputPassesThrough` | frontend/index.tsx:293-297 | with the hours, minutes and seconds bounds (0-23, 0-59, 0-59), a negative input comes out unchanged: there is no lower clamp |
| `TimerMachine.FieldsMs` | frontend/index.tsx:121-124 | the fields' total is a whole number of seconds, and lies between 0 and 23:59:59 when each field is within its input's bounds |
| `TimerMachine.IsTimeNotEmpty` | frontend/index.tsx:138-141 | with no negative field the guard holds exactly when the fields stand for a positive duration; when it fails the fields' total is not positive |
| `TimerProperties.ElapsedIsStable` | frontend/index.tsx:136 | the `hasTimeElapsed` guard stays true under `decreaseTime`, and becomes true on the next `decreaseTime` exactly when at most 1000 ms are left |
| `TimerMachine.SetHours` | frontend/index.tsx:60-68 | the hours become the normalised input, the duration matches the fields, and nothing else changes |
| `TimerMachine.SetMinutes` | frontend/index.tsx:70-80 | the minutes become the normalised input, the duration matches the fields, and nothing else changes |
| `TimerMachine.SetSeconds` | frontend/index.tsx:82-92 | the seconds become the normalised input, the duration matches the fields, and nothing else changes |
| `TimerMachine.Transition` | frontend/index.tsx:44-102 | undeclared events (anything in `finished`, all but `TICK` in `working`, `TICK` in `idle`) return the machine unchanged with no effect; `idle` is left exactly on a `START` that passes the guard; a transition never enters or leaves `finished` itself; one sound exactly when it enters `working`; `TICK` in `working` applies `decreaseTime` |
| `TimerMachine.Step` | frontend/index.tsx:96-102 | after a full step the machine is never `working` with elapsed time; the state never goes back; `finished` is unchanged and silent |
| `TimerMachine.Run` | frontend/index.tsx:150 | after a non-empty run of events the machine is never `working` with elapsed time, and the state never goes back |
| `TimerMachine.ClearTimer` | frontend/index.tsx:109-114 | fields become 0, duration becomes 0 and matches the fields, start timestamp is kept |
| `TimerMachine.DecreaseTime` | frontend/index.tsx:116-118 | duration is exactly 1000 ms less; fields and start timestamp are unchanged |
| `TimerMachine.UpdateDurationInMs` | frontend/index.tsx:120-125 | the duration becomes the sum of the fields in milliseconds, and nothing else changes |
| `TimerMachine.Settle` | frontend/index.tsx:99-102 | a machine the `always` guard does not fire on comes back unchanged; when it fires, the machine enters `finished` with the context kept and one `PlaySound` appended for the entry action; a `working` result always has time left |
| `TimerProperties.InitialIsConsistent` | frontend/index.tsx:37-43 | the initial machine is `idle` with all fields 0, a duration matching them and no start timestamp |
| `TimerProperties.StepPreservesConsistent` | frontend/index.tsx:44-102 | every event keeps the reachable-state invariant: fields at most their maxima; in `idle` the duration matches the fields and no timestamp is recorded; once started the timestamp is recorded and some field is positive; `working` has time left; `finished` has none |
| `TimerProperties.RunPreservesConsistent` | frontend/index.tsx:33-144 | every event sequence keeps that invariant |
| `TimerProperties.ReachableIdleDurationMatchesFields` | frontend/index.tsx:60-125 | in every machine reachable from the initial one, fields are at most their maxima, and in `idle` `durationInMs` equals hours, minutes and seconds in milliseconds |
| `TimerProperties.UpdateInIdle` | frontend/index.tsx:60-92 | each update event in `idle` sets its field to the normalised input, makes the duration match the fields, changes nothing else, stays `idle` and emits nothing |
| `TimerProperties.ClearInIdle` | frontend/index.tsx:58 | `CLEAR` in `idle` zeroes fields and duration, keeps the timestamp, emits nothing; a second `CLEAR` gives the same result |
| `TimerProperties.StartInIdle` | frontend/index.tsx:47-55 | `START` with no positive field is a no-op; otherwise only the timestamp changes, one sound plays, and the machine is `working`, or is `finished` with two sounds when the duration is not positive |
| `TimerProperties.StartWithoutNegativeFieldsWorks` | frontend/index.tsx:138-141 | in a reachable `idle` machine without negative fields, `START` leads to `working` exactly when the guard holds |
| `TimerProperties.NegativeFieldFinishesAtStart` | frontend/index.tsx:136-141 | hours -1 and minutes 30, then `START`, give `finished` with duration -1800000 and two sounds |
| `TimerProperties.TickInWorking` | frontend/index.tsx:98-99 | `TICK` in `working` subtracts exactly 1000 and changes nothing else; the machine finishes, with one sound, exactly when the new duration is not positive |
| `TimerProperties.WorkingIgnoresAllButTick` | frontend/index.tsx:96-100 | in a reachable `working` machine every event other than `TICK` is ignored |
| `TimerProperties.IdleIgnoresTick` | frontend/index.tsx:45-93 | `TICK`, not declared in `idle`, is ignored there |
| `TimerProperties.WorkingWhileTimeLeft` | frontend/index.tsx:116-118 | `j` ticks with `1000*j` below the duration leave the machine `working`, silent, with the duration lowered by `1000*j` |
| `TimerProperties.CountdownFinishes` | frontend/index.tsx:96-102 | from `working` with duration `d > 0`, exactly `ceil(d/1000)` ticks reach `finished` with one sound and a final duration in `(-1000, 0]`; every shorter run of ticks is still `working` |
| `TimerProperties.CountdownEndsAtZero` | frontend/index.tsx:116-125 | with no negative field, `START` from a reachable `idle` machine that passes the guard gives `working`, and `ceil(d/1000)` ticks later the machine is `finished` with duration exactly 0 |
| `TimerProperties.FiveSecondScenario` | frontend/index.tsx:82-102 | seconds 5 then `START` gives `working` with 5000 ms; four ticks are still `working`; the fifth gives `finished` with duration 0 |
| `TimerProperties.FinishedIsTerminal` | frontend/index.tsx:102 | `finished` ignores every sequence of events and emits nothing |
| `TimerProperties.LeavesIdleOnlyOnStart` | frontend/index.tsx:45-93 | a full step, including the `always` check, leaves `idle` exactly on a `START` that passes the guard |
| `TimerProperties.StepSounds` | frontend/index.tsx:47-107 | a step emits one sound for a successful `START` plus one for entering `finished`, and no others |
| `TimerProperties.RunSounds` | frontend/index.tsx:47-107 | over any run, the sound plays once for leaving `idle` and once for reaching `finished`, and never otherwise |
| `TimerProperties.AtMostTwoSounds` | frontend/index.tsx:102-107 | from the initial machine no run plays the sound more than twice |
| `TimerInterpreter.Interpreter.constructor` | frontend/index.tsx:150 | the running machine starts as the initial machine with an empty effect log |
| `TimerInterpreter.Interpreter.Send` | frontend/index.tsx:150 | the new state and context are one machine step from the old ones; the step's effects are appended to the log; the invariant is kept; at most two effects are added |

## Left out

- The `App` component, JSX rendering, DOM event wiring and `render`
  (frontend/index.tsx:146-287, 300). These are presentation.
- `new Audio(...).play()` (line 107) is device I/O. It appears only as the
  `PlaySound` effect.
- The `tick` service, `setInterval`/`clearInterval` (lines 129-132). This is
  asynchronous timer plumbing, so `TICK` is an ordinary event. The restart of
  the service when a tick re-enters `working` is not modelled.
- `bg.useCurrentTimestamp`, the finish-time formatting with
  `bg.DateFormatter`, and `bg.useDisablePullToRefresh` (lines 147-153). These
  are clock access and foreign library calls. The `START` timestamp is the
  event's parameter.
- Floating-point numbers. Field values and input values are integers, and NaN
  is `None`. Fractional inputs such as 1.5 are not modelled.
- Any validation inside `bg.Hours`, `bg.Minutes` and `bg.Seconds`. It is not
  visible; their constructors are modelled as keeping the value.
- `@bgord/frontend` and xstate themselves are not part of this model. Their
  semantics are modelled as described above.
