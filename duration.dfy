/** The three duration fields of the timer and the normalisation of raw
    numeric input into them (frontend/index.tsx, lines 8-10 and 289-298). */
module Duration {
  import opened Wrappers

  const MsPerHour: int := 3_600_000
  const MsPerMinute: int := 60_000
  const MsPerSecond: int := 1_000

  /** The hours value object. Its value is kept exactly as given: the
      library's own validation is not visible, so none is modelled. */
  datatype Hours = Hours(value: int) {
    function ToMs(): int { value * MsPerHour }
  }

  /** The minutes value object. */
  datatype Minutes = Minutes(value: int) {
    function ToMs(): int { value * MsPerMinute }
  }

  /** The seconds value object. */
  datatype Seconds = Seconds(value: int) {
    function ToMs(): int { value * MsPerSecond }
  }

  /** The per-field input description: default value and bounds. The
      placeholder text is presentation and is not part of the model. */
  datatype InputConfig = InputConfig(default: int, min: int, max: int)

  const HoursInput: InputConfig := InputConfig(0, 0, 23)
  const MinutesInput: InputConfig := InputConfig(0, 0, 59)
  const SecondsInput: InputConfig := InputConfig(0, 0, 59)

  /** Normalises a raw number read from an input field. `None` stands for
      NaN. NaN becomes the field's minimum, anything above the maximum
      becomes the maximum, and every other value (including values below
      the minimum) is passed through unchanged. */
  function ValueExtractor(raw: Option<int>, input: InputConfig): (r: int)
    ensures raw.None? ==> r == input.min
    ensures raw.Some? && raw.value > input.max ==> r == input.max
    ensures raw.Some? && raw.value <= input.max ==> r == raw.value
    ensures input.min <= input.max ==> r <= input.max
  {
    if raw.None? then input.min
    else if raw.value > input.max then input.max
    else raw.value
  }

  /** Normalising an already normalised value changes nothing. */
  lemma ValueExtractorIdempotent(raw: Option<int>, input: InputConfig)
    requires input.min <= input.max
    ensures ValueExtractor(Some(ValueExtractor(raw, input)), input) == ValueExtractor(raw, input)
  {
  }

  /** The result is within the field's bounds exactly when the raw input
      is NaN or not below the minimum: there is no lower clamp. */
  lemma ValueExtractorInBounds(raw: Option<int>, input: InputConfig)
    requires input.min <= input.max
    ensures var r := ValueExtractor(raw, input);
      (input.min <= r <= input.max) <==> (raw.None? || raw.value >= input.min)
  {
  }

  /** A negative raw value, which a number input can deliver, passes
      through unchanged. */
  lemma NegativeInputPassesThrough(n: int)
    requires n < 0
    ensures ValueExtractor(Some(n), HoursInput) == n
    ensures ValueExtractor(Some(n), MinutesInput) == n
    ensures ValueExtractor(Some(n), SecondsInput) == n
  {
  }
}
