/** The update strategies: how the station obtains a new reading. */
module Strategies {
  import opened Outcomes
  import opened Readings
  import Text

  /** The closed set of strategy implementations. `RealTime` and `Scheduled`
      draw random values and read the clock; in this model what they draw is
      the `sample` argument of `Update`. */
  datatype Strategy = Manual | RealTime | Scheduled

  const ManualInputRequired := "Manual strategy requires non-null WeatherData input"

  /** `getName()`: a constant per strategy. */
  function Name(s: Strategy): (name: string)
    ensures |name| > 0
    ensures Text.EqualsIgnoreCase("SCHEDULED", name) <==> s == Scheduled
    ensures Text.EqualsIgnoreCase("MANUAL", name) <==> s == Manual
  {
    match s
    case Manual => "MANUAL"
    case RealTime => "REALTIME"
    case Scheduled => "SCHEDULED"
  }

  /** `update(manualInputOrNull)`. The manual strategy passes its input
      through and throws on null; the two random producers ignore the input
      and return what they drew. */
  function Update(s: Strategy, manualInputOrNull: Option<Reading>, sample: Reading): (r: Result<Reading>)
    ensures r.Failure? <==> s == Manual && manualInputOrNull == None
    ensures r.Failure? ==> r.error == IllegalArgument(ManualInputRequired)
    ensures r.Success? && s == Manual ==> Some(r.value) == manualInputOrNull
    ensures r.Success? && s != Manual ==> r.value == sample
  {
    match s
    case Manual =>
      if manualInputOrNull.None? then Failure(IllegalArgument(ManualInputRequired))
      else Success(manualInputOrNull.value)
    case RealTime => Success(sample)
    case Scheduled => Success(sample)
  }

  /** No two strategies share a name, even ignoring case. */
  lemma NamesIdentifyStrategies(a: Strategy, b: Strategy)
    ensures Text.EqualsIgnoreCase(Name(a), Name(b)) <==> a == b
  {
  }

  /** The manual strategy is the identity on every non-null reading: same
      fields, same timestamp. */
  lemma ManualIsIdentity(d: Reading, sample: Reading)
    ensures Update(Manual, Some(d), sample) == Success(d)
  {
  }

  /** The manual strategy keeps no state and draws nothing: its answer depends
      on its input alone. */
  lemma ManualIsStateless(input: Option<Reading>, sample1: Reading, sample2: Reading)
    ensures Update(Manual, input, sample1) == Update(Manual, input, sample2)
  {
  }

  /** The random producers never read their argument and never throw. */
  lemma ProducersIgnoreInput(s: Strategy, input1: Option<Reading>, input2: Option<Reading>, sample: Reading)
    requires s != Manual
    ensures Update(s, input1, sample) == Update(s, input2, sample)
    ensures Update(s, input1, sample).Success?
  {
  }
}
