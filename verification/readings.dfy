/** The immutable weather reading (`WeatherData`). */
module Readings {
  import opened Outcomes

  /** A Java `double`, carried as its raw IEEE 754 bit pattern. No arithmetic
      is ever done on a reading's fields, so any carrier with equality will do,
      and this one can hold every double, NaN and the infinities included. */
  type Double = bv64

  /** Seconds from the epoch, within `Instant.MIN` .. `Instant.MAX`. */
  type EpochSecond = s: int | -31557014167219200 <= s <= 31556889864403199

  /** Nanosecond of the second. */
  type Nanos = n: int | 0 <= n < 1_000_000_000

  /** A `java.time.Instant`. */
  datatype Instant = Instant(epochSecond: EpochSecond, nano: Nanos)

  /** A weather sample. The constructor takes any values and checks no range;
      the timestamp may even be null. Every field is final, so a reading never
      changes once built: a Dafny datatype value cannot change either. */
  datatype Reading = Reading(
    temperatureCelsius: Double,
    humidityPercent: Double,
    windKph: Double,
    observedAt: Option<Instant>)
  {
    function TemperatureCelsius(): Double { temperatureCelsius }
    function HumidityPercent(): Double { humidityPercent }
    function WindKph(): Double { windKph }
    function ObservedAt(): Option<Instant> { observedAt }
  }

  /** Each getter hands back exactly the argument the constructor was given,
      whatever it was. */
  lemma GettersReturnConstructorArguments(t: Double, h: Double, w: Double, at: Option<Instant>)
    ensures Reading(t, h, w, at).TemperatureCelsius() == t
    ensures Reading(t, h, w, at).HumidityPercent() == h
    ensures Reading(t, h, w, at).WindKph() == w
    ensures Reading(t, h, w, at).ObservedAt() == at
  {
  }

  /** The four getters determine a reading: the constructor loses nothing and
      adds nothing. */
  lemma ReadingDeterminedByGetters(a: Reading, b: Reading)
    ensures a == b <==>
      && a.TemperatureCelsius() == b.TemperatureCelsius()
      && a.HumidityPercent() == b.HumidityPercent()
      && a.WindKph() == b.WindKph()
      && a.ObservedAt() == b.ObservedAt()
  {
  }
}
