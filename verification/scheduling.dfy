/** The periodic trigger of `ScheduledBatchStrategy`: an enable flag and the
    gate that fires an update only while the scheduled strategy is active. */
module Scheduling {
  import opened Outcomes
  import opened Readings
  import Text
  import Strategies
  import WeatherStation

  /** The component's one mutable field. */
  datatype BatchScheduler = BatchScheduler(schedulingEnabled: bool)
  {
    predicate IsSchedulingEnabled() { schedulingEnabled }
  }

  /** A new component: scheduling is on. */
  function NewBatchScheduler(): (s: BatchScheduler)
    ensures s.IsSchedulingEnabled()
  {
    BatchScheduler(true)
  }

  /** `setSchedulingEnabled`. */
  function SetSchedulingEnabled(s: BatchScheduler, enabled: bool): (s': BatchScheduler)
    ensures s'.IsSchedulingEnabled() == enabled
  {
    s.(schedulingEnabled := enabled)
  }

  /** The gate of `scheduledUpdate`: enabled, a strategy present, and its
      name equal to "SCHEDULED" ignoring case. */
  predicate Fires(s: BatchScheduler, st: WeatherStation.Station) {
    && s.schedulingEnabled
    && st.currentStrategy.Some?
    && Text.EqualsIgnoreCase("SCHEDULED", Strategies.Name(st.currentStrategy.value))
  }

  /** One tick of the timer. When the gate is open it calls
      `triggerUpdate(null)` once and swallows whatever it throws; when it is
      closed the station is left alone. The tick itself never throws. */
  function ScheduledUpdate(s: BatchScheduler, st: WeatherStation.Station, sample: Reading): (r: WeatherStation.Step<()>)
    ensures r.result == Success(())
    ensures !Fires(s, st) ==> r.station == st && r.deliveries == []
    ensures Fires(s, st) ==>
      && r.station == WeatherStation.TriggerUpdate(st, None, sample).station
      && r.deliveries == WeatherStation.TriggerUpdate(st, None, sample).deliveries
  {
    if !s.schedulingEnabled then WeatherStation.Step(st, Success(()), [])
    else if Fires(s, st) then
      var triggered := WeatherStation.TriggerUpdate(st, None, sample);
      match triggered.result
      case Failure(_) => WeatherStation.Step(st, Success(()), [])
      case Success(_) => WeatherStation.Step(triggered.station, Success(()), triggered.deliveries)
    else WeatherStation.Step(st, Success(()), [])
  }

  /** `isSchedulingEnabled` answers the last value set, and on by default. */
  lemma LastSettingWins(s: BatchScheduler, a: bool, b: bool)
    ensures SetSchedulingEnabled(SetSchedulingEnabled(s, a), b) == SetSchedulingEnabled(s, b)
    ensures SetSchedulingEnabled(s, a).IsSchedulingEnabled() == a
    ensures NewBatchScheduler().IsSchedulingEnabled()
  {
  }

  /** The gate is open exactly when scheduling is on and the scheduled
      strategy is the current one. */
  lemma FiresIffScheduledActive(s: BatchScheduler, st: WeatherStation.Station)
    ensures Fires(s, st) <==> s.IsSchedulingEnabled() && st.currentStrategy == Some(Strategies.Scheduled)
  {
  }

  /** While scheduling is off, a tick changes nothing. */
  lemma DisabledTickIsIdle(s: BatchScheduler, st: WeatherStation.Station, sample: Reading)
    requires !s.IsSchedulingEnabled()
    ensures ScheduledUpdate(s, st, sample) == WeatherStation.Step(st, Success(()), [])
  {
  }

  /** An open gate runs exactly one update round: the drawn reading becomes
      the last reading and each observer receives it once, in order. */
  lemma FiringRunsOneRound(s: BatchScheduler, st: WeatherStation.Station, sample: Reading)
    requires Fires(s, st)
    ensures var r := ScheduledUpdate(s, st, sample);
      && r.station.lastData == Some(sample)
      && r.station.currentStrategy == st.currentStrategy
      && |r.deliveries| == |st.observers|
      && forall i | 0 <= i < |st.observers| :: r.deliveries[i] == WeatherStation.Delivery(st.observers[i].id, sample)
  {
  }

  /** A tick keeps the station invariant. */
  lemma TickPreservesValid(s: BatchScheduler, st: WeatherStation.Station, sample: Reading)
    requires WeatherStation.Valid(st)
    ensures WeatherStation.Valid(ScheduledUpdate(s, st, sample).station)
  {
  }
}
