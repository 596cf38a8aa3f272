/** Sequences of calls on one station, as the API, the console and the timer
    issue them one after another, and what holds across a whole sequence. */
module Runs {
  import opened Outcomes
  import opened Readings
  import Strategies
  import Displays
  import WeatherStation
  import Scheduling

  /** A public call on the station. */
  datatype Op =
    | SetStrategy(strategy: Option<Strategies.Strategy>)
    | Subscribe(kind: Displays.Kind, id: string)
    | Unsubscribe(id: string)
    | Trigger(manualInputOrNull: Option<Reading>, sample: Reading)
    | Tick(scheduler: Scheduling.BatchScheduler, sample: Reading)

  /** The state after some calls: how many subscribes and unsubscribes
      answered `true`, the readings successful updates produced, and every
      observer `update` call, all in call order. */
  datatype Tally = Tally(
    station: WeatherStation.Station,
    subscribed: nat,
    unsubscribed: nat,
    produced: seq<Reading>,
    deliveries: seq<WeatherStation.Delivery>)

  function Apply(st: WeatherStation.Station, op: Op): Tally {
    match op
    case SetStrategy(s) =>
      Tally(WeatherStation.SetStrategy(st, s).station, 0, 0, [], [])
    case Subscribe(kind, id) =>
      var r := WeatherStation.Subscribe(st, kind, id);
      Tally(r.station, if r.result == Success(true) then 1 else 0, 0, [], r.deliveries)
    case Unsubscribe(id) =>
      var r := WeatherStation.Unsubscribe(st, id);
      Tally(r.station, 0, if r.result == Success(true) then 1 else 0, [], [])
    case Trigger(input, sample) =>
      var r := WeatherStation.TriggerUpdate(st, input, sample);
      Tally(r.station, 0, 0, if r.result.Success? then [r.result.value] else [], r.deliveries)
    case Tick(scheduler, sample) =>
      var r := Scheduling.ScheduledUpdate(scheduler, st, sample);
      var fired := Scheduling.Fires(scheduler, st) && WeatherStation.TriggerUpdate(st, None, sample).result.Success?;
      Tally(r.station, 0, 0, if fired then [sample] else [], r.deliveries)
  }

  function Run(st: WeatherStation.Station, ops: seq<Op>): Tally
    decreases |ops|
  {
    if ops == [] then Tally(st, 0, 0, [], [])
    else
      var first := Apply(st, ops[0]);
      var rest := Run(first.station, ops[1..]);
      Tally(rest.station,
            first.subscribed + rest.subscribed,
            first.unsubscribed + rest.unsubscribed,
            first.produced + rest.produced,
            first.deliveries + rest.deliveries)
  }

  lemma ApplyPreservesValid(st: WeatherStation.Station, op: Op)
    requires WeatherStation.Valid(st)
    ensures WeatherStation.Valid(Apply(st, op).station)
  {
  }

  /** Every call keeps the keys unique and every display in step with the
      station's last reading. */
  lemma {:induction false} RunPreservesValid(st: WeatherStation.Station, ops: seq<Op>)
    requires WeatherStation.Valid(st)
    ensures WeatherStation.Valid(Run(st, ops).station)
    decreases |ops|
  {
    if ops != [] {
      ApplyPreservesValid(st, ops[0]);
      RunPreservesValid(Apply(st, ops[0]).station, ops[1..]);
    }
  }

  lemma ApplyCount(st: WeatherStation.Station, op: Op)
    requires WeatherStation.UniqueIds(st.observers)
    ensures |Apply(st, op).station.observers| + Apply(st, op).unsubscribed
         == |st.observers| + Apply(st, op).subscribed
  {
    match op
    case Unsubscribe(id) =>
      if id in WeatherStation.Ids(st.observers) {
        var i :| 0 <= i < |st.observers| && WeatherStation.Ids(st.observers)[i] == id;
        WeatherStation.UnsubscribeRemovesOnlyThatEntry(st, i);
      }
    case _ =>
  }

  lemma ApplyKeepsUnique(st: WeatherStation.Station, op: Op)
    requires WeatherStation.UniqueIds(st.observers)
    ensures WeatherStation.UniqueIds(Apply(st, op).station.observers)
  {
    match op
    case Unsubscribe(id) =>
      WeatherStation.WithoutKeepsUnique(st.observers, id);
    case Subscribe(kind, id) =>
      var r := WeatherStation.Subscribe(st, kind, id);
      if id !in WeatherStation.Ids(st.observers) {
        forall i | 0 <= i < |st.observers|
          ensures st.observers[i].id != id
        {
          assert WeatherStation.Ids(st.observers)[i] == st.observers[i].id;
        }
      }
    case _ =>
  }

  /** The registry holds as many observers as there were successful
      subscribes, less the successful unsubscribes. */
  lemma {:induction false} RunCount(st: WeatherStation.Station, ops: seq<Op>)
    requires WeatherStation.UniqueIds(st.observers)
    ensures |Run(st, ops).station.observers| + Run(st, ops).unsubscribed
         == |st.observers| + Run(st, ops).subscribed
    decreases |ops|
  {
    if ops != [] {
      ApplyCount(st, ops[0]);
      ApplyKeepsUnique(st, ops[0]);
      RunCount(Apply(st, ops[0]).station, ops[1..]);
    }
  }

  lemma ApplyLastData(st: WeatherStation.Station, op: Op)
    ensures var t := Apply(st, op);
      t.station.lastData == (if t.produced == [] then st.lastData else Some(t.produced[|t.produced| - 1]))
  {
  }

  /** The last reading is the one the latest successful update produced, or
      the one held before the calls if none succeeded. */
  lemma {:induction false} LastDataIsLatestProduced(st: WeatherStation.Station, ops: seq<Op>)
    ensures var t := Run(st, ops);
      t.station.lastData == (if t.produced == [] then st.lastData else Some(t.produced[|t.produced| - 1]))
    decreases |ops|
  {
    if ops != [] {
      ApplyLastData(st, ops[0]);
      LastDataIsLatestProduced(Apply(st, ops[0]).station, ops[1..]);
    }
  }

  /** Every station reachable from the constructor satisfies the invariant,
      and its registry size is the balance of successful subscribes and
      unsubscribes. */
  lemma ReachableStatesValid(strategies: seq<Strategies.Strategy>, ops: seq<Op>)
    ensures WeatherStation.Valid(Run(WeatherStation.New(strategies), ops).station)
    ensures |Run(WeatherStation.New(strategies), ops).station.observers| + Run(WeatherStation.New(strategies), ops).unsubscribed
         == Run(WeatherStation.New(strategies), ops).subscribed
  {
    RunPreservesValid(WeatherStation.New(strategies), ops);
    RunCount(WeatherStation.New(strategies), ops);
  }

  /** A station built with the manual and the real-time strategies starts on
      the manual one and refuses an update without input; after switching to
      real time, an update returns the drawn reading, and a phone subscriber
      added next receives that reading at once. */
  lemma ExampleScenario(drawn: Reading)
    ensures var st0 := WeatherStation.New([Strategies.Manual, Strategies.RealTime]);
      && st0.currentStrategy == Some(Strategies.Manual)
      && var failed := WeatherStation.TriggerUpdate(st0, None, drawn);
      && failed == WeatherStation.Step(st0, Failure(IllegalArgument(Strategies.ManualInputRequired)), [])
      && var st1 := WeatherStation.SetStrategy(st0, Some(Strategies.RealTime)).station;
      && var polled := WeatherStation.TriggerUpdate(st1, None, drawn);
      && polled.result == Success(drawn)
      && var subscribed := WeatherStation.Subscribe(polled.station, Displays.Phone, "p1");
      && subscribed.result == Success(true)
      && subscribed.station.observers == [Displays.Display(Displays.Phone, "p1", Some(drawn))]
      && subscribed.deliveries == [WeatherStation.Delivery("p1", drawn)]
  {
  }
}
