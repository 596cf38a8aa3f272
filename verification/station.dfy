/** The coordinator (`WeatherStation`): the current strategy, the last
    reading and the observer registry, with every public operation written as
    a pure transition from one station state to the next. */
module WeatherStation {
  import opened Outcomes
  import opened Readings
  import Strategies
  import Displays

  /** One call of an observer's `update`: who received which reading. */
  datatype Delivery = Delivery(id: string, reading: Reading)

  /** The station's fields. `observers` is the `LinkedHashMap`'s value
      sequence in insertion order; each display's id is its key. */
  datatype Station = Station(
    currentStrategy: Option<Strategies.Strategy>,
    lastData: Option<Reading>,
    observers: seq<Displays.Display>)

  /** What one operation leaves behind: the next state, its return value or
      exception, and the `update` calls it made on observers, in call order. */
  datatype Step<+T> = Step(station: Station, result: Result<T>, deliveries: seq<Delivery>)

  /** One notification round: the observers as updated, and the calls made. */
  datatype Round = Round(observers: seq<Displays.Display>, deliveries: seq<Delivery>)

  const NoStrategy := "No update strategy has been set"

  /** The registry's keys in insertion order. */
  function Ids(observers: seq<Displays.Display>): seq<string> {
    seq(|observers|, i requires 0 <= i < |observers| => observers[i].id)
  }

  /** A map has one entry per key. */
  ghost predicate UniqueIds(observers: seq<Displays.Display>) {
    forall i, j | 0 <= i < j < |observers| :: observers[i].id != observers[j].id
  }

  /** Every registered display shows the station's last reading. */
  ghost predicate Synced(st: Station) {
    forall i | 0 <= i < |st.observers| :: st.observers[i].lastData == st.lastData
  }

  /** The invariant of every station reachable through the public operations. */
  ghost predicate Valid(st: Station) {
    UniqueIds(st.observers) && Synced(st)
  }

  /** The constructor: the first strategy of the collection, or null when it
      is empty; no reading and no observers yet. */
  function New(strategies: seq<Strategies.Strategy>): (st: Station)
    ensures |strategies| > 0 ==> st.currentStrategy == Some(strategies[0])
    ensures |strategies| == 0 ==> st.currentStrategy == None
    ensures st.lastData == None && st.observers == []
    ensures Valid(st)
  {
    Station(if |strategies| == 0 then None else Some(strategies[0]), None, [])
  }

  /** `setStrategy`: `Objects.requireNonNull` throws on null; otherwise only
      the strategy changes. */
  function SetStrategy(st: Station, strategy: Option<Strategies.Strategy>): (r: Step<()>)
    ensures r.result.Failure? <==> strategy == None
    ensures r.result.Failure? ==> r.result.error == NullPointer && r.station == st
    ensures r.result.Success? ==> r.station.currentStrategy == strategy
    ensures r.station.lastData == st.lastData && r.station.observers == st.observers
    ensures r.deliveries == []
    ensures Valid(st) ==> Valid(r.station)
  {
    match strategy
    case None => Step(st, Failure(NullPointer), [])
    case Some(s) => Step(st.(currentStrategy := Some(s)), Success(()), [])
  }

  /** `addObserver`: a taken id is refused with `false` and nothing changes;
      otherwise the display goes to the end of the insertion order and, if a
      reading exists, receives it at once. */
  function AddObserver(st: Station, d: Displays.Display): (r: Step<bool>)
    ensures r.result == Success(d.id !in Ids(st.observers))
    ensures r.station.currentStrategy == st.currentStrategy && r.station.lastData == st.lastData
    ensures d.id in Ids(st.observers) ==> r.station == st && r.deliveries == []
    ensures d.id !in Ids(st.observers) ==>
      && |r.station.observers| == |st.observers| + 1
      && r.station.observers[..|st.observers|] == st.observers
      && r.station.observers[|st.observers|].id == d.id
      && r.station.observers[|st.observers|].kind == d.kind
      && (st.lastData.Some? ==> r.station.observers[|st.observers|].lastData == st.lastData)
      && (st.lastData.None? ==> r.station.observers[|st.observers|].lastData == d.lastData)
      && r.deliveries == (if st.lastData.Some? then [Delivery(d.id, st.lastData.value)] else [])
  {
    if d.id in Ids(st.observers) then Step(st, Success(false), [])
    else
      match st.lastData
      case None => Step(st.(observers := st.observers + [d]), Success(true), [])
      case Some(data) =>
        Step(st.(observers := st.observers + [Displays.Update(d, data)]), Success(true), [Delivery(d.id, data)])
  }

  /** `subscribePhone`, `subscribeWebApp` and `subscribeOutdoor`: a fresh
      display of the given kind, registered through `addObserver`. A new
      observer ends up showing exactly the station's last reading. */
  function Subscribe(st: Station, kind: Displays.Kind, id: string): (r: Step<bool>)
    ensures r.result == Success(id !in Ids(st.observers))
    ensures id in Ids(st.observers) ==> r.station == st && r.deliveries == []
    ensures id !in Ids(st.observers) ==>
      && r.station == st.(observers := st.observers + [Displays.Display(kind, id, st.lastData)])
      && r.deliveries == (if st.lastData.Some? then [Delivery(id, st.lastData.value)] else [])
    ensures Valid(st) ==> Valid(r.station)
  {
    var r := AddObserver(st, Displays.NewDisplay(kind, id));
    assert id !in Ids(st.observers) ==> r.station.observers == st.observers + [Displays.Display(kind, id, st.lastData)] by {
      if id !in Ids(st.observers) {
        var n := |st.observers|;
        assert r.station.observers == r.station.observers[..n] + [r.station.observers[n]];
      }
    }
    assert Valid(st) && id !in Ids(st.observers) ==> UniqueIds(r.station.observers) by {
      if Valid(st) && id !in Ids(st.observers) {
        forall i | 0 <= i < |st.observers|
          ensures st.observers[i].id != id
        {
          assert Ids(st.observers)[i] == st.observers[i].id;
        }
      }
    }
    r
  }

  /** The registry with every entry under `id` taken out, the rest kept in
      order. */
  function Without(observers: seq<Displays.Display>, id: string): (rest: seq<Displays.Display>)
    ensures forall d | d in rest :: d in observers && d.id != id
    ensures forall d | d in observers && d.id != id :: d in rest
  {
    if observers == [] then []
    else if observers[0].id == id then Without(observers[1..], id)
    else [observers[0]] + Without(observers[1..], id)
  }

  /** Removing an id that is not registered changes nothing. */
  lemma {:induction false} WithoutAbsent(observers: seq<Displays.Display>, id: string)
    requires id !in Ids(observers)
    ensures Without(observers, id) == observers
  {
    if observers != [] {
      assert Ids(observers) == [observers[0].id] + Ids(observers[1..]);
      WithoutAbsent(observers[1..], id);
    }
  }

  /** Removal keeps the keys unique. */
  lemma {:induction false} WithoutKeepsUnique(observers: seq<Displays.Display>, id: string)
    requires UniqueIds(observers)
    ensures UniqueIds(Without(observers, id))
  {
    if observers != [] {
      var tail := observers[1..];
      WithoutKeepsUnique(tail, id);
      if observers[0].id != id {
        var rest := Without(tail, id);
        forall k | 0 <= k < |rest|
          ensures rest[k].id != observers[0].id
        {
          assert rest[k] in tail;
          var j :| 0 <= j < |tail| && tail[j] == rest[k];
          assert observers[j + 1] == rest[k];
        }
      }
    }
  }

  /** With unique keys, removing a registered id takes out exactly its one
      entry and keeps the others in their order. */
  lemma {:induction false} WithoutRemovesOneEntry(observers: seq<Displays.Display>, i: nat)
    requires UniqueIds(observers)
    requires i < |observers|
    ensures Without(observers, observers[i].id) == observers[..i] + observers[i + 1..]
  {
    var id := observers[i].id;
    if i == 0 {
      var tail := observers[1..];
      assert id !in Ids(tail);
      WithoutAbsent(tail, id);
    } else {
      WithoutRemovesOneEntry(observers[1..], i - 1);
      assert observers[0].id != id;
      assert observers[..i] + observers[i + 1..] == [observers[0]] + (observers[1..][..i - 1] + observers[1..][i..]);
    }
  }

  /** `unsubscribe`: `true` exactly when the id was registered; that entry
      goes, every other one stays. */
  function Unsubscribe(st: Station, id: string): (r: Step<bool>)
    ensures r.result == Success(id in Ids(st.observers))
    ensures r.station.currentStrategy == st.currentStrategy && r.station.lastData == st.lastData
    ensures forall d | d in r.station.observers :: d in st.observers && d.id != id
    ensures forall d | d in st.observers && d.id != id :: d in r.station.observers
    ensures id !in Ids(st.observers) ==> r.station == st
    ensures r.deliveries == []
    ensures Valid(st) ==> Valid(r.station)
  {
    var rest := Without(st.observers, id);
    assert id !in Ids(st.observers) ==> rest == st.observers by {
      if id !in Ids(st.observers) {
        WithoutAbsent(st.observers, id);
      }
    }
    assert UniqueIds(st.observers) ==> UniqueIds(rest) by {
      if UniqueIds(st.observers) {
        WithoutKeepsUnique(st.observers, id);
      }
    }
    assert Synced(st) ==> Synced(st.(observers := rest)) by {
      if Synced(st) {
        forall k | 0 <= k < |rest|
          ensures rest[k].lastData == st.lastData
        {
          assert rest[k] in st.observers;
        }
      }
    }
    Step(st.(observers := rest), Success(id in Ids(st.observers)), [])
  }

  /** `notifyObservers`: every observer's `update`, in insertion order. */
  function Notify(observers: seq<Displays.Display>, data: Reading): (r: Round)
    ensures |r.observers| == |observers| && |r.deliveries| == |observers|
    ensures forall i | 0 <= i < |observers| ::
      && r.observers[i] == Displays.Update(observers[i], data)
      && r.deliveries[i] == Delivery(observers[i].id, data)
  {
    if observers == [] then Round([], [])
    else
      var rest := Notify(observers[1..], data);
      Round([Displays.Update(observers[0], data)] + rest.observers,
            [Delivery(observers[0].id, data)] + rest.deliveries)
  }

  /** The loop of `notifyObservers` as written, one observer per iteration. */
  method NotifyObservers(observers: seq<Displays.Display>, data: Reading)
    returns (notified: seq<Displays.Display>, deliveries: seq<Delivery>)
    ensures |notified| == |observers| && |deliveries| == |observers|
    ensures forall i | 0 <= i < |observers| ::
      && notified[i].id == observers[i].id
      && notified[i].kind == observers[i].kind
      && notified[i].lastData == Some(data)
    ensures forall i | 0 <= i < |observers| :: deliveries[i] == Delivery(observers[i].id, data)
    ensures Round(notified, deliveries) == Notify(observers, data)
  {
    notified, deliveries := [], [];
    var i := 0;
    while i < |observers|
      invariant 0 <= i <= |observers|
      invariant |notified| == i && |deliveries| == i
      invariant forall k | 0 <= k < i :: notified[k] == Displays.Update(observers[k], data)
      invariant forall k | 0 <= k < i :: deliveries[k] == Delivery(observers[k].id, data)
    {
      notified := notified + [Displays.Update(observers[i], data)];
      deliveries := deliveries + [Delivery(observers[i].id, data)];
      i := i + 1;
    }
  }

  /** `triggerUpdate`: throws when there is no strategy; otherwise asks the
      strategy, lets its exception through untouched, and on success records
      the reading and notifies every observer once, in insertion order. */
  function TriggerUpdate(st: Station, manualInputOrNull: Option<Reading>, sample: Reading): (r: Step<Reading>)
    ensures st.currentStrategy == None ==> r == Step(st, Failure(IllegalState(NoStrategy)), [])
    ensures st.currentStrategy.Some? ==>
      r.result == Strategies.Update(st.currentStrategy.value, manualInputOrNull, sample)
    ensures r.result.Failure? ==> r.station == st && r.deliveries == []
    ensures r.result.Success? ==>
      && r.station.currentStrategy == st.currentStrategy
      && r.station.lastData == Some(r.result.value)
      && |r.station.observers| == |st.observers| == |r.deliveries|
      && (forall i | 0 <= i < |st.observers| ::
            r.station.observers[i] == Displays.Update(st.observers[i], r.result.value))
      && (forall i | 0 <= i < |st.observers| ::
            r.deliveries[i] == Delivery(st.observers[i].id, r.result.value))
    ensures Valid(st) ==> Valid(r.station)
  {
    match st.currentStrategy
    case None => Step(st, Failure(IllegalState(NoStrategy)), [])
    case Some(strategy) =>
      match Strategies.Update(strategy, manualInputOrNull, sample)
      case Failure(e) => Step(st, Failure(e), [])
      case Success(data) =>
        var round := Notify(st.observers, data);
        Step(Station(st.currentStrategy, Some(data), round.observers), Success(data), round.deliveries)
  }

  lemma {:induction false} WithoutConcat(a: seq<Displays.Display>, b: seq<Displays.Display>, id: string)
    ensures Without(a + b, id) == Without(a, id) + Without(b, id)
  {
    if a != [] {
      assert (a + b)[1..] == a[1..] + b;
      WithoutConcat(a[1..], b, id);
    } else {
      assert a + b == b;
    }
  }

  /** `unsubscribe` of the i-th registered id leaves the registry without
      that entry and with the others in their order. */
  lemma UnsubscribeRemovesOnlyThatEntry(st: Station, i: nat)
    requires UniqueIds(st.observers)
    requires i < |st.observers|
    ensures Unsubscribe(st, st.observers[i].id).result == Success(true)
    ensures Unsubscribe(st, st.observers[i].id).station.observers == st.observers[..i] + st.observers[i + 1..]
  {
    assert Ids(st.observers)[i] == st.observers[i].id;
    WithoutRemovesOneEntry(st.observers, i);
  }

  /** Subscribing a new id and then unsubscribing it restores the station. */
  lemma SubscribeThenUnsubscribe(st: Station, kind: Displays.Kind, id: string)
    requires id !in Ids(st.observers)
    ensures Subscribe(st, kind, id).result == Success(true)
    ensures Unsubscribe(Subscribe(st, kind, id).station, id) == Step(st, Success(true), [])
  {
    var added := Displays.Display(kind, id, st.lastData);
    var after := Subscribe(st, kind, id).station;
    assert after.observers == st.observers + [added];
    WithoutConcat(st.observers, [added], id);
    WithoutAbsent(st.observers, id);
    assert Without([added], id) == [];
    assert Ids(after.observers)[|st.observers|] == id;
  }

  /** The same id subscribed twice: `true`, then `false`, and the second call
      leaves the first observer, its recorded reading included, as it was. */
  lemma SubscribeTwice(st: Station, kind1: Displays.Kind, kind2: Displays.Kind, id: string)
    requires id !in Ids(st.observers)
    ensures Subscribe(st, kind1, id).result == Success(true)
    ensures Subscribe(Subscribe(st, kind1, id).station, kind2, id).result == Success(false)
    ensures Subscribe(Subscribe(st, kind1, id).station, kind2, id).station == Subscribe(st, kind1, id).station
  {
    var after := Subscribe(st, kind1, id).station;
    assert Ids(after.observers)[|st.observers|] == id;
  }

  /** `triggerUpdate` throws exactly when there is no strategy, or the
      strategy is the manual one and the input is null. */
  lemma TriggerFailsExactlyWhen(st: Station, manualInputOrNull: Option<Reading>, sample: Reading)
    ensures TriggerUpdate(st, manualInputOrNull, sample).result.Failure? <==>
      || st.currentStrategy == None
      || (st.currentStrategy == Some(Strategies.Manual) && manualInputOrNull == None)
    ensures st.currentStrategy == Some(Strategies.Manual) && manualInputOrNull.Some? ==>
      TriggerUpdate(st, manualInputOrNull, sample).result == Success(manualInputOrNull.value)
  {
  }

  /** A successful update reaches each registered observer exactly once, in
      insertion order, and every one of them ends up showing the new reading. */
  lemma DeliveredOncePerObserver(st: Station, manualInputOrNull: Option<Reading>, sample: Reading)
    requires UniqueIds(st.observers)
    requires TriggerUpdate(st, manualInputOrNull, sample).result.Success?
    ensures var r := TriggerUpdate(st, manualInputOrNull, sample);
      && Ids(r.station.observers) == Ids(st.observers)
      && (forall j | 0 <= j < |r.deliveries| :: r.deliveries[j].reading == r.result.value)
      && (forall i, j | 0 <= i < |st.observers| && 0 <= j < |r.deliveries| ::
            r.deliveries[j].id == st.observers[i].id <==> i == j)
      && (forall i | 0 <= i < |r.station.observers| :: r.station.observers[i].lastData == r.station.lastData)
  {
  }
}
