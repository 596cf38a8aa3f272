# Weather station coordinator, modelled in Dafny

This project models the core of a small weather service. A `WeatherStation`
coordinator holds three things:

- the current update strategy, which may be null;
- the last weather reading, which is null until the first update succeeds;
- a registry of observers keyed by id, in insertion order.

Around it sit the value type `WeatherData`, the strategies that produce
readings (manual input, a real-time random sensor and a scheduled random
batch), the three display observers, and the periodic gate of
`ScheduledBatchStrategy`. That gate fires an update only while scheduling is
enabled and the scheduled strategy is the active one.

Every operation is a pure transition. It takes a `Station` value and returns
a `Step`, which holds three things:

- the next station;
- the return value, or the exception thrown (`Result`);
- the log of observer `update` calls it made, in call order (`Delivery`).

A thrown exception always comes with the unchanged station. The modules are:

- `Outcomes`: null as `Option`, exceptions as `Result` and `Error`.
- `Text`: `String.equalsIgnoreCase`, checked against upper-casing both sides.
- `Readings`: `WeatherData`. Each double is carried as its 64-bit pattern, and the timestamp is an optional `Instant`.
- `Strategies`: `Manual | RealTime | Scheduled`, with `getName` and `update`. The random producers return a `sample` argument that stands for what they draw from the random source and the clock.
- `Displays`: `PhoneDisplay`, `WebAppDisplay` and `OutdoorDisplay`. These three classes differ only in the label they print, so one `Display` datatype with a `Kind` tag stands for all of them.
- `WeatherStation`: the coordinator. Its invariant `Valid` says two things. No two observers share an id. Every observer shows the station's last reading. The second holds for every sequence of the station's own operations: `subscribe*` creates each display fresh and catches it up at once, and `triggerUpdate` updates every display. An outside call of `update` on a display taken from `getObservers` would break it; see "## Left out".
- `Scheduling`: the enable flag and the `scheduledUpdate` gate.
- `Runs`: sequences of calls, with the invariants that hold over any such sequence.

Behaviour of the code worth noting, which the model follows:

- An empty strategy collection gives a null current strategy; the constructor never fails (`WeatherStation.New`).
- `setStrategy(null)` throws `NullPointerException` from `Objects.requireNonNull`, not an invalid-argument error (`WeatherStation.SetStrategy`).
- `notifyObservers` catches nothing. No observer `update` can throw, so no failure-isolation policy is modelled.
- The code takes no snapshot and holds no lock, so every operation is one atomic step.

## Model

| member | source | states |
|---|---|---|
| Text.EqualsIgnoreCaseIffSameUpper | src/main/java/org/example/strategy/ScheduledBatchStrategy.java:49 | two strings are equal ignoring case exactly when their upper-cased forms are equal |
| Readings.GettersReturnConstructorArguments | weather/src/main/java/org/example/model/WeatherData.java:11-32 | each getter returns exactly the matching constructor argument, for any values including a null timestamp |
| Readings.ReadingDeterminedByGetters | weather/src/main/java/org/example/model/WeatherData.java:6-16 | two readings are equal if and only if all four getters agree |
| Strategies.Name | src/main/java/org/example/strategy/ScheduledBatchStrategy.java:30-32 | a strategy's name equals "SCHEDULED" ignoring case exactly for the scheduled strategy, and "MANUAL" exactly for the manual one |
| Strategies.NamesIdentifyStrategies | weather/src/main/java/org/example/strategy/ManualInputStrategy.java:16-19 | two strategies' names are equal ignoring case if and only if the strategies are the same |
| Strategies.Update | weather/src/main/java/org/example/strategy/ManualInputStrategy.java:9-14 | update throws IllegalArgumentException with its message exactly for the manual strategy with null input; the manual strategy returns its input, the others their own draw |
| Strategies.ManualIsIdentity | weather/src/main/java/org/example/strategy/ManualInputStrategy.java:13 | the manual strategy returns a non-null input unchanged |
| Strategies.ManualIsStateless | weather/src/main/java/org/example/strategy/ManualInputStrategy.java:7-20 | the manual strategy's answer depends on its input alone |
| Strategies.ProducersIgnoreInput | src/main/java/org/example/strategy/ScheduledBatchStrategy.java:22-27 | a random producer's result does not depend on the manual input, and it never throws |
| Displays.NewDisplay | src/main/java/org/example/observer/OutdoorDisplay.java:9-16 | a new display has the given id and kind and no last data |
| Displays.Update | src/main/java/org/example/observer/OutdoorDisplay.java:19-20 | update records the reading as the last data and keeps the id and kind |
| Displays.LaterUpdateOverwrites | src/main/java/org/example/observer/OutdoorDisplay.java:6-20 | two updates in a row leave the display as the second update alone would |
| Displays.Lifecycle | weather/src/main/java/org/example/observer/PhoneDisplay.java:6-30 | for each kind (PhoneDisplay, WebAppDisplay and OutdoorDisplay have the same fields, update and getLastData): id as constructed, null data before the first update, the latest update's reading after it, id unchanged |
| WeatherStation.New | src/main/java/org/example/service/WeatherStation.java:19-25 | the current strategy is the collection's first element, or null when it is empty; no reading and no observers; the invariant holds |
| WeatherStation.SetStrategy | src/main/java/org/example/service/WeatherStation.java:27-29 | null throws NullPointerException and changes nothing; otherwise only the strategy changes |
| WeatherStation.AddObserver | src/main/java/org/example/service/WeatherStation.java:55-60 | returns false and changes nothing for a registered id; otherwise appends the observer, catches it up with the last reading if there is one, and returns true |
| WeatherStation.Subscribe | src/main/java/org/example/service/WeatherStation.java:43-59 | a new id is appended with last data equal to the station's last reading, and that catch-up is the only delivery; a taken id changes nothing; the invariant is kept |
| WeatherStation.Without | src/main/java/org/example/service/WeatherStation.java:63 | removal keeps exactly the entries whose id differs from the removed one |
| WeatherStation.WithoutAbsent | src/main/java/org/example/service/WeatherStation.java:63 | removing an unregistered id leaves the registry as it was |
| WeatherStation.WithoutKeepsUnique | src/main/java/org/example/service/WeatherStation.java:19 | removal keeps the ids unique |
| WeatherStation.WithoutRemovesOneEntry | src/main/java/org/example/service/WeatherStation.java:19 | with unique ids, removing the i-th entry's id yields the registry without just that entry, the rest in order |
| WeatherStation.Unsubscribe | src/main/java/org/example/service/WeatherStation.java:62-64 | returns true exactly when the id was registered; removes only entries with that id; an unknown id changes nothing; the invariant is kept |
| WeatherStation.UnsubscribeRemovesOnlyThatEntry | src/main/java/org/example/service/WeatherStation.java:39-41 | unsubscribing a registered id returns true, and the observers seen afterwards are the old ones minus that entry, in insertion order |
| WeatherStation.SubscribeThenUnsubscribe | src/main/java/org/example/service/WeatherStation.java:55-64 | subscribing a new id and then unsubscribing it restores the station exactly |
| WeatherStation.SubscribeTwice | src/main/java/org/example/service/WeatherStation.java:55-57 | the same id subscribed twice answers true then false, and the second call leaves the first observer and its data untouched |
| WeatherStation.Notify | src/main/java/org/example/service/WeatherStation.java:76-82 | every observer, in order, gets the reading, and the log holds one delivery per observer in the same order |
| WeatherStation.NotifyObservers | src/main/java/org/example/service/WeatherStation.java:78-80 | the loop updates each observer once in insertion order and agrees with the notification round |
| WeatherStation.TriggerUpdate | src/main/java/org/example/service/WeatherStation.java:66-74 | no strategy throws IllegalStateException; a strategy exception is passed on; either failure changes nothing; on success the reading is returned, becomes the last data and reaches every observer in order; the invariant is kept |
| WeatherStation.TriggerFailsExactlyWhen | src/main/java/org/example/service/WeatherStation.java:66-70 | an update throws exactly when there is no strategy or the manual strategy gets null input; with input the manual strategy returns it |
| WeatherStation.DeliveredOncePerObserver | src/main/java/org/example/service/WeatherStation.java:70-82 | after a successful update each registered id appears in the delivery log exactly once, at its own position; every observer shows the new reading |
| Scheduling.NewBatchScheduler | src/main/java/org/example/strategy/ScheduledBatchStrategy.java:15 | scheduling starts enabled |
| Scheduling.SetSchedulingEnabled | src/main/java/org/example/strategy/ScheduledBatchStrategy.java:62-64 | afterwards isSchedulingEnabled answers the value passed |
| Scheduling.LastSettingWins | src/main/java/org/example/strategy/ScheduledBatchStrategy.java:62-68 | isSchedulingEnabled answers the last value set, and true by default |
| Scheduling.ScheduledUpdate | src/main/java/org/example/strategy/ScheduledBatchStrategy.java:42-57 | the tick never throws; a closed gate changes nothing; an open gate has exactly the effect of one triggerUpdate(null) |
| Scheduling.FiresIffScheduledActive | src/main/java/org/example/strategy/ScheduledBatchStrategy.java:48-49 | the gate is open exactly when scheduling is enabled and the current strategy is the scheduled one |
| Scheduling.DisabledTickIsIdle | src/main/java/org/example/strategy/ScheduledBatchStrategy.java:43-45 | with scheduling disabled a tick leaves the station untouched and delivers nothing |
| Scheduling.FiringRunsOneRound | src/main/java/org/example/strategy/ScheduledBatchStrategy.java:49-52 | an open gate makes the drawn reading the last data and delivers it once to each observer, in order |
| Scheduling.TickPreservesValid | src/main/java/org/example/strategy/ScheduledBatchStrategy.java:50-55 | a tick keeps the station invariant, whether the update succeeds or fails |
| Runs.RunPreservesValid | src/main/java/org/example/service/WeatherStation.java:19-21 | any sequence of calls keeps ids unique and every observer in step with the last reading |
| Runs.RunCount | src/main/java/org/example/service/WeatherStation.java:55-64 | the registry size changes by successful subscribes minus successful unsubscribes |
| Runs.LastDataIsLatestProduced | src/main/java/org/example/service/WeatherStation.java:70-71 | after any sequence of calls the last reading is the latest one a successful update produced, or the earlier one if none succeeded |
| Runs.ReachableStatesValid | src/main/java/org/example/service/WeatherStation.java:18-83 | every station reachable from the constructor satisfies the invariant, and its registry size is successful subscribes minus successful unsubscribes |
| Runs.ExampleScenario | src/main/java/org/example/service/WeatherStation.java:23-74 | the manual-then-real-time walk-through: the first update throws and changes nothing, the second returns the draw, and a new subscriber gets that reading at once |

## Left out

- Concurrency: the coordinator has no locks or snapshots. Calls from the timer, console and request threads are assumed not to overlap, so each operation is one atomic step; the code does not guarantee this.
- Random generation and the clock (`ThreadLocalRandom.nextDouble`, `Instant.now`) in `RealTimeSensorStrategy` and both `ScheduledBatchStrategy` classes. The draw is the `sample` argument, so the numeric ranges of each producer and a non-decreasing `observedAt` are not stated: they are facts about doubles and the system clock.
- Console output: every `System.out`/`System.err` line and the `%.1f` formatting in the displays.
- The `@Scheduled` fixed delay and initial delay, Spring injection and `@Lazy` wiring. A timer tick is one call of `Scheduling.ScheduledUpdate`.
- The REST controllers and the console menu. They are adapters that call the public operations, including the lookup of a strategy by upper-cased name.
- Java reference identity. `WeatherData` has no `equals`, so Java compares readings by reference. The model compares them by value. "Returns its input unchanged" is stated as equality of values.
- Null ids and a null element at the head of the strategy collection. Ids are strings that are never null, and the collection holds strategies only.
- The getters `getCurrentStrategy`, `getLastData` and `getObservers` are the `Station` fields.
- Outside calls on registered observers: `getObservers` returns an unmodifiable collection, but its elements are the live display objects, and `WeatherObserver.update` is public. The model has no operation for a caller that takes a display from `getObservers` and calls `update` on it. Such a call would leave that display disagreeing with the station's last reading and break `WeatherStation.Valid`. No caller in the repository does this: the REST controller and the console menu read only `getId` and the class name of each observer.
- Text.EqualsIgnoreCaseIffSameUpper: folds only ASCII letters, whereas Java folds every Unicode letter (`'ſ'` upper-cases to `'S'`). Strategy names are upper-case ASCII constants, so the gate decides the same either way.
