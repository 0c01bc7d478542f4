# Train network simulation — a Dafny model

This project models the core of a train-network simulation. The engine, written in Go, runs stations, track segments, a navigation service and trains. Stations keep a queue of entry demands, ordered by a configurable strategy, and admit trains up to their capacity. Segments admit a train only when every train already on them is past the safety distance, and they answer "train ahead" queries. The navigation service walks a next-hop table to build a route. Each train decides every tick whether to finish, cancel, wait, stay delayed or depart, and then runs along its path segment by segment, announcing itself to and entering the next station. The engine publishes every entity as JSON.

The front end is written in React/TypeScript. It holds the current snapshot, the play loop and the history of finished runs, and draws stations, segments and trains on a map. Its analytics cards derive statistics from the snapshot and from the history: delay statistics, a delay histogram, the most delayed trains and stations, delays by cause, the event distribution and a comparison of configurations.

The model follows the program's structure:

- **Classes where the source updates state in place.**
  - `Stations.Station`, `Segments.Segment` and `Navigation.NavigationService`.
  - `TrainStops.TrainStop` and `Trains.Train`.
  - `History.HistoryStore`, `SimulationProvider.SimulationController`, the two selection cells and `MapLayers.MapRegistry`.
- **Methods with loop invariants for the source's loops.** Each is proved equal to a specification function, and that function's properties are proved as lemmas. Examples:
  - admission and train-ahead scans;
  - route walk;
  - stop lookups;
  - delay collection;
  - grouping by station, cause and configuration;
  - histogram bins.
- **Functions and lemmas for the pure parts.** These include the strategies, the driver commands, event windows, JSON encodings, projection on the polyline, the delay label and the statistics.

Messages that a goroutine would send through a channel and wait on appear as follows:

- the reply is an input of the step;
- the messages sent are its output.

Randomness, clocks, storage and the engine's snapshots are also parameters. Numbers are handled this way:

- `float64` values and JavaScript numbers are Dafny reals;
- nanosecond durations are integers;
- a minute is 60 000 000 000 ns.

A JavaScript `Record` and a Go map that is published in insertion order are sequences of `(key, value)` entries. A Go map that the engine only queries is a Dafny `map`.

## Model

| member | source | states |
|---|---|---|
| Stations.IndexOf | go/internal/stations/station.go:89-95 | the index found is the first demand of that train; none means the train has no demand |
| Stations.AdmitsIffAmongFirst | go/internal/stations/messages.go:58-78 | a train is admitted exactly when it sits at one of the first `capacity - occupancy` places of the queue (so never when the station is full or the train never asked) |
| Stations.UpsertSpec | go/internal/stations/station.go:88-97 | registering a demand keeps train ids unique, holds the new delay and entry time, keeps the length when the train was queued and adds one entry otherwise, and drops no other train |
| Stations.WithdrawIsFilter | go/internal/stations/station.go:100-107 | with unique ids, removing a train's demand is filtering that train out, the others keeping their order |
| Stations.NoneLeftToFilter | go/internal/stations/station.go:100-107 | removing an absent train leaves the queue unchanged |
| Stations.WithdrawSpec | go/internal/stations/station.go:100-107 | after removal the train has no demand, ids stay unique and every other demand remains |
| Stations.PermutationKeepsUniqueIds | go/internal/stations/station.go:110-114 | reordering the queue by any strategy cannot give a train two entries |
| Stations.Station.constructor | go/internal/stations/station.go:21-30 | a new station has its id, name and capacity, no train at the platforms, an empty queue and no strategy |
| Stations.Station.SetStrategy | go/internal/stations/station.go:38-40 | the strategy is set and nothing else changes |
| Stations.Station.AddOrUpdateDemand | go/internal/stations/station.go:88-97 | the queue becomes the registered-demand queue of the old one |
| Stations.Station.RemoveDemand | go/internal/stations/station.go:100-107 | the queue becomes the old one without the train's demand |
| Stations.Station.SortDemands | go/internal/stations/station.go:110-114 | without a strategy the queue is untouched; with one it becomes a permutation ordered by that strategy |
| Stations.Station.HandleDemandingEntry | go/internal/stations/messages.go:27-38 | the demand is always acknowledged, is registered and the queue re-sorted, and the platforms do not change |
| Stations.Station.HandleEntryRequest | go/internal/stations/messages.go:54-92 | the answer is the admission rule on the old state; an admitted train is at the platforms with the request's time and out of the queue; a refusal changes nothing; occupancy never exceeds capacity |
| Stations.Station.HandleDeparture | go/internal/stations/messages.go:100-106 | the train leaves the platforms if it was there, and nothing else changes |
| Stations.Station.Dispatch | go/internal/stations/station.go:49-58 | each message kind reaches its handler and gets that handler's reply; an unrecognised message gets none and changes nothing |
| Stations.Station.ToJson | go/internal/stations/station.go:62-69 | the published object has exactly the keys id, name, capacity and trainsInStation, never the queue |
| Stations.StationJsonRoundTrip | go/internal/stations/station.go:62-79 | decoding the published object gives back id, name, capacity and every train's entry time |
| Sorting.Sort | go/internal/stations/station_strategy.go:41-48 | the stable sort used for the policies and the cards yields an ascending permutation of its input |
| Sorting.SortIsSortedPermutation | go/internal/stations/station_strategy.go:20-33 | the sort's result is ordered by the key and is a permutation of the input |
| Sorting.SortIsStable | go/internal/stations/station_strategy.go:41 | demands with equal keys keep their relative order (what `sort.SliceStable` promises) |
| Sorting.SortSortedIsIdentity | go/internal/stations/station_strategy.go:41-48 | sorting an already ordered queue changes nothing |
| StationStrategy.ThresholdLessIsDelayLess | go/internal/stations/station_strategy.go:42-47 | the threshold comparator orders two demands exactly as plain delay order does, because a delay at most 30 minutes is always below one above it |
| StationStrategy.SortDemands | go/internal/stations/station_strategy.go:15-48 | no-sort returns the queue as given; entry-time and delay policies return an ordered permutation; the threshold policy returns an ordered permutation that is stable for equal delays |
| StationStrategy.ThresholdPolicyServesPunctualFirst | go/internal/stations/station_strategy.go:35-48 | after the threshold policy every demand at most 30 minutes late comes before every demand above that |
| StationStrategy.NewStationStrategy | go/internal/stations/station_strategy.go:51-62 | each of the three names selects its policy, and every other name, "no_sort" included, selects no sorting |
| StationStrategy.StrategyNameRoundTrip | go/internal/stations/station_strategy.go:51-62 | the name of every policy selects that policy back |
| Segments.Segment.constructor | go/internal/segments/segment.go:21-36 | a new segment keeps its id, end stations, length and speed limit, and has no train on it |
| Segments.Segment.HandleEntryRequest | go/internal/segments/messages.go:26-60 | entry is allowed exactly when every train already on the segment is at least the 4000 m safety distance in; an admitted train is recorded at position 0, speed 0 with the request time; a refusal carries an error and changes nothing |
| Segments.Segment.HandleGetTrainAhead | go/internal/segments/messages.go:77-109 | a train is reported exactly when another train is strictly ahead within 100000 m; the gap and speed are that of the nearest such train; otherwise gap and speed are 0 |
| Segments.Segment.HandleUpdatePosition | go/internal/segments/messages.go:119-124 | a known train gets the new position and speed, all else unchanged; an unknown train is not inserted |
| Segments.Segment.HandleExit | go/internal/segments/messages.go:132-138 | the train leaves the segment if present; other trains are untouched |
| Segments.Segment.Dispatch | go/internal/segments/segment.go:49-60 | each message kind reaches its handler; entry and train-ahead requests get their handlers' replies, notifications none; an unknown message changes nothing |
| Segments.Segment.ToJson | go/internal/segments/segment.go:64-73 | the published object has exactly id, fromStationId, toStationId, length, maxSpeed and trainsOnSegment |
| Segments.SegmentJsonRoundTrip | go/internal/segments/segment.go:64-73 | decoding the published object gives back the segment's fields and every train's position, speed and entry time |
| Navigation.WalkChain | go/internal/navigation/messages.go:38-92 | from any point of the walk, it succeeds with a given list exactly when that list is a loop-free chain of `paths[cur][to]` segments reaching the destination within the remaining iterations |
| Navigation.WalkOk | go/internal/navigation/messages.go:84-91 | a successful walk only appends to the segments collected so far |
| Navigation.RouteIsChain | go/internal/navigation/messages.go:28-98 | a route is reported exactly when it is a loop-free chain of table segments from the origin to the destination, each continuing at the previous segment's end station, with fewer than 100 segments |
| Navigation.RouteToSelf | go/internal/navigation/messages.go:39-45 | a request from a station to itself succeeds with no segment |
| Navigation.WalkNotTooLong | go/internal/navigation/messages.go:47-55 | while fewer unvisited stations remain than iterations, the walk cannot end with the too-long error |
| Navigation.RouteLimitNeedsLargeNetwork | go/internal/navigation/messages.go:36-97 | the "path too long" error needs a table with at least 100 stations: every smaller network ends in a route or in one of the other errors first |
| Navigation.NavigationService.constructor | go/internal/navigation/messages.go:28-36 | the service holds the given path table and segment table |
| Navigation.NavigationService.HandlePathRequest | go/internal/navigation/messages.go:28-98 | the bounded loop with its visited set answers exactly the recursive route, errors (loop, dead end, routing, integrity, too long) included |
| Events.ParseCause | go/internal/events/event.go:33-40 | a cause read from its name has that name |
| Events.CauseNameRoundTrip | go/internal/events/event.go:33-40 | each of the six causes is read back from its name |
| Events.AllCausesComplete | go/internal/events/event.go:33-40 | the list of causes holds every cause exactly once |
| Events.DelayWindow | go/internal/events/event.go:50-52 | a delay is active exactly in the half-open window from its start to start plus duration, so a delay of no duration is never active |
| Events.CancellationPersists | go/internal/events/event.go:69-71 | once a cancellation is active it stays active at every later time |
| Events.EventJson | go/internal/events/event.go:54-88 | every event is published as an object with a kind |
| Events.EventJsonRoundTrip | go/internal/events/event.go:54-88 | decoding the published object of a delay, a cancellation or no event gives back that event |
| TrainStops.TrainStop.constructor | go/internal/trains/stop.go:16-22 | a new stop has its station and scheduled times, and neither an arrival nor a departure recorded |
| TrainStops.TrainStop.SetArrivedAt | go/internal/trains/stop.go:28-30 | only the actual arrival changes, to the given time |
| TrainStops.TrainStop.SetDepartedAt | go/internal/trains/stop.go:32-34 | only the actual departure changes, to the given time |
| TrainStops.StopJson | go/internal/trains/stop.go:36-44 | a stop is published with exactly its five keys, and an unset actual time is published as null |
| TrainStops.StopJsonRoundTrip | go/internal/trains/stop.go:36-44 | decoding the published object gives back the stop, unset times included |
| Drivers.GetCommand | go/internal/trains/driver_strategy.go:17-65 | every command is within (0, 1.2] for speed and (0, 1] for acceleration and braking, which are equal; exactly the very crazy driver exceeds full speed, exactly the eco and intermediate drivers stay below it, and exactly the eco and careful drivers accelerate at 0.6 |
| Drivers.CommandIgnoresDelay | go/internal/trains/driver_strategy.go:19-64 | no driver's command depends on the delay it is given |
| Drivers.NewDriverBehavior | go/internal/trains/driver_strategy.go:67-80 | each of the four names selects its driver, and every other name selects the eco driver |
| Drivers.BehaviorNameRoundTrip | go/internal/trains/driver_strategy.go:67-80 | the name of every driver selects that driver back |
| Trains.FirstWhere | go/internal/trains/train.go:50-76 | the index found is the first stop with the property, and none means no stop has it |
| Trains.LastDeparted | go/internal/trains/train.go:59-67 | the index found is a stop already left with no later stop left, and none means no stop was left |
| Trains.ProgressLookups | go/internal/trains/train.go:50-76 | on a journey at stop k, the current stop is k until it is left, the next stop is k+1, and the last stop left is k or k-1 |
| Trains.Decide | go/internal/trains/station_state.go:20-47 | the train departs only from a stop before the end stop, once the time has reached that stop's scheduled departure |
| Trains.FinishComesFirst | go/internal/trains/station_state.go:24-27 | at the end stop the decision is to finish, whatever the event and time |
| Trains.CancellationWins | go/internal/trains/station_state.go:29-33 | before the end stop an active cancellation is decided over waiting and delay |
| Trains.CancellationIsFinal | go/internal/trains/station_state.go:29-33 | a train decided cancelled is decided cancelled at every later time |
| Trains.UndisturbedDepartsOnTime | go/internal/trains/station_state.go:35-46 | with no event the train waits before its scheduled departure and departs from then on |
| Trains.DelayIsTemporary | go/internal/trains/station_state.go:40-46 | once the delay window and the scheduled departure have passed, the train departs |
| Trains.WaitsBeforeDeparture | go/internal/trains/station_state.go:29-38 | away from the end stop and without an active cancellation, a train waits before its scheduled departure, whatever its event (a delay, or a cancellation not yet started) |
| Trains.DelayHoldsTrain | go/internal/trains/station_state.go:35-44 | away from the end stop, from the scheduled departure on, an active delay gives DELAYED |
| Trains.DelayedOnlyWhenDue | go/internal/trains/station_state.go:20-47 | DELAYED is decided only away from the end stop, for an active delay, once the scheduled departure has come |
| Trains.DepartsWhenFree | go/internal/trains/station_state.go:35-46 | away from the end stop, DEPART exactly when the departure time has come and neither a cancellation nor a delay is active, so a delay or cancellation not yet begun, or a delay of no length, does not hold the train |
| Trains.DepartStep | go/internal/trains/station_state.go:72-101 | the path is always requested first; the train leaves, with the path returned, exactly when the path is non-empty and the first segment grants entry, and only then does it notify its station, as the last message |
| Trains.TraveledWithinPath | go/internal/trains/segment_state.go:46-60 | the distance covered along the path is between zero and the path's total length |
| Trains.StepStaysOnPath | go/internal/trains/segment_state.go:155-231 | a step keeps the path and the speed, and moves the train at most one segment forward, never back and never off the path |
| Trains.CrossingKeepsDistance | go/internal/trains/segment_state.go:195-230 | the train moves to the next segment only past the current segment's end on a granted entry, carrying the overflow so the distance covered grows by exactly one tick's travel; it reports its position, asks for entry, then leaves the old segment |
| Trains.RefusalPinsToSegmentEnd | go/internal/trains/segment_state.go:164-167 | a refused or failed entry into the next segment leaves the train on its segment at its last metre |
| Trains.EntryOnlyAfterAnnouncement | go/internal/trains/segment_state.go:169-193 | a station entry is only requested on the last segment after the train has announced itself |
| Trains.ArrivalConditions | go/internal/trains/segment_state.go:233-250 | arrival happens only on the last segment, past its end, with a next stop, on a granted station entry, and the last message leaves the segment |
| Trains.AnnouncementSticks | go/internal/trains/segment_state.go:169-193 | once announced, the train stays announced while it runs and never announces itself again |
| Trains.Train.constructor | go/internal/trains/train.go:28-36 | a new train stands at its first stop, marked arrived at its scheduled arrival, undecided and not finished; on an untouched schedule its journey is well formed |
| Trains.Train.CurrentStop | go/internal/trains/train.go:50-57 | the result is the first stop arrived at and not left |
| Trains.Train.NextStop | go/internal/trains/train.go:69-76 | the result is the first stop not arrived at |
| Trains.Train.LastStop | go/internal/trains/train.go:59-67 | the result is the last stop left |
| Trains.Train.Deliberate | go/internal/trains/station_state.go:20-47 | records the decision for the current time, keeping the journey well formed |
| Trains.Train.ActAtStation | go/internal/trains/station_state.go:49-103 | finishing or cancelling ends the run and notifies the station only; waiting and delay do nothing; departing performs the departure step, recording the departure time of the current stop and starting on the path exactly when it succeeds |
| Trains.Train.ActOnSegment | go/internal/trains/segment_state.go:155-255 | the messages and new run are those of one step on the path; on arrival the train stands at the next stop, recorded as arrived at the current time, and the journey stays well formed |
| Trains.Train.ToJson | go/internal/trains/train.go:125-131 | a train is published with exactly its id, stops and event |
| Trains.StopsJsonRoundTrip | go/internal/trains/train.go:125-131 | decoding the published stops gives back every stop in order |
| Trains.TrainJsonRoundTrip | go/internal/trains/train.go:125-131 | decoding the published train gives back its id, stops and event |
| Numbers.Round | web/src/utils/numbers.ts:2 | the rounded value is the integer nearest to the input, halves going up |
| Numbers.NatToStringRoundTrip | web/src/utils/numbers.ts:11-16 | the decimal text of a count reads back as that count |
| Numbers.IntToStringInjective | web/src/utils/numbers.ts:16 | two different integers never print the same |
| Numbers.HoursLabelRoundTrip | web/src/utils/numbers.ts:6-13 | a label of an hour or more, with its sign, hours and leftover minutes (left out when zero), reads back as the rounded delay |
| Numbers.MinutesLabelRoundTrip | web/src/utils/numbers.ts:16 | a label under an hour, signed and ending in "min", reads back as the rounded delay |
| Numbers.FormatDelayRoundTrip | web/src/utils/numbers.ts:1-17 | every label reads back as the delay rounded to the nearest minute, so labels of different rounded delays differ |
| Numbers.FormatDelayShape | web/src/utils/numbers.ts:1-17 | the label is "0" exactly for a zero rounded delay; otherwise its sign is "+" for late and "-" for early, it ends in "min" under an hour, and holds an "h" from an hour on |
| Numbers.FormatDelayExamples | web/src/utils/numbers.ts:1-17 | 120 minutes reads "+2h", 61 reads "+1h1", -7.4 reads "-7min", and -0.5 rounds to "0" |
| Delays.TrainDelays | web/src/features/simulation/analytics/cards/DelayStatisticsCard.tsx:32-38 | a train gives at most one delay per stop |
| Delays.TrainDelaysExact | web/src/features/simulation/analytics/cards/DelayStatisticsCard.tsx:32-38 | a train gives exactly one delay per reached stop after the first, and each delay is that stop's arrival delay in minutes |
| Delays.TrainDelaysInStopOrder | web/src/features/simulation/analytics/cards/DelayStatisticsCard.tsx:32-38 | a train's delays are exactly its reached stops after the first, each mapped to its arrival delay, in stop order |
| Delays.CountedAgree | web/src/features/simulation/analytics/cards/DelayStatisticsCard.tsx:33 | which stops count depends only on those stops, not on later ones |
| Delays.ExtractDelays | web/src/features/simulation/analytics/cards/DelayStatisticsCard.tsx:29-39 | the loop collects the delays of all trains, train after train, in stop order |
| Statistics.Ascend | web/src/features/simulation/analytics/cards/DelayStatisticsCard.tsx:54 | the sorted copy is in ascending order and is a permutation of the delays |
| Statistics.QuarterIndex | web/src/features/simulation/analytics/cards/DelayStatisticsCard.tsx:69 | the first quartile's index, the floor of a quarter of the count |
| Statistics.ThreeQuarterIndex | web/src/features/simulation/analytics/cards/DelayStatisticsCard.tsx:70 | the third quartile's index, the floor of three quarters of the count |
| Statistics.DelayStatisticsOf | web/src/features/simulation/analytics/cards/DelayStatisticsCard.tsx:41-86 | the count is the number of delays, and no delays gives all figures zero |
| Statistics.ExtremesBound | web/src/features/simulation/analytics/cards/DelayStatisticsCard.tsx:74-75 | the minimum and maximum are delays of the list, and every delay lies between them |
| Statistics.MeanBounded | web/src/features/simulation/analytics/cards/DelayStatisticsCard.tsx:56 | the mean of delays that all lie in a range lies in that range |
| Statistics.MeanBetweenExtremes | web/src/features/simulation/analytics/cards/DelayStatisticsCard.tsx:56 | the mean lies between the minimum and the maximum |
| Statistics.FiguresOrdered | web/src/features/simulation/analytics/cards/DelayStatisticsCard.tsx:62-75 | minimum, first quartile, median, third quartile and maximum come in that order |
| Statistics.CalculateStatistics | web/src/features/simulation/analytics/cards/ConfigurationComparisonCard.tsx:58-67 | no delays gives all figures zero |
| Statistics.ConfigurationStatsAgree | web/src/features/simulation/analytics/cards/ConfigurationComparisonCard.tsx:58-84 | the comparison's mean, median, minimum and maximum are those of the statistics card for the same delays |
| Statistics.ConfigurationStatsOrdered | web/src/features/simulation/analytics/cards/ConfigurationComparisonCard.tsx:69-83 | the comparison's minimum is at most its median and mean, which are at most its maximum |
| History.LoadHistory | web/src/features/simulation/SimulationHistoryProvider.tsx:26-34 | the saved list when there is one; a missing or unreadable entry gives the empty history |
| History.Persisted | web/src/features/simulation/SimulationHistoryProvider.tsx:36-43 | what is saved is the most recent runs, at most twenty, in order, and the whole history when it is no longer than that |
| History.ReloadKeepsRecent | web/src/features/simulation/SimulationHistoryProvider.tsx:26-43 | reloading what was saved gives back the last min(n, 20) runs of the history in order |
| History.Stamp | web/src/features/simulation/SimulationHistoryProvider.tsx:54-58 | the stamped result keeps the run's configuration and trains and carries the given id and completion time |
| History.WithoutId | web/src/features/simulation/SimulationHistoryProvider.tsx:71 | exactly the runs of the history whose id differs are kept |
| History.WithoutIdAppend | web/src/features/simulation/SimulationHistoryProvider.tsx:71 | removing from a joined history is removing from each part |
| History.WithoutAbsentId | web/src/features/simulation/SimulationHistoryProvider.tsx:71 | removing an id no run carries leaves the history as it is |
| History.WithoutIdIdempotent | web/src/features/simulation/SimulationHistoryProvider.tsx:69-75 | removing the same id twice is removing it once |
| History.HistoryStore.constructor | web/src/features/simulation/SimulationHistoryProvider.tsx:48-50 | the history starts as what is loaded from storage |
| History.HistoryStore.SaveHistory | web/src/features/simulation/SimulationHistoryProvider.tsx:36-43 | a successful save stores the persisted form of the history; a failed one leaves storage as it was |
| History.HistoryStore.AddToHistory | web/src/features/simulation/SimulationHistoryProvider.tsx:52-67 | the stamped run is appended at the end and the new history is saved |
| History.HistoryStore.RemoveFromHistory | web/src/features/simulation/SimulationHistoryProvider.tsx:69-75 | the runs with that id are removed and the new history is saved |
| History.HistoryStore.ClearHistory | web/src/features/simulation/SimulationHistoryProvider.tsx:77-80 | the history is empty and the stored entry is removed |
| Projection.Clamp01 | web/src/features/trains/useMapTrains.ts:29 | the ratio is clamped to [0, 1], unchanged inside it |
| Projection.Lerp | web/src/features/trains/useMapTrains.ts:40-41 | weight 0 gives the first point and weight 1 the second |
| Projection.Locate | web/src/features/trains/useMapTrains.ts:31-36 | the piece index is a valid piece and the fraction within it is in [0, 1], together locating exactly the ratio along the line |
| Projection.RatioBelowOne | web/src/features/trains/useMapTrains.ts:29 | a position short of the segment's length gives a ratio below one |
| Projection.StartIsFirstPoint | web/src/features/trains/useMapTrains.ts:24-44 | a train at or before the start of the segment is drawn at the line's first point |
| Projection.EndIsLastPoint | web/src/features/trains/useMapTrains.ts:24-44 | with the end-point correction, a train at or past the segment's end is drawn at the line's last point |
| Projection.ProjectionClamps | web/src/features/trains/useMapTrains.ts:29 | positions before the start or past the end are drawn as at the start or end |
| Projection.ScaledBelow | web/src/features/trains/useMapTrains.ts:32-33 | a ratio below one scales to a piece index below the number of pieces |
| Projection.LocateInterior | web/src/features/trains/useMapTrains.ts:32-34 | short of the end, the piece is the floor of the scaled ratio and the fraction is what remains |
| Projection.InteriorInterpolates | web/src/features/trains/useMapTrains.ts:31-43 | short of the end, the train is drawn between the two points of its piece, at the remaining fraction |
| Projection.LocateAsWritten | web/src/features/trains/useMapTrains.ts:31-36 | the index as written is a valid piece, and its fraction is always below one |
| Projection.AsWrittenAgreesBelowEnd | web/src/features/trains/useMapTrains.ts:31-43 | short of the end, the code as written and the corrected projection agree |
| Projection.AsWrittenEndIsSecondToLast | web/src/features/trains/useMapTrains.ts:31-43 | as written, a train at or past the end is drawn at the second-to-last point of the line |
| Projection.AsWrittenEndCounterexample | web/src/features/trains/useMapTrains.ts:31-43 | on a two-point line, a train at the end is drawn at the start as written, and at the end once corrected |
| TrainFeatures.IsDelayActive | web/src/features/trains/useMapTrains.ts:46-52 | true exactly when the train's event is a delay whose window [start, start + duration) contains the current time |
| TrainFeatures.OccupantFeatures | web/src/features/trains/useMapTrains.ts:62-86 | one marker per occupant, in the occupancy order, keyed by the occupant's id, flagged by its train's active delay and placed by the program's own projection (`getPositionAlongLine`, end-of-line defect included) of its position from the start of the drawn line |
| TrainFeatures.DirectionFeatures | web/src/features/trains/useMapTrains.ts:59-61 | the markers of one direction are as many as that segment has occupants, none when it is absent |
| TrainFeatures.OneFeaturePerOccupant | web/src/features/trains/useMapTrains.ts:54-122 | the markers are exactly as many as the occupants of the drawn segments, both directions counted |
| TrainFeatures.ForwardFeaturesFirst | web/src/features/trains/useMapTrains.ts:58-87 | the markers begin with the first location's forward occupants, in order, keyed and flagged by their train and placed by the program's projection of their position |
| TrainFeatures.MissingTrainNotDelayed | web/src/features/trains/useMapTrains.ts:64-67 | an occupant without a train record is never highlighted as delayed |
| TrainFeatures.OppositeDirectionsMeet | web/src/features/trains/useMapTrains.ts:98-103 | a forward train at p and a reverse train with p still to go are drawn at the same point |
| TrainFeatures.ReverseEntryAtSecondToLast | web/src/features/trains/useMapTrains.ts:98-103 | a train just entering the reverse segment is drawn at the second-to-last point of the line, not at the last point where that direction starts (the end-of-line defect listed under Findings) |
| TrainFeatures.MarkerBeforeEndIsCorrect | web/src/features/trains/useMapTrains.ts:67-71 | a marker whose drawn distance is below the segment length is placed exactly where the corrected projection puts it |
| TrainFeatures.SelectedKey | web/src/features/trains/useMapTrains.ts:193 | the selected id, or the empty text when nothing is selected |
| TrainFeatures.TrainPaintRules | web/src/features/trains/useMapTrains.ts:193-213 | yellow exactly when delayed; dark green exactly when selected and not delayed; radius 10 and stroke 3 exactly when selected; with no selection a train keeps the default size |
| TrainFeatures.ClickedTrain | web/src/features/trains/useMapTrains.ts:157-162 | a click selects the marker's train id exactly when it is present and non-empty |
| Selection.StationSelection.constructor | web/src/features/stations/StationSelectionProvider.tsx:15-17 | no station is selected at first |
| Selection.StationSelection.SelectStation | web/src/features/stations/StationSelectionProvider.tsx:19-21 | the given station becomes the selection |
| Selection.StationSelection.ClearSelection | web/src/features/stations/StationSelectionProvider.tsx:23-25 | nothing is selected afterwards |
| Selection.TrainSelection.constructor | web/src/features/trains/TrainSelectionProvider.tsx:16 | no train is selected at first |
| Selection.TrainSelection.SelectTrain | web/src/features/trains/TrainSelectionProvider.tsx:18-20 | the given train becomes the selection |
| Selection.TrainSelection.ClearSelection | web/src/features/trains/TrainSelectionProvider.tsx:22-24 | nothing is selected afterwards |
| Selection.LastWriteWins | web/src/features/stations/StationSelectionProvider.tsx:19-25 | after a run of selections and clears, the last one decides the selection; with none the selection is unchanged |
| Selection.SelectIdempotent | web/src/features/trains/TrainSelectionProvider.tsx:18-20 | selecting the same id twice is selecting it once |
| MapLayers.CreateStationFeatures | web/src/features/stations/useMapStations.ts:21-36 | one point per station, in order, with its id as both feature id and station property, at its coordinates |
| MapLayers.CreateSegmentFeatures | web/src/features/segments/useMapSegments.ts:18-31 | one line per segment location, in order, with id "from-to" and its polyline |
| MapLayers.SegmentIdSplits | web/src/features/segments/useMapSegments.ts:21 | for a start station without a dash, the first dash of a line's id separates the two station ids, so the id gives them back |
| MapLayers.StationPaintRules | web/src/features/stations/useMapStations.ts:108-126 | radius 8, dark red and stroke 3 all exactly when the station is the selected one; with no selection a station keeps radius 4 |
| MapLayers.ClickedStation | web/src/features/stations/useMapStations.ts:70-77 | a click selects the station property when non-empty, else the feature id when non-empty, else nothing, and never an empty id |
| MapLayers.MapRegistry.constructor | web/src/features/stations/useMapStations.ts:38-41 | a map starts with no sources and no layers |
| MapLayers.MapRegistry.Mount | web/src/features/stations/useMapStations.ts:44-68 | mounting adds an empty source and its layer, leaving the others |
| MapLayers.MapRegistry.Cleanup | web/src/features/stations/useMapStations.ts:90-100 | cleanup removes that layer and that source when present, and nothing else |
| MapLayers.MapRegistry.Update | web/src/features/stations/useMapStations.ts:129-144 | data replaces a source's features only when the source exists; layers never change |
| MapLayers.UpdateStations | web/src/features/stations/useMapStations.ts:129-144 | with a map and a mounted source, the station source holds exactly the station features; otherwise nothing changes |
| MapLayers.UpdateSegments | web/src/features/segments/useMapSegments.ts:75-90 | with a map and a mounted source, the segment source holds exactly the line features; otherwise nothing changes |
| MapLayers.UpdateTrains | web/src/features/trains/useMapTrains.ts:216-231 | with a map, a state and a mounted source, the train source holds exactly the train markers; otherwise nothing changes |
| SimulationProvider.SimulationController.constructor | web/src/features/simulation/SimulationProvider.tsx:42-47 | no snapshot, play off, the start dialog open, the analytics dialog closed and no loop started |
| SimulationProvider.SimulationController.Start | web/src/features/simulation/SimulationProvider.tsx:49-56 | the engine's first snapshot is shown, play is on and the start dialog is closed; the rest is unchanged |
| SimulationProvider.SimulationController.NextTick | web/src/features/simulation/SimulationProvider.tsx:58-60 | only the snapshot changes, to the engine's next one |
| SimulationProvider.SimulationController.Restart | web/src/features/simulation/SimulationProvider.tsx:62-66 | the snapshot is dropped, play is off and the start dialog reopens |
| SimulationProvider.SimulationController.SetIsPlaying | web/src/features/simulation/SimulationProvider.tsx:44 | only the play flag changes |
| SimulationProvider.SimulationController.SetIsStartDialogOpen | web/src/features/simulation/SimulationProvider.tsx:45 | the start dialog flag takes the given value and nothing else changes |
| SimulationProvider.SimulationController.SetIsAnalyticsDialogOpen | web/src/features/simulation/SimulationProvider.tsx:46 | only the analytics dialog flag changes |
| SimulationProvider.SimulationController.PlayEffect | web/src/features/simulation/SimulationProvider.tsx:68-85 | the previous loop is stopped; with play on, exactly one new loop runs and ticks at once; at most one loop is ever still running |
| SimulationProvider.SimulationController.LoopTick | web/src/features/simulation/SimulationProvider.tsx:72-77 | a loop ticks and reschedules itself exactly while its flag is set; a stopped loop changes nothing |
| SimulationProvider.SimulationController.FinishEffect | web/src/features/simulation/SimulationProvider.tsx:87-97 | a finished snapshot while playing stops play, opens the analytics dialog and appends exactly one history entry with the run's configuration and trains, and saves the last 20 entries when the storage write succeeds; otherwise nothing changes; afterwards the condition no longer holds, so a run is recorded once |
| StopItem.DelayMinutes | web/src/features/trains/TrainStopItem.tsx:59-62 | the delay is present exactly when the actual time is, and is the whole number of minutes late, rounded down |
| StopItem.DelayedIffMinuteLate | web/src/features/trains/TrainStopItem.tsx:59-63 | a time is shown as delayed exactly when it happened at least one full minute late |
| StopItem.EarlyIsNotDelayed | web/src/features/trains/TrainStopItem.tsx:59-63 | an early time or one less than a minute late is not shown as delayed |
| StopItem.ShownActual | web/src/features/trains/TrainStopItem.tsx:74-76 | the actual time is shown exactly when the time is delayed |
| StopItem.DotFilled | web/src/features/trains/TrainStopItem.tsx:35 | the dot is filled exactly when the stop has been reached |
| StopItem.StationLabel | web/src/features/trains/TrainStopItem.tsx:14-46 | the station's name when it has a non-empty one, else the station id |
| Common.KeyIndex | web/src/features/simulation/analytics/cards/MostDelayedStationsCard.tsx:43-46 | the index found holds the key, and none means no entry holds it; the same search finds a record's entry and a histogram's bin |
| Snapshot.Lookup | web/src/features/trains/useMapTrains.ts:60-64 | the value found is stored under the key, and none means the key is absent |
| Snapshot.LookupUnique | web/src/features/trains/useMapTrains.ts:64 | with distinct keys, looking up an entry's key gives that entry's value |
| Snapshot.StationNameOr | web/src/features/trains/TrainStopItem.tsx:46 | a known station with a non-empty name gives its name, an unknown one its id, and the text is always the id or that station's name |
| Snapshot.SegmentKey | web/src/features/trains/useMapTrains.ts:59 | the id is the start station, a dash, then the end station |
| MostDelayed.TopDominates | web/src/features/simulation/analytics/cards/MostDelayedTrainsCard.tsx:55-57 | the top list holds the first five (or all) entries by decreasing value, drawn from the list, and every entry left out is at most every entry kept |
| MostDelayed.PrefixDominates | web/src/features/simulation/analytics/cards/MostDelayedTrainsCard.tsx:57 | a prefix of a sorted list dominates the entries after it |
| MostDelayed.LastReached | web/src/features/simulation/analytics/cards/MostDelayedTrainsCard.tsx:36-42 | the stop found is the last one reached, never the first stop; none means no stop after the first was reached |
| MostDelayed.LastCompletedStop | web/src/features/simulation/analytics/cards/MostDelayedTrainsCard.tsx:36-42 | the backward scan finds that last reached stop |
| MostDelayed.LastDelaysExact | web/src/features/simulation/analytics/cards/MostDelayedTrainsCard.tsx:35-53 | every row is some train's delay at its last reached stop, and every train with such a stop has its row |
| MostDelayed.CollectLastDelays | web/src/features/simulation/analytics/cards/MostDelayedTrainsCard.tsx:33-53 | the loop collects one row per train that has reached a stop after its first, in train order |
| MostDelayed.MostDelayedTrains | web/src/features/simulation/analytics/cards/MostDelayedTrainsCard.tsx:30-58 | no snapshot gives no rows; otherwise the rows are the top five of the trains' last delays |
| MostDelayed.TrainsRanking | web/src/features/simulation/analytics/cards/MostDelayedTrainsCard.tsx:30-58 | the ranking holds min(n, 5) trains, greatest delay first, each a train's real last delay, and no train left out is later than one listed |
| MostDelayed.OpenTrain | web/src/features/simulation/analytics/cards/MostDelayedTrainsCard.tsx:88-91 | clicking a row selects its train and closes the analytics dialog, leaving the snapshot and play as they were |
| MostDelayed.DelaysAtAbsent | web/src/features/simulation/analytics/cards/MostDelayedStationsCard.tsx:43-46 | a station with no group has no delays |
| MostDelayed.GroupedStep | web/src/features/simulation/analytics/cards/MostDelayedStationsCard.tsx:43-46 | adding one delay keeps each station's group equal to that station's delays, in order |
| MostDelayed.GroupAllGroups | web/src/features/simulation/analytics/cards/MostDelayedStationsCard.tsx:35-49 | grouping all delays gives each station exactly its delays, in order, under a key of its own |
| MostDelayed.GroupTrainStops | web/src/features/simulation/analytics/cards/MostDelayedStationsCard.tsx:38-48 | the inner loop adds one train's reached stops after the first to the groups |
| MostDelayed.GroupStationDelays | web/src/features/simulation/analytics/cards/MostDelayedStationsCard.tsx:35-49 | the loops group the delays of all trains by station |
| MostDelayed.StationRows | web/src/features/simulation/analytics/cards/MostDelayedStationsCard.tsx:51-62 | one row per group, with the station's name or id, the average delay and the number of stops |
| MostDelayed.MostDelayedStations | web/src/features/simulation/analytics/cards/MostDelayedStationsCard.tsx:32-68 | no snapshot gives no rows; otherwise the rows are the top five station rows with stops |
| MostDelayed.FilterKeepsEveryRow | web/src/features/simulation/analytics/cards/MostDelayedStationsCard.tsx:63 | the stop-count filter keeps every row that has stops |
| MostDelayed.StationRowsExact | web/src/features/simulation/analytics/cards/MostDelayedStationsCard.tsx:35-63 | no row is filtered out; each station appears once, with a positive stop count equal to its number of delays, their mean as average and its name or id; every station with a delay has a row |
| MostDelayed.StationsRanking | web/src/features/simulation/analytics/cards/MostDelayedStationsCard.tsx:65-67 | the ranking is by decreasing average, and no station left out has a greater average than one listed |
| MostDelayed.OpenStation | web/src/features/simulation/analytics/cards/MostDelayedStationsCard.tsx:99-102 | clicking a row selects its station and closes the analytics dialog, leaving the snapshot and play as they were |
| Distribution.BinSize | web/src/features/simulation/analytics/cards/DelayDistributionCard.tsx:51-64 | the width is one of 1, 2, 5, 10 and 15 minutes: 1 for a range up to 10 and 15 above 120 |
| Distribution.Ceil | web/src/features/simulation/analytics/cards/DelayDistributionCard.tsx:68 | the smallest integer at or above the value |
| Distribution.BinOf | web/src/features/simulation/analytics/cards/DelayDistributionCard.tsx:75 | the bin start is a multiple of the width, and the delay lies in [start, start + width) |
| Distribution.MaxOf | web/src/features/simulation/analytics/cards/DelayDistributionCard.tsx:48 | the maximum is one of the delays and no delay exceeds it |
| Distribution.MinOf | web/src/features/simulation/analytics/cards/DelayDistributionCard.tsx:49 | the minimum is one of the delays and no delay is below it |
| Distribution.PrefillBins | web/src/features/simulation/analytics/cards/DelayDistributionCard.tsx:70-72 | the bins are the starts from the first bin, by the width, below the end bin, all distinct and all empty |
| Distribution.CountDelay | web/src/features/simulation/analytics/cards/DelayDistributionCard.tsx:76 | counting one delay adds one to its bin, creating the bin at the end when missing, and keeps the other bins |
| Distribution.CountAll | web/src/features/simulation/analytics/cards/DelayDistributionCard.tsx:74-77 | every bin counts exactly the delays that fall in it, every delay has its bin, the counts add up to the number of delays, the prefilled bins keep their order at the front, and every bin created after them holds at least one delay |
| Distribution.Histogram | web/src/features/simulation/analytics/cards/DelayDistributionCard.tsx:48-77 | the bins are distinct, count exactly the delays in each, cover every delay, add up to the number of delays, begin with every prefilled start in order, and have no empty bin after the prefilled ones |
| Distribution.LandsInPreStarts | web/src/features/simulation/analytics/cards/DelayDistributionCard.tsx:67-77 | every delay falls in a prefilled bin, except a maximum that is itself a multiple of the width |
| Distribution.ExtraBinIsTheMaximum | web/src/features/simulation/analytics/cards/DelayDistributionCard.tsx:67-77 | the bins are the prefilled ones plus at most one more, last, which is the bin of a maximum delay lying exactly on a multiple of the width |
| Distribution.ExtraBinHoldsMaximum | web/src/features/simulation/analytics/cards/DelayDistributionCard.tsx:67-77 | any bin after the prefilled ones starts at the greatest delay, which lies on that start |
| Distribution.LabelsDistinct | web/src/features/simulation/analytics/cards/DelayDistributionCard.tsx:81-83 | different bins carry different labels |
| Distribution.Bars | web/src/features/simulation/analytics/cards/DelayDistributionCard.tsx:79-89 | one bar per bin, in bin order, with its label and count |
| Distribution.DelayDistribution | web/src/features/simulation/analytics/cards/DelayDistributionCard.tsx:27-91 | no snapshot or no delay gives no bars; otherwise the bars are those of the histogram of all delays, with no empty bar after the prefilled ones |
| EventCharts.CauseIndex | web/src/features/simulation/analytics/cards/DelayByCauseCard.tsx:45-52 | each of the six causes has its own slot in the fixed order of the counter record |
| EventCharts.CountsOf | web/src/features/simulation/analytics/cards/DelayByCauseCard.tsx:45-59 | six counters, the one of each cause holding the number of trains delayed by that cause |
| EventCharts.CountsStep | web/src/features/simulation/analytics/cards/DelayByCauseCard.tsx:54-58 | one more train adds one to its cause's counter when it is delayed, and changes nothing otherwise |
| EventCharts.CauseCountsAddUp | web/src/features/simulation/analytics/cards/DelayByCauseCard.tsx:45-59 | the six counters add up to the number of delayed trains |
| EventCharts.CountRows | web/src/features/simulation/analytics/cards/DelayByCauseCard.tsx:61-68 | every bar shown has a positive count |
| EventCharts.CountRowsMembers | web/src/features/simulation/analytics/cards/DelayByCauseCard.tsx:61-68 | a bar is shown exactly for each cause with a positive counter, with that cause's label, count and colour |
| EventCharts.RowTotalIsSum | web/src/features/simulation/analytics/cards/DelayByCauseCard.tsx:61-68 | dropping the zero counters loses nothing: the bars add up to the counters' sum |
| EventCharts.CountCauses | web/src/features/simulation/analytics/cards/DelayByCauseCard.tsx:45-59 | the loop leaves each cause's counter at its number of delayed trains |
| EventCharts.DelayByCause | web/src/features/simulation/analytics/cards/DelayByCauseCard.tsx:42-69 | no snapshot gives no bars; otherwise the bars of the counted causes |
| EventCharts.DelayByCauseExact | web/src/features/simulation/analytics/cards/DelayByCauseCard.tsx:42-69 | the bars add up to the number of delayed trains, each bar is its cause's positive count, and a cause has a bar exactly when some train is delayed by it |
| EventCharts.DurationMinutes | web/src/features/simulation/analytics/cards/AverageDelayByCauseCard.tsx:56-58 | the whole number of minutes in a duration, rounded down |
| EventCharts.DurationsOf | web/src/features/simulation/analytics/cards/AverageDelayByCauseCard.tsx:44-61 | six lists, the one of each cause holding, in train order, the minutes of the delays with that cause |
| EventCharts.CauseDelaysStep | web/src/features/simulation/analytics/cards/AverageDelayByCauseCard.tsx:54-60 | one more train appends its delay's minutes to its own cause's list only |
| EventCharts.DurationsStep | web/src/features/simulation/analytics/cards/AverageDelayByCauseCard.tsx:53-61 | one more train appends its delay's minutes to its cause's list when delayed, and changes nothing otherwise |
| EventCharts.LongAverage | web/src/features/simulation/analytics/cards/AverageDelayByCauseCard.tsx:65-69 | delays of at least a minute each have a rounded average of at least a minute |
| EventCharts.ShortAverage | web/src/features/simulation/analytics/cards/AverageDelayByCauseCard.tsx:65-69 | delays of at most zero minutes have no average or one of at most zero |
| EventCharts.AverageRows | web/src/features/simulation/analytics/cards/AverageDelayByCauseCard.tsx:63-73 | every bar shown has a positive average |
| EventCharts.AverageRowsMembers | web/src/features/simulation/analytics/cards/AverageDelayByCauseCard.tsx:63-73 | a bar is shown exactly for each cause whose rounded average is positive, with its label, average and colour |
| EventCharts.GroupDurations | web/src/features/simulation/analytics/cards/AverageDelayByCauseCard.tsx:44-61 | the loop leaves each cause's list holding its delays' minutes |
| EventCharts.AverageDelayByCause | web/src/features/simulation/analytics/cards/AverageDelayByCauseCard.tsx:41-74 | no snapshot gives no bars; otherwise the bars of the grouped durations |
| EventCharts.LongDelaysShown | web/src/features/simulation/analytics/cards/AverageDelayByCauseCard.tsx:63-73 | a cause whose delays all last at least a minute has a bar, with an average of at least a minute |
| EventCharts.ShortDelaysHidden | web/src/features/simulation/analytics/cards/AverageDelayByCauseCard.tsx:63-73 | a cause without delays, or whose delays all round to zero minutes, has no bar |
| EventCharts.EventCountsAddUp | web/src/features/simulation/analytics/cards/EventDistributionCard.tsx:26-40 | every train is counted once: delays, cancellations and trains without an event add up to the number of trains |
| EventCharts.EventRows | web/src/features/simulation/analytics/cards/EventDistributionCard.tsx:42-58 | three bars, delays, cancellations and no event, in that order, with their counts |
| EventCharts.EventDistribution | web/src/features/simulation/analytics/cards/EventDistributionCard.tsx:21-59 | no snapshot gives three zero bars; otherwise the bars count the trains of each event kind |
| EventCharts.EventBarsAddUp | web/src/features/simulation/analytics/cards/EventDistributionCard.tsx:21-59 | the three bars add up to the number of trains |
| ConfigurationComparison.Split | web/src/features/simulation/analytics/cards/ConfigurationComparisonCard.tsx:126 | splitting always gives at least one part, and text without the separator is its own only part |
| ConfigurationComparison.SplitJoin | web/src/features/simulation/analytics/cards/ConfigurationComparisonCard.tsx:126 | two parts without the separator, joined by it, split back into those two parts |
| ConfigurationComparison.NamesHaveNoDash | web/src/features/simulation/analytics/cards/ConfigurationComparisonCard.tsx:32-37 | no driver or strategy name contains a dash |
| ConfigurationComparison.KeySplits | web/src/features/simulation/analytics/cards/ConfigurationComparisonCard.tsx:126-129 | splitting a configuration key (built as behaviour, dash, strategy) at the dash gives back exactly the driver and strategy names |
| ConfigurationComparison.KeyInjective | web/src/features/simulation/analytics/cards/ConfigurationComparisonCard.tsx:32-37 | different configurations have different keys |
| ConfigurationComparison.SoigneuxUnlabelled | web/src/features/simulation/analytics/cards/ConfigurationComparisonCard.tsx:43-55 | as written, a careful driver's configuration is named "undefined - " followed by the strategy's label |
| ConfigurationComparison.DriverLabelOf | web/src/features/simulation/analytics/cards/ConfigurationComparisonCard.tsx:43-48 | with the careful driver added, exactly the five driver names have a label |
| ConfigurationComparison.ConfigurationNamed | web/src/features/simulation/analytics/cards/ConfigurationComparisonCard.tsx:39-56 | with that correction, every configuration is named by its driver's label, " - ", and its strategy's label |
| ConfigurationComparison.DriverLabelExtends | web/src/features/simulation/analytics/cards/ConfigurationComparisonCard.tsx:43-48 | the corrected labels agree with the written ones wherever those exist |
| ConfigurationComparison.LabelsDistinct | web/src/features/simulation/analytics/cards/ConfigurationComparisonCard.tsx:43-54 | labels hold no dash, and different drivers or strategies have different labels |
| ConfigurationComparison.NameSplits | web/src/features/simulation/analytics/cards/ConfigurationComparisonCard.tsx:55 | a configuration's name splits at its only dash into the driver part and the strategy part |
| ConfigurationComparison.NameInjective | web/src/features/simulation/analytics/cards/ConfigurationComparisonCard.tsx:124-143 | with every driver labelled (the corrected table), different configurations get different names |
| ConfigurationComparison.NameAsWrittenInjective | web/src/features/simulation/analytics/cards/ConfigurationComparisonCard.tsx:39-56 | the names the chart actually shows, with the careful driver as "undefined", still tell every two configurations apart |
| ConfigurationComparison.RunsOf | web/src/features/simulation/analytics/cards/ConfigurationComparisonCard.tsx:93-113 | each run of the history in order, paired with its configuration key and all its arrival delays |
| ConfigurationComparison.DelaysForAbsent | web/src/features/simulation/analytics/cards/ConfigurationComparisonCard.tsx:99-103 | a key no group holds has no delays |
| ConfigurationComparison.AddRunKeys | web/src/features/simulation/analytics/cards/ConfigurationComparisonCard.tsx:99-101 | adding a run keeps the existing groups in place and adds a group for a new key at the end only |
| ConfigurationComparison.AddRunHolds | web/src/features/simulation/analytics/cards/ConfigurationComparisonCard.tsx:99-113 | after adding a run, each group still holds exactly its key's delays, run after run |
| ConfigurationComparison.AddRunCovers | web/src/features/simulation/analytics/cards/ConfigurationComparisonCard.tsx:99-101 | after adding a run, every key seen so far has a group |
| ConfigurationComparison.AddRunRuns | web/src/features/simulation/analytics/cards/ConfigurationComparisonCard.tsx:99-101 | after adding a run, every group's key comes from a run |
| ConfigurationComparison.GroupAllExact | web/src/features/simulation/analytics/cards/ConfigurationComparisonCard.tsx:91-114 | grouping gives one group per key seen, holding exactly that key's delays in history order, and only keys of runs |
| ConfigurationComparison.SetThenPush | web/src/features/simulation/analytics/cards/ConfigurationComparisonCard.tsx:99-110 | creating an empty group when missing, then appending, is adding the run |
| ConfigurationComparison.GroupByConfiguration | web/src/features/simulation/analytics/cards/ConfigurationComparisonCard.tsx:91-114 | the loop groups the history's delays by configuration |
| ConfigurationComparison.LexTotal | web/src/features/simulation/analytics/cards/ConfigurationComparisonCard.tsx:123 | any two keys are ordered one way or the other |
| ConfigurationComparison.Insert | web/src/features/simulation/analytics/cards/ConfigurationComparisonCard.tsx:123 | inserting into sorted keys keeps them sorted and adds exactly that key |
| ConfigurationComparison.SortKeys | web/src/features/simulation/analytics/cards/ConfigurationComparisonCard.tsx:123 | the keys come out sorted and as a permutation of the input |
| Common.Firsts | web/src/features/simulation/analytics/cards/ConfigurationComparisonCard.tsx:123 | the keys of the groups: one per group, each the key of the group at the same position |
| ConfigurationComparison.Rows | web/src/features/simulation/analytics/cards/ConfigurationComparisonCard.tsx:124-143 | one chart row per sorted key, from that key's group, named by the card's own `formatConfigurationName` |
| ConfigurationComparison.CompareConfigurations | web/src/features/simulation/analytics/cards/ConfigurationComparisonCard.tsx:89-143 | the keys are the sorted group keys, each found among the groups, and the rows are built from them in that order |
| ConfigurationComparison.SortedKeysExact | web/src/features/simulation/analytics/cards/ConfigurationComparisonCard.tsx:91-123 | each configuration that occurs appears exactly once among the sorted keys, and every key comes from a run |
| ConfigurationComparison.ComparisonKeys | web/src/features/simulation/analytics/cards/ConfigurationComparisonCard.tsx:91-123 | each run's configuration appears exactly once in the chart's keys, and no other key appears |
| ConfigurationComparison.GroupOfKey | web/src/features/simulation/analytics/cards/ConfigurationComparisonCard.tsx:103-119 | the group of a key holds exactly that configuration's delays, in history order |
| ConfigurationComparison.ComparisonRows | web/src/features/simulation/analytics/cards/ConfigurationComparisonCard.tsx:117-143 | each row is named by the card's name for its key and gives the statistics of exactly that configuration's delays |
| ConfigurationComparison.RowName | web/src/features/simulation/analytics/cards/ConfigurationComparisonCard.tsx:124-143 | a configuration's point is named by its driver's label, " - " and its strategy's label, except that a careful driver's point reads "undefined - " and the strategy |
| ConfigurationComparison.NameAsWritten | web/src/features/simulation/analytics/cards/ConfigurationComparisonCard.tsx:39-56 | the card's name for a configuration key: the driver label ("undefined" for the careful driver), " - ", the strategy label |
| ConfigurationComparison.ComparisonEmpty | web/src/features/simulation/analytics/cards/ConfigurationComparisonCard.tsx:181 | the chart is empty exactly when the history is |
| ConfigurationComparison.KeyCountedOnce | web/src/features/simulation/analytics/cards/ConfigurationComparisonCard.tsx:123 | in a list of distinct keys, each key occurs once |

## Left out

- Goroutines, the engine's two-phase tick over channels, the `Run` loops, and the channel plumbing of `communication.go`. These are concurrency. The handlers they call are methods here, and each channel reply is an input of the step that waits for it.
- The physics of a train on a segment (`percept` and `deliberate` in `segment_state.go`): square-root speed limits, conversions from float to duration, and logging. The speed and the perceived delay and remaining time are fields of `Trains.SegmentRun` that the act step reads.
- `GenerateEvent`: random draws, normal samples and `math.Exp`. A train receives its event as a constructor argument.
- The WebAssembly bridge and the standalone sleep loop. The snapshots the engine returns to the front end are parameters (`Start`, `NextTick`, `PlayEffect`, `LoopTick`).
- Mapbox calls: adding layers, paint properties, event handlers and cursor styling. The map is a registry of sources and layers (`MapLayers.MapRegistry`). The data-driven paint rules are functions.
- Fetching the static station and segment location files. The locations are parameters.
- Clocks, locale formatting, `setTimeout` cadence, `crypto.randomUUID`, `Date.toISOString` and `localStorage`. The id and completion time of a run are parameters. Storage is the `History.Stored` value. Whether a save succeeds is a boolean input.
- Parsing the stored history from JSON text. The stored value is either missing, corrupt or a saved list.
- The standard deviation in both statistics cards, which uses `Math.sqrt`. The statistics records carry every other figure.
- IEEE-754 rounding and NaN. A cause without delays, whose average is NaN in JavaScript, has no average (`None`) and no bar.
- JavaScript's ordering of integer-like keys in a `Record`. Entries keep insertion order.
- Go map iteration order. The scan for the train ahead picks the remaining keys in an unspecified order. Its contract holds for every order. When two trains are at the same nearest gap, the speed reported may be either train's.
- `sort.Slice` in the entry-time and delay strategies is not stable. The model sorts with a stable insertion sort, and the strategies' contracts promise only an ordered permutation, which any correct sort gives.
- MapLayers.UpdateTrains: requires every polyline to have at least two points, and every segment in the snapshot a positive length. The source does not rule these inputs out. On a one-point line, getPositionAlongLine indexes `coordinates[-1]`; on a zero-length segment it indexes `coordinates[NaN]`. Either way the train effect throws a TypeError, and the model does not represent that throw.
- Projection.LocateAsWritten: requires at least one piece, that is, a polyline of two points or more. On a one-point line the program's piece index is -1, and the read of the missing point throws. The model does not represent that throw.
- TrainFeatures.DirectionFeatures: the same two requirements, for the same reason as MapLayers.UpdateTrains.
- TrainFeatures.OccupantFeatures: the same two requirements, for the same reason as MapLayers.UpdateTrains.
- TrainFeatures.CreateTrainFeatures: the same two requirements, for the same reason as MapLayers.UpdateTrains.
- TrainFeatures.OneFeaturePerOccupant: the same two requirements, for the same reason as MapLayers.UpdateTrains.
- TrainFeatures.ForwardFeaturesFirst: the same two requirements, for the same reason as MapLayers.UpdateTrains.
- Stops are values inside the train. A stop is designated by its position in the schedule, so the sharing of `*TrainStop` references between the train and its callers is not modelled.
- The JSON published by the engine is a value (`Json.Json`). Its text encoding and key order are not modelled.
- The constant chart configuration and colours of the comparison card, and every rendering detail of the cards.
- `TrainStops.TrainStop.Departure`, `Trains.Train.StartStop` and `Trains.Train.EndStop` are plain accessors without contracts of their own. The constructors' contracts fix the values they return.

## Findings

| source | as written | input that shows it | evidently intended | confidence | as-written member | corrected member |
|---|---|---|---|---|---|---|
| web/src/features/trains/useMapTrains.ts:31-41 | the piece index is clamped to the last piece, but the fraction within it is taken from the unclamped index, so a ratio of 1 gives fraction 0 on the last piece | a two-point line [(0,0), (1,1)] with position 100 on a 100 m segment draws the train at (0,0) | a train at the end of its segment is drawn at the line's last point | not executed | Projection.AsWrittenEndCounterexample | Projection.EndIsLastPoint |
| web/src/features/simulation/analytics/cards/ConfigurationComparisonCard.tsx:43-55 | the driver label table has no entry for the careful driver ("soigneux"), which the engine and the start dialog accept | a history run with driver "soigneux" and strategy "no_sort" is named "undefined - Aucun tri" | the careful driver is labelled "Soigneux", as in the start dialog (web/src/features/simulation/StartDialog.tsx:55) | not executed | ConfigurationComparison.SoigneuxUnlabelled | ConfigurationComparison.ConfigurationNamed |
