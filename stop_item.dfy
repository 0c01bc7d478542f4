/**
 * The rules of one line of a train's timetable in the train panel: the delay shown
 * next to a planned time, when the actual time is shown, the arrival dot and the
 * station label. Times are nanosecond counts.
 */
module StopItem {

  import opened Common
  import opened TrainStops
  import opened Snapshot

  /** Whole minutes late, rounded down; none while the actual time is unknown. */
  function DelayMinutes(planned: int, actual: Option<int>): (d: Option<int>)
    ensures d.Some? <==> actual.Some?
    ensures d.Some? ==> d.value * NanosPerMinute <= actual.value - planned < (d.value + 1) * NanosPerMinute
  {
    match actual
    case None => None
    case Some(a) => Some((a - planned) / NanosPerMinute)
  }

  /** The planned time is struck through and the actual one shown when the delay is positive. */
  predicate IsDelayed(planned: int, actual: Option<int>)
  {
    var d := DelayMinutes(planned, actual);
    actual.Some? && d.Some? && d.value > 0
  }

  /** A stop counts as delayed exactly when it happened at least a full minute late. */
  lemma DelayedIffMinuteLate(planned: int, actual: Option<int>)
    ensures IsDelayed(planned, actual) <==> actual.Some? && actual.value - planned >= NanosPerMinute
  {
    if actual.Some? {
      var d := DelayMinutes(planned, actual).value;
      if actual.value - planned >= NanosPerMinute {
        assert d + 1 > 1 by {
          assert NanosPerMinute < (d + 1) * NanosPerMinute;
        }
      }
    }
  }

  /** A train running early or less than a minute late is shown on time. */
  lemma EarlyIsNotDelayed(planned: int, actual: int)
    requires actual < planned + NanosPerMinute
    ensures !IsDelayed(planned, Some(actual))
  {
    DelayedIffMinuteLate(planned, Some(actual));
  }

  /** The actual time line appears only for a delayed stop. */
  function ShownActual(planned: int, actual: Option<int>): (shown: Option<int>)
    ensures shown.Some? <==> IsDelayed(planned, actual)
    ensures shown.Some? ==> shown == actual
  {
    if IsDelayed(planned, actual) then actual else None
  }

  /** The timetable dot is filled once the train has reached the stop. */
  function DotFilled(stop: Stop): (filled: bool)
    ensures filled <==> stop.arrivedAt.Some?
  {
    stop.arrivedAt != None
  }

  /** `station?.name || stop.stationId`: the station's name, or its id without a snapshot or a named station. */
  function StationLabel(state: Option<Simulation>, stop: Stop): (text: string)
    ensures state.None? ==> text == stop.stationId
    ensures state.Some? ==> text == StationNameOr(state.value.stations, stop.stationId)
  {
    if state.None? then stop.stationId else StationNameOr(state.value.stations, stop.stationId)
  }
}
