/**
 * One scheduled stop of a train: planned arrival and departure times, and the
 * actual times, which stay unset until the train arrives or leaves.
 */
module TrainStops {

  import opened Common
  import opened Json

  /** A stop as a value, the shape the front end receives (`null` for an unset time). */
  datatype Stop = Stop(stationId: string, arrival: int, arrivedAt: Option<int>, departure: int, departedAt: Option<int>)

  class TrainStop {
    const stationId: string
    const arrival: int
    const departure: int
    var arrivedAt: Option<int>
    var departedAt: Option<int>

    constructor(stationId: string, arrival: int, departure: int)
      ensures View() == Stop(stationId, arrival, None, departure, None)
    {
      this.stationId := stationId;
      this.arrival := arrival;
      this.departure := departure;
      arrivedAt := None;
      departedAt := None;
    }

    function Departure(): int
    {
      departure
    }

    function View(): Stop
      reads this
    {
      Stop(stationId, arrival, arrivedAt, departure, departedAt)
    }

    method SetArrivedAt(t: int)
      modifies this`arrivedAt
      ensures View() == old(View()).(arrivedAt := Some(t))
    {
      arrivedAt := Some(t);
    }

    method SetDepartedAt(t: int)
      modifies this`departedAt
      ensures View() == old(View()).(departedAt := Some(t))
    {
      departedAt := Some(t);
    }

    /** The JSON object the engine writes for this stop. */
    function ToJson(): Json
      reads this
    {
      StopJson(View())
    }
  }

  function StopJson(s: Stop): (j: Json)
    ensures j.JObject? && j.fields.Keys == {"stationId", "arrival", "arrivedAt", "departure", "departedAt"}
    ensures s.arrivedAt.None? <==> j.fields["arrivedAt"] == JNull
    ensures s.departedAt.None? <==> j.fields["departedAt"] == JNull
  {
    JObject(map[
      "stationId" := JString(s.stationId),
      "arrival" := JInt(s.arrival),
      "arrivedAt" := NullableInt(s.arrivedAt),
      "departure" := JInt(s.departure),
      "departedAt" := NullableInt(s.departedAt)
    ])
  }

  /** Reads a `number | null` field. */
  function ParseNullableInt(j: Json): Option<Option<int>>
  {
    match j
    case JNull => Some(None)
    case JInt(n) => Some(Some(n))
    case _ => None
  }

  function ParseStop(j: Json): Option<Stop>
  {
    if j.JObject? && "stationId" in j.fields && j.fields["stationId"].JString?
       && "arrival" in j.fields && j.fields["arrival"].JInt?
       && "arrivedAt" in j.fields && ParseNullableInt(j.fields["arrivedAt"]).Some?
       && "departure" in j.fields && j.fields["departure"].JInt?
       && "departedAt" in j.fields && ParseNullableInt(j.fields["departedAt"]).Some?
    then Some(Stop(j.fields["stationId"].s, j.fields["arrival"].i, ParseNullableInt(j.fields["arrivedAt"]).value,
                   j.fields["departure"].i, ParseNullableInt(j.fields["departedAt"]).value))
    else None
  }

  /** A written stop reads back unchanged, unset times included. */
  lemma StopJsonRoundTrip(s: Stop)
    ensures ParseStop(StopJson(s)) == Some(s)
  {
  }
}
