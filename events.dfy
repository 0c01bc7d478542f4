/**
 * Disruption events drawn for each train: a delay with a cause, a cancellation, or
 * nothing. Times and durations are nanosecond counts (Go `time.Duration`).
 */
module Events {

  import opened Common
  import opened Json

  datatype DelayCause = External | Infrastructure | Traffic | RollingStock | Station | Passenger

  /** The six causes, in the order the engine declares them. */
  const AllCauses: seq<DelayCause> := [External, Infrastructure, Traffic, RollingStock, Station, Passenger]

  /** The wire name of a cause. */
  function CauseName(c: DelayCause): string
  {
    match c
    case External => "external"
    case Infrastructure => "infrastructure"
    case Traffic => "traffic"
    case RollingStock => "rolling_stock"
    case Station => "station"
    case Passenger => "passenger"
  }

  /** Reads a wire name back; any other string names no cause. */
  function ParseCause(s: string): (r: Option<DelayCause>)
    ensures r.Some? ==> CauseName(r.value) == s
  {
    if s == "external" then Some(External)
    else if s == "infrastructure" then Some(Infrastructure)
    else if s == "traffic" then Some(Traffic)
    else if s == "rolling_stock" then Some(RollingStock)
    else if s == "station" then Some(Station)
    else if s == "passenger" then Some(Passenger)
    else None
  }

  lemma CauseNameRoundTrip(c: DelayCause)
    ensures ParseCause(CauseName(c)) == Some(c)
  {
  }

  /** The list of causes holds each cause exactly once. */
  lemma AllCausesComplete(c: DelayCause)
    ensures c in AllCauses
    ensures multiset(AllCauses)[c] == 1
  {
  }

  datatype Event =
    | DelayEvent(cause: DelayCause, duration: int, startTime: int)
    | CancellationEvent(startTime: int)
    | NoEvent

  /**
   * Whether the event constrains the train at time `t`: a delay during the half-open
   * window [start, start + duration), a cancellation from its start on. `NoEvent`
   * has no activity test in the engine.
   */
  predicate IsActive(e: Event, t: int)
    requires !e.NoEvent?
  {
    if e.DelayEvent? then t >= e.startTime && t < e.startTime + e.duration
    else t >= e.startTime
  }

  /** A delay is active for exactly `duration` consecutive instants, none if it is not positive. */
  lemma DelayWindow(e: Event, t: int)
    requires e.DelayEvent?
    ensures IsActive(e, t) <==> e.startTime <= t < e.startTime + e.duration
    ensures e.duration <= 0 ==> !IsActive(e, t)
  {
  }

  /** Once a cancellation is active it stays active. */
  lemma CancellationPersists(e: Event, t: int, u: int)
    requires e.CancellationEvent? && IsActive(e, t) && t <= u
    ensures IsActive(e, u)
  {
  }

  /** The JSON object the engine writes for an event. */
  function EventJson(e: Event): (j: Json)
    ensures j.JObject? && "kind" in j.fields
  {
    match e
    case DelayEvent(c, d, s) =>
      JObject(map["kind" := JString("delay"), "cause" := JString(CauseName(c)),
                  "duration" := JInt(d), "startTime" := JInt(s)])
    case CancellationEvent(s) =>
      JObject(map["kind" := JString("cancellation"), "startTime" := JInt(s)])
    case NoEvent =>
      JObject(map["kind" := JString("none")])
  }

  /** Reads an event back the way the front end's `TrainEvent` union discriminates on `kind`. */
  function ParseEvent(j: Json): Option<Event>
  {
    if !j.JObject? || "kind" !in j.fields || !j.fields["kind"].JString? then None
    else
      var f := j.fields;
      var kind := f["kind"].s;
      if kind == "delay" then
        if "cause" in f && f["cause"].JString? && ParseCause(f["cause"].s).Some?
           && "duration" in f && f["duration"].JInt? && "startTime" in f && f["startTime"].JInt?
        then Some(DelayEvent(ParseCause(f["cause"].s).value, f["duration"].i, f["startTime"].i))
        else None
      else if kind == "cancellation" then
        if "startTime" in f && f["startTime"].JInt? then Some(CancellationEvent(f["startTime"].i)) else None
      else if kind == "none" then Some(NoEvent)
      else None
  }

  /** What the engine writes, the front end reads back unchanged. */
  lemma EventJsonRoundTrip(e: Event)
    ensures ParseEvent(EventJson(e)) == Some(e)
  {
    if e.DelayEvent? {
      CauseNameRoundTrip(e.cause);
    }
  }
}
