/**
 * The simulation snapshot as the front end receives it from the engine, and the
 * static map locations. A JavaScript `Record<string, X>` arrives as a JSON object,
 * so it is modelled as its entries in insertion order.
 */
module Snapshot {

  import opened Common
  import opened Drivers
  import opened StationStrategy
  import opened Trains

  /** The entries of a record, in insertion order. */
  type Entries<V> = seq<(string, V)>

  /** No key occurs twice, as in any JavaScript object. */
  predicate UniqueKeys<V>(es: Entries<V>)
  {
    forall i, j :: 0 <= i < j < |es| ==> es[i].0 != es[j].0
  }

  /** `record[k]`: the value stored under `k`, or `undefined`. */
  function Lookup<V>(es: Entries<V>, k: string): (r: Option<V>)
    ensures r.None? <==> forall i :: 0 <= i < |es| ==> es[i].0 != k
    ensures r.Some? ==> exists i :: 0 <= i < |es| && es[i] == (k, r.value)
  {
    if es == [] then None
    else if es[0].0 == k then Some(es[0].1)
    else
      var r := Lookup(es[1..], k);
      assert r.Some? ==> exists i :: 1 <= i < |es| && es[i] == (k, r.value) by {
        if r.Some? {
          var i :| 0 <= i < |es[1..]| && es[1..][i] == (k, r.value);
          assert es[i + 1] == (k, r.value);
        }
      }
      r
  }

  /** With unique keys, the entry at position `i` is the one found under its key. */
  lemma {:induction false} LookupUnique<V>(es: Entries<V>, i: nat)
    requires UniqueKeys(es) && i < |es|
    ensures Lookup(es, es[i].0) == Some(es[i].1)
  {
    if i > 0 {
      assert es[0].0 != es[i].0;
      LookupUnique(es[1..], i - 1);
    }
  }

  datatype StationView = StationView(id: string, name: string, capacity: int, trainsInStation: Entries<int>)

  /** `stations[id]?.name || id`: the station's name, or the id when the station is unknown or unnamed. */
  function StationNameOr(stations: Entries<StationView>, id: string): (text: string)
    ensures Lookup(stations, id).Some? && Lookup(stations, id).value.name != "" ==> text == Lookup(stations, id).value.name
    ensures Lookup(stations, id).None? ==> text == id
    ensures text == id || exists i :: 0 <= i < |stations| && stations[i].0 == id && stations[i].1.name == text
  {
    match Lookup(stations, id)
    case Some(station) => if station.name != "" then station.name else id
    case None => id
  }

  /** One occupant of a segment: its position in metres and its speed in metres per minute. */
  datatype SegmentTrainInfo = SegmentTrainInfo(position: real, speed: real, entryTime: int)

  datatype SegmentView = SegmentView(
    id: string, fromStationId: string, toStationId: string,
    length: real, maxSpeed: real, trainsOnSegment: Entries<SegmentTrainInfo>)

  datatype Simulation = Simulation(
    isStarted: bool, isFinished: bool, currentTime: int,
    driverBehavior: Behavior, stationStrategy: Strategy,
    trains: Entries<TrainRecord>, stations: Entries<StationView>, segments: Entries<SegmentView>)

  /** A longitude/latitude pair. */
  datatype Point = Point(lng: real, lat: real)

  /** The drawn polyline of the track between two stations, shared by both directions. */
  datatype SegmentLocation = SegmentLocation(fromStationId: string, toStationId: string, coordinates: seq<Point>)

  datatype StationLocation = StationLocation(id: string, coordinates: Point)

  /** The engine's segment id for a pair of stations: `"from-to"`. */
  function SegmentKey(from: string, to: string): (k: string)
    ensures |k| == |from| + 1 + |to| && k[|from|] == '-'
    ensures k[..|from|] == from && k[|from| + 1..] == to
  {
    from + "-" + to
  }
}
