/**
 * The train markers drawn on the map: one point per occupant of each drawn segment,
 * in either direction, and the data-driven paint rules of the train layer.
 */
module TrainFeatures {

  import opened Common
  import opened Events
  import opened Trains
  import opened Snapshot
  import opened Projection

  datatype TrainFeature = TrainFeature(id: string, coordinates: Point, trainId: string, hasActiveDelay: bool)

  /** Whether the train's event is a delay whose window contains `t`; other kinds never are. */
  function IsDelayActive(train: TrainRecord, t: int): (r: bool)
    ensures r <==> train.event.DelayEvent? && IsActive(train.event, t)
  {
    match train.event
    case DelayEvent(_, duration, startTime) => t >= startTime && t < startTime + duration
    case _ => false
  }

  /** The highlight flag of a marker: false when the occupant has no train record. */
  function HasActiveDelay(state: Simulation, trainId: string): bool
  {
    match Lookup(state.trains, trainId)
    case Some(train) => IsDelayActive(train, state.currentTime)
    case None => false
  }

  /**
   * Where an occupant is measured from the start of the drawn polyline: a train on
   * the reverse segment has `length - position` of its path still ahead of it.
   */
  function DrawnPosition(length: real, info: SegmentTrainInfo, reverse: bool): real
  {
    if reverse then length - info.position else info.position
  }

  /** One marker per occupant, in the occupancy record's order. */
  function OccupantFeatures(
    occupants: Entries<SegmentTrainInfo>, seg: SegmentView, coordinates: seq<Point>,
    state: Simulation, reverse: bool): (fs: seq<TrainFeature>)
    requires |coordinates| >= 2 && seg.length != 0.0
    ensures |fs| == |occupants|
    ensures forall i :: 0 <= i < |fs| ==>
      fs[i].id == occupants[i].0 && fs[i].trainId == occupants[i].0
      && fs[i].hasActiveDelay == HasActiveDelay(state, occupants[i].0)
      && fs[i].coordinates == PositionAlongLineAsWritten(coordinates, DrawnPosition(seg.length, occupants[i].1, reverse), seg.length)
  {
    if occupants == [] then []
    else
      var (trainId, info) := occupants[0];
      var position := PositionAlongLineAsWritten(coordinates, DrawnPosition(seg.length, info, reverse), seg.length);
      [TrainFeature(trainId, position, trainId, HasActiveDelay(state, trainId))]
        + OccupantFeatures(occupants[1..], seg, coordinates, state, reverse)
  }

  /** The engine's id of the segment drawn by a location, in one direction. */
  function DirectedKey(location: SegmentLocation, reverse: bool): string
  {
    if reverse then SegmentKey(location.toStationId, location.fromStationId)
    else SegmentKey(location.fromStationId, location.toStationId)
  }

  /** Every segment in the snapshot has a positive length. */
  predicate PositiveLengths(state: Simulation)
  {
    forall i :: 0 <= i < |state.segments| ==> state.segments[i].1.length > 0.0
  }

  /** Every drawn polyline has at least one piece. */
  predicate DrawableLocations(locations: seq<SegmentLocation>)
  {
    forall i :: 0 <= i < |locations| ==> |locations[i].coordinates| >= 2
  }

  /** The markers for one direction of a location: none when that segment does not exist. */
  function DirectionFeatures(location: SegmentLocation, state: Simulation, reverse: bool): (fs: seq<TrainFeature>)
    requires |location.coordinates| >= 2 && PositiveLengths(state)
    ensures |fs| == |Occupants(state, DirectedKey(location, reverse))|
  {
    match Lookup(state.segments, DirectedKey(location, reverse))
    case None => []
    case Some(seg) =>
      OccupantFeatures(seg.trainsOnSegment, seg, location.coordinates, state, reverse)
  }

  /** The occupants of a segment, none when the segment is absent. */
  function Occupants(state: Simulation, segmentId: string): Entries<SegmentTrainInfo>
  {
    match Lookup(state.segments, segmentId)
    case None => []
    case Some(seg) => seg.trainsOnSegment
  }

  /** All markers: for each location in turn, the forward occupants and then the reverse ones. */
  function CreateTrainFeatures(locations: seq<SegmentLocation>, state: Simulation): (fs: seq<TrainFeature>)
    requires DrawableLocations(locations) && PositiveLengths(state)
  {
    if locations == [] then []
    else
      DirectionFeatures(locations[0], state, false) + DirectionFeatures(locations[0], state, true)
        + CreateTrainFeatures(locations[1..], state)
  }

  /** The number of occupants the locations' segments hold, counting both directions. */
  function OccupantCount(locations: seq<SegmentLocation>, state: Simulation): nat
  {
    if locations == [] then 0
    else
      |Occupants(state, DirectedKey(locations[0], false))| + |Occupants(state, DirectedKey(locations[0], true))|
        + OccupantCount(locations[1..], state)
  }

  /** Exactly one marker is made per occupant of each drawn segment and direction. */
  lemma {:induction false} OneFeaturePerOccupant(locations: seq<SegmentLocation>, state: Simulation)
    requires DrawableLocations(locations) && PositiveLengths(state)
    ensures |CreateTrainFeatures(locations, state)| == OccupantCount(locations, state)
  {
    if locations != [] {
      OneFeaturePerOccupant(locations[1..], state);
    }
  }

  /** The markers for a location begin with its forward occupants, each keyed by its occupancy key. */
  lemma ForwardFeaturesFirst(locations: seq<SegmentLocation>, state: Simulation, seg: SegmentView, i: nat)
    requires DrawableLocations(locations) && PositiveLengths(state) && locations != []
    requires Lookup(state.segments, DirectedKey(locations[0], false)) == Some(seg)
    requires i < |seg.trainsOnSegment|
    ensures var f := CreateTrainFeatures(locations, state)[i];
            f.id == seg.trainsOnSegment[i].0 && f.trainId == f.id
            && f.hasActiveDelay == HasActiveDelay(state, f.id)
            && f.coordinates == PositionAlongLineAsWritten(locations[0].coordinates, seg.trainsOnSegment[i].1.position, seg.length)
  {
    var fw := DirectionFeatures(locations[0], state, false);
    assert CreateTrainFeatures(locations, state)[i] == fw[i];
  }

  /** A marker for a train whose record is missing is never highlighted as delayed. */
  lemma MissingTrainNotDelayed(state: Simulation, trainId: string)
    requires Lookup(state.trains, trainId).None?
    ensures !HasActiveDelay(state, trainId)
  {
  }

  /**
   * A train at `p` on "A-B" and a train at `L - p` on "B-A", both of length `L`,
   * are drawn at the same point of the shared polyline.
   */
  lemma OppositeDirectionsMeet(coordinates: seq<Point>, length: real, p: real, forward: SegmentTrainInfo, backward: SegmentTrainInfo)
    requires |coordinates| >= 2 && length > 0.0
    requires forward.position == p && backward.position == length - p
    ensures PositionAlongLineAsWritten(coordinates, DrawnPosition(length, forward, false), length)
         == PositionAlongLineAsWritten(coordinates, DrawnPosition(length, backward, true), length)
  {
  }

  /**
   * A train entering a reverse segment has the whole line still ahead of it, yet it
   * is drawn at the second-to-last point of the polyline, one piece short of its
   * departure station, because the projection pins a full ratio to the last piece's start.
   */
  lemma ReverseEntryAtSecondToLast(coordinates: seq<Point>, length: real, info: SegmentTrainInfo)
    requires |coordinates| >= 2 && length > 0.0 && info.position <= 0.0
    ensures PositionAlongLineAsWritten(coordinates, DrawnPosition(length, info, true), length)
         == coordinates[|coordinates| - 2]
  {
    AsWrittenEndIsSecondToLast(coordinates, length - info.position, length);
  }

  /** Away from the end of the line the markers sit where the corrected projection puts them. */
  lemma MarkerBeforeEndIsCorrect(coordinates: seq<Point>, length: real, info: SegmentTrainInfo, reverse: bool)
    requires |coordinates| >= 2 && length > 0.0 && DrawnPosition(length, info, reverse) < length
    ensures PositionAlongLineAsWritten(coordinates, DrawnPosition(length, info, reverse), length)
         == PositionAlongLine(coordinates, DrawnPosition(length, info, reverse), length)
  {
    AsWrittenAgreesBelowEnd(coordinates, DrawnPosition(length, info, reverse), length);
  }

  // Paint rules of the train layer.

  /** `selectedTrainId || ""`: no selection, or an empty one, compares as "". */
  function SelectedKey(selected: Option<string>): (k: string)
    ensures selected.Some? ==> k == selected.value
    ensures selected.None? ==> k == ""
  {
    if selected.Some? then selected.value else ""
  }

  function TrainRadius(f: TrainFeature, selected: Option<string>): int
  {
    if f.trainId == SelectedKey(selected) then 10 else 6
  }

  function TrainColor(f: TrainFeature, selected: Option<string>): string
  {
    if f.hasActiveDelay then "#eab308"
    else if f.trainId == SelectedKey(selected) then "#059669"
    else "#10b981"
  }

  function TrainStrokeWidth(f: TrainFeature, selected: Option<string>): int
  {
    if f.trainId == SelectedKey(selected) then 3 else 2
  }

  /**
   * Yellow exactly when delayed, whatever the selection; the darker green only for
   * the selected, undelayed train; radius and stroke grow together on selection.
   */
  lemma TrainPaintRules(f: TrainFeature, selected: Option<string>)
    ensures TrainColor(f, selected) == "#eab308" <==> f.hasActiveDelay
    ensures TrainColor(f, selected) == "#059669" <==> !f.hasActiveDelay && f.trainId == SelectedKey(selected)
    ensures TrainRadius(f, selected) == 10 <==> TrainStrokeWidth(f, selected) == 3
    ensures TrainRadius(f, selected) == 10 <==> f.trainId == SelectedKey(selected)
    ensures selected.None? && f.trainId != "" ==> TrainRadius(f, selected) == 6 && TrainStrokeWidth(f, selected) == 2
  {
  }

  /** A click on a marker selects its train id, unless that id is empty. */
  function ClickedTrain(trainId: Option<string>): (r: Option<string>)
    ensures r.Some? <==> trainId.Some? && trainId.value != ""
    ensures r.Some? ==> r == trainId
  {
    if trainId.Some? && trainId.value != "" then trainId else None
  }
}
