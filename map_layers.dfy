/**
 * The station and segment layers of the map, and the map itself reduced to a
 * registry of data sources and layers: each layer hook registers a source and a
 * layer when the map appears, replaces the source's data when its input changes,
 * and removes both, if present, on cleanup.
 */
module MapLayers {

  import opened Common
  import opened Snapshot
  import opened TrainFeatures

  datatype StationFeature = StationFeature(id: string, coordinates: Point, stationId: string)

  datatype SegmentFeature = SegmentFeature(id: string, coordinates: seq<Point>)

  /** The data of one source: the features last handed to `setData`. */
  datatype Features =
    | Stations(stations: seq<StationFeature>)
    | Segments(segments: seq<SegmentFeature>)
    | TrainMarkers(trains: seq<TrainFeature>)

  function NoFeatures(sourceId: string): Features
  {
    if sourceId == "stations" then Stations([])
    else if sourceId == "segments" then Segments([])
    else TrainMarkers([])
  }

  /** One marker per station location, in input order, keyed by the station id. */
  function CreateStationFeatures(stations: seq<StationLocation>): (fs: seq<StationFeature>)
    ensures |fs| == |stations|
    ensures forall i :: 0 <= i < |fs| ==>
      fs[i].id == stations[i].id && fs[i].stationId == stations[i].id && fs[i].coordinates == stations[i].coordinates
  {
    if stations == [] then []
    else [StationFeature(stations[0].id, stations[0].coordinates, stations[0].id)] + CreateStationFeatures(stations[1..])
  }

  /** One line per segment location, in input order, with the id "from-to". */
  function CreateSegmentFeatures(segments: seq<SegmentLocation>): (fs: seq<SegmentFeature>)
    ensures |fs| == |segments|
    ensures forall i :: 0 <= i < |fs| ==>
      fs[i].id == SegmentKey(segments[i].fromStationId, segments[i].toStationId)
      && fs[i].coordinates == segments[i].coordinates
  {
    if segments == [] then []
    else
      [SegmentFeature(SegmentKey(segments[0].fromStationId, segments[0].toStationId), segments[0].coordinates)]
        + CreateSegmentFeatures(segments[1..])
  }

  /** A segment's line id splits back into its two station ids when the first one has no dash. */
  lemma SegmentIdSplits(location: SegmentLocation, dash: nat)
    requires forall k :: 0 <= k < |location.fromStationId| ==> location.fromStationId[k] != '-'
    requires dash == |location.fromStationId|
    ensures var id := SegmentKey(location.fromStationId, location.toStationId);
            dash < |id| && id[dash] == '-' && (forall k :: 0 <= k < dash ==> id[k] != '-')
            && id[..dash] == location.fromStationId && id[dash + 1..] == location.toStationId
  {
  }

  // Paint rules of the station layer.

  function StationRadius(f: StationFeature, selected: Option<string>): int
  {
    if f.stationId == SelectedKey(selected) then 8 else 4
  }

  function StationColor(f: StationFeature, selected: Option<string>): string
  {
    if f.stationId == SelectedKey(selected) then "#dc2626" else "#ef4444"
  }

  function StationStrokeWidth(f: StationFeature, selected: Option<string>): int
  {
    if f.stationId == SelectedKey(selected) then 3 else 2
  }

  /**
   * The three properties switch together: a station is drawn large, dark and
   * thick-stroked exactly when it is the selected one.
   */
  lemma StationPaintRules(f: StationFeature, selected: Option<string>)
    ensures StationRadius(f, selected) == 8 <==> f.stationId == SelectedKey(selected)
    ensures StationColor(f, selected) == "#dc2626" <==> StationRadius(f, selected) == 8
    ensures StationStrokeWidth(f, selected) == 3 <==> StationRadius(f, selected) == 8
    ensures selected.None? && f.stationId != "" ==> StationRadius(f, selected) == 4
  {
  }

  /**
   * A click on a station selects its `stationId` property, or the feature id when
   * that property is empty; nothing when both are empty.
   */
  function ClickedStation(stationId: Option<string>, featureId: Option<string>): (r: Option<string>)
    ensures stationId.Some? && stationId.value != "" ==> r == stationId
    ensures (stationId.None? || stationId.value == "") ==>
      r == (if featureId.Some? && featureId.value != "" then featureId else None)
    ensures r.Some? ==> r.value != ""
  {
    if stationId.Some? && stationId.value != "" then stationId
    else if featureId.Some? && featureId.value != "" then featureId
    else None
  }

  /** The sources and layers currently registered on the map. */
  class MapRegistry {
    var sources: map<string, Features>
    var layers: set<string>

    constructor()
      ensures sources == map[] && layers == {}
    {
      sources := map[];
      layers := {};
    }

    /** The mount effect: an empty source and its layer. */
    method Mount(sourceId: string, layerId: string)
      modifies this
      ensures sources == old(sources)[sourceId := NoFeatures(sourceId)]
      ensures layers == old(layers) + {layerId}
    {
      sources := sources[sourceId := NoFeatures(sourceId)];
      layers := layers + {layerId};
    }

    /**
     * The cleanup: the layer and the source are removed only when registered, so a
     * second cleanup finds nothing to remove.
     */
    method Cleanup(sourceId: string, layerId: string)
      modifies this
      ensures sources == old(sources) - {sourceId}
      ensures layers == old(layers) - {layerId}
    {
      if layerId in layers {
        layers := layers - {layerId};
      }
      if sourceId in sources {
        sources := sources - {sourceId};
      }
    }

    /** `setData` on a registered source; nothing when the source is not registered. */
    method Update(sourceId: string, data: Features)
      modifies this
      ensures sourceId in old(sources) ==> sources == old(sources)[sourceId := data]
      ensures sourceId !in old(sources) ==> sources == old(sources)
      ensures layers == old(layers)
    {
      if sourceId in sources {
        sources := sources[sourceId := data];
      }
    }
  }

  /** The data effect of the station layer: a no-op without a map or without the source. */
  method UpdateStations(m: MapRegistry?, stations: seq<StationLocation>)
    modifies m
    ensures m != null && "stations" in old(m.sources) ==> m.sources == old(m.sources)["stations" := Stations(CreateStationFeatures(stations))]
    ensures m != null && "stations" !in old(m.sources) ==> m.sources == old(m.sources)
    ensures m != null ==> m.layers == old(m.layers)
  {
    if m != null {
      m.Update("stations", Stations(CreateStationFeatures(stations)));
    }
  }

  /** The data effect of the segment layer: a no-op without a map or without the source. */
  method UpdateSegments(m: MapRegistry?, segments: seq<SegmentLocation>)
    modifies m
    ensures m != null && "segments" in old(m.sources) ==> m.sources == old(m.sources)["segments" := Segments(CreateSegmentFeatures(segments))]
    ensures m != null && "segments" !in old(m.sources) ==> m.sources == old(m.sources)
    ensures m != null ==> m.layers == old(m.layers)
  {
    if m != null {
      m.Update("segments", Segments(CreateSegmentFeatures(segments)));
    }
  }

  /** The data effect of the train layer: it also waits for a snapshot. */
  method UpdateTrains(m: MapRegistry?, locations: seq<SegmentLocation>, state: Option<Simulation>)
    requires DrawableLocations(locations)
    requires state.Some? ==> PositiveLengths(state.value)
    modifies m
    ensures m != null && state.Some? && "trains" in old(m.sources) ==>
      m.sources == old(m.sources)["trains" := TrainMarkers(CreateTrainFeatures(locations, state.value))]
    ensures m != null && (state.None? || "trains" !in old(m.sources)) ==> m.sources == old(m.sources)
    ensures m != null ==> m.layers == old(m.layers)
  {
    if m != null && state.Some? {
      m.Update("trains", TrainMarkers(CreateTrainFeatures(locations, state.value)));
    }
  }
}
