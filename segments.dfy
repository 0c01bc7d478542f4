/**
 * A track segment between two stations: the trains currently on it, each with its
 * position from the segment's start (m), its speed (m/min) and its entry time (ns).
 */
module Segments {

  import opened Common
  import opened Json

  /** Minimum distance (m) the last train on a segment must have run before another may enter. */
  const SafetyDistance: real := 4000.0

  /** Trains farther ahead than this (m) are not reported. */
  const LookAhead: real := 100000.0

  datatype Occupant = Occupant(position: real, speed: real, entryTime: int)

  /** Train `k` counts as ahead of train `trainId` at `pos`, within the look-ahead range. */
  ghost predicate IsAhead(m: map<string, Occupant>, trainId: string, pos: real, k: string)
  {
    k in m && k != trainId && m[k].position > pos && m[k].position - pos < LookAhead
  }

  /** Train `k` is another train strictly ahead of position `pos`. */
  ghost predicate InFront(m: map<string, Occupant>, trainId: string, pos: real, k: string)
  {
    k in m && k != trainId && m[k].position > pos
  }

  datatype EntryResponse = EntryResponse(allowed: bool, error: Option<string>)

  /** `gap` is the distance to the nearest train ahead (the engine calls it its position). */
  datatype TrainAheadResponse = TrainAheadResponse(hasTrainAhead: bool, gap: real, speed: real)

  datatype SegmentMessage =
    | EntryRequest(trainId: string, time: int)
    | GetTrainAheadRequest(trainId: string, position: real)
    | UpdatePositionNotification(trainId: string, position: real, speed: real)
    | ExitNotification(trainId: string)
    | Unrecognised

  datatype SegmentReply = Entry(entry: EntryResponse) | Ahead(ahead: TrainAheadResponse)

  class Segment {
    const id: string
    const fromStationId: string
    const toStationId: string
    /** Metres. */
    const length: real
    /** Metres per minute. */
    const maxSpeed: real
    var trainsOnSegment: map<string, Occupant>

    constructor(id: string, fromStationId: string, toStationId: string, length: real, maxSpeed: real)
      ensures this.id == id && this.fromStationId == fromStationId && this.toStationId == toStationId
      ensures this.length == length && this.maxSpeed == maxSpeed
      ensures trainsOnSegment == map[]
    {
      this.id := id;
      this.fromStationId := fromStationId;
      this.toStationId := toStationId;
      this.length := length;
      this.maxSpeed := maxSpeed;
      trainsOnSegment := map[];
    }

    /**
     * A train asks to enter. It is refused, with an error, while any train on the
     * segment is still within the safety distance of its start; otherwise it is
     * placed at the start, at rest.
     */
    method HandleEntryRequest(trainId: string, time: int) returns (resp: EntryResponse)
      modifies this`trainsOnSegment
      ensures resp.allowed <==> forall k :: k in old(trainsOnSegment) ==> old(trainsOnSegment)[k].position >= SafetyDistance
      ensures resp.allowed ==> resp.error.None? && trainsOnSegment == old(trainsOnSegment)[trainId := Occupant(0.0, 0.0, time)]
      ensures !resp.allowed ==> resp.error.Some? && trainsOnSegment == old(trainsOnSegment)
    {
      var allowed := true;
      if |trainsOnSegment| > 0 {
        var keys := trainsOnSegment.Keys;
        while keys != {}
          invariant keys <= trainsOnSegment.Keys
          invariant allowed
          invariant forall k :: k in trainsOnSegment && k !in keys ==> trainsOnSegment[k].position >= SafetyDistance
          decreases |keys|
        {
          var k :| k in keys;
          if trainsOnSegment[k].position < SafetyDistance {
            allowed := false;
            break;
          }
          keys := keys - {k};
        }
      }
      if !allowed {
        return EntryResponse(false, Some("Segment " + id + ": Train " + trainId + " cannot enter, too close to another train"));
      }
      trainsOnSegment := trainsOnSegment[trainId := Occupant(0.0, 0.0, time)];
      resp := EntryResponse(true, None);
    }

    /**
     * The nearest other train strictly ahead of `pos`, within the look-ahead range:
     * its distance and its speed. Among trains at the same distance, the engine
     * reports whichever its map iteration meets first.
     */
    method HandleGetTrainAhead(trainId: string, pos: real) returns (resp: TrainAheadResponse)
      ensures resp.hasTrainAhead <==> exists k :: IsAhead(trainsOnSegment, trainId, pos, k)
      ensures resp.hasTrainAhead ==>
        exists k :: IsAhead(trainsOnSegment, trainId, pos, k)
          && resp.gap == trainsOnSegment[k].position - pos && resp.speed == trainsOnSegment[k].speed
      ensures resp.hasTrainAhead ==>
        forall k :: InFront(trainsOnSegment, trainId, pos, k) ==> resp.gap <= trainsOnSegment[k].position - pos
      ensures resp.hasTrainAhead ==> 0.0 < resp.gap < LookAhead
      ensures !resp.hasTrainAhead ==> resp.gap == 0.0 && resp.speed == 0.0
    {
      var m := trainsOnSegment;
      var minDist := LookAhead;
      var closest: Option<Occupant> := None;
      var keys := m.Keys;
      ghost var closestId := "";
      while keys != {}
        invariant keys <= m.Keys
        invariant 0.0 < minDist <= LookAhead
        invariant closest.None? ==> minDist == LookAhead
        invariant closest.None? ==> forall k :: k in m && k !in keys ==> !IsAhead(m, trainId, pos, k)
        invariant closest.Some? ==> IsAhead(m, trainId, pos, closestId)
        invariant closest.Some? ==> m[closestId] == closest.value && minDist == closest.value.position - pos
        invariant forall k :: k !in keys && InFront(m, trainId, pos, k) ==> minDist <= m[k].position - pos
        decreases |keys|
      {
        var k :| k in keys;
        if k != trainId {
          var info := m[k];
          if info.position > pos {
            var dist := info.position - pos;
            if dist < minDist {
              minDist := dist;
              closest := Some(info);
              closestId := k;
            }
          }
        }
        keys := keys - {k};
      }
      if closest.Some? {
        assert IsAhead(m, trainId, pos, closestId);
        resp := TrainAheadResponse(true, minDist, closest.value.speed);
      } else {
        resp := TrainAheadResponse(false, 0.0, 0.0);
      }
    }

    /** A train on the segment reports its position and speed; reports from unknown trains are dropped. */
    method HandleUpdatePosition(trainId: string, position: real, speed: real)
      modifies this`trainsOnSegment
      ensures trainId in old(trainsOnSegment) ==>
        trainsOnSegment == old(trainsOnSegment)[trainId := old(trainsOnSegment)[trainId].(position := position, speed := speed)]
      ensures trainId !in old(trainsOnSegment) ==> trainsOnSegment == old(trainsOnSegment)
    {
      if trainId in trainsOnSegment {
        var info := trainsOnSegment[trainId];
        trainsOnSegment := trainsOnSegment[trainId := info.(position := position, speed := speed)];
      }
    }

    /** A train leaves the segment. */
    method HandleExit(trainId: string)
      modifies this`trainsOnSegment
      ensures trainsOnSegment == old(trainsOnSegment) - {trainId}
    {
      if trainId in trainsOnSegment {
        trainsOnSegment := trainsOnSegment - {trainId};
      }
    }

    /** One message from the inbox; notifications and unrecognised messages get no reply. */
    method Dispatch(msg: SegmentMessage) returns (reply: Option<SegmentReply>)
      modifies this`trainsOnSegment
      ensures msg.EntryRequest? ==>
        (reply.Some? && reply.value.Entry?
         && (reply.value.entry.allowed <==>
             forall k :: k in old(trainsOnSegment) ==> old(trainsOnSegment)[k].position >= SafetyDistance))
      ensures msg.EntryRequest? && reply.Some? && reply.value.Entry? && reply.value.entry.allowed ==>
        trainsOnSegment == old(trainsOnSegment)[msg.trainId := Occupant(0.0, 0.0, msg.time)]
      ensures msg.EntryRequest? && reply.Some? && reply.value.Entry? && !reply.value.entry.allowed ==>
        trainsOnSegment == old(trainsOnSegment)
      ensures msg.GetTrainAheadRequest? ==>
        (reply.Some? && reply.value.Ahead? && trainsOnSegment == old(trainsOnSegment)
         && (reply.value.ahead.hasTrainAhead <==> exists k :: IsAhead(trainsOnSegment, msg.trainId, msg.position, k)))
      ensures msg.GetTrainAheadRequest? && reply.Some? && reply.value.Ahead? && reply.value.ahead.hasTrainAhead ==>
        (exists k :: IsAhead(trainsOnSegment, msg.trainId, msg.position, k)
           && reply.value.ahead.gap == trainsOnSegment[k].position - msg.position
           && reply.value.ahead.speed == trainsOnSegment[k].speed)
        && (forall k :: InFront(trainsOnSegment, msg.trainId, msg.position, k) ==>
              reply.value.ahead.gap <= trainsOnSegment[k].position - msg.position)
      ensures msg.GetTrainAheadRequest? && reply.Some? && reply.value.Ahead? && !reply.value.ahead.hasTrainAhead ==>
        reply.value.ahead.gap == 0.0 && reply.value.ahead.speed == 0.0
      ensures msg.UpdatePositionNotification? || msg.ExitNotification? || msg.Unrecognised? ==> reply == None
      ensures msg.UpdatePositionNotification? && msg.trainId in old(trainsOnSegment) ==>
        trainsOnSegment == old(trainsOnSegment)[msg.trainId :=
          old(trainsOnSegment)[msg.trainId].(position := msg.position, speed := msg.speed)]
      ensures msg.UpdatePositionNotification? && msg.trainId !in old(trainsOnSegment) ==>
        trainsOnSegment == old(trainsOnSegment)
      ensures msg.ExitNotification? ==> trainsOnSegment == old(trainsOnSegment) - {msg.trainId}
      ensures msg.Unrecognised? ==> trainsOnSegment == old(trainsOnSegment)
    {
      match msg
      case EntryRequest(train, time) =>
        var r := HandleEntryRequest(train, time);
        reply := Some(Entry(r));
      case GetTrainAheadRequest(train, pos) =>
        var r := HandleGetTrainAhead(train, pos);
        reply := Some(Ahead(r));
      case UpdatePositionNotification(train, pos, speed) =>
        HandleUpdatePosition(train, pos, speed);
        reply := None;
      case ExitNotification(train) =>
        HandleExit(train);
        reply := None;
      case Unrecognised =>
        reply := None;
    }

    /** The JSON object the engine publishes for this segment. */
    function ToJson(): (j: Json)
      reads this
      ensures j.JObject? && j.fields.Keys == {"id", "fromStationId", "toStationId", "length", "maxSpeed", "trainsOnSegment"}
    {
      JObject(map[
        "id" := JString(id),
        "fromStationId" := JString(fromStationId),
        "toStationId" := JString(toStationId),
        "length" := JReal(length),
        "maxSpeed" := JReal(maxSpeed),
        "trainsOnSegment" := JObject(map k | k in trainsOnSegment :: OccupantJson(trainsOnSegment[k]))
      ])
    }
  }

  function OccupantJson(o: Occupant): Json
  {
    JObject(map["position" := JReal(o.position), "speed" := JReal(o.speed), "entryTime" := JInt(o.entryTime)])
  }

  function ParseOccupant(j: Json): Option<Occupant>
  {
    if j.JObject? && "position" in j.fields && j.fields["position"].JReal?
       && "speed" in j.fields && j.fields["speed"].JReal?
       && "entryTime" in j.fields && j.fields["entryTime"].JInt?
    then Some(Occupant(j.fields["position"].r, j.fields["speed"].r, j.fields["entryTime"].i))
    else None
  }

  /** The segment as the front end sees it after decoding. */
  datatype SegmentState = SegmentState(id: string, fromStationId: string, toStationId: string,
                                       length: real, maxSpeed: real, trainsOnSegment: map<string, Occupant>)

  function ParseSegment(j: Json): Option<SegmentState>
  {
    if j.JObject? && "id" in j.fields && j.fields["id"].JString?
       && "fromStationId" in j.fields && j.fields["fromStationId"].JString?
       && "toStationId" in j.fields && j.fields["toStationId"].JString?
       && "length" in j.fields && j.fields["length"].JReal?
       && "maxSpeed" in j.fields && j.fields["maxSpeed"].JReal?
       && "trainsOnSegment" in j.fields && j.fields["trainsOnSegment"].JObject?
       && (forall k :: k in j.fields["trainsOnSegment"].fields ==> ParseOccupant(j.fields["trainsOnSegment"].fields[k]).Some?)
    then
      var inside := j.fields["trainsOnSegment"].fields;
      Some(SegmentState(j.fields["id"].s, j.fields["fromStationId"].s, j.fields["toStationId"].s,
                        j.fields["length"].r, j.fields["maxSpeed"].r,
                        map k | k in inside :: ParseOccupant(inside[k]).value))
    else None
  }

  /** Decoding the published JSON gives back the segment and every train's position, speed and entry time. */
  lemma SegmentJsonRoundTrip(s: Segment)
    ensures ParseSegment(s.ToJson())
         == Some(SegmentState(s.id, s.fromStationId, s.toStationId, s.length, s.maxSpeed, s.trainsOnSegment))
  {
    OccupantsRoundTrip(s.trainsOnSegment);
  }

  lemma OccupantRoundTrip(o: Occupant)
    ensures ParseOccupant(OccupantJson(o)) == Some(o)
  {
  }

  /** Every published occupant decodes back to itself. */
  lemma OccupantsRoundTrip(m: map<string, Occupant>)
    ensures var inside := map k | k in m :: OccupantJson(m[k]);
      (forall k :: k in inside ==> ParseOccupant(inside[k]).Some?)
      && (map k | k in inside :: ParseOccupant(inside[k]).value) == m
  {
    var inside := map k | k in m :: OccupantJson(m[k]);
    forall k | k in inside ensures ParseOccupant(inside[k]) == Some(m[k]) {
      OccupantRoundTrip(m[k]);
    }
  }
}
