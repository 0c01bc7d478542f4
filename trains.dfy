/**
 * A train: its schedule of stops, the disruption event drawn for it, and the mode it
 * is in, standing at a station or running along a path of segments. Each tick the
 * engine asks the train to decide and then to act; every request the train sends in
 * `act` is answered before it goes on, so the answer is an input of the step here and
 * the requests it sent are its output.
 */
module Trains {

  import opened Common
  import opened Json
  import opened Events
  import opened TrainStops
  import opened Navigation

  // ---------------------------------------------------------------- stop lookups

  predicate IsCurrent(s: Stop) { s.arrivedAt.Some? && s.departedAt.None? }

  predicate IsUnarrived(s: Stop) { s.arrivedAt.None? }

  /** The first position satisfying `p`. */
  function FirstWhere(v: seq<Stop>, p: Stop -> bool): (r: Option<nat>)
    ensures r.Some? ==> r.value < |v| && p(v[r.value]) && forall j :: 0 <= j < r.value ==> !p(v[j])
    ensures r.None? ==> forall j :: 0 <= j < |v| ==> !p(v[j])
  {
    if v == [] then None
    else if p(v[0]) then Some(0)
    else match FirstWhere(v[1..], p)
      case None => None
      case Some(i) => Some(i + 1)
  }

  /** The stop the train stands at: the first one arrived at and not yet left. */
  function FirstCurrent(v: seq<Stop>): Option<nat> { FirstWhere(v, IsCurrent) }

  /** The stop the train heads for: the first one not yet arrived at. */
  function FirstUnarrived(v: seq<Stop>): Option<nat> { FirstWhere(v, IsUnarrived) }

  /** The last stop, by position, that the train has left. */
  function LastDeparted(v: seq<Stop>): (r: Option<nat>)
    ensures r.Some? ==> r.value < |v| && v[r.value].departedAt.Some?
                        && forall j :: r.value < j < |v| ==> v[j].departedAt.None?
    ensures r.None? ==> forall j :: 0 <= j < |v| ==> v[j].departedAt.None?
  {
    if v == [] then None
    else if v[|v| - 1].departedAt.Some? then Some(|v| - 1)
    else LastDeparted(v[..|v| - 1])
  }

  /**
   * The shape of a journey: the stops before `k` are arrived at and left, stop `k`
   * is arrived at (and left exactly when `departed`), the later stops are untouched.
   */
  ghost predicate Progress(v: seq<Stop>, k: int, departed: bool)
  {
    0 <= k < |v|
    && (forall i :: 0 <= i < k ==> v[i].arrivedAt.Some? && v[i].departedAt.Some?)
    && v[k].arrivedAt.Some? && (v[k].departedAt.Some? <==> departed)
    && (forall i :: k < i < |v| ==> v[i].arrivedAt.None? && v[i].departedAt.None?)
  }

  /** Arriving at the next stop moves the journey one stop forward. */
  lemma ProgressArrive(v: seq<Stop>, k: int, t: int)
    requires Progress(v, k, true) && k + 1 < |v|
    ensures Progress(v[k + 1 := v[k + 1].(arrivedAt := Some(t))], k + 1, false)
  {
  }

  /** On a journey of that shape the three lookups find stop `k` and its neighbours. */
  lemma ProgressLookups(v: seq<Stop>, k: int, departed: bool)
    requires Progress(v, k, departed)
    ensures FirstCurrent(v) == (if departed then None else Some(k))
    ensures FirstUnarrived(v) == (if k + 1 < |v| then Some(k + 1) else None)
    ensures LastDeparted(v) == (if departed then Some(k) else if k > 0 then Some(k - 1) else None)
  {
    if !departed {
      assert IsCurrent(v[k]);
    }
    if k + 1 < |v| {
      assert IsUnarrived(v[k + 1]);
    }
    if k > 0 {
      assert v[k - 1].departedAt.Some?;
    }
  }

  // ---------------------------------------------------------------- at a station

  datatype Action = Finish | Cancel | Wait | Delayed | Depart

  /**
   * The decision at a station. It needs a current stop, except when an active
   * cancellation ends the run first.
   */
  function Decide(v: seq<Stop>, e: Event, t: int): (a: Action)
    requires |v| > 0
    requires FirstCurrent(v).Some? || (e.CancellationEvent? && IsActive(e, t))
    ensures a == Depart ==> FirstCurrent(v).Some? && FirstCurrent(v).value < |v| - 1
                            && t >= v[FirstCurrent(v).value].departure
  {
    var cur := FirstCurrent(v);
    if cur == Some(|v| - 1) then Finish
    else if e.CancellationEvent? && IsActive(e, t) then Cancel
    else if t < v[cur.value].departure then Wait
    else if e.DelayEvent? && IsActive(e, t) then Delayed
    else Depart
  }

  /** At the end stop the journey is over, whatever the event and the time. */
  lemma FinishComesFirst(v: seq<Stop>, e: Event, t: int)
    requires |v| > 0 && FirstCurrent(v) == Some(|v| - 1)
    ensures Decide(v, e, t) == Finish
  {
  }

  /** Anywhere else an active cancellation wins over waiting for the departure time and over a delay. */
  lemma CancellationWins(v: seq<Stop>, e: Event, t: int)
    requires |v| > 0 && FirstCurrent(v).Some? && FirstCurrent(v) != Some(|v| - 1)
    requires e.CancellationEvent? && IsActive(e, t)
    ensures Decide(v, e, t) == Cancel
  {
  }

  /** Once cancelled, a train stays cancelled at every later time. */
  lemma CancellationIsFinal(v: seq<Stop>, e: Event, t: int, u: int)
    requires |v| > 0 && (FirstCurrent(v).Some? || (e.CancellationEvent? && IsActive(e, t)))
    requires Decide(v, e, t) == Cancel && t <= u
    ensures Decide(v, e, u) == Cancel
  {
  }

  /** A train without an event leaves exactly when its scheduled departure has come. */
  lemma UndisturbedDepartsOnTime(v: seq<Stop>, t: int)
    requires |v| > 0 && FirstCurrent(v).Some? && FirstCurrent(v) != Some(|v| - 1)
    ensures Decide(v, NoEvent, t) == (if t < v[FirstCurrent(v).value].departure then Wait else Depart)
  {
  }

  /** A delay only holds the train during its window: afterwards it departs. */
  lemma DelayIsTemporary(v: seq<Stop>, e: Event, t: int)
    requires |v| > 0 && FirstCurrent(v).Some? && FirstCurrent(v) != Some(|v| - 1)
    requires e.DelayEvent? && t >= e.startTime + e.duration && t >= v[FirstCurrent(v).value].departure
    ensures Decide(v, e, t) == Depart
  {
  }

  /** Before its scheduled departure a train that is not cancelled waits, whatever its event. */
  lemma WaitsBeforeDeparture(v: seq<Stop>, e: Event, t: int)
    requires |v| > 0 && FirstCurrent(v).Some? && FirstCurrent(v) != Some(|v| - 1)
    requires !(e.CancellationEvent? && IsActive(e, t)) && t < v[FirstCurrent(v).value].departure
    ensures Decide(v, e, t) == Wait
  {
  }

  /** From its scheduled departure on, an active delay holds the train. */
  lemma DelayHoldsTrain(v: seq<Stop>, e: Event, t: int)
    requires |v| > 0 && FirstCurrent(v).Some? && FirstCurrent(v) != Some(|v| - 1)
    requires e.DelayEvent? && IsActive(e, t) && t >= v[FirstCurrent(v).value].departure
    ensures Decide(v, e, t) == Delayed
  {
  }

  /** A train is held as delayed only by an active delay, and only once its departure time has come. */
  lemma DelayedOnlyWhenDue(v: seq<Stop>, e: Event, t: int)
    requires |v| > 0 && (FirstCurrent(v).Some? || (e.CancellationEvent? && IsActive(e, t)))
    requires Decide(v, e, t) == Delayed
    ensures FirstCurrent(v).Some? && FirstCurrent(v) != Some(|v| - 1)
    ensures e.DelayEvent? && IsActive(e, t) && t >= v[FirstCurrent(v).value].departure
  {
  }

  /**
   * Away from the end stop a train departs exactly when its departure time has come and
   * no cancellation or delay is active: a pending or empty delay or a cancellation that
   * has not begun does not hold it.
   */
  lemma DepartsWhenFree(v: seq<Stop>, e: Event, t: int)
    requires |v| > 0 && FirstCurrent(v).Some? && FirstCurrent(v) != Some(|v| - 1)
    ensures Decide(v, e, t) == Depart
        <==> !(e.CancellationEvent? && IsActive(e, t)) && !(e.DelayEvent? && IsActive(e, t))
             && t >= v[FirstCurrent(v).value].departure
  {
  }

  /** An answer to the one request a step sends: granted, refused, or failed (no such inbox, or an error). */
  datatype Reply = Granted | Refused | Failed

  /** The messages a train sends, in order. */
  datatype Outbound =
    | StationDeparture(stationId: string)
    | PathRequest(from: string, to: string)
    | SegmentEntry(segmentId: string, time: int)
    | SegmentPosition(segmentId: string, position: real, speed: real)
    | SegmentExit(segmentId: string)
    | StationDemand(stationId: string, fromSegment: string, delay: int, requestTime: int)
    | StationEntry(stationId: string, fromSegment: string, entryTime: int)

  /**
   * Leaving a station: ask for a path to the next stop, then ask the first segment
   * of the path for entry. The train leaves (returning the path) only with a
   * non-empty path and an entry granted; the segment's refusal comes as an error.
   */
  function DepartStep(from: string, to: string, route: PathResponse, entry: Reply, t: int)
    : (r: (Option<seq<SegmentInfo>>, seq<Outbound>))
    ensures |r.1| >= 1
    ensures r.0.Some? <==> route.PathOk? && |route.segments| > 0 && entry == Granted
    ensures r.0.Some? ==> r.0.value == route.segments && r.1[|r.1| - 1] == StationDeparture(from)
    ensures r.1[0] == PathRequest(from, to) && StationDeparture(from) !in r.1[..|r.1| - 1]
  {
    var ask := [PathRequest(from, to)];
    if route.PathErr? || |route.segments| == 0 then (None, ask)
    else
      var enter := ask + [SegmentEntry(route.segments[0].id, t)];
      if entry == Granted then (Some(route.segments), enter + [StationDeparture(from)])
      else (None, enter)
  }

  // ---------------------------------------------------------------- on a path of segments

  /**
   * Running along a path. `speed` (m/s) is set by the physics of the decide phase;
   * `delay` and `remainingTime` (ns) by the perception phase.
   */
  datatype SegmentRun = SegmentRun(segments: seq<SegmentInfo>, currentIndex: int, position: real, speed: real,
                                   announced: bool, delay: int, remainingTime: int)

  /** A fresh run starts on the first segment of the path. */
  function NewRun(segments: seq<SegmentInfo>): SegmentRun
  {
    SegmentRun(segments, 0, 0.0, 0.0, false, 0, 0)
  }

  function Lengths(segs: seq<SegmentInfo>): (r: seq<real>)
    ensures |r| == |segs| && forall i :: 0 <= i < |segs| ==> r[i] == segs[i].length
  {
    seq(|segs|, i requires 0 <= i < |segs| => segs[i].length)
  }

  /** Length of the whole path. */
  function TotalLength(segs: seq<SegmentInfo>): real
  {
    Sum(Lengths(segs))
  }

  /** Distance covered since leaving the station: the finished segments and the position on the current one. */
  function TraveledDistance(run: SegmentRun): real
    requires 0 <= run.currentIndex <= |run.segments|
  {
    run.position + Sum(Lengths(run.segments[..run.currentIndex]))
  }

  lemma {:induction false} SumConcat(a: seq<real>, b: seq<real>)
    ensures Sum(a + b) == Sum(a) + Sum(b)
  {
    if a == [] {
      assert a + b == b;
    } else {
      assert (a + b)[1..] == a[1..] + b;
      SumConcat(a[1..], b);
    }
  }

  lemma {:induction false} SumNonNegative(a: seq<real>)
    requires forall i :: 0 <= i < |a| ==> a[i] >= 0.0
    ensures Sum(a) >= 0.0
  {
    if a != [] {
      SumNonNegative(a[1..]);
    }
  }

  /** On a path of non-negative lengths, the distance covered lies between 0 and the path's length. */
  lemma TraveledWithinPath(run: SegmentRun)
    requires 0 <= run.currentIndex < |run.segments|
    requires forall i :: 0 <= i < |run.segments| ==> run.segments[i].length >= 0.0
    requires 0.0 <= run.position <= run.segments[run.currentIndex].length
    ensures 0.0 <= TraveledDistance(run) <= TotalLength(run.segments)
  {
    var k := run.currentIndex;
    var ls := Lengths(run.segments);
    assert ls == ls[..k] + [ls[k]] + ls[k + 1..];
    assert Lengths(run.segments[..k]) == ls[..k];
    SumConcat(ls[..k] + [ls[k]], ls[k + 1..]);
    SumConcat(ls[..k], [ls[k]]);
    SumNonNegative(ls[..k]);
    SumNonNegative(ls[k + 1..]);
  }

  /** The outcome of a step on a path: still running, or admitted into the next stop's station. */
  datatype RunOutcome = Continue(run: SegmentRun) | Arrive

  /** Seconds per tick. */
  const TickSeconds: real := 60.0

  /**
   * One act step on a path: advance by one tick at the current speed and report the
   * position; then, near the end of the last segment, announce the train to the next
   * station once; past the end of a segment, ask the next segment (or, on the last
   * one, the station) for entry. A refusal pins the train to its segment's last metre.
   * `nextStation` is the next stop's station, `None` when there is no next stop.
   */
  function SegmentStep(run: SegmentRun, t: int, reply: Reply, nextStation: Option<string>)
    : (RunOutcome, seq<Outbound>)
    requires 0 <= run.currentIndex < |run.segments|
  {
    var seg := run.segments[run.currentIndex];
    var moved := run.(position := run.position + run.speed * TickSeconds);
    var report := [SegmentPosition(seg.id, moved.position, run.speed)];
    if moved.position >= 0.9 * seg.length && run.currentIndex + 1 >= |run.segments| && !run.announced then
      if nextStation.None? then (Continue(moved), report)
      else
        (Continue(moved.(announced := reply == Granted)),
         report + [StationDemand(nextStation.value, seg.id, run.delay, t + run.delay - run.remainingTime)])
    else if moved.position < seg.length then (Continue(moved), report)
    else if run.currentIndex + 1 < |run.segments| then
      var ask := report + [SegmentEntry(run.segments[run.currentIndex + 1].id, t)];
      if reply == Granted then
        (Continue(moved.(currentIndex := run.currentIndex + 1, position := moved.position - seg.length)),
         ask + [SegmentExit(seg.id)])
      else (Continue(moved.(position := seg.length - 1.0)), ask)
    else if nextStation.None? then (Continue(moved), report)
    else
      var ask := report + [StationEntry(nextStation.value, seg.id, t)];
      if reply == Granted then (Arrive, ask + [SegmentExit(seg.id)])
      else if reply == Refused then (Continue(moved.(position := seg.length - 1.0)), ask)
      else (Continue(moved), ask)
  }

  /** A step keeps the train on its path and moves it at most one segment forward, never back. */
  lemma StepStaysOnPath(run: SegmentRun, t: int, reply: Reply, next: Option<string>)
    requires 0 <= run.currentIndex < |run.segments|
    ensures var r := SegmentStep(run, t, reply, next).0;
      r.Continue? ==>
        r.run.segments == run.segments && r.run.speed == run.speed
        && r.run.currentIndex in {run.currentIndex, run.currentIndex + 1}
        && 0 <= r.run.currentIndex < |run.segments|
  {
  }

  /**
   * Moving to the next segment happens only on a granted entry, after the position
   * passed the end of the current segment; the overflow carries over, so the
   * distance covered grows by exactly one tick's travel.
   */
  lemma CrossingKeepsDistance(run: SegmentRun, t: int, reply: Reply, next: Option<string>)
    requires 0 <= run.currentIndex < |run.segments|
    requires SegmentStep(run, t, reply, next).0.Continue?
    requires SegmentStep(run, t, reply, next).0.run.currentIndex == run.currentIndex + 1
    ensures reply == Granted
    ensures run.position + run.speed * TickSeconds >= run.segments[run.currentIndex].length
    ensures TraveledDistance(SegmentStep(run, t, reply, next).0.run) == TraveledDistance(run) + run.speed * TickSeconds
    ensures SegmentStep(run, t, reply, next).1 ==
      [SegmentPosition(run.segments[run.currentIndex].id, run.position + run.speed * TickSeconds, run.speed),
       SegmentEntry(run.segments[run.currentIndex + 1].id, t),
       SegmentExit(run.segments[run.currentIndex].id)]
  {
    var k := run.currentIndex;
    var ls := Lengths(run.segments);
    assert Lengths(run.segments[..k + 1]) == Lengths(run.segments[..k]) + [ls[k]];
    SumConcat(Lengths(run.segments[..k]), [ls[k]]);
  }

  /** A refused or failed entry into the next segment leaves the train waiting at its segment's last metre. */
  lemma RefusalPinsToSegmentEnd(run: SegmentRun, t: int, reply: Reply, next: Option<string>)
    requires 0 <= run.currentIndex < |run.segments| - 1
    requires run.position + run.speed * TickSeconds >= run.segments[run.currentIndex].length
    requires !(run.position + run.speed * TickSeconds >= 0.9 * run.segments[run.currentIndex].length
               && run.currentIndex + 1 >= |run.segments| && !run.announced)
    requires reply != Granted
    ensures SegmentStep(run, t, reply, next).0
         == Continue(run.(position := run.segments[run.currentIndex].length - 1.0))
  {
  }

  /**
   * A train never asks a station for entry before it has announced itself to it:
   * the tick that reaches 90% of the last segment only announces.
   */
  lemma EntryOnlyAfterAnnouncement(run: SegmentRun, t: int, reply: Reply, next: Option<string>, i: int)
    requires 0 <= run.currentIndex < |run.segments|
    requires run.segments[run.currentIndex].length >= 0.0
    requires 0 <= i < |SegmentStep(run, t, reply, next).1|
    requires SegmentStep(run, t, reply, next).1[i].StationEntry?
    ensures run.announced && run.currentIndex == |run.segments| - 1
  {
  }

  /** Arrival happens only on the last segment, past its end, on a granted station entry. */
  lemma ArrivalConditions(run: SegmentRun, t: int, reply: Reply, next: Option<string>)
    requires 0 <= run.currentIndex < |run.segments|
    requires SegmentStep(run, t, reply, next).0.Arrive?
    ensures reply == Granted && next.Some? && run.currentIndex == |run.segments| - 1
    ensures run.position + run.speed * TickSeconds >= run.segments[run.currentIndex].length
    ensures SegmentStep(run, t, reply, next).1[|SegmentStep(run, t, reply, next).1| - 1]
         == SegmentExit(run.segments[run.currentIndex].id)
  {
  }

  /** The announcement is made once: after it, `announced` holds for the rest of the run. */
  lemma AnnouncementSticks(run: SegmentRun, t: int, reply: Reply, next: Option<string>)
    requires 0 <= run.currentIndex < |run.segments| && run.announced
    requires SegmentStep(run, t, reply, next).0.Continue?
    ensures SegmentStep(run, t, reply, next).0.run.announced
    ensures forall m :: m in SegmentStep(run, t, reply, next).1 ==> !m.StationDemand?
  {
  }

  // ---------------------------------------------------------------- the train

  datatype Mode = AtStation(action: Option<Action>) | OnSegment(run: SegmentRun)

  /** The name of the station of the next stop, if there is one. */
  function NextStationId(v: seq<Stop>): Option<string>
  {
    match FirstUnarrived(v)
    case None => None
    case Some(i) => Some(v[i].stationId)
  }

  /** A train as the front end receives it. */
  datatype TrainRecord = TrainRecord(id: string, stops: seq<Stop>, event: Event)

  /**
   * A train. Its stops are kept as values, and a stop is designated by its position
   * in the schedule: the setters of a stop become updates of that position.
   */
  class Train {
    const id: string
    const event: Event
    var stops: seq<Stop>
    var mode: Mode
    var isFinished: bool
    /** The stop the train is at, or last left. */
    ghost var at: nat

    ghost predicate Valid()
      reads this
    {
      Progress(stops, at, mode.OnSegment?)
      && (mode.AtStation? && mode.action == Some(Depart) ==> at < |stops| - 1)
      && (mode.OnSegment? ==> at < |stops| - 1 && 0 <= mode.run.currentIndex < |mode.run.segments|)
    }

    /**
     * A new train is at its first stop, marked arrived at its scheduled arrival; the
     * event is drawn by the caller. A schedule no train has run yet gives a valid journey.
     */
    constructor(id: string, schedule: seq<Stop>, event: Event)
      requires |schedule| > 0
      ensures this.id == id && this.event == event && mode == AtStation(None) && !isFinished
      ensures stops == schedule[0 := schedule[0].(arrivedAt := Some(schedule[0].arrival))]
      ensures (forall i :: 0 <= i < |schedule| ==> schedule[i].arrivedAt.None? && schedule[i].departedAt.None?)
              ==> Valid()
    {
      this.id := id;
      this.event := event;
      stops := schedule[0 := schedule[0].(arrivedAt := Some(schedule[0].arrival))];
      mode := AtStation(None);
      isFinished := false;
      at := 0;
    }

    function StartStop(): Stop
      reads this
      requires |stops| > 0
    {
      stops[0]
    }

    function EndStop(): Stop
      reads this
      requires |stops| > 0
    {
      stops[|stops| - 1]
    }

    /** The position of the stop the train stands at. */
    method CurrentStop() returns (k: Option<nat>)
      ensures k == FirstCurrent(stops)
    {
      var i := 0;
      while i < |stops|
        invariant 0 <= i <= |stops|
        invariant forall j :: 0 <= j < i ==> !IsCurrent(stops[j])
      {
        if stops[i].arrivedAt.Some? && stops[i].departedAt.None? {
          return Some(i);
        }
        i := i + 1;
      }
      return None;
    }

    /** The position of the stop the train heads for. */
    method NextStop() returns (k: Option<nat>)
      ensures k == FirstUnarrived(stops)
    {
      var i := 0;
      while i < |stops|
        invariant 0 <= i <= |stops|
        invariant forall j :: 0 <= j < i ==> !IsUnarrived(stops[j])
      {
        if stops[i].arrivedAt.None? {
          return Some(i);
        }
        i := i + 1;
      }
      return None;
    }

    /** The position of the last stop the train left. */
    method LastStop() returns (k: Option<nat>)
      ensures k == LastDeparted(stops)
    {
      k := None;
      var i := 0;
      while i < |stops|
        invariant 0 <= i <= |stops|
        invariant k == LastDeparted(stops[..i])
      {
        assert stops[..i + 1][..i] == stops[..i];
        if stops[i].departedAt.Some? {
          k := Some(i);
        }
        i := i + 1;
      }
      assert stops[..i] == stops;
    }

    /** The decide phase at a station: records the action for the act phase. */
    method Deliberate(t: int)
      requires Valid() && mode.AtStation?
      modifies this`mode
      ensures Valid()
      ensures mode == AtStation(Some(Decide(stops, event, t)))
    {
      ProgressLookups(stops, at, false);
      var current := CurrentStop();
      var action: Action;
      if current == Some(|stops| - 1) {
        action := Finish;
      } else if event.CancellationEvent? && IsActive(event, t) {
        action := Cancel;
      } else if t < stops[current.value].departure {
        action := Wait;
      } else if event.DelayEvent? && IsActive(event, t) {
        action := Delayed;
      } else {
        action := Depart;
      }
      mode := AtStation(Some(action));
    }

    /**
     * The act phase at a station, for the recorded action. `route` answers the path
     * request and `entry` the first segment's entry request, when those are sent.
     */
    method ActAtStation(t: int, route: PathResponse, entry: Reply) returns (sent: seq<Outbound>)
      requires Valid() && mode.AtStation?
      modifies this
      ensures Valid() && at == old(at)
      ensures old(mode).action in {Some(Finish), Some(Cancel)} ==>
        isFinished && mode == old(mode) && stops == old(stops)
        && sent == [StationDeparture(stops[at].stationId)]
      ensures old(mode).action in {None, Some(Wait), Some(Delayed)} ==>
        isFinished == old(isFinished) && mode == old(mode) && stops == old(stops) && sent == []
      ensures old(mode).action == Some(Depart) ==>
        var step := DepartStep(old(stops)[at].stationId, old(stops)[at + 1].stationId, route, entry, t);
        isFinished == old(isFinished) && sent == step.1
        && (step.0.None? ==> mode == old(mode) && stops == old(stops))
        && (step.0.Some? ==> mode == OnSegment(NewRun(step.0.value))
                             && stops == old(stops)[at := old(stops)[at].(departedAt := Some(t))])
    {
      ProgressLookups(stops, at, false);
      var current := CurrentStop();
      var k := current.value;
      match mode.action
      case Some(Finish) =>
        isFinished := true;
        sent := [StationDeparture(stops[k].stationId)];
      case Some(Cancel) =>
        isFinished := true;
        sent := [StationDeparture(stops[k].stationId)];
      case Some(Wait) =>
        sent := [];
      case Some(Delayed) =>
        sent := [];
      case None =>
        sent := [];
      case Some(Depart) =>
        var next := NextStop();
        sent := [PathRequest(stops[k].stationId, stops[next.value].stationId)];
        if route.PathErr? || |route.segments| == 0 {
          return;
        }
        sent := sent + [SegmentEntry(route.segments[0].id, t)];
        if entry != Granted {
          return;
        }
        sent := sent + [StationDeparture(stops[k].stationId)];
        stops := stops[k := stops[k].(departedAt := Some(t))];
        mode := OnSegment(NewRun(route.segments));
    }

    /**
     * The act phase on a path. `reply` answers the one request this step sends, if
     * any: the station demand, the next segment's entry or the station entry.
     */
    method ActOnSegment(t: int, reply: Reply) returns (sent: seq<Outbound>)
      requires Valid() && mode.OnSegment?
      modifies this
      ensures Valid() && isFinished == old(isFinished)
      ensures var step := SegmentStep(old(mode).run, t, reply, NextStationId(old(stops)));
        sent == step.1
        && (step.0.Continue? ==> mode == OnSegment(step.0.run) && at == old(at) && stops == old(stops))
        && (step.0.Arrive? ==>
              mode == AtStation(None) && at == old(at) + 1
              && stops == old(stops)[old(at) + 1 := old(stops)[old(at) + 1].(arrivedAt := Some(t))])
    {
      ProgressLookups(stops, at, true);
      var run := mode.run;
      var seg := run.segments[run.currentIndex];
      run := run.(position := run.position + run.speed * TickSeconds);
      sent := [SegmentPosition(seg.id, run.position, run.speed)];
      var approaching := run.position >= 0.9 * seg.length && run.currentIndex + 1 >= |run.segments| && !run.announced;
      if approaching {
        var next := NextStop();
        if next.None? {
          // the next stop exists while the train is on a path
          assert false;
        }
        sent := sent + [StationDemand(stops[next.value].stationId, seg.id, run.delay, t + run.delay - run.remainingTime)];
        if reply == Granted {
          run := run.(announced := true);
        }
        mode := OnSegment(run);
        return;
      }
      if run.position < seg.length {
        mode := OnSegment(run);
        return;
      }
      var overflow := run.position - seg.length;
      if run.currentIndex + 1 < |run.segments| {
        run := run.(currentIndex := run.currentIndex + 1);
        var nextSeg := run.segments[run.currentIndex];
        sent := sent + [SegmentEntry(nextSeg.id, t)];
        if reply != Granted {
          run := run.(currentIndex := run.currentIndex - 1, position := seg.length - 1.0);
          mode := OnSegment(run);
          return;
        }
        run := run.(position := overflow);
        sent := sent + [SegmentExit(seg.id)];
        mode := OnSegment(run);
        return;
      }
      var next := NextStop();
      if next.None? {
        // the next stop exists while the train is on a path
        assert false;
      }
      sent := sent + [StationEntry(stops[next.value].stationId, seg.id, t)];
      if reply == Failed {
        mode := OnSegment(run);
        return;
      }
      if reply == Granted {
        sent := sent + [SegmentExit(seg.id)];
        ProgressArrive(stops, at, t);
        stops := stops[next.value := stops[next.value].(arrivedAt := Some(t))];
        at := at + 1;
        mode := AtStation(None);
      } else {
        run := run.(position := seg.length - 1.0);
        mode := OnSegment(run);
      }
    }

    /** The JSON object the engine writes for this train: its id, stops and event only. */
    function ToJson(): (j: Json)
      reads this
      ensures j.JObject? && j.fields.Keys == {"id", "stops", "event"}
    {
      JObject(map["id" := JString(id), "stops" := JArray(StopsJson(stops)), "event" := EventJson(event)])
    }
  }

  function StopsJson(v: seq<Stop>): (r: seq<Json>)
    ensures |r| == |v|
  {
    if v == [] then [] else [StopJson(v[0])] + StopsJson(v[1..])
  }

  function ParseStops(items: seq<Json>): Option<seq<Stop>>
  {
    if items == [] then Some([])
    else match (ParseStop(items[0]), ParseStops(items[1..]))
      case (Some(s), Some(rest)) => Some([s] + rest)
      case _ => None
  }

  lemma {:induction false} StopsJsonRoundTrip(v: seq<Stop>)
    ensures ParseStops(StopsJson(v)) == Some(v)
  {
    if v != [] {
      StopJsonRoundTrip(v[0]);
      StopsJsonRoundTrip(v[1..]);
      var items := StopsJson(v);
      assert items[0] == StopJson(v[0]) && items[1..] == StopsJson(v[1..]);
      assert [v[0]] + v[1..] == v;
    }
  }

  function ParseTrain(j: Json): Option<TrainRecord>
  {
    if j.JObject? && "id" in j.fields && j.fields["id"].JString?
       && "stops" in j.fields && j.fields["stops"].JArray? && ParseStops(j.fields["stops"].items).Some?
       && "event" in j.fields && ParseEvent(j.fields["event"]).Some?
    then Some(TrainRecord(j.fields["id"].s, ParseStops(j.fields["stops"].items).value, ParseEvent(j.fields["event"]).value))
    else None
  }

  /** Decoding the published JSON gives back the id, every stop and the event. */
  lemma TrainJsonRoundTrip(tr: Train)
    ensures ParseTrain(tr.ToJson()) == Some(TrainRecord(tr.id, tr.stops, tr.event))
  {
    StopsJsonRoundTrip(tr.stops);
    EventJsonRoundTrip(tr.event);
  }
}
