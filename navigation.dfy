/**
 * Route finding. Every station holds a next-hop table: for each destination, the id
 * of the segment to take next. A route is found by following next hops from the
 * origin until the destination is reached, giving up on a revisited station, a
 * missing table entry, an unknown segment, or after 100 hops.
 */
module Navigation {

  import opened Common
  import opened Segments

  /** Station id -> destination station id -> id of the next segment to take. */
  type Paths = map<string, map<string, string>>

  /** The hop bound. */
  const MaxIterations: nat := 100

  datatype SegmentInfo = SegmentInfo(id: string, length: real, maxSpeed: real)

  datatype RouteError =
    | LoopDetected(station: string)
    | DeadEnd(station: string)
    | NoRoute(station: string)
    | MissingSegment(segmentId: string, station: string)
    | PathTooLong

  datatype PathResponse = PathOk(segments: seq<SegmentInfo>) | PathErr(error: RouteError)

  function Info(s: Segment): SegmentInfo
  {
    SegmentInfo(s.id, s.length, s.maxSpeed)
  }

  /**
   * Following next hops from `cur` with `fuel` hops left, the stations in `visited`
   * already passed and `acc` the segments collected so far.
   */
  function Walk(paths: Paths, db: map<string, Segment>, to: string,
                cur: string, visited: set<string>, acc: seq<SegmentInfo>, fuel: nat): PathResponse
    decreases fuel
  {
    if fuel == 0 then PathErr(PathTooLong)
    else if cur == to then PathOk(acc)
    else if cur in visited then PathErr(LoopDetected(cur))
    else if cur !in paths then PathErr(DeadEnd(cur))
    else if to !in paths[cur] then PathErr(NoRoute(cur))
    else if paths[cur][to] !in db then PathErr(MissingSegment(paths[cur][to], cur))
    else
      var seg := db[paths[cur][to]];
      Walk(paths, db, to, seg.toStationId, visited + {cur}, acc + [Info(seg)], fuel - 1)
  }

  /** The answer to a path request from `from` to `to`. */
  function Route(paths: Paths, db: map<string, Segment>, from: string, to: string): PathResponse
  {
    Walk(paths, db, to, from, {}, [], MaxIterations)
  }

  /**
   * `segs` leads from `cur` to `to` by next hops, passing no station of `visited`
   * and no station twice before arriving.
   */
  ghost predicate ChainFrom(paths: Paths, db: map<string, Segment>, to: string,
                            cur: string, visited: set<string>, segs: seq<SegmentInfo>)
    decreases |segs|
  {
    if segs == [] then cur == to
    else
      cur != to && cur !in visited && cur in paths && to in paths[cur] && paths[cur][to] in db
      && segs[0] == Info(db[paths[cur][to]])
      && ChainFrom(paths, db, to, db[paths[cur][to]].toStationId, visited + {cur}, segs[1..])
  }

  /** `segs` is the next-hop route from `from` to `to`, visiting no station twice. */
  ghost predicate Chain(paths: Paths, db: map<string, Segment>, from: string, to: string, segs: seq<SegmentInfo>)
  {
    ChainFrom(paths, db, to, from, {}, segs)
  }

  lemma {:induction false} WalkChain(paths: Paths, db: map<string, Segment>, to: string,
                                     cur: string, visited: set<string>, acc: seq<SegmentInfo>, fuel: nat,
                                     segs: seq<SegmentInfo>)
    ensures Walk(paths, db, to, cur, visited, acc, fuel) == PathOk(acc + segs)
        <==> ChainFrom(paths, db, to, cur, visited, segs) && |segs| < fuel
    decreases fuel
  {
    if fuel == 0 {
    } else if cur == to {
      if segs != [] {
        assert |acc + segs| != |acc|;
      } else {
        assert acc + segs == acc;
      }
    } else if cur in visited || cur !in paths || to !in paths[cur] || paths[cur][to] !in db {
    } else {
      var seg := db[paths[cur][to]];
      if segs == [] {
        WalkOk(paths, db, to, seg.toStationId, visited + {cur}, acc + [Info(seg)], fuel - 1);
        assert acc + segs == acc;
      } else {
        WalkChain(paths, db, to, seg.toStationId, visited + {cur}, acc + [Info(seg)], fuel - 1, segs[1..]);
        assert acc + [Info(seg)] + segs[1..] == acc + ([Info(seg)] + segs[1..]);
        assert [segs[0]] + segs[1..] == segs;
        if Walk(paths, db, to, cur, visited, acc, fuel) == PathOk(acc + segs) {
          assert (acc + segs)[|acc|] == segs[0];
          assert (acc + [Info(seg)])[|acc|] == Info(seg);
          WalkOk(paths, db, to, seg.toStationId, visited + {cur}, acc + [Info(seg)], fuel - 1);
        }
      }
    }
  }

  /** A successful walk only ever extends what it was given. */
  lemma {:induction false} WalkOk(paths: Paths, db: map<string, Segment>, to: string,
                                  cur: string, visited: set<string>, acc: seq<SegmentInfo>, fuel: nat)
    ensures Walk(paths, db, to, cur, visited, acc, fuel).PathOk? ==>
      |Walk(paths, db, to, cur, visited, acc, fuel).segments| >= |acc|
      && Walk(paths, db, to, cur, visited, acc, fuel).segments[..|acc|] == acc
    decreases fuel
  {
    if fuel > 0 && cur != to && cur !in visited && cur in paths && to in paths[cur] && paths[cur][to] in db {
      var seg := db[paths[cur][to]];
      WalkOk(paths, db, to, seg.toStationId, visited + {cur}, acc + [Info(seg)], fuel - 1);
      var r := Walk(paths, db, to, seg.toStationId, visited + {cur}, acc + [Info(seg)], fuel - 1);
      if r.PathOk? {
        assert r.segments[..|acc|] == (r.segments[..|acc| + 1])[..|acc|];
      }
    }
  }

  /**
   * A request succeeds with `segs` exactly when `segs` is the loop-free next-hop
   * route from `from` to `to` and it has fewer than 100 segments.
   */
  lemma RouteIsChain(paths: Paths, db: map<string, Segment>, from: string, to: string, segs: seq<SegmentInfo>)
    ensures Route(paths, db, from, to) == PathOk(segs) <==> Chain(paths, db, from, to, segs) && |segs| < MaxIterations
  {
    WalkChain(paths, db, to, from, {}, [], MaxIterations, segs);
    assert [] + segs == segs;
  }

  /** Asking for the station one is at yields the empty route. */
  lemma RouteToSelf(paths: Paths, db: map<string, Segment>, s: string)
    ensures Route(paths, db, s, s) == PathOk([])
  {
  }

  lemma {:induction false} SubsetCardinality(a: set<string>, b: set<string>)
    requires a <= b
    ensures |a| <= |b|
    decreases |b|
  {
    if a != {} {
      var x :| x in a;
      SubsetCardinality(a - {x}, b - {x});
    }
  }

  lemma {:induction false} WalkNotTooLong(paths: Paths, db: map<string, Segment>, to: string,
                                          cur: string, visited: set<string>, acc: seq<SegmentInfo>, fuel: nat)
    requires visited <= paths.Keys && |paths| < |visited| + fuel
    ensures Walk(paths, db, to, cur, visited, acc, fuel) != PathErr(PathTooLong)
    decreases fuel
  {
    SubsetCardinality(visited, paths.Keys);
    if fuel > 0 && cur != to && cur !in visited && cur in paths && to in paths[cur] && paths[cur][to] in db {
      var seg := db[paths[cur][to]];
      WalkNotTooLong(paths, db, to, seg.toStationId, visited + {cur}, acc + [Info(seg)], fuel - 1);
    }
  }

  /**
   * The hop limit only bites on networks with at least 100 routing stations: on a
   * smaller one, a walk that does not arrive revisits a station or hits a missing entry first.
   */
  lemma RouteLimitNeedsLargeNetwork(paths: Paths, db: map<string, Segment>, from: string, to: string)
    requires |paths| < MaxIterations
    ensures Route(paths, db, from, to) != PathErr(PathTooLong)
  {
    WalkNotTooLong(paths, db, to, from, {}, [], MaxIterations);
  }

  class NavigationService {
    const paths: Paths
    /** The segment database, shared with the rest of the simulation. */
    const segments: map<string, Segment>

    constructor(paths: Paths, segments: map<string, Segment>)
      ensures this.paths == paths && this.segments == segments
    {
      this.paths := paths;
      this.segments := segments;
    }

    /** Answers a path request; the answer is the route of the next-hop tables. */
    method HandlePathRequest(from: string, to: string) returns (resp: PathResponse)
      ensures resp == Route(paths, segments, from, to)
    {
      var segs: seq<SegmentInfo> := [];
      var cur := from;
      var visited: set<string> := {};
      var i := 0;
      while i < MaxIterations
        invariant 0 <= i <= MaxIterations
        invariant Walk(paths, segments, to, cur, visited, segs, MaxIterations - i) == Route(paths, segments, from, to)
      {
        if cur == to {
          return PathOk(segs);
        }
        if cur in visited {
          return PathErr(LoopDetected(cur));
        }
        visited := visited + {cur};
        if cur !in paths {
          return PathErr(DeadEnd(cur));
        }
        var toMap := paths[cur];
        if to !in toMap {
          return PathErr(NoRoute(cur));
        }
        var segmentId := toMap[to];
        if segmentId !in segments {
          return PathErr(MissingSegment(segmentId, cur));
        }
        var segment := segments[segmentId];
        segs := segs + [SegmentInfo(segment.id, segment.length, segment.maxSpeed)];
        cur := segment.toStationId;
        i := i + 1;
      }
      return PathErr(PathTooLong);
    }
  }
}
