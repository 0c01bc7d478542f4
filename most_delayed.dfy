/**
 * The two rankings of the analytics dialog: the five trains with the greatest delay
 * at the last stop they reached, and the five stations with the greatest average
 * arrival delay. A click on a row selects that train or station and closes the
 * dialog.
 */
module MostDelayed {

  import opened Common
  import opened Sorting
  import opened TrainStops
  import opened Trains
  import opened Snapshot
  import opened Delays
  import opened Selection
  import opened SimulationProvider

  /** Both rankings list at most five rows. */
  const TopCount: nat := 5

  /**
   * `sort((a, b) => key(b) - key(a)).slice(0, 5)`, written with `down` the negated
   * key: the rows sorted ascending by `down` (descending by the key, ties in their
   * original order), then the first five.
   */
  function Top<T>(s: seq<T>, down: T -> real): seq<T>
  {
    Take(Sort(s, down), TopCount)
  }

  /**
   * The ranking: at most five rows, all taken from the input, in order of the key,
   * and no row left out ranks above a row kept.
   */
  lemma TopDominates<T>(s: seq<T>, down: T -> real)
    ensures |Top(s, down)| == if |s| < TopCount then |s| else TopCount
    ensures multiset(Top(s, down)) <= multiset(s)
    ensures forall i, j :: 0 <= i < j < |Top(s, down)| ==> down(Top(s, down)[i]) <= down(Top(s, down)[j])
    ensures forall x, y :: x in multiset(s) - multiset(Top(s, down)) && y in Top(s, down) ==> down(y) <= down(x)
  {
    var sorted := Sort(s, down);
    SortIsSortedPermutation(s, down);
    assert |sorted| == |multiset(sorted)| == |multiset(s)| == |s|;
    PrefixDominates(sorted, |Top(s, down)|, down);
  }

  /** In a sorted sequence, every element of a prefix is at most every element after it. */
  lemma PrefixDominates<T>(sorted: seq<T>, n: nat, down: T -> real)
    requires SortedBy(sorted, down) && n <= |sorted|
    ensures multiset(sorted[..n]) <= multiset(sorted)
    ensures forall x, y :: x in multiset(sorted) - multiset(sorted[..n]) && y in sorted[..n] ==> down(y) <= down(x)
  {
    var top, rest := sorted[..n], sorted[n..];
    assert sorted == top + rest;
    assert multiset(sorted) == multiset(top) + multiset(rest);
    forall x, y | x in multiset(sorted) - multiset(top) && y in top ensures down(y) <= down(x) {
      assert x in multiset(rest);
      var j :| 0 <= j < |rest| && rest[j] == x;
      var i :| 0 <= i < |top| && top[i] == y;
      assert sorted[i] == y && sorted[n + j] == x;
    }
  }

  // The trains ranking.

  /** The last stop after the first that the train has reached, if any. */
  function LastReached(stops: seq<Stop>): (r: Option<nat>)
    ensures r.Some? ==> 0 < r.value < |stops| && stops[r.value].arrivedAt.Some?
    ensures r.Some? ==> forall i :: r.value < i < |stops| ==> stops[i].arrivedAt.None?
    ensures r.None? ==> forall i :: 0 < i < |stops| ==> stops[i].arrivedAt.None?
  {
    if |stops| <= 1 then None
    else if stops[|stops| - 1].arrivedAt.Some? then Some(|stops| - 1)
    else LastReached(stops[..|stops| - 1])
  }

  /** The card's backward search, from the last stop down to the second one. */
  method LastCompletedStop(stops: seq<Stop>) returns (r: Option<nat>)
    ensures r == LastReached(stops)
  {
    var i: int := |stops| - 1;
    while i > 0
      invariant -1 <= i < |stops|
      invariant forall k :: i < k < |stops| ==> stops[k].arrivedAt.None?
      decreases i
    {
      if stops[i].arrivedAt != None {
        return Some(i);
      }
      i := i - 1;
    }
    return None;
  }

  /** One row of the trains ranking. */
  datatype TrainDelay = TrainDelay(trainId: string, delayMinutes: real)

  /** The row of a train: its delay at the last stop it reached; none before it reached any. */
  function LastDelay(t: TrainRecord): Option<TrainDelay>
  {
    match LastReached(t.stops)
    case None => None
    case Some(i) => Some(TrainDelay(t.id, StopDelay(t.stops[i])))
  }

  /** The rows of all trains that have a last reached stop, in record order. */
  function LastDelays(trains: Entries<TrainRecord>): seq<TrainDelay>
  {
    if trains == [] then []
    else
      var last := LastDelay(trains[|trains| - 1].1);
      LastDelays(trains[..|trains| - 1]) + (if last.Some? then [last.value] else [])
  }

  /** The rows are exactly the rows of the trains that reached a stop after their first. */
  lemma {:induction false} LastDelaysExact(trains: Entries<TrainRecord>)
    ensures forall x :: x in LastDelays(trains) ==> exists k :: 0 <= k < |trains| && LastDelay(trains[k].1) == Some(x)
    ensures forall k :: 0 <= k < |trains| && LastDelay(trains[k].1).Some? ==> LastDelay(trains[k].1).value in LastDelays(trains)
  {
    if trains != [] {
      var init := trains[..|trains| - 1];
      LastDelaysExact(init);
      forall x | x in LastDelays(trains) ensures exists k :: 0 <= k < |trains| && LastDelay(trains[k].1) == Some(x) {
        if x in LastDelays(init) {
          var k :| 0 <= k < |init| && LastDelay(init[k].1) == Some(x);
          assert trains[k] == init[k];
        }
      }
      forall k | 0 <= k < |trains| && LastDelay(trains[k].1).Some? ensures LastDelay(trains[k].1).value in LastDelays(trains) {
        if k < |init| {
          assert trains[k] == init[k];
        }
      }
    }
  }

  /** The card's loop over the trains, pushing the row of every train that has one. */
  method CollectLastDelays(trains: Entries<TrainRecord>) returns (rows: seq<TrainDelay>)
    ensures rows == LastDelays(trains)
  {
    rows := [];
    var k := 0;
    while k < |trains|
      invariant 0 <= k <= |trains|
      invariant rows == LastDelays(trains[..k])
    {
      var train := trains[k].1;
      var last := LastCompletedStop(train.stops);
      if last.Some? {
        rows := rows + [TrainDelay(train.id, StopDelay(train.stops[last.value]))];
      }
      assert trains[..k + 1][..k] == trains[..k];
      k := k + 1;
    }
    assert trains[..|trains|] == trains;
  }

  function NegDelay(t: TrainDelay): real { -t.delayMinutes }

  /** The trains ranking: no rows without a snapshot. */
  method MostDelayedTrains(state: Option<Simulation>) returns (top: seq<TrainDelay>)
    ensures state.None? ==> top == []
    ensures state.Some? ==> top == Top(LastDelays(state.value.trains), NegDelay)
  {
    if state.None? {
      return [];
    }
    var rows := CollectLastDelays(state.value.trains);
    top := Top(rows, NegDelay);
  }

  /**
   * The trains ranking lists the five greatest delays, greatest first: every row
   * belongs to a train, and no train left out is later than one listed.
   */
  lemma TrainsRanking(trains: Entries<TrainRecord>)
    ensures var all := LastDelays(trains); var top := Top(all, NegDelay);
      |top| == (if |all| < TopCount then |all| else TopCount)
      && (forall i, j :: 0 <= i < j < |top| ==> top[i].delayMinutes >= top[j].delayMinutes)
      && (forall x :: x in top ==> exists k :: 0 <= k < |trains| && LastDelay(trains[k].1) == Some(x))
      && (forall x, y :: x in multiset(all) - multiset(top) && y in top ==> x.delayMinutes <= y.delayMinutes)
  {
    var all := LastDelays(trains);
    var top := Top(all, NegDelay);
    TopDominates(all, NegDelay);
    forall i, j | 0 <= i < j < |top| ensures top[i].delayMinutes >= top[j].delayMinutes {
      assert NegDelay(top[i]) <= NegDelay(top[j]);
    }
    forall x, y | x in multiset(all) - multiset(top) && y in top ensures x.delayMinutes <= y.delayMinutes {
      assert NegDelay(y) <= NegDelay(x);
    }
    LastDelaysExact(trains);
    forall x | x in top ensures exists k :: 0 <= k < |trains| && LastDelay(trains[k].1) == Some(x) {
      assert x in multiset(top);
      assert x in all;
    }
  }

  /** A click on a train row: the train is selected and the dialog closes. */
  method OpenTrain(selection: TrainSelection, controller: SimulationController, trainId: string)
    modifies selection, controller
    ensures selection.selectedTrainId == Some(trainId)
    ensures !controller.isAnalyticsDialogOpen
    ensures controller.state == old(controller.state) && controller.isPlaying == old(controller.isPlaying)
  {
    selection.SelectTrain(trainId);
    controller.SetIsAnalyticsDialogOpen(false);
  }

  // The stations ranking.

  /** The station and the delay of every counted stop of a train, in stop order. */
  function StopStationDelays(stops: seq<Stop>): seq<(string, real)>
  {
    if |stops| <= 1 then []
    else
      var last := stops[|stops| - 1];
      StopStationDelays(stops[..|stops| - 1]) + (if last.arrivedAt.Some? then [(last.stationId, StopDelay(last))] else [])
  }

  /** The counted stops of all trains, train after train. */
  function StationDelayPairs(trains: Entries<TrainRecord>): seq<(string, real)>
  {
    if trains == [] then []
    else StationDelayPairs(trains[..|trains| - 1]) + StopStationDelays(trains[|trains| - 1].1.stops)
  }

  /** The delays recorded for station `id`, in the order they were met. */
  function DelaysAt(ps: seq<(string, real)>, id: string): seq<real>
  {
    if ps == [] then []
    else DelaysAt(ps[..|ps| - 1], id) + (if ps[|ps| - 1].0 == id then [ps[|ps| - 1].1] else [])
  }

  /** `stationDelays[id] ??= []; stationDelays[id].push(d)`. */
  function AddDelay(groups: Entries<seq<real>>, p: (string, real)): Entries<seq<real>>
  {
    match KeyIndex(groups, p.0)
    case Some(i) => groups[i := (p.0, groups[i].1 + [p.1])]
    case None => groups + [(p.0, [p.1])]
  }

  /** The groups after pushing every pair of `ps` in turn. */
  function GroupAll(groups: Entries<seq<real>>, ps: seq<(string, real)>): Entries<seq<real>>
  {
    if ps == [] then groups else AddDelay(GroupAll(groups, ps[..|ps| - 1]), ps[|ps| - 1])
  }

  /** One group per station met, each holding exactly that station's delays, in order. */
  predicate Grouped(groups: Entries<seq<real>>, ps: seq<(string, real)>)
  {
    UniqueKeys(groups)
    && (forall i :: 0 <= i < |groups| ==> groups[i].1 == DelaysAt(ps, groups[i].0) && groups[i].1 != [])
    && (forall p :: p in ps ==> KeyIndex(groups, p.0).Some?)
  }

  /** A station without a group has no delay recorded. */
  lemma {:induction false} DelaysAtAbsent(ps: seq<(string, real)>, groups: Entries<seq<real>>, id: string)
    requires forall p :: p in ps ==> KeyIndex(groups, p.0).Some?
    requires KeyIndex(groups, id).None?
    ensures DelaysAt(ps, id) == []
  {
    if ps != [] {
      assert ps[|ps| - 1] in ps;
      assert forall p :: p in ps[..|ps| - 1] ==> p in ps;
      DelaysAtAbsent(ps[..|ps| - 1], groups, id);
    }
  }

  /** Pushing into an existing group keeps the other groups and extends that one. */
  lemma GroupedUpdate(groups: Entries<seq<real>>, ps: seq<(string, real)>, p: (string, real), at: nat)
    requires Grouped(groups, ps) && at < |groups| && groups[at].0 == p.0
    ensures Grouped(groups[at := (p.0, groups[at].1 + [p.1])], ps + [p])
  {
    var next := groups[at := (p.0, groups[at].1 + [p.1])];
    var qs := ps + [p];
    assert qs[..|ps|] == ps;
    forall i | 0 <= i < |next| ensures next[i].1 == DelaysAt(qs, next[i].0) {
      if i != at {
        assert groups[i].0 != groups[at].0;
      }
    }
    KeysKept(groups, next, ps, p);
  }

  /** A new group for a station met for the first time. */
  lemma GroupedAppend(groups: Entries<seq<real>>, ps: seq<(string, real)>, p: (string, real))
    requires Grouped(groups, ps) && KeyIndex(groups, p.0).None?
    ensures Grouped(groups + [(p.0, [p.1])], ps + [p])
  {
    var next := groups + [(p.0, [p.1])];
    var qs := ps + [p];
    assert qs[..|ps|] == ps;
    DelaysAtAbsent(ps, groups, p.0);
    assert DelaysAt(qs, p.0) == [p.1];
    forall i | 0 <= i < |groups| ensures next[i].1 == DelaysAt(qs, next[i].0) {
      assert next[i] == groups[i];
    }
    KeysKept(groups, next, ps, p);
  }

  /** Every station met keeps its group when groups are only extended, and the new one has its own. */
  lemma KeysKept(groups: Entries<seq<real>>, next: Entries<seq<real>>, ps: seq<(string, real)>, p: (string, real))
    requires |groups| <= |next| && forall i :: 0 <= i < |groups| ==> next[i].0 == groups[i].0
    requires forall q :: q in ps ==> KeyIndex(groups, q.0).Some?
    requires KeyIndex(next, p.0).Some?
    ensures forall q :: q in ps + [p] ==> KeyIndex(next, q.0).Some?
  {
    forall q | q in ps + [p] ensures KeyIndex(next, q.0).Some? {
      if q != p {
        assert q in ps;
        var k := KeyIndex(groups, q.0).value;
        assert next[k].0 == q.0;
      }
    }
  }

  lemma GroupedStep(groups: Entries<seq<real>>, ps: seq<(string, real)>, p: (string, real))
    requires Grouped(groups, ps)
    ensures Grouped(AddDelay(groups, p), ps + [p])
  {
    match KeyIndex(groups, p.0)
    case Some(at) => GroupedUpdate(groups, ps, p, at);
    case None => GroupedAppend(groups, ps, p);
  }

  /** Grouping all pairs from no group yields exactly one group per station met. */
  lemma {:induction false} GroupAllGroups(ps: seq<(string, real)>)
    ensures Grouped(GroupAll([], ps), ps)
  {
    if ps != [] {
      var init := ps[..|ps| - 1];
      GroupAllGroups(init);
      assert ps == init + [ps[|ps| - 1]];
      GroupedStep(GroupAll([], init), init, ps[|ps| - 1]);
    }
  }

  lemma StopStationDelaysSnoc(stops: seq<Stop>, i: nat)
    requires i < |stops|
    ensures StopStationDelays(stops[..i + 1]) == StopStationDelays(stops[..i])
      + (if i > 0 && stops[i].arrivedAt.Some? then [(stops[i].stationId, StopDelay(stops[i]))] else [])
  {
    assert stops[..i + 1][..i] == stops[..i];
  }

  /** One turn of the inner loop keeps the groups equal to the grouping of the pairs met so far. */
  lemma InnerStep(groups: Entries<seq<real>>, stops: seq<Stop>, i: nat, before: seq<(string, real)>)
    requires i < |stops| && groups == GroupAll([], before + StopStationDelays(stops[..i]))
    ensures i > 0 && stops[i].arrivedAt.Some? ==>
      AddDelay(groups, (stops[i].stationId, StopDelay(stops[i]))) == GroupAll([], before + StopStationDelays(stops[..i + 1]))
    ensures !(i > 0 && stops[i].arrivedAt.Some?) ==> groups == GroupAll([], before + StopStationDelays(stops[..i + 1]))
  {
    StopStationDelaysSnoc(stops, i);
    var pairs := before + StopStationDelays(stops[..i]);
    if i > 0 && stops[i].arrivedAt.Some? {
      var p := (stops[i].stationId, StopDelay(stops[i]));
      assert before + StopStationDelays(stops[..i + 1]) == pairs + [p];
      assert (pairs + [p])[..|pairs|] == pairs;
    } else {
      assert before + StopStationDelays(stops[..i + 1]) == pairs;
    }
  }

  /** The card's inner loop: every counted stop of one train, pushed into its station's group. */
  method GroupTrainStops(start: Entries<seq<real>>, stops: seq<Stop>, ghost before: seq<(string, real)>)
    returns (groups: Entries<seq<real>>)
    requires start == GroupAll([], before)
    ensures groups == GroupAll([], before + StopStationDelays(stops))
  {
    groups := start;
    assert stops[..0] == [];
    assert before + [] == before;
    var i := 0;
    while i < |stops|
      invariant 0 <= i <= |stops|
      invariant groups == GroupAll([], before + StopStationDelays(stops[..i]))
    {
      InnerStep(groups, stops, i, before);
      if i > 0 && stops[i].arrivedAt != None {
        groups := AddDelay(groups, (stops[i].stationId, StopDelay(stops[i])));
      }
      i := i + 1;
    }
    assert stops[..|stops|] == stops;
  }

  /** The card's outer loop, over the trains in record order. */
  method GroupStationDelays(trains: Entries<TrainRecord>) returns (groups: Entries<seq<real>>)
    ensures groups == GroupAll([], StationDelayPairs(trains))
  {
    groups := [];
    var k := 0;
    while k < |trains|
      invariant 0 <= k <= |trains|
      invariant groups == GroupAll([], StationDelayPairs(trains[..k]))
    {
      groups := GroupTrainStops(groups, trains[k].1.stops, StationDelayPairs(trains[..k]));
      assert trains[..k + 1][..k] == trains[..k];
      k := k + 1;
    }
    assert trains[..|trains|] == trains;
  }

  /** One row of the stations ranking. */
  datatype StationDelay = StationDelay(stationId: string, stationName: string, averageDelayMinutes: real, stopCount: nat)

  /** The average of a group; a group is never empty, where JavaScript would give `NaN`. */
  function Average(ds: seq<real>): real
  {
    if ds == [] then 0.0 else Sum(ds) / |ds| as real
  }

  /** The rows of the groups, in group order. */
  function StationRows(stations: Entries<StationView>, groups: Entries<seq<real>>): (rows: seq<StationDelay>)
    ensures |rows| == |groups|
    ensures forall i :: 0 <= i < |groups| ==>
      rows[i] == StationDelay(groups[i].0, StationNameOr(stations, groups[i].0), Average(groups[i].1), |groups[i].1|)
  {
    if groups == [] then []
    else
      [StationDelay(groups[0].0, StationNameOr(stations, groups[0].0), Average(groups[0].1), |groups[0].1|)]
        + StationRows(stations, groups[1..])
  }

  predicate HasStops(row: StationDelay) { row.stopCount > 0 }

  function NegAverage(row: StationDelay): real { -row.averageDelayMinutes }

  /** The stations ranking: no rows without a snapshot. */
  method MostDelayedStations(state: Option<Simulation>) returns (top: seq<StationDelay>)
    ensures state.None? ==> top == []
    ensures state.Some? ==> top == Top(Filter(StationRows(state.value.stations,
      GroupAll([], StationDelayPairs(state.value.trains))), HasStops), NegAverage)
  {
    if state.None? {
      return [];
    }
    var groups := GroupStationDelays(state.value.trains);
    top := Top(Filter(StationRows(state.value.stations, groups), HasStops), NegAverage);
  }

  /** The `stopCount > 0` filter never removes a row, since every group holds a delay. */
  lemma {:induction false} FilterKeepsEveryRow(rows: seq<StationDelay>)
    requires forall i :: 0 <= i < |rows| ==> rows[i].stopCount > 0
    ensures Filter(rows, HasStops) == rows
  {
    if rows != [] {
      FilterKeepsEveryRow(rows[1..]);
    }
  }

  /**
   * Every row of the stations ranking is one station met, once: its average is the
   * mean of all delays recorded at it and its count is their number.
   */
  lemma StationRowsExact(stations: Entries<StationView>, trains: Entries<TrainRecord>)
    ensures var ps := StationDelayPairs(trains);
      var rows := StationRows(stations, GroupAll([], ps));
      Filter(rows, HasStops) == rows
      && (forall i, j :: 0 <= i < j < |rows| ==> rows[i].stationId != rows[j].stationId)
      && (forall i :: 0 <= i < |rows| ==>
            rows[i].stopCount == |DelaysAt(ps, rows[i].stationId)| > 0
            && rows[i].averageDelayMinutes == Sum(DelaysAt(ps, rows[i].stationId)) / rows[i].stopCount as real
            && rows[i].stationName == StationNameOr(stations, rows[i].stationId))
      && (forall p :: p in ps ==> exists i :: 0 <= i < |rows| && rows[i].stationId == p.0)
  {
    var ps := StationDelayPairs(trains);
    var groups := GroupAll([], ps);
    GroupAllGroups(ps);
    var rows := StationRows(stations, groups);
    FilterKeepsEveryRow(rows);
    forall p | p in ps ensures exists i :: 0 <= i < |rows| && rows[i].stationId == p.0 {
      var i := KeyIndex(groups, p.0).value;
      assert rows[i].stationId == p.0;
    }
  }

  /** The stations ranking lists the five greatest averages, greatest first. */
  lemma StationsRanking(rows: seq<StationDelay>)
    ensures var top := Top(rows, NegAverage);
      (forall i, j :: 0 <= i < j < |top| ==> top[i].averageDelayMinutes >= top[j].averageDelayMinutes)
      && (forall x, y :: x in multiset(rows) - multiset(top) && y in top ==> x.averageDelayMinutes <= y.averageDelayMinutes)
  {
    TopDominates(rows, NegAverage);
  }

  /** A click on a station row: the station is selected and the dialog closes. */
  method OpenStation(selection: StationSelection, controller: SimulationController, stationId: string)
    modifies selection, controller
    ensures selection.selectedStationId == Some(stationId)
    ensures !controller.isAnalyticsDialogOpen
    ensures controller.state == old(controller.state) && controller.isPlaying == old(controller.isPlaying)
  {
    selection.SelectStation(stationId);
    controller.SetIsAnalyticsDialogOpen(false);
  }
}
