/**
 * The arrival delays the analytics cards work on: for every train, every stop after
 * the first that the train has reached, the arrival delay in minutes.
 */
module Delays {

  import opened Common
  import opened TrainStops
  import opened Trains
  import opened Snapshot

  /** `(arrivedAt - arrival) / 1e9 / 60`, for a stop the train has reached. */
  function StopDelay(s: Stop): real
    requires s.arrivedAt.Some?
  {
    (s.arrivedAt.value - s.arrival) as real / NanosPerMinute as real
  }

  /** The delays of a train's stops, the first stop excluded, in stop order. */
  function TrainDelays(stops: seq<Stop>): (ds: seq<real>)
    ensures |ds| <= |stops|
  {
    if |stops| <= 1 then []
    else
      var last := stops[|stops| - 1];
      TrainDelays(stops[..|stops| - 1]) + (if last.arrivedAt.Some? then [StopDelay(last)] else [])
  }

  /** The delays of all trains, train after train in record order. */
  function CollectDelays(trains: Entries<TrainRecord>): seq<real>
  {
    if trains == [] then []
    else CollectDelays(trains[..|trains| - 1]) + TrainDelays(trains[|trains| - 1].1.stops)
  }

  /** Whether stop `i` contributes a delay: it is not the first one and has been reached. */
  predicate Counted(stops: seq<Stop>, i: int)
  {
    0 < i < |stops| && stops[i].arrivedAt.Some?
  }

  /** The number of counted stops among the first `n`. */
  function CountedBefore(stops: seq<Stop>, n: nat): nat
    requires n <= |stops|
  {
    if n == 0 then 0 else CountedBefore(stops, n - 1) + (if Counted(stops, n - 1) then 1 else 0)
  }

  /** A train yields exactly one delay per counted stop, and each is that stop's delay. */
  lemma {:induction false} TrainDelaysExact(stops: seq<Stop>)
    ensures |TrainDelays(stops)| == CountedBefore(stops, |stops|)
    ensures forall d :: d in TrainDelays(stops) ==> exists i :: Counted(stops, i) && d == StopDelay(stops[i])
  {
    if |stops| > 1 {
      var init := stops[..|stops| - 1];
      TrainDelaysExact(init);
      CountedAgree(init, stops, |stops| - 1);
      forall d | d in TrainDelays(init) ensures exists i :: Counted(stops, i) && d == StopDelay(stops[i]) {
        var i :| Counted(init, i) && d == StopDelay(init[i]);
        assert Counted(stops, i);
      }
    } else if |stops| == 1 {
      assert !Counted(stops, 0);
    }
  }

  /** The count over the first `n` stops only looks at those stops. */
  lemma {:induction false} CountedAgree(a: seq<Stop>, b: seq<Stop>, n: nat)
    requires n <= |a| && n <= |b| && a[..n] == b[..n]
    ensures CountedBefore(a, n) == CountedBefore(b, n)
  {
    if n > 0 {
      assert a[n - 1] == a[..n][n - 1] == b[..n][n - 1] == b[n - 1];
      assert a[..n - 1] == a[..n][..n - 1] == b[..n][..n - 1] == b[..n - 1];
      CountedAgree(a, b, n - 1);
    }
  }

  /** The delays of the counted stops from index `i` on, walking the stops forwards. */
  function DelaysFrom(stops: seq<Stop>, i: nat): seq<real>
    decreases |stops| - i
  {
    if i >= |stops| then []
    else (if stops[i].arrivedAt.Some? then [StopDelay(stops[i])] else []) + DelaysFrom(stops, i + 1)
  }

  /**
   * A train's delays are exactly the forward filter-and-map over its stops after the
   * first: the reached ones, each as its delay, in stop order.
   */
  lemma TrainDelaysInStopOrder(stops: seq<Stop>)
    ensures TrainDelays(stops) == DelaysFrom(stops, 1)
  {
    if |stops| <= 1 {
    } else {
      TrainDelaysSplit(stops, 1);
      assert stops[..1] == [stops[0]];
    }
  }

  /** Cutting the stops at `j`: the delays before the cut, then the forward walk after it. */
  lemma {:induction false} TrainDelaysSplit(stops: seq<Stop>, j: nat)
    requires 1 <= j <= |stops|
    ensures TrainDelays(stops) == TrainDelays(stops[..j]) + DelaysFrom(stops, j)
    decreases |stops| - j
  {
    if j == |stops| {
      assert stops[..j] == stops;
    } else {
      TrainDelaysSplit(stops, j + 1);
      assert stops[..j + 1][..j] == stops[..j];
      assert stops[..j + 1][j] == stops[j];
    }
  }

  /**
   * The nested loops of the statistics and distribution cards: every train in turn,
   * every stop of it, pushing the delay of each counted stop.
   */
  method ExtractDelays(trains: Entries<TrainRecord>) returns (delays: seq<real>)
    ensures delays == CollectDelays(trains)
  {
    delays := [];
    var k := 0;
    while k < |trains|
      invariant 0 <= k <= |trains|
      invariant delays == CollectDelays(trains[..k])
    {
      var stops := trains[k].1.stops;
      ghost var before := delays;
      var i := 0;
      while i < |stops|
        invariant 0 <= i <= |stops|
        invariant delays == before + TrainDelays(stops[..i])
      {
        assert stops[..i + 1][..i] == stops[..i];
        if i > 0 && stops[i].arrivedAt != None {
          delays := delays + [StopDelay(stops[i])];
        }
        i := i + 1;
      }
      assert stops[..|stops|] == stops;
      assert trains[..k + 1][..k] == trains[..k];
      k := k + 1;
    }
    assert trains[..|trains|] == trains;
  }
}
