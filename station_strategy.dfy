/**
 * Ordering policies for a station's queue of trains demanding entry. A train is
 * admitted only if it sits among the first free-slot positions of that queue, so the
 * policy decides who enters first.
 */
module StationStrategy {

  import opened Sorting

  /** A train waiting to enter: its reported delay and its expected entry time (ns). */
  datatype Demand = Demand(trainId: string, delay: int, entryTime: int)

  datatype Strategy = NoSort | EntryTimeAsc | DelayAsc | DelayAscWithThreshold

  /** Thirty minutes, in nanoseconds. */
  const Threshold: int := 30 * 60 * 1_000_000_000

  function EntryKey(d: Demand): real { d.entryTime as real }

  function DelayKey(d: Demand): real { d.delay as real }

  /** The comparator the threshold policy hands to the stable sort. */
  predicate ThresholdLess(a: Demand, b: Demand)
  {
    var aOk := a.delay <= Threshold;
    var bOk := b.delay <= Threshold;
    if aOk != bOk then aOk else a.delay < b.delay
  }

  /**
   * The comparator puts trains at most thirty minutes late first, but plain
   * ascending delay already does that: the two comparators agree on every pair.
   */
  lemma ThresholdLessIsDelayLess(a: Demand, b: Demand)
    ensures ThresholdLess(a, b) <==> a.delay < b.delay
  {
  }

  /** The "less" relation of each policy; `NoSort` orders nothing. */
  predicate Less(st: Strategy, a: Demand, b: Demand)
  {
    match st
    case NoSort => false
    case EntryTimeAsc => a.entryTime < b.entryTime
    case DelayAsc => a.delay < b.delay
    case DelayAscWithThreshold => ThresholdLess(a, b)
  }

  /** No later demand is strictly less than an earlier one. */
  ghost predicate OrderedBy(st: Strategy, q: seq<Demand>)
  {
    forall i, j :: 0 <= i < j < |q| ==> !Less(st, q[j], q[i])
  }

  /**
   * What a policy's sort is allowed to produce from `q`. The unstable `sort.Slice`
   * promises only an ordered permutation; the threshold policy's `sort.SliceStable`
   * also keeps equal-delay demands in their previous order.
   */
  ghost predicate Sorts(st: Strategy, q: seq<Demand>, r: seq<Demand>)
  {
    match st
    case NoSort => r == q
    case EntryTimeAsc => multiset(r) == multiset(q) && OrderedBy(st, r)
    case DelayAsc => multiset(r) == multiset(q) && OrderedBy(st, r)
    case DelayAscWithThreshold =>
      multiset(r) == multiset(q) && OrderedBy(st, r)
      && forall v: real {:trigger WithKey(q, DelayKey, v)} ::
           WithKey(r, DelayKey, v) == WithKey(q, DelayKey, v)
  }

  /** Applies a policy to a queue (for the unstable policies, one admissible outcome). */
  function SortDemands(st: Strategy, q: seq<Demand>): (r: seq<Demand>)
    ensures Sorts(st, q, r)
  {
    match st
    case NoSort => q
    case EntryTimeAsc =>
      SortIsSortedPermutation(q, EntryKey);
      Sort(q, EntryKey)
    case DelayAsc =>
      SortIsSortedPermutation(q, DelayKey);
      Sort(q, DelayKey)
    case DelayAscWithThreshold =>
      SortIsSortedPermutation(q, DelayKey);
      forall a, b ensures ThresholdLess(a, b) <==> a.delay < b.delay {
        ThresholdLessIsDelayLess(a, b);
      }
      forall v: real ensures WithKey(Sort(q, DelayKey), DelayKey, v) == WithKey(q, DelayKey, v) {
        SortIsStable(q, DelayKey, v);
      }
      Sort(q, DelayKey)
  }

  /** After the threshold policy, every train at most thirty minutes late precedes every later one. */
  lemma ThresholdPolicyServesPunctualFirst(q: seq<Demand>, r: seq<Demand>, i: int, j: int)
    requires Sorts(DelayAscWithThreshold, q, r)
    requires 0 <= i < |r| && 0 <= j < |r|
    requires r[i].delay <= Threshold < r[j].delay
    ensures i < j
  {
  }

  /** The policy named in the configuration; unknown names (including "no_sort") leave the queue as is. */
  function NewStationStrategy(name: string): (st: Strategy)
    ensures name == "entry_time_asc" <==> st == EntryTimeAsc
    ensures name == "delay_asc" <==> st == DelayAsc
    ensures name == "delay_asc_with_threshold" <==> st == DelayAscWithThreshold
    ensures name !in {"entry_time_asc", "delay_asc", "delay_asc_with_threshold"} <==> st == NoSort
  {
    if name == "entry_time_asc" then EntryTimeAsc
    else if name == "delay_asc" then DelayAsc
    else if name == "delay_asc_with_threshold" then DelayAscWithThreshold
    else NoSort
  }

  /** The configuration name of a policy, as the start dialog sends it. */
  function StrategyName(st: Strategy): string
  {
    match st
    case NoSort => "no_sort"
    case EntryTimeAsc => "entry_time_asc"
    case DelayAsc => "delay_asc"
    case DelayAscWithThreshold => "delay_asc_with_threshold"
  }

  lemma StrategyNameRoundTrip(st: Strategy)
    ensures NewStationStrategy(StrategyName(st)) == st
  {
  }
}
