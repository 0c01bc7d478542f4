/**
 * The three charts of the analytics dialog built from the trains' events: how many
 * trains each delay cause struck, the average delay duration per cause, and how
 * many trains had a delay, a cancellation or no event.
 */
module EventCharts {

  import opened Common
  import opened Events
  import opened Trains
  import opened Snapshot
  import opened Numbers

  /** The French label of a cause. */
  function CauseLabel(c: DelayCause): string
  {
    match c
    case External => "Externe"
    case Infrastructure => "Infrastructure"
    case Traffic => "Trafic"
    case RollingStock => "Matériel roulant"
    case Station => "Gare"
    case Passenger => "Passagers"
  }

  /** The bar colour of a cause. */
  function CauseColor(c: DelayCause): string
  {
    match c
    case External => "var(--color-chart-1)"
    case Infrastructure => "var(--color-chart-2)"
    case Traffic => "var(--color-chart-3)"
    case RollingStock => "var(--color-chart-4)"
    case Station => "var(--color-chart-5)"
    case Passenger => "var(--color-chart-6)"
  }

  /** The position of a cause among the six, which is also its place in the cards' records. */
  function CauseIndex(c: DelayCause): (i: nat)
    ensures i < |AllCauses| && AllCauses[i] == c
  {
    match c
    case External => 0
    case Infrastructure => 1
    case Traffic => 2
    case RollingStock => 3
    case Station => 4
    case Passenger => 5
  }

  /** The total of six numbers. */
  lemma SumSix(s: seq<int>)
    requires |s| == 6
    ensures SumInt(s) == s[0] + s[1] + s[2] + s[3] + s[4] + s[5]
  {
    SumIntFrom(s, 0);
    SumIntFrom(s, 1);
    SumIntFrom(s, 2);
    SumIntFrom(s, 3);
    SumIntFrom(s, 4);
    SumIntFrom(s, 5);
    assert s[0..] == s && s[6..] == [];
  }

  /** The sum of a suffix is its first element plus the sum of the rest. */
  lemma SumIntFrom(s: seq<int>, i: nat)
    requires i < |s|
    ensures SumInt(s[i..]) == s[i] + SumInt(s[i + 1..])
  {
    assert s[i..][1..] == s[i + 1..];
  }

  // Trains per delay cause.

  /** The number of trains whose event is a delay with cause `c`. */
  function CauseCount(trains: Entries<TrainRecord>, c: DelayCause): nat
  {
    if trains == [] then 0
    else
      var e := trains[|trains| - 1].1.event;
      CauseCount(trains[..|trains| - 1], c) + (if e.DelayEvent? && e.cause == c then 1 else 0)
  }

  /** The number of trains whose event is a delay. */
  function DelayedCount(trains: Entries<TrainRecord>): nat
  {
    if trains == [] then 0
    else DelayedCount(trains[..|trains| - 1]) + (if trains[|trains| - 1].1.event.DelayEvent? then 1 else 0)
  }

  /** The per-cause counts of the trains, in the order of the causes. */
  function CountsOf(trains: Entries<TrainRecord>): (counts: seq<nat>)
    ensures |counts| == |AllCauses|
    ensures forall c :: counts[CauseIndex(c)] == CauseCount(trains, c)
  {
    seq(|AllCauses|, i requires 0 <= i < |AllCauses| => CauseCount(trains, AllCauses[i]))
  }

  /** The counts after one more train: one more under its cause if it was delayed. */
  lemma CountsStep(trains: Entries<TrainRecord>, k: nat)
    requires k < |trains|
    ensures var e := trains[k].1.event;
      CountsOf(trains[..k + 1]) ==
        if e.DelayEvent? then CountsOf(trains[..k])[CauseIndex(e.cause) := CountsOf(trains[..k])[CauseIndex(e.cause)] + 1]
        else CountsOf(trains[..k])
  {
    assert trains[..k + 1][..k] == trains[..k];
  }

  /** Every delayed train is counted under exactly one cause. */
  lemma {:induction false} CauseCountsAddUp(trains: Entries<TrainRecord>)
    ensures SumInt(CountsOf(trains)) == DelayedCount(trains)
  {
    SumSix(CountsOf(trains));
    if trains != [] {
      var init := trains[..|trains| - 1];
      CauseCountsAddUp(init);
      SumSix(CountsOf(init));
      assert CountsOf(init)[0] == CauseCount(init, External);
    }
  }

  /** One bar of the delays-per-cause chart. */
  datatype CauseCountRow = CauseCountRow(cause: DelayCause, name: string, value: nat, fill: string)

  /** The bar of cause `c`, with its count. */
  function CountRow(c: DelayCause, counts: seq<nat>): CauseCountRow
    requires |counts| == |AllCauses|
  {
    CauseCountRow(c, CauseLabel(c), counts[CauseIndex(c)], CauseColor(c))
  }

  /** `Object.entries(counts).filter(value > 0)` over the causes from position `i` on. */
  function CountRows(counts: seq<nat>, i: nat): (rows: seq<CauseCountRow>)
    requires |counts| == |AllCauses| && i <= |AllCauses|
    ensures forall r :: r in rows ==> r.value > 0
    decreases |AllCauses| - i
  {
    if i == |AllCauses| then []
    else
      var row := CountRow(AllCauses[i], counts);
      (if row.value > 0 then [row] else []) + CountRows(counts, i + 1)
  }

  /** The bars are exactly the bars of the causes from position `i` on with a positive count. */
  lemma {:induction false} CountRowsMembers(counts: seq<nat>, i: nat)
    requires |counts| == |AllCauses| && i <= |AllCauses|
    ensures forall r :: r in CountRows(counts, i) <==> CauseIndex(r.cause) >= i && r == CountRow(r.cause, counts) && r.value > 0
    decreases |AllCauses| - i
  {
    if i < |AllCauses| {
      CountRowsMembers(counts, i + 1);
      assert CauseIndex(AllCauses[i]) == i;
    }
  }

  /** The values of the bars, added up. */
  function RowTotal(rows: seq<CauseCountRow>): nat
  {
    if rows == [] then 0 else rows[0].value + RowTotal(rows[1..])
  }

  /** Dropping the zero counts does not change the total. */
  lemma {:induction false} RowTotalIsSum(counts: seq<nat>, i: nat)
    requires |counts| == |AllCauses| && i <= |AllCauses|
    ensures RowTotal(CountRows(counts, i)) == SumInt(counts[i..])
    decreases |AllCauses| - i
  {
    if i < |AllCauses| {
      RowTotalIsSum(counts, i + 1);
      SumIntFrom(counts, i);
      var rest := CountRows(counts, i + 1);
      var row := CountRow(AllCauses[i], counts);
      CauseAtIndex(i);
      if row.value > 0 {
        assert CountRows(counts, i) == [row] + rest;
        RowTotalCons(row, rest);
      } else {
        assert CountRows(counts, i) == rest;
      }
    }
  }

  lemma RowTotalCons(row: CauseCountRow, rest: seq<CauseCountRow>)
    ensures RowTotal([row] + rest) == row.value + RowTotal(rest)
  {
    assert ([row] + rest)[1..] == rest;
  }

  /** The card's loop: one more for the cause of each delayed train. */
  method CountCauses(trains: Entries<TrainRecord>) returns (counts: seq<nat>)
    ensures counts == CountsOf(trains)
  {
    counts := [0, 0, 0, 0, 0, 0];
    var k := 0;
    while k < |trains|
      invariant 0 <= k <= |trains|
      invariant counts == CountsOf(trains[..k])
    {
      CountsStep(trains, k);
      var e := trains[k].1.event;
      if e.DelayEvent? {
        var i := CauseIndex(e.cause);
        counts := counts[i := counts[i] + 1];
      }
      k := k + 1;
    }
    assert trains[..|trains|] == trains;
  }

  /** The delays-per-cause chart: no bars without a snapshot. */
  method DelayByCause(state: Option<Simulation>) returns (rows: seq<CauseCountRow>)
    ensures state.None? ==> rows == []
    ensures state.Some? ==> rows == CountRows(CountsOf(state.value.trains), 0)
  {
    if state.None? {
      return [];
    }
    var counts := CountCauses(state.value.trains);
    rows := CountRows(counts, 0);
  }

  /**
   * The chart shows a bar for a cause exactly when it struck a train, with the number
   * of trains it struck, and the bars add up to the number of delayed trains.
   */
  lemma DelayByCauseExact(trains: Entries<TrainRecord>)
    ensures var rows := CountRows(CountsOf(trains), 0);
      RowTotal(rows) == DelayedCount(trains)
      && (forall r :: r in rows ==> r.value == CauseCount(trains, r.cause) > 0)
      && (forall c :: CountRow(c, CountsOf(trains)) in rows <==> CauseCount(trains, c) > 0)
  {
    RowTotalIsSum(CountsOf(trains), 0);
    CountRowsMembers(CountsOf(trains), 0);
    assert CountsOf(trains)[0..] == CountsOf(trains);
    CauseCountsAddUp(trains);
  }

  // Average delay duration per cause.

  /** `Math.floor(duration / 1e9 / 60)`: a delay's duration in whole minutes, rounded down. */
  function DurationMinutes(duration: int): (m: int)
    ensures m * NanosPerMinute <= duration < (m + 1) * NanosPerMinute
  {
    duration / NanosPerMinute
  }

  /** The durations, in whole minutes, of the delays with cause `c`, in train order. */
  function CauseDelays(trains: Entries<TrainRecord>, c: DelayCause): seq<int>
  {
    if trains == [] then []
    else
      var e := trains[|trains| - 1].1.event;
      CauseDelays(trains[..|trains| - 1], c) + (if e.DelayEvent? && e.cause == c then [DurationMinutes(e.duration)] else [])
  }

  /** The durations of each cause, in the order of the causes. */
  function DurationsOf(trains: Entries<TrainRecord>): (groups: seq<seq<int>>)
    ensures |groups| == |AllCauses|
    ensures forall c :: groups[CauseIndex(c)] == CauseDelays(trains, c)
  {
    seq(|AllCauses|, i requires 0 <= i < |AllCauses| => CauseDelays(trains, AllCauses[i]))
  }

  /** One more train adds its duration to its own cause's durations only. */
  lemma CauseDelaysStep(trains: Entries<TrainRecord>, k: nat, c: DelayCause)
    requires k < |trains|
    ensures var e := trains[k].1.event;
      CauseDelays(trains[..k + 1], c) ==
        CauseDelays(trains[..k], c) + (if e.DelayEvent? && e.cause == c then [DurationMinutes(e.duration)] else [])
  {
    assert trains[..k + 1][..k] == trains[..k];
  }

  /** The durations after one more train: its duration pushed under its cause if it was delayed. */
  lemma DurationsStep(trains: Entries<TrainRecord>, k: nat)
    requires k < |trains|
    ensures var e := trains[k].1.event;
      var before := DurationsOf(trains[..k]);
      DurationsOf(trains[..k + 1]) ==
        if e.DelayEvent? then before[CauseIndex(e.cause) := before[CauseIndex(e.cause)] + [DurationMinutes(e.duration)]]
        else before
  {
    var e := trains[k].1.event;
    var before := DurationsOf(trains[..k]);
    var after := DurationsOf(trains[..k + 1]);
    if e.DelayEvent? {
      var j := CauseIndex(e.cause);
      var expected := before[j := before[j] + [DurationMinutes(e.duration)]];
      forall i | 0 <= i < |AllCauses| ensures after[i] == expected[i] {
        CauseAtIndex(i);
        CauseDelaysStep(trains, k, AllCauses[i]);
      }
      assert after == expected;
    } else {
      forall i | 0 <= i < |AllCauses| ensures after[i] == before[i] {
        CauseAtIndex(i);
        CauseDelaysStep(trains, k, AllCauses[i]);
      }
      assert after == before;
    }
  }

  lemma CauseAtIndex(i: nat)
    requires i < |AllCauses|
    ensures CauseIndex(AllCauses[i]) == i
  {
  }

  /** `Math.round(sum / count)`; none for a cause without delays, where JavaScript gets `NaN`. */
  function RoundedAverage(ds: seq<int>): Option<int>
  {
    if ds == [] then None else Some(Round(SumInt(ds) as real / |ds| as real))
  }

  /** Delays of at least a minute each average to at least a minute. */
  lemma LongAverage(ds: seq<int>)
    requires ds != [] && forall i :: 0 <= i < |ds| ==> ds[i] >= 1
    ensures RoundedAverage(ds).Some? && RoundedAverage(ds).value >= 1
  {
    SumIntAtLeast(ds, 1);
    DivideAtLeast(SumInt(ds) as real, |ds| as real, 1.0);
  }

  /** Delays of no whole minute average to no whole minute. */
  lemma ShortAverage(ds: seq<int>)
    requires forall i :: 0 <= i < |ds| ==> ds[i] <= 0
    ensures RoundedAverage(ds).None? || RoundedAverage(ds).value <= 0
  {
    if ds != [] {
      SumIntAtMost(ds, 0);
      DivideAtMost(SumInt(ds) as real, |ds| as real, 0.0);
    }
  }

  lemma DivideAtLeast(total: real, n: real, lo: real)
    requires n > 0.0 && total >= n * lo
    ensures total / n >= lo
  {
    assert total / n * n == total;
  }

  lemma DivideAtMost(total: real, n: real, hi: real)
    requires n > 0.0 && total <= n * hi
    ensures total / n <= hi
  {
    assert total / n * n == total;
  }

  /** One bar of the average-duration chart. */
  datatype CauseAverageRow = CauseAverageRow(cause: DelayCause, name: string, average: int, fill: string)

  /** Whether `r` is the bar of its cause for the durations `groups`: a positive rounded average. */
  predicate AverageBar(r: CauseAverageRow, groups: seq<seq<int>>)
    requires |groups| == |AllCauses|
  {
    RoundedAverage(groups[CauseIndex(r.cause)]) == Some(r.average) && r.average > 0
    && r.name == CauseLabel(r.cause) && r.fill == CauseColor(r.cause)
  }

  /** The bars of the causes from position `i` on whose rounded average is positive. */
  function AverageRows(groups: seq<seq<int>>, i: nat): (rows: seq<CauseAverageRow>)
    requires |groups| == |AllCauses| && i <= |AllCauses|
    ensures forall r :: r in rows ==> r.average > 0
    decreases |AllCauses| - i
  {
    if i == |AllCauses| then []
    else
      var c := AllCauses[i];
      var avg := RoundedAverage(groups[i]);
      (if avg.Some? && avg.value > 0 then [CauseAverageRow(c, CauseLabel(c), avg.value, CauseColor(c))] else [])
      + AverageRows(groups, i + 1)
  }

  /** The bars are exactly the bars of the causes from position `i` on with a positive rounded average. */
  lemma {:induction false} AverageRowsMembers(groups: seq<seq<int>>, i: nat)
    requires |groups| == |AllCauses| && i <= |AllCauses|
    ensures forall r :: r in AverageRows(groups, i) <==> CauseIndex(r.cause) >= i && AverageBar(r, groups)
    decreases |AllCauses| - i
  {
    if i < |AllCauses| {
      AverageRowsMembers(groups, i + 1);
      assert CauseIndex(AllCauses[i]) == i;
    }
  }

  /** The card's loop: each delayed train's duration pushed under its cause. */
  method GroupDurations(trains: Entries<TrainRecord>) returns (groups: seq<seq<int>>)
    ensures groups == DurationsOf(trains)
  {
    groups := [[], [], [], [], [], []];
    var k := 0;
    while k < |trains|
      invariant 0 <= k <= |trains|
      invariant groups == DurationsOf(trains[..k])
    {
      DurationsStep(trains, k);
      var e := trains[k].1.event;
      if e.DelayEvent? {
        var i := CauseIndex(e.cause);
        groups := groups[i := groups[i] + [DurationMinutes(e.duration)]];
      }
      k := k + 1;
    }
    assert trains[..|trains|] == trains;
  }

  /** The average-duration chart: no bars without a snapshot. */
  method AverageDelayByCause(state: Option<Simulation>) returns (rows: seq<CauseAverageRow>)
    ensures state.None? ==> rows == []
    ensures state.Some? ==> rows == AverageRows(DurationsOf(state.value.trains), 0)
  {
    if state.None? {
      return [];
    }
    var groups := GroupDurations(state.value.trains);
    rows := AverageRows(groups, 0);
  }

  /** A cause whose every delay lasted at least a minute has a bar, of at least one minute. */
  lemma LongDelaysShown(trains: Entries<TrainRecord>, c: DelayCause)
    requires CauseDelays(trains, c) != []
    requires forall i :: 0 <= i < |CauseDelays(trains, c)| ==> CauseDelays(trains, c)[i] >= 1
    ensures exists r :: r in AverageRows(DurationsOf(trains), 0) && r.cause == c && r.average >= 1
  {
    var ds := CauseDelays(trains, c);
    LongAverage(ds);
    AverageRowsMembers(DurationsOf(trains), 0);
    var r := CauseAverageRow(c, CauseLabel(c), RoundedAverage(ds).value, CauseColor(c));
    assert AverageBar(r, DurationsOf(trains));
  }

  /** A cause none of whose delays lasted a whole minute has no bar. */
  lemma ShortDelaysHidden(trains: Entries<TrainRecord>, c: DelayCause)
    requires forall i :: 0 <= i < |CauseDelays(trains, c)| ==> CauseDelays(trains, c)[i] <= 0
    ensures forall r :: r in AverageRows(DurationsOf(trains), 0) ==> r.cause != c
  {
    ShortAverage(CauseDelays(trains, c));
    AverageRowsMembers(DurationsOf(trains), 0);
  }

  // Trains per kind of event.

  function CancelledCount(trains: Entries<TrainRecord>): nat
  {
    if trains == [] then 0
    else CancelledCount(trains[..|trains| - 1]) + (if trains[|trains| - 1].1.event.CancellationEvent? then 1 else 0)
  }

  function UndisturbedCount(trains: Entries<TrainRecord>): nat
  {
    if trains == [] then 0
    else UndisturbedCount(trains[..|trains| - 1]) + (if trains[|trains| - 1].1.event.NoEvent? then 1 else 0)
  }

  /** Every train has exactly one kind of event. */
  lemma {:induction false} EventCountsAddUp(trains: Entries<TrainRecord>)
    ensures DelayedCount(trains) + CancelledCount(trains) + UndisturbedCount(trains) == |trains|
  {
    if trains != [] {
      EventCountsAddUp(trains[..|trains| - 1]);
    }
  }

  /** One bar of the event chart. */
  datatype EventRow = EventRow(kind: string, value: nat, fill: string)

  /** The three bars, always in the same order. */
  function EventRows(delays: nat, cancellations: nat, none: nat): (rows: seq<EventRow>)
    ensures |rows| == 3 && rows[0].value == delays && rows[1].value == cancellations && rows[2].value == none
  {
    [EventRow("Retards", delays, "var(--color-chart-1)"),
     EventRow("Annulations", cancellations, "var(--color-chart-2)"),
     EventRow("Aucun événement", none, "var(--color-border)")]
  }

  /** The card's loop: three counters, one per kind of event; all zero without a snapshot. */
  method EventDistribution(state: Option<Simulation>) returns (rows: seq<EventRow>)
    ensures state.None? ==> rows == EventRows(0, 0, 0)
    ensures state.Some? ==> var trains := state.value.trains;
      rows == EventRows(DelayedCount(trains), CancelledCount(trains), UndisturbedCount(trains))
  {
    var delays, cancellations, none := 0, 0, 0;
    if state.Some? {
      var trains := state.value.trains;
      var k := 0;
      while k < |trains|
        invariant 0 <= k <= |trains|
        invariant delays == DelayedCount(trains[..k])
        invariant cancellations == CancelledCount(trains[..k])
        invariant none == UndisturbedCount(trains[..k])
      {
        assert trains[..k + 1][..k] == trains[..k];
        match trains[k].1.event {
          case DelayEvent(_, _, _) => delays := delays + 1;
          case CancellationEvent(_) => cancellations := cancellations + 1;
          case NoEvent => none := none + 1;
        }
        k := k + 1;
      }
      assert trains[..|trains|] == trains;
    }
    rows := EventRows(delays, cancellations, none);
  }

  /** Without a snapshot the bars are empty; with one, they add up to the number of trains. */
  lemma EventBarsAddUp(state: Option<Simulation>)
    ensures var rows := if state.None? then EventRows(0, 0, 0) else
      EventRows(DelayedCount(state.value.trains), CancelledCount(state.value.trains), UndisturbedCount(state.value.trains));
      rows[0].value + rows[1].value + rows[2].value == if state.None? then 0 else |state.value.trains|
  {
    if state.Some? {
      EventCountsAddUp(state.value.trains);
    }
  }
}
