/**
 * The delay histogram: a bin width chosen from the spread of the delays, empty bins
 * created for the whole range, then every delay counted in the bin below it. The
 * bins live in a JavaScript `Map`, whose entries keep insertion order.
 */
module Distribution {

  import opened Common
  import opened Numbers
  import opened Snapshot
  import opened Delays

  /** The bin widths the card chooses from, in minutes. */
  predicate BinWidth(bs: int)
  {
    bs == 1 || bs == 2 || bs == 5 || bs == 10 || bs == 15
  }

  /** The bin width for a spread of `range` minutes. */
  function BinSize(range: real): (bs: int)
    ensures BinWidth(bs)
    ensures range <= 10.0 ==> bs == 1
    ensures range > 120.0 ==> bs == 15
  {
    if range <= 10.0 then 1
    else if range <= 30.0 then 2
    else if range <= 60.0 then 5
    else if range <= 120.0 then 10
    else 15
  }

  /** `Math.ceil`. */
  function Ceil(x: real): (c: int)
    ensures c as real >= x && (c - 1) as real < x
  {
    -((-x).Floor)
  }

  /** The quotient `q` rounded down puts `d` between `q * bs` and `(q + 1) * bs`. */
  lemma FloorScaled(d: real, bs: int, q: int)
    requires BinWidth(bs) && q == (d / bs as real).Floor
    ensures (q * bs) % bs == 0
    ensures (q * bs) as real <= d < (q * bs + bs) as real
  {
    if bs == 1 {
    } else if bs == 2 {
    } else if bs == 5 {
    } else if bs == 10 {
    } else {
    }
  }

  /** `Math.floor(d / binSize) * binSize`: the start of the bin holding `d`. */
  function BinOf(d: real, bs: int): (k: int)
    requires BinWidth(bs)
    ensures k % bs == 0
    ensures k as real <= d < (k + bs) as real
  {
    var q := (d / bs as real).Floor;
    FloorScaled(d, bs, q);
    q * bs
  }

  function MaxOf(ds: seq<real>): (m: real)
    requires ds != []
    ensures m in ds && forall d :: d in ds ==> d <= m
  {
    if |ds| == 1 then ds[0]
    else
      var rest := MaxOf(ds[1..]);
      assert forall d :: d in ds ==> d == ds[0] || d in ds[1..];
      if ds[0] >= rest then ds[0] else rest
  }

  function MinOf(ds: seq<real>): (m: real)
    requires ds != []
    ensures m in ds && forall d :: d in ds ==> m <= d
  {
    if |ds| == 1 then ds[0]
    else
      var rest := MinOf(ds[1..]);
      assert forall d :: d in ds ==> d == ds[0] || d in ds[1..];
      if ds[0] <= rest then ds[0] else rest
  }

  /** The bins: start of the bin and number of delays counted in it, in insertion order. */
  type Bins = seq<(int, nat)>

  predicate DistinctStarts(bins: Bins)
  {
    forall i, j :: 0 <= i < j < |bins| ==> bins[i].0 != bins[j].0
  }

  /** The number of delays among `ds` whose bin starts at `k`. */
  function InBin(ds: seq<real>, bs: int, k: int): nat
    requires BinWidth(bs)
  {
    if ds == [] then 0
    else InBin(ds[..|ds| - 1], bs, k) + (if BinOf(ds[|ds| - 1], bs) == k then 1 else 0)
  }

  function TotalCount(bins: Bins): nat
  {
    if bins == [] then 0 else TotalCount(bins[..|bins| - 1]) + bins[|bins| - 1].1
  }

  lemma {:induction false} TotalCountUpdate(bins: Bins, i: nat, c: nat)
    requires i < |bins|
    ensures TotalCount(bins[i := (bins[i].0, c)]) == TotalCount(bins) - bins[i].1 + c
  {
    var last := |bins| - 1;
    if i < last {
      assert bins[i := (bins[i].0, c)][..last] == bins[..last][i := (bins[i].0, c)];
      TotalCountUpdate(bins[..last], i, c);
    } else {
      assert bins[i := (bins[i].0, c)][..last] == bins[..last];
    }
  }

  lemma TotalCountAppend(bins: Bins, b: (int, nat))
    ensures TotalCount(bins + [b]) == TotalCount(bins) + b.1
  {
    assert (bins + [b])[..|bins|] == bins;
  }

  /** The pre-created bin starts: every multiple of `bs` from `start` up to but excluding `end`. */
  function BinRange(start: int, end: int, bs: int): seq<int>
    requires bs > 0
    decreases end - start
  {
    if start >= end then [] else [start] + BinRange(start + bs, end, bs)
  }

  lemma {:induction false} FindUpdate(bins: Bins, i: nat, c: nat, x: int)
    requires i < |bins|
    ensures KeyIndex(bins[i := (bins[i].0, c)], x).Some? == KeyIndex(bins, x).Some?
  {
    var last := |bins| - 1;
    if i < last {
      assert bins[i := (bins[i].0, c)][..last] == bins[..last][i := (bins[i].0, c)];
      FindUpdate(bins[..last], i, c, x);
    } else {
      assert bins[i := (bins[i].0, c)][..last] == bins[..last];
    }
  }

  lemma FindAppend(bins: Bins, b: (int, nat), x: int)
    ensures KeyIndex(bins + [b], x).Some? <==> x == b.0 || KeyIndex(bins, x).Some?
  {
    if x != b.0 {
      assert (bins + [b])[..|bins|] == bins;
    }
  }

  /** A start that is not among the bins has no delay counted in it yet. */
  lemma {:induction false} InBinAbsent(ds: seq<real>, bs: int, k: int, bins: Bins)
    requires BinWidth(bs)
    requires forall d :: d in ds ==> KeyIndex(bins, BinOf(d, bs)).Some?
    requires KeyIndex(bins, k).None?
    ensures InBin(ds, bs, k) == 0
  {
    if ds != [] {
      assert ds[|ds| - 1] in ds;
      assert forall d :: d in ds[..|ds| - 1] ==> d in ds;
      InBinAbsent(ds[..|ds| - 1], bs, k, bins);
    }
  }

  /** Every bin holds the number of delays among `ds` that fall in it. */
  predicate Counts(bins: Bins, ds: seq<real>, bs: int)
    requires BinWidth(bs)
  {
    forall i :: 0 <= i < |bins| ==> bins[i].1 == InBin(ds, bs, bins[i].0)
  }

  /** Every delay among `ds` has its bin. */
  predicate Covers(bins: Bins, ds: seq<real>, bs: int)
    requires BinWidth(bs)
  {
    forall e :: e in ds ==> KeyIndex(bins, BinOf(e, bs)).Some?
  }

  lemma CountsAfterUpdate(bins: Bins, ds: seq<real>, d: real, bs: int, at: nat)
    requires BinWidth(bs) && DistinctStarts(bins) && Counts(bins, ds, bs)
    requires at < |bins| && bins[at].0 == BinOf(d, bs)
    ensures Counts(bins[at := (bins[at].0, bins[at].1 + 1)], ds + [d], bs)
  {
    assert (ds + [d])[..|ds|] == ds;
  }

  lemma CountsAfterAppend(bins: Bins, ds: seq<real>, d: real, bs: int)
    requires BinWidth(bs) && Counts(bins, ds, bs) && Covers(bins, ds, bs)
    requires KeyIndex(bins, BinOf(d, bs)).None?
    ensures Counts(bins + [(BinOf(d, bs), 1)], ds + [d], bs)
  {
    assert (ds + [d])[..|ds|] == ds;
    InBinAbsent(ds, bs, BinOf(d, bs), bins);
  }

  lemma CoversAfterUpdate(bins: Bins, ds: seq<real>, d: real, bs: int, at: nat, c: nat)
    requires BinWidth(bs) && Covers(bins, ds, bs)
    requires at < |bins| && bins[at].0 == BinOf(d, bs)
    ensures Covers(bins[at := (bins[at].0, c)], ds + [d], bs)
  {
    forall e | e in ds + [d] ensures KeyIndex(bins[at := (bins[at].0, c)], BinOf(e, bs)).Some? {
      FindUpdate(bins, at, c, BinOf(e, bs));
      if e !in ds {
        assert KeyIndex(bins, BinOf(d, bs)).Some?;
      }
    }
  }

  lemma CoversAfterAppend(bins: Bins, ds: seq<real>, d: real, bs: int)
    requires BinWidth(bs) && Covers(bins, ds, bs)
    ensures Covers(bins + [(BinOf(d, bs), 1)], ds + [d], bs)
  {
    forall e | e in ds + [d] ensures KeyIndex(bins + [(BinOf(d, bs), 1)], BinOf(e, bs)).Some? {
      FindAppend(bins, (BinOf(d, bs), 1), BinOf(e, bs));
    }
  }

  /** The loop invariant of the pre-filling: empty, distinct bins for the starts below `bin`. */
  predicate Prefilled(bins: Bins, bin: int, startBin: int, endBin: int, bs: int)
    requires bs > 0
  {
    Firsts(bins) + BinRange(bin, endBin, bs) == BinRange(startBin, endBin, bs)
    && (forall i :: 0 <= i < |bins| ==> bins[i].1 == 0 && bins[i].0 < bin)
    && DistinctStarts(bins) && TotalCount(bins) == 0
  }

  lemma PrefillStep(bins: Bins, bin: int, startBin: int, endBin: int, bs: int)
    requires bs > 0 && bin < endBin && Prefilled(bins, bin, startBin, endBin, bs)
    ensures Prefilled(bins + [(bin, 0)], bin + bs, startBin, endBin, bs)
  {
    TotalCountAppend(bins, (bin, 0));
    assert BinRange(bin, endBin, bs) == [bin] + BinRange(bin + bs, endBin, bs);
    assert Firsts(bins + [(bin, 0)]) == Firsts(bins) + [bin];
  }

  /** The empty bins, one per start of `BinRange(startBin, endBin, bs)`. */
  method PrefillBins(startBin: int, endBin: int, bs: int) returns (bins: Bins)
    requires bs > 0
    ensures Firsts(bins) == BinRange(startBin, endBin, bs)
    ensures DistinctStarts(bins) && TotalCount(bins) == 0
    ensures forall i :: 0 <= i < |bins| ==> bins[i].1 == 0
  {
    bins := [];
    var bin := startBin;
    while bin < endBin
      invariant Prefilled(bins, bin, startBin, endBin, bs)
      decreases endBin - bin
    {
      PrefillStep(bins, bin, startBin, endBin, bs);
      bins := bins + [(bin, 0)];
      bin := bin + bs;
    }
  }

  /** What counting one more delay `d` must achieve, from `bins` to `next`. */
  predicate CountedOneMore(bins: Bins, next: Bins, d: real, bs: int, done: seq<real>)
    requires BinWidth(bs)
  {
    DistinctStarts(next) && |bins| <= |next| <= |bins| + 1
    && (forall i :: 0 <= i < |bins| ==> next[i].0 == bins[i].0)
    && (forall i :: 0 <= i < |bins| ==> next[i].1 >= bins[i].1)
    && (|next| > |bins| ==> next[|bins|] == (BinOf(d, bs), 1))
    && Counts(next, done + [d], bs) && Covers(next, done + [d], bs)
    && TotalCount(next) == TotalCount(bins) + 1
  }

  lemma UpdateStep(bins: Bins, d: real, bs: int, done: seq<real>, at: nat)
    requires BinWidth(bs) && DistinctStarts(bins) && Counts(bins, done, bs) && Covers(bins, done, bs)
    requires at < |bins| && bins[at].0 == BinOf(d, bs)
    ensures CountedOneMore(bins, bins[at := (bins[at].0, bins[at].1 + 1)], d, bs, done)
  {
    TotalCountUpdate(bins, at, bins[at].1 + 1);
    CountsAfterUpdate(bins, done, d, bs, at);
    CoversAfterUpdate(bins, done, d, bs, at, bins[at].1 + 1);
  }

  lemma AppendStep(bins: Bins, d: real, bs: int, done: seq<real>)
    requires BinWidth(bs) && DistinctStarts(bins) && Counts(bins, done, bs) && Covers(bins, done, bs)
    requires KeyIndex(bins, BinOf(d, bs)).None?
    ensures CountedOneMore(bins, bins + [(BinOf(d, bs), 1)], d, bs, done)
  {
    TotalCountAppend(bins, (BinOf(d, bs), 1));
    CountsAfterAppend(bins, done, d, bs);
    CoversAfterAppend(bins, done, d, bs);
  }

  /** Counts one more delay in its bin, creating the bin at the end when it is missing. */
  method CountDelay(bins: Bins, d: real, bs: int, ghost done: seq<real>) returns (next: Bins)
    requires BinWidth(bs) && DistinctStarts(bins)
    requires Counts(bins, done, bs) && Covers(bins, done, bs)
    ensures CountedOneMore(bins, next, d, bs, done)
  {
    var k := BinOf(d, bs);
    var at := KeyIndex(bins, k);
    if at.Some? {
      UpdateStep(bins, d, bs, done, at.value);
      next := bins[at.value := (k, bins[at.value].1 + 1)];
    } else {
      AppendStep(bins, d, bs, done);
      next := bins + [(k, 1)];
    }
  }

  /** Counting leaves the starts of the bins it found in place. */
  lemma StartsKept(before: Bins, after: Bins, n: nat)
    requires n <= |before| <= |after|
    requires forall i :: 0 <= i < |before| ==> after[i].0 == before[i].0
    ensures Firsts(after)[..n] == Firsts(before)[..n]
  {
  }

  /**
   * The counting loop's invariant: `bins` counts the delays `done`, keeps the starts of
   * `start` in front, and every bin after them was created by a delay falling in it.
   */
  predicate CountedInto(start: Bins, bins: Bins, done: seq<real>, bs: int)
    requires BinWidth(bs)
  {
    DistinctStarts(bins) && Counts(bins, done, bs) && Covers(bins, done, bs)
    && TotalCount(bins) == |done|
    && |start| <= |bins| && Firsts(bins)[..|start|] == Firsts(start)
    && (forall i :: |start| <= i < |bins| ==> bins[i].1 > 0)
  }

  /** Counting one more delay keeps the loop's invariant. */
  lemma CountedIntoStep(start: Bins, bins: Bins, next: Bins, d: real, bs: int, done: seq<real>)
    requires BinWidth(bs) && CountedInto(start, bins, done, bs)
    requires CountedOneMore(bins, next, d, bs, done)
    ensures CountedInto(start, next, done + [d], bs)
  {
    StartsKept(bins, next, |start|);
  }

  /** The counting loop: every delay in turn, into the bins `start` already holds. */
  method CountAll(start: Bins, ds: seq<real>, bs: int) returns (bins: Bins)
    requires BinWidth(bs) && DistinctStarts(start) && TotalCount(start) == 0
    requires forall i :: 0 <= i < |start| ==> start[i].1 == 0
    ensures DistinctStarts(bins) && Counts(bins, ds, bs) && Covers(bins, ds, bs)
    ensures TotalCount(bins) == |ds|
    ensures |start| <= |bins| && Firsts(bins)[..|start|] == Firsts(start)
    ensures forall i :: |start| <= i < |bins| ==> bins[i].1 > 0
  {
    bins := start;
    var j := 0;
    assert ds[..0] == [];
    while j < |ds|
      invariant 0 <= j <= |ds|
      invariant CountedInto(start, bins, ds[..j], bs)
    {
      assert ds[..j + 1] == ds[..j] + [ds[j]];
      ghost var before := bins;
      bins := CountDelay(bins, ds[j], bs, ds[..j]);
      CountedIntoStep(start, before, bins, ds[j], bs, ds[..j]);
      j := j + 1;
    }
    assert ds[..|ds|] == ds;
  }

  /** The pre-created starts: from the bin of the least delay up to `Math.ceil(max / binSize) * binSize`. */
  function PreStarts(ds: seq<real>, bs: int): seq<int>
    requires ds != [] && BinWidth(bs)
  {
    BinRange(BinOf(MinOf(ds), bs), Ceil(MaxOf(ds) / bs as real) * bs, bs)
  }

  /**
   * What the card's bins are for the delays `ds`: the width chosen from their spread,
   * the pre-created bins first and in order, one bin per start, every bin holding
   * exactly the delays that fall in it, every delay counted once, and no bin after
   * the pre-created ones that no delay fell in.
   */
  predicate Histogrammed(bins: Bins, bs: int, ds: seq<real>)
  {
    ds != [] && bs == BinSize(MaxOf(ds) - MinOf(ds))
    && DistinctStarts(bins) && Counts(bins, ds, bs) && Covers(bins, ds, bs)
    && TotalCount(bins) == |ds|
    && |PreStarts(ds, bs)| <= |bins| && Firsts(bins)[..|PreStarts(ds, bs)|] == PreStarts(ds, bs)
    && (forall i :: |PreStarts(ds, bs)| <= i < |bins| ==> bins[i].1 > 0)
  }

  /** The bins of a non-empty list of delays, with the bin width used. */
  method Histogram(ds: seq<real>) returns (bins: Bins, bs: int)
    requires ds != []
    ensures Histogrammed(bins, bs, ds)
  {
    var maxDelay, minDelay := MaxOf(ds), MinOf(ds);
    bs := BinSize(maxDelay - minDelay);
    var startBin := BinOf(minDelay, bs);
    var endBin := Ceil(maxDelay / bs as real) * bs;
    var pre := PrefillBins(startBin, endBin, bs);
    bins := CountAll(pre, ds, bs);
  }

  /** The label of a bin: its start alone for one-minute bins, otherwise "start-end". */
  function BinLabel(start: int, bs: int): string
  {
    if bs == 1 then IntToString(start) else IntToString(start) + "-" + IntToString(start + bs)
  }

  /** Two texts "a-x" and "b-y" whose heads are a sign or digit then digits split at the same dash. */
  lemma SplitAtDash(a: string, x: string, b: string, y: string)
    requires |a| >= 1 && |b| >= 1
    requires forall i :: 1 <= i < |a| ==> IsDigit(a[i])
    requires forall i :: 1 <= i < |b| ==> IsDigit(b[i])
    requires a + "-" + x == b + "-" + y
    ensures a == b
  {
    var text := a + "-" + x;
    assert text[1..] == a[1..] + "-" + x;
    assert text[1..] == b[1..] + "-" + y;
    IndexOfAfterDigits(a[1..], '-', x);
    IndexOfAfterDigits(b[1..], '-', y);
    assert a == text[..|a|];
    assert b == text[..|b|];
  }

  /** Bins with distinct starts get distinct labels, so no two bars of the chart share one. */
  lemma LabelsDistinct(s: int, t: int, bs: int)
    requires s != t
    ensures BinLabel(s, bs) != BinLabel(t, bs)
  {
    if BinLabel(s, bs) == BinLabel(t, bs) {
      if bs != 1 {
        IntToStringShape(s);
        IntToStringShape(t);
        SplitAtDash(IntToString(s), IntToString(s + bs), IntToString(t), IntToString(t + bs));
      }
      IntToStringInjective(s, t);
    }
  }

  /** One bar of the chart: its label and the number of delays in it. */
  datatype DelayBin = DelayBin(range: string, count: nat)

  /** The bars, one per bin, in the order the bins were created. */
  function Bars(bins: Bins, bs: int): (bars: seq<DelayBin>)
    ensures |bars| == |bins|
    ensures forall i :: 0 <= i < |bins| ==> bars[i] == DelayBin(BinLabel(bins[i].0, bs), bins[i].1)
  {
    if bins == [] then [] else [DelayBin(BinLabel(bins[0].0, bs), bins[0].1)] + Bars(bins[1..], bs)
  }

  /**
   * The data of the delay distribution card: no bars without a snapshot or without
   * any delay; otherwise one bar per bin, the bars' counts adding up to the number
   * of delays.
   */
  method DelayDistribution(state: Option<Simulation>) returns (bars: seq<DelayBin>, bins: Bins, bs: int)
    ensures state.None? || CollectDelays(state.value.trains) == [] ==> bars == []
    ensures state.Some? && CollectDelays(state.value.trains) != [] ==>
      Histogrammed(bins, bs, CollectDelays(state.value.trains)) && bars == Bars(bins, bs)
  {
    bins, bs := [], 1;
    if state.None? {
      return [], bins, bs;
    }
    var delays := ExtractDelays(state.value.trains);
    if |delays| == 0 {
      return [], bins, bs;
    }
    bins, bs := Histogram(delays);
    bars := Bars(bins, bs);
  }

  // Which delays land in a pre-created bin.

  /** `Math.floor(d / binSize)`: the index of the bin holding `d`. */
  lemma FloorMonotone(a: real, b: real, bs: int)
    requires BinWidth(bs) && a <= b
    ensures (a / bs as real).Floor <= (b / bs as real).Floor
  {
    assert a / bs as real <= b / bs as real by {
      if bs == 1 {
      } else if bs == 2 {
      } else if bs == 5 {
      } else if bs == 10 {
      } else {
      }
    }
  }

  /** `Math.ceil(max / binSize) * binSize` is at least `max`. */
  lemma CeilCovers(hi: real, bs: int)
    requires BinWidth(bs)
    ensures hi <= (Ceil(hi / bs as real) * bs) as real
  {
    if bs == 1 {
    } else if bs == 2 {
    } else if bs == 5 {
    } else if bs == 10 {
    } else {
    }
  }

  lemma Shifted(lo: int, q: int, bs: int)
    ensures q * bs == lo * bs + (q - lo) * bs
  {
  }

  /** Every start `start + m * bs` below `end` is among `BinRange(start, end, bs)`. */
  lemma {:induction false} InBinRange(start: int, end: int, bs: int, m: nat)
    requires bs > 0 && start + m * bs < end
    ensures start + m * bs in BinRange(start, end, bs)
    decreases m
  {
    if m > 0 {
      assert start + m * bs == (start + bs) + (m - 1) * bs;
      InBinRange(start + bs, end, bs, m - 1);
    }
  }

  /**
   * Every delay falls in one of the pre-created bins, except the greatest one when it
   * sits exactly on a multiple of the width: `Math.ceil` then leaves it out of the
   * range and its bin is created, last, when the delay is counted.
   */
  lemma LandsInPreStarts(ds: seq<real>, bs: int, d: real)
    requires ds != [] && BinWidth(bs) && d in ds
    ensures BinOf(d, bs) in PreStarts(ds, bs) || (d == MaxOf(ds) && BinOf(d, bs) as real == d)
  {
    var lo, hi := MinOf(ds), MaxOf(ds);
    var qlo, qd := (lo / bs as real).Floor, (d / bs as real).Floor;
    FloorMonotone(lo, d, bs);
    var end := Ceil(hi / bs as real) * bs;
    CeilCovers(hi, bs);
    if BinOf(d, bs) < end {
      Shifted(qlo, qd, bs);
      InBinRange(qlo * bs, end, bs, qd - qlo);
    }
  }

  /** A bin holding a delay holds one of the delays. */
  lemma {:induction false} InBinWitness(ds: seq<real>, bs: int, k: int) returns (d: real)
    requires BinWidth(bs) && InBin(ds, bs, k) > 0
    ensures d in ds && BinOf(d, bs) == k
  {
    var last := ds[|ds| - 1];
    if BinOf(last, bs) == k {
      d := last;
    } else {
      d := InBinWitness(ds[..|ds| - 1], bs, k);
    }
  }

  /**
   * The card's bins are the pre-created ones plus at most one more: the bin of the
   * greatest delay, when that delay sits exactly on a multiple of the width.
   */
  lemma ExtraBinIsTheMaximum(bins: Bins, bs: int, ds: seq<real>, i: int)
    requires Histogrammed(bins, bs, ds)
    requires |PreStarts(ds, bs)| <= i < |bins|
    ensures i == |PreStarts(ds, bs)| && |bins| == i + 1
    ensures bins[i].0 == BinOf(MaxOf(ds), bs) && bins[i].0 as real == MaxOf(ds)
  {
    ExtraBinHoldsMaximum(bins, bs, ds, i);
    var p := |PreStarts(ds, bs)|;
    if i > p {
      ExtraBinHoldsMaximum(bins, bs, ds, p);
      assert false;
    }
    if |bins| > i + 1 {
      ExtraBinHoldsMaximum(bins, bs, ds, i + 1);
      assert false;
    }
  }

  /** A bin after the pre-created ones starts at the greatest delay, which sits on its start. */
  lemma ExtraBinHoldsMaximum(bins: Bins, bs: int, ds: seq<real>, i: int)
    requires Histogrammed(bins, bs, ds)
    requires |PreStarts(ds, bs)| <= i < |bins|
    ensures bins[i].0 == BinOf(MaxOf(ds), bs) && bins[i].0 as real == MaxOf(ds)
  {
    var pre := PreStarts(ds, bs);
    var d := InBinWitness(ds, bs, bins[i].0);
    LandsInPreStarts(ds, bs, d);
    if BinOf(d, bs) in pre {
      assert false;
    }
  }
}
