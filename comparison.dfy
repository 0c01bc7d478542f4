/**
 * The configuration comparison card: the delays of every run in the history,
 * grouped by configuration (driver behaviour and station strategy), summarised
 * per configuration and shown in the order of the configuration keys.
 */
module ConfigurationComparison {

  import opened Common
  import opened Drivers
  import opened StationStrategy
  import opened Snapshot
  import opened Numbers
  import opened Delays
  import opened Statistics
  import opened History

  // Configuration keys.

  /** `${driverBehavior}-${stationStrategy}`. */
  function ConfigurationKey(b: Behavior, st: Strategy): string
  {
    BehaviorName(b) + "-" + StrategyName(st)
  }

  function RunKey(r: SimulationResult): string
  {
    ConfigurationKey(r.driverBehavior, r.stationStrategy)
  }

  /** `s.split(c)`: the pieces between the occurrences of `c`. */
  function Split(s: string, c: char): (parts: seq<string>)
    ensures |parts| >= 1
    ensures c !in s ==> parts == [s]
    decreases |s|
  {
    match IndexOf(s, c)
    case None => [s]
    case Some(i) => [s[..i]] + Split(s[i + 1..], c)
  }

  /** Joining two pieces free of `c` with `c` and splitting on `c` gives the pieces back. */
  lemma SplitJoin(a: string, b: string, c: char)
    requires c !in a && c !in b
    ensures Split(a + [c] + b, c) == [a, b]
  {
    var s := a + [c] + b;
    assert s[|a|] == c && s[..|a|] == a;
    var i := IndexOf(s, c).value;
    assert s[..i] == a && s[i + 1..] == b;
  }

  /** No behaviour or strategy name holds a dash. */
  lemma NamesHaveNoDash(b: Behavior, st: Strategy)
    ensures '-' !in BehaviorName(b) && '-' !in StrategyName(st)
  {
  }

  /** Splitting a key on its dash gives back the two names it was made of. */
  lemma KeySplits(b: Behavior, st: Strategy)
    ensures Split(ConfigurationKey(b, st), '-') == [BehaviorName(b), StrategyName(st)]
  {
    NamesHaveNoDash(b, st);
    SplitJoin(BehaviorName(b), StrategyName(st), '-');
  }

  /** Different configurations have different keys. */
  lemma KeyInjective(b1: Behavior, st1: Strategy, b2: Behavior, st2: Strategy)
    requires ConfigurationKey(b1, st1) == ConfigurationKey(b2, st2)
    ensures b1 == b2 && st1 == st2
  {
    KeySplits(b1, st1);
    KeySplits(b2, st2);
    BehaviorNameRoundTrip(b1);
    BehaviorNameRoundTrip(b2);
    StrategyNameRoundTrip(st1);
    StrategyNameRoundTrip(st2);
  }

  // Configuration names.

  /** `driverLabels[name]` as written: the table has no entry for "soigneux". */
  function DriverLabelAsWritten(name: string): Option<string>
  {
    if name == "eco" then Some("Éco")
    else if name == "intermediate" then Some("Intermédiaire")
    else if name == "crazy" then Some("Crazy")
    else if name == "very_crazy" then Some("Very Crazy")
    else None
  }

  /** The label of each behaviour, the careful driver included, as the start dialog shows it. */
  function DriverLabel(b: Behavior): string
  {
    match b
    case Eco => "Éco"
    case Intermediate => "Intermédiaire"
    case Crazy => "Crazy"
    case VeryCrazy => "Very Crazy"
    case Soigneux => "Soigneux"
  }

  /** `strategyLabels[name]`. */
  function StrategyLabelOf(name: string): Option<string>
  {
    if name == "no_sort" then Some("Aucun tri")
    else if name == "entry_time_asc" then Some("Temps d'entrée")
    else if name == "delay_asc" then Some("Retard croissant")
    else if name == "delay_asc_with_threshold" then Some("Retard avec seuil")
    else None
  }

  function StrategyLabel(st: Strategy): string
  {
    match st
    case NoSort => "Aucun tri"
    case EntryTimeAsc => "Temps d'entrée"
    case DelayAsc => "Retard croissant"
    case DelayAscWithThreshold => "Retard avec seuil"
  }

  /** A template literal renders a missing label as "undefined". */
  function Rendered(o: Option<string>): string
  {
    if o.Some? then o.value else "undefined"
  }

  /** The piece at `i` of a split, missing when there are fewer pieces. */
  function Piece(parts: seq<string>, i: nat): Option<string>
  {
    if i < |parts| then Some(parts[i]) else None
  }

  function DriverPart(key: string): Option<string> { Piece(Split(key, '-'), 0) }

  function StrategyPart(key: string): Option<string> { Piece(Split(key, '-'), 1) }

  /** The x-axis name of a key as the card writes it: split, then look both names up. */
  function ConfigurationNameAsWritten(key: string): string
  {
    var d := DriverPart(key);
    var s := StrategyPart(key);
    Rendered(if d.Some? then DriverLabelAsWritten(d.value) else None) + " - "
    + Rendered(if s.Some? then StrategyLabelOf(s.value) else None)
  }

  /** The careful driver's configurations are named "undefined - …" on the chart. */
  lemma SoigneuxUnlabelled(st: Strategy)
    ensures ConfigurationNameAsWritten(ConfigurationKey(Soigneux, st)) == "undefined - " + StrategyLabel(st)
  {
    KeyParts(Soigneux, st);
    SoigneuxHasNoWrittenLabel();
    StrategyLabelOfName(st);
  }

  lemma SoigneuxHasNoWrittenLabel()
    ensures DriverLabelAsWritten(BehaviorName(Soigneux)) == None
  {
  }

  /** The name of a behaviour's label lookup, with the careful driver's entry. */
  function DriverLabelOf(name: string): Option<string>
    ensures DriverLabelOf(name).Some? <==> name in {"eco", "intermediate", "crazy", "very_crazy", "soigneux"}
  {
    if name == "soigneux" then Some("Soigneux") else DriverLabelAsWritten(name)
  }

  /** The x-axis name of a key with every behaviour labelled. */
  function ConfigurationName(key: string): string
  {
    var d := DriverPart(key);
    var s := StrategyPart(key);
    Rendered(if d.Some? then DriverLabelOf(d.value) else None) + " - "
    + Rendered(if s.Some? then StrategyLabelOf(s.value) else None)
  }

  /** Every configuration's key is named by the labels of its behaviour and strategy. */
  lemma ConfigurationNamed(b: Behavior, st: Strategy)
    ensures ConfigurationName(ConfigurationKey(b, st)) == DriverLabel(b) + " - " + StrategyLabel(st)
  {
    KeyParts(b, st);
    DriverLabelOfName(b);
    StrategyLabelOfName(st);
  }

  /** The two parts of a configuration key are the behaviour's and the strategy's names. */
  lemma KeyParts(b: Behavior, st: Strategy)
    ensures DriverPart(ConfigurationKey(b, st)) == Some(BehaviorName(b))
    ensures StrategyPart(ConfigurationKey(b, st)) == Some(StrategyName(st))
  {
    KeySplits(b, st);
  }

  lemma DriverLabelOfName(b: Behavior)
    ensures DriverLabelOf(BehaviorName(b)) == Some(DriverLabel(b))
  {
  }

  lemma StrategyLabelOfName(st: Strategy)
    ensures StrategyLabelOf(StrategyName(st)) == Some(StrategyLabel(st))
  {
  }

  /** The corrected lookup agrees with the written one wherever the written one has an entry. */
  lemma DriverLabelExtends(name: string)
    ensures DriverLabelAsWritten(name).Some? ==> DriverLabelOf(name) == DriverLabelAsWritten(name)
  {
  }

  /** No label holds a dash, and different behaviours or strategies have different labels. */
  lemma LabelsDistinct(b1: Behavior, b2: Behavior, st1: Strategy, st2: Strategy)
    ensures '-' !in DriverLabel(b1) && '-' !in StrategyLabel(st1)
    ensures DriverLabel(b1) == DriverLabel(b2) ==> b1 == b2
    ensures StrategyLabel(st1) == StrategyLabel(st2) ==> st1 == st2
  {
  }

  /** A name splits on its dash into the driver label and the strategy label, each padded by a space. */
  lemma NameSplits(b: Behavior, st: Strategy)
    ensures Split(DriverLabel(b) + " - " + StrategyLabel(st), '-') == [DriverLabel(b) + " ", " " + StrategyLabel(st)]
  {
    LabelsDistinct(b, b, st, st);
    assert DriverLabel(b) + " - " + StrategyLabel(st) == (DriverLabel(b) + " ") + ['-'] + (" " + StrategyLabel(st));
    SplitJoin(DriverLabel(b) + " ", " " + StrategyLabel(st), '-');
  }

  /** Different configurations get different names under the corrected labels. */
  lemma NameInjective(b1: Behavior, st1: Strategy, b2: Behavior, st2: Strategy)
    requires ConfigurationName(ConfigurationKey(b1, st1)) == ConfigurationName(ConfigurationKey(b2, st2))
    ensures b1 == b2 && st1 == st2
  {
    ConfigurationNamed(b1, st1);
    ConfigurationNamed(b2, st2);
    NameSplits(b1, st1);
    NameSplits(b2, st2);
    var d1, d2 := DriverLabel(b1) + " ", DriverLabel(b2) + " ";
    var s1, s2 := " " + StrategyLabel(st1), " " + StrategyLabel(st2);
    assert d1 == d2 && s1 == s2;
    assert d1[..|d1| - 1] == DriverLabel(b1) && d2[..|d2| - 1] == DriverLabel(b2);
    assert s1[1..] == StrategyLabel(st1) && s2[1..] == StrategyLabel(st2);
    LabelsDistinct(b1, b2, st1, st2);
  }

  // Grouping the history by configuration.

  /** Each run as its configuration key and its delays, in history order. */
  function RunsOf(h: seq<SimulationResult>): (ps: seq<(string, seq<real>)>)
    ensures |ps| == |h| && forall i :: 0 <= i < |h| ==> ps[i] == (RunKey(h[i]), CollectDelays(h[i].trains))
  {
    seq(|h|, i requires 0 <= i < |h| => (RunKey(h[i]), CollectDelays(h[i].trains)))
  }

  /** The delays of every run with key `key`, run after run. */
  function DelaysFor(ps: seq<(string, seq<real>)>, key: string): seq<real>
  {
    if ps == [] then []
    else DelaysFor(ps[..|ps| - 1], key) + (if ps[|ps| - 1].0 == key then ps[|ps| - 1].1 else [])
  }

  /** `if (!has(key)) set(key, []); get(key).push(...delays)`. */
  function AddRun(groups: Entries<seq<real>>, p: (string, seq<real>)): Entries<seq<real>>
  {
    match KeyIndex(groups, p.0)
    case Some(i) => groups[i := (p.0, groups[i].1 + p.1)]
    case None => groups + [p]
  }

  /** The groups after every run, in the order configurations first appear. */
  function GroupAll(ps: seq<(string, seq<real>)>): Entries<seq<real>>
  {
    if ps == [] then [] else AddRun(GroupAll(ps[..|ps| - 1]), ps[|ps| - 1])
  }

  function ConfigGroups(h: seq<SimulationResult>): Entries<seq<real>>
  {
    GroupAll(RunsOf(h))
  }

  /** Each group holds exactly the delays of its key, under a key of its own. */
  predicate GroupsHold(groups: Entries<seq<real>>, ps: seq<(string, seq<real>)>)
  {
    UniqueKeys(groups) && forall i :: 0 <= i < |groups| ==> groups[i].1 == DelaysFor(ps, groups[i].0)
  }

  /** Every run's key has a group. */
  predicate GroupsCover(groups: Entries<seq<real>>, ps: seq<(string, seq<real>)>)
  {
    forall p :: p in ps ==> KeyIndex(groups, p.0).Some?
  }

  /** Every group belongs to a key that was run. */
  predicate GroupsRun(groups: Entries<seq<real>>, ps: seq<(string, seq<real>)>)
  {
    forall i :: 0 <= i < |groups| ==> exists p :: p in ps && p.0 == groups[i].0
  }

  predicate GroupsOf(groups: Entries<seq<real>>, ps: seq<(string, seq<real>)>)
  {
    GroupsHold(groups, ps) && GroupsCover(groups, ps) && GroupsRun(groups, ps)
  }

  /** A key without a group has not been run. */
  lemma {:induction false} DelaysForAbsent(ps: seq<(string, seq<real>)>, groups: Entries<seq<real>>, key: string)
    requires GroupsCover(groups, ps) && KeyIndex(groups, key).None?
    ensures DelaysFor(ps, key) == []
  {
    if ps != [] {
      assert ps[|ps| - 1] in ps;
      assert forall p :: p in ps[..|ps| - 1] ==> p in ps;
      DelaysForAbsent(ps[..|ps| - 1], groups, key);
    }
  }

  /** Adding a run keeps every key where it was and ends with the run's key in place. */
  lemma AddRunKeys(groups: Entries<seq<real>>, p: (string, seq<real>))
    ensures var next := AddRun(groups, p);
      |groups| <= |next| <= |groups| + 1
      && (forall j :: 0 <= j < |groups| ==> next[j].0 == groups[j].0)
      && (|next| > |groups| ==> next[|groups|].0 == p.0)
      && KeyIndex(next, p.0).Some?
  {
    var next := AddRun(groups, p);
    if KeyIndex(groups, p.0).None? {
      assert next[|groups|].0 == p.0;
    } else {
      assert next[KeyIndex(groups, p.0).value].0 == p.0;
    }
  }

  /** Adding a run of a configuration with a group extends that group only. */
  lemma AddRunHoldsPresent(groups: Entries<seq<real>>, ps: seq<(string, seq<real>)>, p: (string, seq<real>), at: nat)
    requires GroupsHold(groups, ps) && at < |groups| && groups[at].0 == p.0
    ensures GroupsHold(groups[at := (p.0, groups[at].1 + p.1)], ps + [p])
  {
    var next := groups[at := (p.0, groups[at].1 + p.1)];
    var qs := ps + [p];
    assert qs[..|ps|] == ps;
    forall i | 0 <= i < |next| ensures next[i].1 == DelaysFor(qs, next[i].0) {
      if i != at {
        assert groups[i].0 != groups[at].0;
      }
    }
  }

  /** Adding a run of a configuration without a group appends one holding its delays. */
  lemma AddRunHoldsAbsent(groups: Entries<seq<real>>, ps: seq<(string, seq<real>)>, p: (string, seq<real>))
    requires GroupsHold(groups, ps) && GroupsCover(groups, ps) && KeyIndex(groups, p.0).None?
    ensures GroupsHold(groups + [p], ps + [p])
  {
    var next := groups + [p];
    var qs := ps + [p];
    assert qs[..|ps|] == ps;
    DelaysForAbsent(ps, groups, p.0);
    assert DelaysFor(qs, p.0) == p.1;
    forall i | 0 <= i < |groups| ensures next[i].1 == DelaysFor(qs, next[i].0) {
      assert next[i] == groups[i];
    }
  }

  /** Adding a run keeps every group's delays exact. */
  lemma AddRunHolds(groups: Entries<seq<real>>, ps: seq<(string, seq<real>)>, p: (string, seq<real>))
    requires GroupsHold(groups, ps) && GroupsCover(groups, ps)
    ensures GroupsHold(AddRun(groups, p), ps + [p])
  {
    match KeyIndex(groups, p.0)
    case Some(at) => AddRunHoldsPresent(groups, ps, p, at);
    case None => AddRunHoldsAbsent(groups, ps, p);
  }

  /** Adding a run keeps every key run covered, its own included. */
  lemma AddRunCovers(groups: Entries<seq<real>>, ps: seq<(string, seq<real>)>, p: (string, seq<real>))
    requires GroupsCover(groups, ps)
    ensures GroupsCover(AddRun(groups, p), ps + [p])
  {
    var next := AddRun(groups, p);
    AddRunKeys(groups, p);
    forall q | q in ps + [p] ensures KeyIndex(next, q.0).Some? {
      if q != p {
        assert q in ps;
        var j := KeyIndex(groups, q.0).value;
        assert next[j].0 == q.0;
      }
    }
  }

  /** Adding a run adds no group for a key that was not run. */
  lemma AddRunRuns(groups: Entries<seq<real>>, ps: seq<(string, seq<real>)>, p: (string, seq<real>))
    requires GroupsRun(groups, ps)
    ensures GroupsRun(AddRun(groups, p), ps + [p])
  {
    var next := AddRun(groups, p);
    AddRunKeys(groups, p);
    forall j | 0 <= j < |next| ensures exists q :: q in ps + [p] && q.0 == next[j].0 {
      if j < |groups| {
        var q :| q in ps && q.0 == groups[j].0;
        assert q in ps + [p];
      } else {
        assert p in ps + [p];
      }
    }
  }

  /** The groups hold one entry per key run, with exactly its delays. */
  lemma {:induction false} GroupAllExact(ps: seq<(string, seq<real>)>)
    ensures GroupsOf(GroupAll(ps), ps)
  {
    if ps != [] {
      var init := ps[..|ps| - 1];
      var p := ps[|ps| - 1];
      GroupAllExact(init);
      assert init + [p] == ps;
      AddRunHolds(GroupAll(init), init, p);
      AddRunCovers(GroupAll(init), init, p);
      AddRunRuns(GroupAll(init), init, p);
    }
  }

  /** Creating an empty group when there is none and then pushing onto it is adding the run. */
  lemma SetThenPush(groups: Entries<seq<real>>, key: string, ds: seq<real>)
    ensures var g := if KeyIndex(groups, key).None? then groups + [(key, [])] else groups;
      KeyIndex(g, key).Some?
      && g[KeyIndex(g, key).value := (key, g[KeyIndex(g, key).value].1 + ds)] == AddRun(groups, (key, ds))
  {
    if KeyIndex(groups, key).None? {
      var g := groups + [(key, [])];
      assert KeyIndex(g, key) == Some(|groups|);
      assert [] + ds == ds;
    }
  }

  /** The runs up to one more run of the history. */
  lemma RunsStep(h: seq<SimulationResult>, k: nat)
    requires k < |h|
    ensures RunsOf(h)[..k + 1] == RunsOf(h)[..k] + [(RunKey(h[k]), CollectDelays(h[k].trains))]
  {
  }

  /** The card's first loop: each run's delays pushed onto the group of its configuration. */
  method GroupByConfiguration(h: seq<SimulationResult>) returns (groups: Entries<seq<real>>)
    ensures groups == ConfigGroups(h)
  {
    groups := [];
    var k := 0;
    while k < |h|
      invariant 0 <= k <= |h|
      invariant groups == GroupAll(RunsOf(h)[..k])
    {
      var key := RunKey(h[k]);
      var ds := ExtractDelays(h[k].trains);
      SetThenPush(groups, key, ds);
      RunsStep(h, k);
      if KeyIndex(groups, key).None? {
        groups := groups + [(key, [])];
      }
      var i := KeyIndex(groups, key).value;
      groups := groups[i := (key, groups[i].1 + ds)];
      k := k + 1;
    }
    assert RunsOf(h)[..|h|] == RunsOf(h);
  }

  // Ordering the keys.

  /** JavaScript's default string order, by code unit. */
  predicate LexLeq(a: string, b: string)
  {
    a == [] || (b != [] && (a[0] < b[0] || (a[0] == b[0] && LexLeq(a[1..], b[1..]))))
  }

  /** Any two strings are ordered one way or the other. */
  lemma {:induction false} LexTotal(a: string, b: string)
    ensures LexLeq(a, b) || LexLeq(b, a)
  {
    if a != [] && b != [] && a[0] == b[0] {
      LexTotal(a[1..], b[1..]);
    }
  }

  predicate KeysSorted(ks: seq<string>)
  {
    forall i :: 0 < i < |ks| ==> LexLeq(ks[i - 1], ks[i])
  }

  function Insert(k: string, ks: seq<string>): (r: seq<string>)
    requires KeysSorted(ks)
    ensures KeysSorted(r) && multiset(r) == multiset(ks) + multiset{k}
    ensures r != [] && (r[0] == k || (ks != [] && r[0] == ks[0]))
  {
    if ks == [] || LexLeq(k, ks[0]) then [k] + ks
    else
      LexTotal(k, ks[0]);
      var rest := Insert(k, ks[1..]);
      assert ks == [ks[0]] + ks[1..];
      [ks[0]] + rest
  }

  /** `Array.from(keys).sort()`. */
  function SortKeys(ks: seq<string>): (r: seq<string>)
    ensures KeysSorted(r) && multiset(r) == multiset(ks)
  {
    if ks == [] then []
    else
      assert ks == ks[..|ks| - 1] + [ks[|ks| - 1]];
      Insert(ks[|ks| - 1], SortKeys(ks[..|ks| - 1]))
  }

  // The chart.

  /** One point of each line: a configuration and its figures. */
  datatype ComparisonRow = ComparisonRow(configuration: string, mean: real, median: real, min: real, max: real)

  /** One point of the chart, named as the card names it (careful drivers included). */
  function Row(key: string, ds: seq<real>): ComparisonRow
  {
    var st := CalculateStatistics(ds);
    ComparisonRow(ConfigurationNameAsWritten(key), st.mean, st.median, st.min, st.max)
  }

  /**
   * The name on a configuration's point: the driver's label and the strategy's label,
   * except that a careful driver's point reads "undefined - " and the strategy.
   */
  lemma RowName(b: Behavior, st: Strategy, ds: seq<real>)
    ensures Row(ConfigurationKey(b, st), ds).configuration
         == (if b == Soigneux then "undefined" else DriverLabel(b)) + " - " + StrategyLabel(st)
  {
    NameAsWritten(b, st);
  }

  lemma NameAsWritten(b: Behavior, st: Strategy)
    ensures ConfigurationNameAsWritten(ConfigurationKey(b, st))
         == (if b == Soigneux then "undefined" else DriverLabel(b)) + " - " + StrategyLabel(st)
  {
    KeyParts(b, st);
    StrategyLabelOfName(st);
    var d := DriverPart(ConfigurationKey(b, st));
    var shown := if b == Soigneux then "undefined" else DriverLabel(b);
    if b == Soigneux {
      SoigneuxHasNoWrittenLabel();
    } else {
      WrittenLabelOfName(b);
    }
    assert Rendered(DriverLabelAsWritten(d.value)) == shown;
  }

  lemma WrittenLabelOfName(b: Behavior)
    requires b != Soigneux
    ensures DriverLabelAsWritten(BehaviorName(b)) == Some(DriverLabel(b))
  {
  }

  /** The driver part the card shows: the driver's label, or "undefined" for the careful driver. */
  function ShownDriver(b: Behavior): string
  {
    if b == Soigneux then "undefined" else DriverLabel(b)
  }

  /** The shown driver parts hold no dash and tell the drivers apart, "undefined" included. */
  lemma ShownDriversDistinct(b1: Behavior, b2: Behavior)
    ensures '-' !in ShownDriver(b1)
    ensures ShownDriver(b1) == ShownDriver(b2) ==> b1 == b2
  {
    LabelsDistinct(b1, b2, NoSort, NoSort);
  }

  /** Two dash-free parts joined by " - " are recovered from the joined text. */
  lemma JoinInjective(a1: string, l1: string, a2: string, l2: string)
    requires '-' !in a1 && '-' !in l1 && '-' !in a2 && '-' !in l2
    requires a1 + " - " + l1 == a2 + " - " + l2
    ensures a1 == a2 && l1 == l2
  {
    assert a1 + " - " + l1 == (a1 + " ") + ['-'] + (" " + l1);
    assert a2 + " - " + l2 == (a2 + " ") + ['-'] + (" " + l2);
    SplitJoin(a1 + " ", " " + l1, '-');
    SplitJoin(a2 + " ", " " + l2, '-');
    var d1, d2 := a1 + " ", a2 + " ";
    var s1, s2 := " " + l1, " " + l2;
    assert d1 == d2 && s1 == s2;
    assert d1[..|d1| - 1] == a1 && d2[..|d2| - 1] == a2;
    assert s1[1..] == l1 && s2[1..] == l2;
  }

  /**
   * Different configurations get different names on the chart as the card writes them,
   * even with the careful driver shown as "undefined".
   */
  lemma NameAsWrittenInjective(b1: Behavior, st1: Strategy, b2: Behavior, st2: Strategy)
    requires ConfigurationNameAsWritten(ConfigurationKey(b1, st1)) == ConfigurationNameAsWritten(ConfigurationKey(b2, st2))
    ensures b1 == b2 && st1 == st2
  {
    NameAsWritten(b1, st1);
    NameAsWritten(b2, st2);
    ShownDriversDistinct(b1, b2);
    ShownDriversDistinct(b2, b1);
    LabelsDistinct(b1, b2, st1, st2);
    LabelsDistinct(b2, b1, st2, st1);
    JoinInjective(ShownDriver(b1), StrategyLabel(st1), ShownDriver(b2), StrategyLabel(st2));
  }

  /** `configKeys.map(...)`: one point per key, from the key's group. */
  function Rows(keys: seq<string>, groups: Entries<seq<real>>): (rows: seq<ComparisonRow>)
    requires forall k :: k in keys ==> KeyIndex(groups, k).Some?
    ensures |rows| == |keys|
    ensures forall i :: 0 <= i < |keys| ==> rows[i] == Row(keys[i], groups[KeyIndex(groups, keys[i]).value].1)
  {
    if keys == [] then []
    else [Row(keys[0], groups[KeyIndex(groups, keys[0]).value].1)] + Rows(keys[1..], groups)
  }

  /** The card's computation over the whole history. */
  method CompareConfigurations(h: seq<SimulationResult>) returns (keys: seq<string>, rows: seq<ComparisonRow>)
    ensures keys == SortKeys(Firsts(ConfigGroups(h)))
    ensures forall k :: k in keys ==> KeyIndex(ConfigGroups(h), k).Some?
    ensures rows == Rows(keys, ConfigGroups(h))
  {
    var groups := GroupByConfiguration(h);
    keys := SortKeys(Firsts(groups));
    forall k | k in keys ensures KeyIndex(groups, k).Some? {
      assert k in multiset(Firsts(groups));
      var i :| 0 <= i < |groups| && Firsts(groups)[i] == k;
    }
    rows := Rows(keys, groups);
  }

  /** Every key run appears once among the sorted keys, and no other key does. */
  lemma SortedKeysExact(ps: seq<(string, seq<real>)>)
    ensures var keys := SortKeys(Firsts(GroupAll(ps)));
      (forall p :: p in ps ==> multiset(keys)[p.0] == 1)
      && (forall k :: k in keys ==> exists p :: p in ps && p.0 == k)
  {
    SortedKeysOnce(ps);
    SortedKeysFromRuns(ps);
  }

  lemma SortedKeysOnce(ps: seq<(string, seq<real>)>)
    ensures forall p :: p in ps ==> multiset(SortKeys(Firsts(GroupAll(ps))))[p.0] == 1
  {
    var groups := GroupAll(ps);
    GroupAllExact(ps);
    var ks := Firsts(groups);
    forall p | p in ps ensures multiset(ks)[p.0] == 1 {
      var j := KeyIndex(groups, p.0).value;
      KeyCountedOnce(ks, j);
    }
  }

  lemma SortedKeysFromRuns(ps: seq<(string, seq<real>)>)
    ensures forall k :: k in SortKeys(Firsts(GroupAll(ps))) ==> exists p :: p in ps && p.0 == k
  {
    var groups := GroupAll(ps);
    GroupAllExact(ps);
    var ks := Firsts(groups);
    forall k | k in SortKeys(ks) ensures exists p :: p in ps && p.0 == k {
      assert k in multiset(SortKeys(ks));
      var i :| 0 <= i < |ks| && ks[i] == k;
    }
  }

  /** Every configuration run has exactly one key on the chart, and every key is one that was run. */
  lemma ComparisonKeys(h: seq<SimulationResult>)
    ensures var keys := SortKeys(Firsts(ConfigGroups(h)));
      (forall i :: 0 <= i < |h| ==> multiset(keys)[RunKey(h[i])] == 1)
      && (forall k :: k in keys ==> exists i :: 0 <= i < |h| && RunKey(h[i]) == k)
  {
    var ps := RunsOf(h);
    var keys := SortKeys(Firsts(GroupAll(ps)));
    SortedKeysExact(ps);
    forall i | 0 <= i < |h| ensures multiset(keys)[RunKey(h[i])] == 1 {
      assert ps[i] in ps;
    }
    forall k | k in keys ensures exists i :: 0 <= i < |h| && RunKey(h[i]) == k {
      var p :| p in ps && p.0 == k;
      RunOfPair(h, p);
    }
  }

  /** The group a key finds holds all that key's delays. */
  lemma GroupOfKey(ps: seq<(string, seq<real>)>, k: string)
    requires KeyIndex(GroupAll(ps), k).Some?
    ensures GroupAll(ps)[KeyIndex(GroupAll(ps), k).value].1 == DelaysFor(ps, k)
  {
    GroupAllExact(ps);
  }

  /** The chart's points follow the sorted keys, each carrying the statistics of all that key's delays. */
  lemma ComparisonRows(ps: seq<(string, seq<real>)>, keys: seq<string>)
    requires forall k :: k in keys ==> KeyIndex(GroupAll(ps), k).Some?
    ensures var rows := Rows(keys, GroupAll(ps));
      |rows| == |keys| && forall i :: 0 <= i < |keys| ==> rows[i] == Row(keys[i], DelaysFor(ps, keys[i]))
  {
    forall i | 0 <= i < |keys| ensures Rows(keys, GroupAll(ps))[i] == Row(keys[i], DelaysFor(ps, keys[i])) {
      assert keys[i] in keys;
      GroupOfKey(ps, keys[i]);
    }
  }

  /** There are points exactly when a run was made. */
  lemma ComparisonEmpty(ps: seq<(string, seq<real>)>)
    ensures SortKeys(Firsts(GroupAll(ps))) == [] <==> ps == []
  {
    if ps != [] {
      SortedKeysExact(ps);
      assert ps[0] in ps;
    }
  }

  /** A run pair comes from a run of the history. */
  lemma RunOfPair(h: seq<SimulationResult>, p: (string, seq<real>))
    requires p in RunsOf(h)
    ensures exists i :: 0 <= i < |h| && RunKey(h[i]) == p.0
  {
    var ps := RunsOf(h);
    var i :| 0 <= i < |ps| && ps[i] == p;
    assert RunKey(h[i]) == p.0;
  }

  /** A key that appears once among unique keys is counted once. */
  lemma {:induction false} KeyCountedOnce(ks: seq<string>, j: nat)
    requires j < |ks| && forall a, b :: 0 <= a < b < |ks| ==> ks[a] != ks[b]
    ensures multiset(ks)[ks[j]] == 1
  {
    var k := ks[j];
    assert ks == ks[..j] + [k] + ks[j + 1..];
    assert k !in ks[..j] && k !in ks[j + 1..] by {
      forall x | x in ks[..j] ensures x != k {
        var a :| 0 <= a < j && ks[..j][a] == x;
        assert x == ks[a];
      }
      var tail := ks[j + 1..];
      forall x | x in tail ensures x != k {
        var a :| 0 <= a < |tail| && tail[a] == x;
        assert x == ks[j + 1 + a];
      }
    }
  }
}
