/**
 * The list of finished runs kept by the front end. The list in memory grows without
 * bound; the copy written to the browser's storage is capped to the most recent runs.
 */
module History {

  import opened Common
  import opened Drivers
  import opened StationStrategy
  import opened Trains
  import opened Snapshot

  /** One finished run, identified by a random id and stamped with its completion time. */
  datatype SimulationResult = SimulationResult(
    id: string, driverBehavior: Behavior, stationStrategy: Strategy,
    trains: Entries<TrainRecord>, completedAt: string)

  /** What the finish effect hands over: a result without its id and time stamp. */
  datatype RunSummary = RunSummary(driverBehavior: Behavior, stationStrategy: Strategy, trains: Entries<TrainRecord>)

  const StorageKey: string := "simulation_history"
  const MaxHistorySize: nat := 20

  /**
   * What the storage holds under the history key: nothing (or an empty string),
   * text that does not parse, or a saved list.
   */
  datatype Stored = Missing | Corrupt | Saved(items: seq<SimulationResult>)

  /** Reading the storage back: an absent key or text that does not parse gives an empty list. */
  function LoadHistory(stored: Stored): (h: seq<SimulationResult>)
    ensures stored.Saved? ==> h == stored.items
    ensures !stored.Saved? ==> h == []
  {
    match stored
    case Saved(items) => items
    case _ => []
  }

  /** What a successful save writes: the last `MaxHistorySize` entries. */
  function Persisted(h: seq<SimulationResult>): (s: Stored)
    ensures s.Saved? && |s.items| == if |h| < MaxHistorySize then |h| else MaxHistorySize
    ensures s.items == h[|h| - |s.items|..]
    ensures |h| <= MaxHistorySize ==> s.items == h
  {
    Saved(TakeLast(h, MaxHistorySize))
  }

  /** After a reload, the history is the most recent saved runs, at most 20 of them. */
  lemma ReloadKeepsRecent(h: seq<SimulationResult>)
    ensures |LoadHistory(Persisted(h))| == if |h| < MaxHistorySize then |h| else MaxHistorySize
    ensures forall i :: 0 <= i < |LoadHistory(Persisted(h))| ==>
      LoadHistory(Persisted(h))[i] == h[|h| - |LoadHistory(Persisted(h))| + i]
  {
  }

  /** The result `Add` records for a summary, with the id and time stamp it was given. */
  function Stamp(summary: RunSummary, id: string, completedAt: string): (r: SimulationResult)
    ensures r.id == id && r.completedAt == completedAt
    ensures r.driverBehavior == summary.driverBehavior && r.stationStrategy == summary.stationStrategy
    ensures r.trains == summary.trains
  {
    SimulationResult(id, summary.driverBehavior, summary.stationStrategy, summary.trains, completedAt)
  }

  /** The entries whose id differs from `id`, in their order. */
  function WithoutId(h: seq<SimulationResult>, id: string): (r: seq<SimulationResult>)
    ensures |r| <= |h|
    ensures forall x :: x in r <==> x in h && x.id != id
  {
    if h == [] then [] else (if h[0].id != id then [h[0]] else []) + WithoutId(h[1..], id)
  }

  /** Removing an id keeps the other entries in order: removing from a concatenation works piecewise. */
  lemma {:induction false} WithoutIdAppend(a: seq<SimulationResult>, b: seq<SimulationResult>, id: string)
    ensures WithoutId(a + b, id) == WithoutId(a, id) + WithoutId(b, id)
  {
    if a == [] {
      assert a + b == b;
    } else {
      assert (a + b)[0] == a[0] && (a + b)[1..] == a[1..] + b;
      WithoutIdAppend(a[1..], b, id);
    }
  }

  /** Removing an id nobody has leaves the list as it is. */
  lemma {:induction false} WithoutAbsentId(h: seq<SimulationResult>, id: string)
    requires forall i :: 0 <= i < |h| ==> h[i].id != id
    ensures WithoutId(h, id) == h
  {
    if h != [] {
      WithoutAbsentId(h[1..], id);
      assert h == [h[0]] + h[1..];
    }
  }

  /** Removing the same id twice is removing it once. */
  lemma WithoutIdIdempotent(h: seq<SimulationResult>, id: string)
    ensures WithoutId(WithoutId(h, id), id) == WithoutId(h, id)
  {
    var r := WithoutId(h, id);
    forall i | 0 <= i < |r| ensures r[i].id != id {
      assert r[i] in r;
    }
    WithoutAbsentId(r, id);
  }

  class HistoryStore {
    /** The list shown by the history views. */
    var simulationHistory: seq<SimulationResult>
    /** The storage entry under `StorageKey`. */
    var storage: Stored

    /** The initial list is whatever the storage holds, or empty. */
    constructor(stored: Stored)
      ensures simulationHistory == LoadHistory(stored) && storage == stored
    {
      simulationHistory := LoadHistory(stored);
      storage := stored;
    }

    /** Writes the capped list; a failed write (`saveOk` false) is swallowed and changes nothing. */
    method SaveHistory(h: seq<SimulationResult>, saveOk: bool)
      modifies this
      ensures storage == if saveOk then Persisted(h) else old(storage)
      ensures simulationHistory == old(simulationHistory)
    {
      if saveOk {
        storage := Persisted(h);
      }
    }

    /** Appends one stamped result at the end and saves the new list. */
    method AddToHistory(summary: RunSummary, id: string, completedAt: string, saveOk: bool)
      modifies this
      ensures simulationHistory == old(simulationHistory) + [Stamp(summary, id, completedAt)]
      ensures storage == if saveOk then Persisted(simulationHistory) else old(storage)
    {
      var updated := simulationHistory + [Stamp(summary, id, completedAt)];
      SaveHistory(updated, saveOk);
      simulationHistory := updated;
    }

    /** Drops every entry with that id, keeping the order of the rest, and saves. */
    method RemoveFromHistory(id: string, saveOk: bool)
      modifies this
      ensures simulationHistory == WithoutId(old(simulationHistory), id)
      ensures storage == if saveOk then Persisted(simulationHistory) else old(storage)
    {
      var updated := WithoutId(simulationHistory, id);
      SaveHistory(updated, saveOk);
      simulationHistory := updated;
    }

    /** Empties the list and deletes the storage entry. */
    method ClearHistory()
      modifies this
      ensures simulationHistory == [] && storage == Missing
    {
      simulationHistory := [];
      storage := Missing;
    }
  }
}
