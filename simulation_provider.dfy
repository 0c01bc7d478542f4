/**
 * The front end's simulation controller: the current snapshot, the play flag, the two
 * dialogs, the self-rescheduling play loop and the effect that records a finished run.
 * The engine's `Start` and `Tick` results arrive as parameters.
 */
module SimulationProvider {

  import opened Common
  import opened Snapshot
  import opened History

  class SimulationController {
    var state: Option<Simulation>
    var isPlaying: bool
    var isStartDialogOpen: bool
    var isAnalyticsDialogOpen: bool
    /**
     * The `shouldContinue` flag of every play loop started so far, by start order:
     * each run of the play effect captures a flag of its own.
     */
    var loops: seq<bool>
    /** The loop started by the latest run of the play effect, whose cleanup is still pending. */
    var activeLoop: Option<nat>
    const history: HistoryStore

    /** At most one loop is still allowed to continue: the active one. */
    ghost predicate Valid()
      reads this
    {
      (activeLoop.Some? ==> activeLoop.value < |loops|)
      && (forall i :: 0 <= i < |loops| && loops[i] ==> activeLoop == Some(i))
    }

    /** No snapshot, play off, the start dialog open and the analytics dialog closed. */
    constructor(history: HistoryStore)
      ensures state == None && !isPlaying && isStartDialogOpen && !isAnalyticsDialogOpen
      ensures loops == [] && activeLoop == None
      ensures this.history == history
      ensures Valid()
    {
      state := None;
      isPlaying := false;
      isStartDialogOpen := true;
      isAnalyticsDialogOpen := false;
      loops := [];
      activeLoop := None;
      this.history := history;
    }

    /** Shows the engine's first snapshot, turns play on and closes the start dialog. */
    method Start(initial: Simulation)
      modifies this
      ensures state == Some(initial) && isPlaying && !isStartDialogOpen
      ensures isAnalyticsDialogOpen == old(isAnalyticsDialogOpen)
      ensures loops == old(loops) && activeLoop == old(activeLoop)
    {
      state := Some(initial);
      isPlaying := true;
      isStartDialogOpen := false;
    }

    /** Replaces the snapshot with the engine's next one; nothing else changes. */
    method NextTick(next: Simulation)
      modifies this
      ensures state == Some(next)
      ensures isPlaying == old(isPlaying) && isStartDialogOpen == old(isStartDialogOpen)
      ensures isAnalyticsDialogOpen == old(isAnalyticsDialogOpen)
      ensures loops == old(loops) && activeLoop == old(activeLoop)
    {
      state := Some(next);
    }

    /** Drops the snapshot, stops play and reopens the start dialog. */
    method Restart()
      modifies this
      ensures state == None && !isPlaying && isStartDialogOpen
      ensures isAnalyticsDialogOpen == old(isAnalyticsDialogOpen)
      ensures loops == old(loops) && activeLoop == old(activeLoop)
    {
      state := None;
      isPlaying := false;
      isStartDialogOpen := true;
    }

    /** The play/pause control. */
    method SetIsPlaying(playing: bool)
      modifies this
      ensures isPlaying == playing
      ensures state == old(state) && isStartDialogOpen == old(isStartDialogOpen)
      ensures isAnalyticsDialogOpen == old(isAnalyticsDialogOpen)
      ensures loops == old(loops) && activeLoop == old(activeLoop)
    {
      isPlaying := playing;
    }

    method SetIsStartDialogOpen(open: bool)
      modifies this
      ensures isStartDialogOpen == open
      ensures state == old(state) && isPlaying == old(isPlaying) && isAnalyticsDialogOpen == old(isAnalyticsDialogOpen)
      ensures loops == old(loops) && activeLoop == old(activeLoop)
    {
      isStartDialogOpen := open;
    }

    /** Opens or closes the analytics dialog. */
    method SetIsAnalyticsDialogOpen(open: bool)
      modifies this
      ensures isAnalyticsDialogOpen == open
      ensures state == old(state) && isPlaying == old(isPlaying) && isStartDialogOpen == old(isStartDialogOpen)
      ensures loops == old(loops) && activeLoop == old(activeLoop)
    {
      isAnalyticsDialogOpen := open;
    }

    /**
     * The play effect, run after `isPlaying` changed: the cleanup of the previous run
     * clears that loop's flag; then, when play is on, a new loop starts and ticks at
     * once with the engine's snapshot `first`.
     */
    method PlayEffect(first: Simulation)
      requires Valid()
      modifies this
      ensures Valid()
      ensures |loops| == |old(loops)| + (if isPlaying then 1 else 0)
      ensures old(activeLoop).Some? ==> !loops[old(activeLoop).value]
      ensures isPlaying ==> activeLoop == Some(|old(loops)|) && loops[|old(loops)|] && state == Some(first)
      ensures !isPlaying ==> activeLoop == None && state == old(state)
      ensures forall i :: 0 <= i < |old(loops)| && (old(activeLoop) != Some(i)) ==> loops[i] == old(loops)[i]
      ensures isPlaying == old(isPlaying) && isStartDialogOpen == old(isStartDialogOpen)
      ensures isAnalyticsDialogOpen == old(isAnalyticsDialogOpen)
    {
      if activeLoop.Some? {
        loops := loops[activeLoop.value := false];
      }
      if isPlaying {
        loops := loops + [true];
        activeLoop := Some(|loops| - 1);
        NextTick(first);
      } else {
        activeLoop := None;
      }
    }

    /**
     * A scheduled continuation of loop `loop` firing: it ticks with the engine's
     * snapshot `next` and schedules one more continuation only while its flag is set.
     */
    method LoopTick(loop: nat, next: Simulation) returns (rescheduled: bool)
      requires loop < |loops|
      modifies this
      ensures loops == old(loops) && activeLoop == old(activeLoop)
      ensures rescheduled == loops[loop]
      ensures state == if loops[loop] then Some(next) else old(state)
      ensures isPlaying == old(isPlaying) && isStartDialogOpen == old(isStartDialogOpen)
      ensures isAnalyticsDialogOpen == old(isAnalyticsDialogOpen)
    {
      rescheduled := false;
      if loops[loop] {
        NextTick(next);
        rescheduled := true;
      }
    }

    /** The finish condition: a finished snapshot while play is on. */
    predicate ShouldRecord()
      reads this
    {
      state.Some? && state.value.isFinished && isPlaying
    }

    /**
     * The finish effect: when the snapshot is finished while playing, it stops play,
     * opens the analytics dialog and appends one history entry for the run, which is
     * also saved (the last entries) when the browser's storage accepts the write.
     */
    method FinishEffect(id: string, completedAt: string, saveOk: bool)
      modifies this, history
      ensures state == old(state) && isStartDialogOpen == old(isStartDialogOpen)
      ensures loops == old(loops) && activeLoop == old(activeLoop)
      ensures old(ShouldRecord()) ==>
        !isPlaying && isAnalyticsDialogOpen
        && history.simulationHistory == old(history.simulationHistory)
             + [Stamp(RunSummary(state.value.driverBehavior, state.value.stationStrategy, state.value.trains), id, completedAt)]
        && history.storage == if saveOk then Persisted(history.simulationHistory) else old(history.storage)
      ensures !old(ShouldRecord()) ==>
        isPlaying == old(isPlaying) && isAnalyticsDialogOpen == old(isAnalyticsDialogOpen)
        && history.simulationHistory == old(history.simulationHistory) && history.storage == old(history.storage)
      ensures !ShouldRecord()
    {
      if ShouldRecord() {
        isPlaying := false;
        isAnalyticsDialogOpen := true;
        var s := state.value;
        history.AddToHistory(RunSummary(s.driverBehavior, s.stationStrategy, s.trains), id, completedAt, saveOk);
      }
    }
  }
}
