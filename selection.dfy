/**
 * The two selection cells of the front end: the station and the train the user
 * picked on the map or in a panel. Neither checks that the id exists.
 */
module Selection {

  import opened Common

  class StationSelection {
    var selectedStationId: Option<string>

    /** Nothing is selected at first. */
    constructor()
      ensures selectedStationId == None
    {
      selectedStationId := None;
    }

    /** The selection becomes exactly `stationId`, whatever was selected before. */
    method SelectStation(stationId: string)
      modifies this
      ensures selectedStationId == Some(stationId)
    {
      selectedStationId := Some(stationId);
    }

    method ClearSelection()
      modifies this
      ensures selectedStationId == None
    {
      selectedStationId := None;
    }
  }

  class TrainSelection {
    var selectedTrainId: Option<string>

    constructor()
      ensures selectedTrainId == None
    {
      selectedTrainId := None;
    }

    method SelectTrain(trainId: string)
      modifies this
      ensures selectedTrainId == Some(trainId)
    {
      selectedTrainId := Some(trainId);
    }

    method ClearSelection()
      modifies this
      ensures selectedTrainId == None
    {
      selectedTrainId := None;
    }
  }

  /** The effect of a run of selection commands on a cell. */
  datatype Command = Select(id: string) | Clear

  /** The value a cell holds after applying the commands in order, starting from `start`. */
  function Apply(start: Option<string>, cmds: seq<Command>): Option<string>
    decreases |cmds|
  {
    if cmds == [] then start
    else Apply(if cmds[0].Select? then Some(cmds[0].id) else None, cmds[1..])
  }

  /** The last command decides the selection; without commands the start value stays. */
  lemma {:induction false} LastWriteWins(start: Option<string>, cmds: seq<Command>)
    ensures cmds == [] ==> Apply(start, cmds) == start
    ensures cmds != [] && cmds[|cmds| - 1].Select? ==> Apply(start, cmds) == Some(cmds[|cmds| - 1].id)
    ensures cmds != [] && cmds[|cmds| - 1].Clear? ==> Apply(start, cmds) == None
    decreases |cmds|
  {
    if cmds != [] {
      LastWriteWins(if cmds[0].Select? then Some(cmds[0].id) else None, cmds[1..]);
    }
  }

  /** Selecting the same id twice is the same as selecting it once. */
  lemma SelectIdempotent(start: Option<string>, id: string)
    ensures Apply(start, [Select(id), Select(id)]) == Apply(start, [Select(id)])
  {
  }
}
