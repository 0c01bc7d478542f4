/**
 * A station: a bounded set of trains standing at its platforms and an ordered queue
 * of trains that announced they will soon ask to enter. Messages arrive one at a
 * time on the station's inbox; each handler below is one message.
 */
module Stations {

  import opened Common
  import opened Json
  import opened StationStrategy

  /** Position of the first demand of train `id` in the queue. */
  function IndexOf(q: seq<Demand>, id: string): (r: Option<nat>)
    ensures r.Some? ==> r.value < |q| && q[r.value].trainId == id
    ensures r.Some? ==> forall j :: 0 <= j < r.value ==> q[j].trainId != id
    ensures r.None? ==> forall j :: 0 <= j < |q| ==> q[j].trainId != id
  {
    if q == [] then None
    else if q[0].trainId == id then Some(0)
    else match IndexOf(q[1..], id)
      case None => None
      case Some(i) => Some(i + 1)
  }

  /** No train appears twice in the queue. */
  ghost predicate UniqueIds(q: seq<Demand>)
  {
    forall i, j :: 0 <= i < j < |q| ==> q[i].trainId != q[j].trainId
  }

  /** Registers a demand: the train's existing entry is refreshed in place, or a new one is queued last. */
  function Upsert(q: seq<Demand>, id: string, delay: int, entryTime: int): seq<Demand>
  {
    match IndexOf(q, id)
    case Some(i) => q[i := Demand(id, delay, entryTime)]
    case None => q + [Demand(id, delay, entryTime)]
  }

  /** Drops the first demand of train `id`, if any. */
  function Withdraw(q: seq<Demand>, id: string): seq<Demand>
  {
    match IndexOf(q, id)
    case Some(i) => q[..i] + q[i + 1..]
    case None => q
  }

  /** Whether an entry request succeeds: a slot is free and the train is among the first free-slot demands. */
  predicate Admits(capacity: int, occupied: nat, q: seq<Demand>, id: string)
  {
    var remaining := capacity - occupied;
    remaining > 0 && IndexOf(q, id).Some? && IndexOf(q, id).value < remaining
  }

  /** Admission in the words of the engine: the train occupies one of the first `remaining` places. */
  lemma AdmitsIffAmongFirst(capacity: int, occupied: nat, q: seq<Demand>, id: string)
    ensures Admits(capacity, occupied, q, id)
        <==> exists i :: 0 <= i < capacity - occupied && i < |q| && q[i].trainId == id
  {
    if exists i :: 0 <= i < capacity - occupied && i < |q| && q[i].trainId == id {
      var i :| 0 <= i < capacity - occupied && i < |q| && q[i].trainId == id;
      assert IndexOf(q, id).Some?;
    }
  }

  /** A refreshed or queued demand holds the new values, and no train gains a second entry. */
  lemma UpsertSpec(q: seq<Demand>, id: string, delay: int, entryTime: int)
    requires UniqueIds(q)
    ensures var r := Upsert(q, id, delay, entryTime);
      UniqueIds(r)
      && Demand(id, delay, entryTime) in r
      && |r| == (if IndexOf(q, id).Some? then |q| else |q| + 1)
      && (forall x :: x in q && x.trainId != id ==> x in r)
      && (forall x :: x in r ==> x == Demand(id, delay, entryTime) || x in q)
  {
    var r := Upsert(q, id, delay, entryTime);
    match IndexOf(q, id)
    case Some(i) =>
      assert r[i] == Demand(id, delay, entryTime);
      forall x | x in q && x.trainId != id ensures x in r {
        var k :| 0 <= k < |q| && q[k] == x;
        assert r[k] == x;
      }
    case None =>
      assert r[|q|] == Demand(id, delay, entryTime);
  }

  /** With unique ids, withdrawing a train is filtering it out. */
  lemma {:induction false} WithdrawIsFilter(q: seq<Demand>, id: string)
    requires UniqueIds(q)
    ensures Withdraw(q, id) == Filter(q, (d: Demand) => d.trainId != id)
  {
    if q != [] {
      if q[0].trainId == id {
        assert Withdraw(q, id) == q[1..];
        NoneLeftToFilter(q[1..], id);
      } else {
        WithdrawIsFilter(q[1..], id);
        WithdrawKeepsHead(q, id);
      }
    }
  }

  /** A head of another train stays in front. */
  lemma WithdrawKeepsHead(q: seq<Demand>, id: string)
    requires q != [] && q[0].trainId != id
    ensures Withdraw(q, id) == [q[0]] + Withdraw(q[1..], id)
  {
    match IndexOf(q[1..], id)
    case None =>
      assert q == [q[0]] + q[1..];
    case Some(i) =>
      assert q[..i + 1] + q[i + 2..] == [q[0]] + (q[1..][..i] + q[1..][i + 1..]);
  }

  lemma {:induction false} NoneLeftToFilter(q: seq<Demand>, id: string)
    requires forall j :: 0 <= j < |q| ==> q[j].trainId != id
    ensures Filter(q, (d: Demand) => d.trainId != id) == q
  {
    if q != [] {
      NoneLeftToFilter(q[1..], id);
    }
  }

  /** Withdrawing keeps every other demand in order and removes the train's only entry. */
  lemma WithdrawSpec(q: seq<Demand>, id: string)
    requires UniqueIds(q)
    ensures var r := Withdraw(q, id);
      UniqueIds(r)
      && (forall x :: x in r ==> x.trainId != id)
      && (forall x :: x in q && x.trainId != id <==> x in r)
  {
    match IndexOf(q, id)
    case None =>
    case Some(i) =>
      RemoveAtUnique(q, i);
      RemoveAtMembers(q, i);
  }

  /** The element at position `k` once position `i` is removed. */
  lemma RemoveAtIndex(q: seq<Demand>, i: nat, k: nat)
    requires i < |q| && k < |q| - 1
    ensures (q[..i] + q[i + 1..])[k] == if k < i then q[k] else q[k + 1]
  {
  }

  lemma RemoveAtUnique(q: seq<Demand>, i: nat)
    requires UniqueIds(q) && i < |q|
    ensures UniqueIds(q[..i] + q[i + 1..])
  {
    var r := q[..i] + q[i + 1..];
    forall a, b | 0 <= a < b < |r| ensures r[a].trainId != r[b].trainId {
      RemoveAtIndex(q, i, a);
      RemoveAtIndex(q, i, b);
    }
  }

  /** Removing the only entry of `q[i]`'s train leaves exactly the other trains' entries. */
  lemma RemoveAtMembers(q: seq<Demand>, i: nat)
    requires UniqueIds(q) && i < |q|
    ensures forall x :: x in q[..i] + q[i + 1..] ==> x.trainId != q[i].trainId
    ensures forall x :: x in q && x.trainId != q[i].trainId ==> x in q[..i] + q[i + 1..]
  {
    var r := q[..i] + q[i + 1..];
    forall x | x in r ensures x.trainId != q[i].trainId {
      var k :| 0 <= k < |r| && r[k] == x;
      RemoveAtIndex(q, i, k);
    }
    forall x | x in q && x.trainId != q[i].trainId ensures x in r {
      var k :| 0 <= k < |q| && q[k] == x;
      if k < i {
        RemoveAtIndex(q, i, k);
      } else {
        RemoveAtIndex(q, i, k - 1);
      }
    }
  }

  lemma {:induction false} UniqueCountsOnce(q: seq<Demand>, x: Demand)
    requires UniqueIds(q)
    ensures multiset(q)[x] <= 1
  {
    if q != [] {
      assert q == [q[0]] + q[1..];
      UniqueCountsOnce(q[1..], x);
      if q[0] == x {
        assert x !in q[1..];
      }
    }
  }

  /** An element counted at most once cannot sit at two positions. */
  lemma DistinctPositions(r: seq<Demand>, a: int, b: int)
    requires 0 <= a < b < |r| && multiset(r)[r[a]] <= 1
    ensures r[a] != r[b]
  {
    assert r == r[..b] + [r[b]] + r[b + 1..];
    assert r[a] in r[..b];
    assert multiset(r)[r[a]] >= multiset(r[..b])[r[a]] + multiset{r[b]}[r[a]];
  }

  /** Reordering the queue cannot create a duplicate. */
  lemma PermutationKeepsUniqueIds(q: seq<Demand>, r: seq<Demand>)
    requires UniqueIds(q) && multiset(r) == multiset(q)
    ensures UniqueIds(r)
  {
    forall a, b | 0 <= a < b < |r| ensures r[a].trainId != r[b].trainId {
      UniqueCountsOnce(q, r[a]);
      DistinctPositions(r, a, b);
      assert r[a] in multiset(q) && r[b] in multiset(q);
      var i :| 0 <= i < |q| && q[i] == r[a];
      var j :| 0 <= j < |q| && q[j] == r[b];
      assert i != j;
    }
  }

  /** Station occupancy bound: a negative capacity admits nobody. */
  function Bound(capacity: int): nat
  {
    if capacity < 0 then 0 else capacity
  }

  datatype StationMessage =
    | DemandingEntry(trainId: string, fromSegment: string, delay: int, requestTime: int)
    | EntryRequest(trainId: string, fromSegment: string, entryTime: int)
    | DepartureNotification(trainId: string)
    | Unrecognised

  datatype StationReply = DemandingEntryResponse(validate: bool) | EntryResponse(allowed: bool)

  class Station {
    const id: string
    const name: string
    const capacity: int
    /** Trains at the platforms, each with the time it entered. */
    var trainsInStation: map<string, int>
    /** Trains that announced their arrival, in admission order. */
    var demands: seq<Demand>
    /** The ordering policy; `None` until one is set. */
    var strategy: Option<Strategy>

    ghost predicate Valid()
      reads this
    {
      UniqueIds(demands) && |trainsInStation| <= Bound(capacity)
    }

    constructor(id: string, name: string, capacity: int)
      ensures this.id == id && this.name == name && this.capacity == capacity
      ensures trainsInStation == map[] && demands == [] && strategy == None
      ensures Valid()
    {
      this.id := id;
      this.name := name;
      this.capacity := capacity;
      trainsInStation := map[];
      demands := [];
      strategy := None;
    }

    method SetStrategy(st: Strategy)
      modifies this`strategy
      ensures strategy == Some(st)
    {
      strategy := Some(st);
    }

    method AddOrUpdateDemand(trainId: string, delay: int, entryTime: int)
      modifies this`demands
      ensures demands == Upsert(old(demands), trainId, delay, entryTime)
    {
      var i := 0;
      while i < |demands|
        invariant 0 <= i <= |demands| && demands == old(demands)
        invariant forall j :: 0 <= j < i ==> demands[j].trainId != trainId
      {
        if demands[i].trainId == trainId {
          demands := demands[i := Demand(trainId, delay, entryTime)];
          return;
        }
        i := i + 1;
      }
      demands := demands + [Demand(trainId, delay, entryTime)];
    }

    method RemoveDemand(trainId: string)
      modifies this`demands
      ensures demands == Withdraw(old(demands), trainId)
    {
      var i := 0;
      while i < |demands|
        invariant 0 <= i <= |demands| && demands == old(demands)
        invariant forall j :: 0 <= j < i ==> demands[j].trainId != trainId
      {
        if demands[i].trainId == trainId {
          demands := demands[..i] + demands[i + 1..];
          return;
        }
        i := i + 1;
      }
    }

    method SortDemands()
      modifies this`demands
      ensures strategy.None? ==> demands == old(demands)
      ensures strategy.Some? ==> Sorts(strategy.value, old(demands), demands)
    {
      if strategy.Some? {
        demands := StationStrategy.SortDemands(strategy.value, demands);
      }
    }

    /** A train at 90% of its last segment announces itself; the demand is always acknowledged. */
    method HandleDemandingEntry(trainId: string, delay: int, requestTime: int) returns (validate: bool)
      requires Valid()
      modifies this`demands
      ensures Valid() && validate
      ensures strategy.None? ==> demands == Upsert(old(demands), trainId, delay, requestTime)
      ensures strategy.Some? ==> Sorts(strategy.value, Upsert(old(demands), trainId, delay, requestTime), demands)
    {
      UpsertSpec(demands, trainId, delay, requestTime);
      AddOrUpdateDemand(trainId, delay, requestTime);
      ghost var registered := demands;
      SortDemands();
      if strategy.Some? {
        assert multiset(demands) == multiset(registered) by {
          match strategy.value
          case NoSort =>
          case EntryTimeAsc =>
          case DelayAsc =>
          case DelayAscWithThreshold =>
        }
        PermutationKeepsUniqueIds(registered, demands);
      }
      validate := true;
    }

    /**
     * A train at the end of its last segment asks to enter. It is admitted when a
     * slot is free and it is among the first free-slot demands; it then takes a slot
     * and leaves the queue. A refused train changes nothing.
     */
    method HandleEntryRequest(trainId: string, entryTime: int) returns (allowed: bool)
      requires Valid()
      modifies this`trainsInStation, this`demands
      ensures Valid()
      ensures allowed == Admits(capacity, |old(trainsInStation)|, old(demands), trainId)
      ensures allowed ==> trainsInStation == old(trainsInStation)[trainId := entryTime]
                          && demands == Withdraw(old(demands), trainId)
      ensures !allowed ==> trainsInStation == old(trainsInStation) && demands == old(demands)
    {
      var remaining := capacity - |trainsInStation|;
      if remaining <= 0 {
        return false;
      }
      allowed := false;
      var limit := remaining;
      if limit > |demands| {
        limit := |demands|;
      }
      var i := 0;
      while i < limit
        invariant 0 <= i <= limit
        invariant forall j :: 0 <= j < i ==> demands[j].trainId != trainId
      {
        if demands[i].trainId == trainId {
          allowed := true;
          break;
        }
        i := i + 1;
      }
      if allowed {
        WithdrawSpec(demands, trainId);
        trainsInStation := trainsInStation[trainId := entryTime];
        RemoveDemand(trainId);
      }
    }

    /** A departing train frees its slot; an unknown train changes nothing. */
    method HandleDeparture(trainId: string)
      requires Valid()
      modifies this`trainsInStation
      ensures Valid()
      ensures trainsInStation == old(trainsInStation) - {trainId}
    {
      if trainId in trainsInStation {
        trainsInStation := trainsInStation - {trainId};
      }
    }

    /** One message from the inbox; an unrecognised message gets no reply and changes nothing. */
    method Dispatch(msg: StationMessage) returns (reply: Option<StationReply>)
      requires Valid()
      modifies this`trainsInStation, this`demands
      ensures Valid()
      ensures msg.DemandingEntry? ==> reply == Some(DemandingEntryResponse(true))
      ensures msg.EntryRequest? ==>
        reply == Some(EntryResponse(Admits(capacity, |old(trainsInStation)|, old(demands), msg.trainId)))
      ensures msg.DepartureNotification? || msg.Unrecognised? ==> reply == None
      ensures msg.DemandingEntry? ==> trainsInStation == old(trainsInStation)
      ensures msg.DemandingEntry? && strategy.None? ==>
        demands == Upsert(old(demands), msg.trainId, msg.delay, msg.requestTime)
      ensures msg.DemandingEntry? && strategy.Some? ==>
        Sorts(strategy.value, Upsert(old(demands), msg.trainId, msg.delay, msg.requestTime), demands)
      ensures msg.EntryRequest? && Admits(capacity, |old(trainsInStation)|, old(demands), msg.trainId) ==>
        trainsInStation == old(trainsInStation)[msg.trainId := msg.entryTime]
        && demands == Withdraw(old(demands), msg.trainId)
      ensures msg.EntryRequest? && !Admits(capacity, |old(trainsInStation)|, old(demands), msg.trainId) ==>
        trainsInStation == old(trainsInStation) && demands == old(demands)
      ensures msg.DepartureNotification? ==>
        trainsInStation == old(trainsInStation) - {msg.trainId} && demands == old(demands)
      ensures msg.Unrecognised? ==> trainsInStation == old(trainsInStation) && demands == old(demands)
    {
      match msg
      case DemandingEntry(train, _, delay, requestTime) =>
        var v := HandleDemandingEntry(train, delay, requestTime);
        reply := Some(DemandingEntryResponse(v));
      case EntryRequest(train, _, entryTime) =>
        var a := HandleEntryRequest(train, entryTime);
        reply := Some(EntryResponse(a));
      case DepartureNotification(train) =>
        HandleDeparture(train);
        reply := None;
      case Unrecognised =>
        reply := None;
    }

    /** The JSON object the engine publishes for this station. */
    function ToJson(): (j: Json)
      reads this
      ensures j.JObject? && j.fields.Keys == {"id", "name", "capacity", "trainsInStation"}
    {
      JObject(map[
        "id" := JString(id),
        "name" := JString(name),
        "capacity" := JInt(capacity),
        "trainsInStation" := JObject(map k | k in trainsInStation :: JObject(map["entryTime" := JInt(trainsInStation[k])]))
      ])
    }
  }

  /** The station as the front end sees it after decoding. */
  datatype StationState = StationState(id: string, name: string, capacity: int, trainsInStation: map<string, int>)

  function ParseStation(j: Json): Option<StationState>
  {
    if j.JObject? && "id" in j.fields && j.fields["id"].JString?
       && "name" in j.fields && j.fields["name"].JString?
       && "capacity" in j.fields && j.fields["capacity"].JInt?
       && "trainsInStation" in j.fields && j.fields["trainsInStation"].JObject?
       && (forall k :: k in j.fields["trainsInStation"].fields ==> EntryTimeOf(j.fields["trainsInStation"].fields[k]).Some?)
    then
      var inside := j.fields["trainsInStation"].fields;
      Some(StationState(j.fields["id"].s, j.fields["name"].s, j.fields["capacity"].i,
                        map k | k in inside :: EntryTimeOf(inside[k]).value))
    else None
  }

  function EntryTimeOf(j: Json): Option<int>
  {
    if j.JObject? && "entryTime" in j.fields && j.fields["entryTime"].JInt? then Some(j.fields["entryTime"].i) else None
  }

  /** Decoding the published JSON gives back the station's identity and occupancy. */
  lemma StationJsonRoundTrip(s: Station)
    ensures ParseStation(s.ToJson()) == Some(StationState(s.id, s.name, s.capacity, s.trainsInStation))
  {
    var inside := s.ToJson().fields["trainsInStation"].fields;
    assert forall k :: k in inside ==> EntryTimeOf(inside[k]) == Some(s.trainsInStation[k]);
    assert (map k | k in inside :: EntryTimeOf(inside[k]).value) == s.trainsInStation;
  }
}
