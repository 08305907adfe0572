/** NASCAR's live race feed (internal/nascar/live.go): per-vehicle statistics, the live-race
    test, driver and leader lookup, and the flag symbols. */
module NascarLive {
  import opened Wrappers

  /** A pit stop; the elapsed-time floats of the feed are not modelled. */
  datatype PitStop = PitStop(
    pitInLapCount: int,
    pitInRank: int,
    pitOutRank: int,
    positionsGainedLost: int)

  datatype DriverInfo = DriverInfo(driverId: int, fullName: string, firstName: string, lastName: string)

  /** A run of consecutive laps led, both ends included. */
  datatype LapRange = LapRange(startLap: int, endLap: int)

  /** A car in the feed; the float fields (gap, lap speeds, best lap time) are not modelled. */
  datatype Vehicle = Vehicle(
    runningPosition: int,
    vehicleNumber: string,
    driver: DriverInfo,
    lapsCompleted: int,
    lapsLed: seq<LapRange>,
    status: int,
    isOnTrack: bool,
    isOnDvp: bool,
    startingPosition: int,
    vehicleManufacturer: string,
    sponsorName: string,
    passesMade: int,
    passingDiff: int,
    pitStops: seq<PitStop>)

  datatype StageInfo = StageInfo(stageNum: int, finishAtLap: int, lapsInStage: int)

  datatype LiveFeed = LiveFeed(
    lapNumber: int,
    lapsInRace: int,
    lapsToGo: int,
    flagState: int,
    raceId: int,
    trackId: int,
    runType: int,
    seriesId: int,
    trackName: string,
    runName: string,
    stage: StageInfo,
    numberOfCautionLaps: int,
    numberOfCautions: int,
    numberOfLeadChanges: int,
    numberOfLeaders: int,
    vehicles: seq<Vehicle>)

  // ---------------------------------------------------------------------------
  // Pit stops

  /** The laps of the stops that carry lap data (a positive pit-in lap), in feed order. */
  function PitLaps(stops: seq<PitStop>): (laps: seq<int>)
    ensures |laps| <= |stops|
    ensures forall k | 0 <= k < |laps| :: laps[k] > 0
  {
    if stops == [] then []
    else
      var init, lap := PitLaps(stops[..|stops| - 1]), stops[|stops| - 1].pitInLapCount;
      if lap > 0 then init + [lap] else init
  }

  /** `Vehicle.PitCount`: the number of stops with lap data. */
  method PitCount(v: Vehicle) returns (count: int)
    ensures count == |PitLaps(v.pitStops)|
    ensures 0 <= count <= |v.pitStops|
  {
    count := 0;
    var i := 0;
    while i < |v.pitStops|
      invariant 0 <= i <= |v.pitStops|
      invariant count == |PitLaps(v.pitStops[..i])|
    {
      assert v.pitStops[..i + 1][..i] == v.pitStops[..i];
      if v.pitStops[i].pitInLapCount > 0 {
        count := count + 1;
      }
      i := i + 1;
    }
    assert v.pitStops[..|v.pitStops|] == v.pitStops;
  }

  /** A stop without lap data is not counted, and one with lap data is: appending a stop
      raises the count by one exactly when its pit-in lap is positive. */
  lemma PitLapsSnoc(stops: seq<PitStop>, p: PitStop)
    ensures |PitLaps(stops + [p])| == |PitLaps(stops)| + (if p.pitInLapCount > 0 then 1 else 0)
  {
    assert (stops + [p])[..|stops|] == stops;
  }

  /** The specification of `LastPitLap`: the pit-in lap of the latest stop with lap data. */
  function LastPit(stops: seq<PitStop>): (lap: int)
    ensures lap >= 0
  {
    if stops == [] then 0
    else if stops[|stops| - 1].pitInLapCount > 0 then stops[|stops| - 1].pitInLapCount
    else LastPit(stops[..|stops| - 1])
  }

  /** `Vehicle.LastPitLap`, scanning from the latest stop back. */
  method LastPitLap(v: Vehicle) returns (lap: int)
    ensures lap == LastPit(v.pitStops)
  {
    var i := |v.pitStops| - 1;
    assert v.pitStops[..i + 1] == v.pitStops;
    while i >= 0
      invariant -1 <= i < |v.pitStops|
      invariant LastPit(v.pitStops) == LastPit(v.pitStops[..i + 1])
    {
      assert v.pitStops[..i + 1][..i] == v.pitStops[..i];
      if v.pitStops[i].pitInLapCount > 0 {
        return v.pitStops[i].pitInLapCount;
      }
      i := i - 1;
    }
    return 0;
  }

  /** `LastPit` is 0 exactly when no stop has lap data, and otherwise the lap of a stop with
      lap data after which no stop has any. */
  lemma {:induction false} LastPitSpec(stops: seq<PitStop>)
    ensures LastPit(stops) == 0 <==> forall k | 0 <= k < |stops| :: stops[k].pitInLapCount <= 0
    ensures LastPit(stops) > 0 ==> exists k | 0 <= k < |stops| ::
      stops[k].pitInLapCount == LastPit(stops)
      && forall j | k < j < |stops| :: stops[j].pitInLapCount <= 0
  {
    if stops != [] {
      var init := stops[..|stops| - 1];
      LastPitSpec(init);
      assert forall k | 0 <= k < |init| :: init[k] == stops[k];
      if stops[|stops| - 1].pitInLapCount > 0 {
        assert stops[|stops| - 1].pitInLapCount == LastPit(stops);
      } else if LastPit(stops) > 0 {
        var k :| 0 <= k < |init| && init[k].pitInLapCount == LastPit(init)
          && forall j | k < j < |init| :: init[j].pitInLapCount <= 0;
        assert stops[k].pitInLapCount == LastPit(stops);
      }
    }
  }

  /** The last pit lap is the last of the counted pit laps, so it is 0 exactly when the pit
      count is 0. */
  lemma {:induction false} LastPitIsLastCounted(stops: seq<PitStop>)
    ensures LastPit(stops) == 0 <==> |PitLaps(stops)| == 0
    ensures |PitLaps(stops)| > 0 ==> LastPit(stops) == PitLaps(stops)[|PitLaps(stops)| - 1]
  {
    if stops != [] {
      LastPitIsLastCounted(stops[..|stops| - 1]);
    }
  }

  /** `Vehicle.LapsSinceLastPit`: the current lap when no stop has lap data, otherwise the
      laps run since the last stop. */
  function LapsSinceLastPit(v: Vehicle, currentLap: int): (laps: int)
  {
    var last := LastPit(v.pitStops);
    if last == 0 then currentLap else currentLap - last
  }

  /** Both branches of `LapsSinceLastPit` are `currentLap` minus the last pit lap, and the
      count from the start applies exactly when the car has no stop with lap data. */
  lemma LapsSinceLastPitSpec(v: Vehicle, currentLap: int)
    ensures LapsSinceLastPit(v, currentLap) == currentLap - LastPit(v.pitStops)
    ensures (forall k | 0 <= k < |v.pitStops| :: v.pitStops[k].pitInLapCount <= 0) ==>
      LapsSinceLastPit(v, currentLap) == currentLap
    ensures |PitLaps(v.pitStops)| > 0 ==>
      LapsSinceLastPit(v, currentLap) == currentLap - PitLaps(v.pitStops)[|PitLaps(v.pitStops)| - 1]
  {
    LastPitSpec(v.pitStops);
    LastPitIsLastCounted(v.pitStops);
  }

  // ---------------------------------------------------------------------------
  // Laps led

  /** The laps covered by the ranges, each counted `endLap - startLap + 1`. */
  function LapsLedSum(ranges: seq<LapRange>): int
  {
    if ranges == [] then 0
    else
      var last := ranges[|ranges| - 1];
      LapsLedSum(ranges[..|ranges| - 1]) + (last.endLap - last.startLap + 1)
  }

  /** `Vehicle.TotalLapsLed`. */
  method TotalLapsLed(v: Vehicle) returns (total: int)
    ensures total == LapsLedSum(v.lapsLed)
  {
    total := 0;
    var i := 0;
    while i < |v.lapsLed|
      invariant 0 <= i <= |v.lapsLed|
      invariant total == LapsLedSum(v.lapsLed[..i])
    {
      assert v.lapsLed[..i + 1][..i] == v.lapsLed[..i];
      total := total + v.lapsLed[i].endLap - v.lapsLed[i].startLap + 1;
      i := i + 1;
    }
    assert v.lapsLed[..|v.lapsLed|] == v.lapsLed;
  }

  /** The total over two lists of ranges is the sum of their totals. */
  lemma {:induction false} LapsLedSumConcat(a: seq<LapRange>, b: seq<LapRange>)
    ensures LapsLedSum(a + b) == LapsLedSum(a) + LapsLedSum(b)
    decreases |b|
  {
    if b == [] {
      assert a + b == a;
    } else {
      assert (a + b)[..|a + b| - 1] == a + b[..|b| - 1];
      LapsLedSumConcat(a, b[..|b| - 1]);
    }
  }

  /** With no ranges no lap was led; with well-formed ranges (start no later than end) every
      range adds at least one lap. */
  lemma {:induction false} LapsLedSumBounds(ranges: seq<LapRange>)
    requires forall k | 0 <= k < |ranges| :: ranges[k].startLap <= ranges[k].endLap
    ensures LapsLedSum(ranges) >= |ranges|
    ensures LapsLedSum(ranges) == 0 <==> ranges == []
  {
    if ranges != [] {
      LapsLedSumBounds(ranges[..|ranges| - 1]);
    }
  }

  // ---------------------------------------------------------------------------
  // Flags

  const FlagGreen := 1
  const FlagCaution := 2
  const FlagRed := 4
  const FlagFinished := 8
  const FlagWhite := 9

  /** The flag states the feed defines. */
  const FlagStates: set<int> := {FlagGreen, FlagCaution, FlagRed, FlagFinished, FlagWhite}

  /** The symbol shown for a state the feed does not define: a white circle. */
  const UnknownFlagSymbol: string := "\U{26AA}"

  /** `FlagSymbol`: a green, yellow or red circle, a white flag or the chequered flag. */
  function FlagSymbol(state: int): string
  {
    if state == FlagGreen then "\U{1F7E2}"
    else if state == FlagCaution then "\U{1F7E1}"
    else if state == FlagRed then "\U{1F534}"
    else if state == FlagWhite then "\U{1F3F3}"
    else if state == FlagFinished then "\U{1F3C1}"
    else UnknownFlagSymbol
  }

  /** Each defined flag state has its own symbol, different from the default that every other
      state gets. */
  lemma FlagSymbolDistinct()
    ensures forall a, b | a in FlagStates && b in FlagStates && FlagSymbol(a) == FlagSymbol(b) :: a == b
    ensures forall s | s in FlagStates :: FlagSymbol(s) != UnknownFlagSymbol
    ensures forall s | s !in FlagStates :: FlagSymbol(s) == UnknownFlagSymbol
  {
    forall a, b | a in FlagStates && b in FlagStates && FlagSymbol(a) == FlagSymbol(b)
      ensures a == b
    {
      assert FlagSymbol(a)[0] == FlagSymbol(b)[0];
    }
  }

  // ---------------------------------------------------------------------------
  // The feed

  /** `LiveFeed.IsLiveCupRace`: a race session (run type 3) of the Cup Series (series 1) that
      has started. */
  predicate IsLiveCupRace(f: LiveFeed)
  {
    f.runType == 3 && f.seriesId == 1 && f.lapNumber > 0
  }

  /** The flag plays no part: a finished or cautioned race is still live. */
  lemma IsLiveCupRaceIgnoresFlag(f: LiveFeed, flag: int)
    ensures IsLiveCupRace(f.(flagState := flag)) == IsLiveCupRace(f)
  {
  }

  /** `LiveFeed.FindDriver`: the index of the first car with the given number. */
  method FindDriver(f: LiveFeed, carNumber: string) returns (idx: Option<nat>)
    ensures idx.Some? ==> idx.value < |f.vehicles| && f.vehicles[idx.value].vehicleNumber == carNumber
    ensures idx.Some? ==> forall j | 0 <= j < idx.value :: f.vehicles[j].vehicleNumber != carNumber
    ensures idx.None? <==> forall j | 0 <= j < |f.vehicles| :: f.vehicles[j].vehicleNumber != carNumber
  {
    var i := 0;
    while i < |f.vehicles|
      invariant 0 <= i <= |f.vehicles|
      invariant forall j | 0 <= j < i :: f.vehicles[j].vehicleNumber != carNumber
    {
      if f.vehicles[i].vehicleNumber == carNumber {
        return Some(i);
      }
      i := i + 1;
    }
    return None;
  }

  /** `LiveFeed.Leader`: the index of the first car running in position 1. */
  method Leader(f: LiveFeed) returns (idx: Option<nat>)
    ensures idx == LeaderIndex(f.vehicles)
  {
    var i := 0;
    while i < |f.vehicles|
      invariant 0 <= i <= |f.vehicles|
      invariant forall j | 0 <= j < i :: f.vehicles[j].runningPosition != 1
    {
      if f.vehicles[i].runningPosition == 1 {
        return Some(i);
      }
      i := i + 1;
    }
    return None;
  }

  /** The specification of `Leader`: the index of the first car in position 1, if any. */
  function LeaderIndex(vehicles: seq<Vehicle>): (idx: Option<nat>)
    ensures idx.Some? ==> idx.value < |vehicles| && vehicles[idx.value].runningPosition == 1
    ensures idx.Some? ==> forall j | 0 <= j < idx.value :: vehicles[j].runningPosition != 1
    ensures idx.None? <==> forall j | 0 <= j < |vehicles| :: vehicles[j].runningPosition != 1
  {
    if vehicles == [] then None
    else if vehicles[0].runningPosition == 1 then Some(0)
    else
      var rest := LeaderIndex(vehicles[1..]);
      if rest.Some? then Some(rest.value + 1) else None
  }
}
