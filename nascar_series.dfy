/** The NASCAR Cup series as the status line sees it (internal/nascar/series.go): schedule
    races in the series-independent form, the live state built from the feed, and when a
    finished race stops being shown. */
module NascarSeries {
  import opened Wrappers
  import Series
  import Sorting
  import opened NascarLive
  import opened NascarTypes
  import NascarClient

  const SeriesName: string := "NASCAR Cup"
  const ShortName: string := "NASCAR"

  /** How long a race is expected to run: 4 hours. */
  const EstimatedRaceDuration: int := 4 * 3600

  // ---------------------------------------------------------------------------
  // Schedule

  /** One schedule race in the series-independent form. A start that does not parse leaves
      Go's zero time; the track coordinates are not modelled. */
  function ToSeriesRace(r: Race, parse: string -> Option<int>): Series.Race
  {
    var start := RaceStartUTC(r, parse);
    Series.Race(SeriesName, ShortName, r.raceName, r.trackName,
                if start.Some? then start.value else Series.ZeroTime,
                r.televisionBroadcaster, IsComplete(r))
  }

  /** `NASCARSeries.FetchSchedule`, given what `FetchCupSchedule` returned. */
  method FetchSchedule(fetched: Result<seq<Race>>, parse: string -> Option<int>)
    returns (r: Result<seq<Series.Race>>)
    ensures fetched.Err? ==> r == Err("nascar schedule: " + fetched.msg)
    ensures fetched.Ok? ==> r.Ok? && |r.value| == |fetched.value|
    ensures fetched.Ok? ==> forall i | 0 <= i < |r.value| ::
      r.value[i] == ToSeriesRace(fetched.value[i], parse)
  {
    if fetched.Err? {
      return Err("nascar schedule: " + fetched.msg);
    }
    var races := fetched.value;
    var out: seq<Series.Race> := [];
    var i := 0;
    while i < |races|
      invariant 0 <= i <= |races| && |out| == i
      invariant forall k | 0 <= k < i :: out[k] == ToSeriesRace(races[k], parse)
    {
      out := out + [ToSeriesRace(races[i], parse)];
      i := i + 1;
    }
    return Ok(out);
  }

  /** Whatever the series-wide selection may pick (not complete, not yet started) the
      NASCAR-only `NextRace` accepts too, once the clock is past Go's zero time: its window
      also takes races that started up to 6 hours ago. */
  lemma EligibleIsUpcoming(r: Race, now: int, parse: string -> Option<int>)
    requires now > Series.ZeroTime
    requires Series.Eligible(ToSeriesRace(r, parse), now)
    ensures NascarClient.Upcoming(r, now, parse)
  {
  }

  // ---------------------------------------------------------------------------
  // Drivers and flags

  /** `vehicleToDriver`: number, last name as the short name, full name, running position,
      and the places lost since the start as delta. */
  function VehicleToDriver(v: Vehicle): Series.Driver
  {
    Series.Driver(v.vehicleNumber, v.driver.lastName, v.driver.fullName, "",
                  v.runningPosition, "", v.runningPosition - v.startingPosition, "")
  }

  /** The driver record loses nothing the status line needs: the car number and position are
      the vehicle's, and position minus delta gives back the starting position. */
  lemma VehicleToDriverRecovers(v: Vehicle)
    ensures VehicleToDriver(v).number == v.vehicleNumber
    ensures VehicleToDriver(v).position == v.runningPosition
    ensures VehicleToDriver(v).position - VehicleToDriver(v).delta == v.startingPosition
    ensures VehicleToDriver(v).delta < 0 <==> v.runningPosition < v.startingPosition
  {
  }

  /** `flagName`. */
  function FlagName(state: int): string
  {
    if state == FlagGreen then "Green"
    else if state == FlagCaution then "Caution"
    else if state == FlagRed then "Red"
    else if state == FlagWhite then "White"
    else if state == FlagFinished then "Checkered"
    else "Unknown"
  }

  /** Each defined flag state has its own name, and every other state is "Unknown". */
  lemma FlagNameDistinct()
    ensures forall a, b | a in FlagStates && b in FlagStates && FlagName(a) == FlagName(b) :: a == b
    ensures forall s | s in FlagStates :: FlagName(s) != "Unknown"
    ensures forall s | s !in FlagStates :: FlagName(s) == "Unknown"
  {
    forall a, b | a in FlagStates && b in FlagStates && FlagName(a) == FlagName(b)
      ensures a == b
    {
      assert FlagName(a)[0] == FlagName(b)[0];
    }
  }

  /** The name is "Unknown" exactly when the symbol is the default one. */
  lemma FlagNameMatchesSymbol(state: int)
    ensures FlagName(state) == "Unknown" <==> FlagSymbol(state) == UnknownFlagSymbol
  {
    FlagSymbolDistinct();
    FlagNameDistinct();
  }

  // ---------------------------------------------------------------------------
  // When a finished race is over

  /** A scheduled race whose result no longer needs showing at `now`: a winner is recorded,
      or `now` is past its start plus the expected race length plus the grace period. */
  predicate PastCutoff(r: Race, now: int, parse: string -> Option<int>)
  {
    || IsComplete(r)
    || (RaceStartUTC(r, parse).Some?
        && now > RaceStartUTC(r, parse).value + EstimatedRaceDuration + Series.PostRaceGracePeriod)
  }

  /** The first race of the list with the given id is at index `k`. */
  predicate FirstWithId(races: seq<Race>, raceId: int, k: int)
  {
    0 <= k < |races| && races[k].raceId == raceId
    && forall j | 0 <= j < k :: races[j].raceId != raceId
  }

  /** What `raceOver` decides: the schedule was fetched and the first race with the id is
      past its cutoff. A fetch error or an unknown id means not over. */
  ghost predicate Over(schedule: Result<seq<Race>>, raceId: int, now: int, parse: string -> Option<int>)
  {
    schedule.Ok? && exists k | FirstWithId(schedule.value, raceId, k) :: PastCutoff(schedule.value[k], now, parse)
  }

  /** `NASCARSeries.raceOver`, with the clock and the result of `FetchCupSchedule` as
      parameters (the cache invalidation it starts with is not modelled). */
  method RaceOver(schedule: Result<seq<Race>>, raceId: int, now: int, parse: string -> Option<int>)
    returns (over: bool)
    ensures over == Over(schedule, raceId, now, parse)
  {
    if schedule.Err? {
      return false;
    }
    var races := schedule.value;
    var i := 0;
    while i < |races|
      invariant 0 <= i <= |races|
      invariant forall j | 0 <= j < i :: races[j].raceId != raceId
    {
      if races[i].raceId == raceId {
        assert FirstWithId(races, raceId, i);
        FirstWithIdUnique(races, raceId, i);
        if IsComplete(races[i]) {
          return true;
        }
        var start := RaceStartUTC(races[i], parse);
        if start.None? {
          return false;
        }
        var cutoff := start.value + EstimatedRaceDuration + Series.PostRaceGracePeriod;
        return now > cutoff;
      }
      i := i + 1;
    }
    return false;
  }

  lemma FirstWithIdUnique(races: seq<Race>, raceId: int, k: int)
    requires FirstWithId(races, raceId, k)
    ensures forall m | FirstWithId(races, raceId, m) :: m == k
  {
  }

  /** Once a race is over it stays over as time passes. */
  lemma OverLater(schedule: Result<seq<Race>>, raceId: int, now: int, later: int, parse: string -> Option<int>)
    requires Over(schedule, raceId, now, parse) && now <= later
    ensures Over(schedule, raceId, later, parse)
  {
    var k :| FirstWithId(schedule.value, raceId, k) && PastCutoff(schedule.value[k], now, parse);
    assert PastCutoff(schedule.value[k], later, parse);
  }

  // ---------------------------------------------------------------------------
  // Live state

  /** Sorting by running position orders the vehicles strictly weakly. */
  predicate PositionLess(x: Vehicle, y: Vehicle)
  {
    x.runningPosition < y.runningPosition
  }

  lemma PositionLessOrder()
    ensures Sorting.StrictWeakOrder(PositionLess)
  {
  }

  /** The field-by-field translation `FetchLiveState` makes of a live feed: names and counts
      straight from the feed, the leader when there is a car in position 1, and one driver per
      car, ordered by running position. */
  ghost predicate Translates(feed: LiveFeed, finished: bool, s: Series.LiveState)
  {
    && s.seriesName == SeriesName && s.shortName == ShortName
    && s.raceName == feed.runName && s.trackName == feed.trackName
    && s.currentLap == feed.lapNumber && s.totalLaps == feed.lapsInRace
    && s.flagSymbol == FlagSymbol(feed.flagState) && s.flagName == FlagName(feed.flagState)
    && s.finished == finished
    && s.leader == (var l := LeaderIndex(feed.vehicles);
                    if l.Some? then VehicleToDriver(feed.vehicles[l.value]) else Series.NoDriver)
    && |s.positions| == |feed.vehicles|
    && multiset(s.positions) == multiset(Sorting.Map(feed.vehicles, VehicleToDriver))
    && forall i, j | 0 <= i < j < |s.positions| :: s.positions[i].position <= s.positions[j].position
  }

  /** `NASCARSeries.FetchLiveState`, given the outcome of `FetchLiveFeed`, whether the feed
      reports the race finished, and what `raceOver` needs. Nothing is shown, and no error
      returned, when the fetch failed, the feed is not a live Cup race, or the race is finished
      and over. */
  method FetchLiveState(fetched: Result<LiveFeed>, finished: bool, schedule: Result<seq<Race>>,
                        now: int, parse: string -> Option<int>)
    returns (state: Option<Series.LiveState>)
    ensures state.None? <==>
      fetched.Err? || !IsLiveCupRace(fetched.value)
      || (finished && Over(schedule, fetched.value.raceId, now, parse))
    ensures state.Some? ==> Translates(fetched.value, finished, state.value)
  {
    if fetched.Err? {
      return None;
    }
    var feed := fetched.value;
    if !IsLiveCupRace(feed) {
      return None;
    }
    if finished {
      var over := RaceOver(schedule, feed.raceId, now, parse);
      if over {
        return None;
      }
    }
    var leader := Series.NoDriver;
    var l := Leader(feed);
    if l.Some? {
      leader := VehicleToDriver(feed.vehicles[l.value]);
    }
    var positions := SortedPositions(feed.vehicles);
    state := Some(Series.LiveState(SeriesName, ShortName, feed.runName, feed.trackName,
                                   feed.lapNumber, feed.lapsInRace, FlagSymbol(feed.flagState),
                                   FlagName(feed.flagState), finished, leader, positions));
  }

  /** The positions of `FetchLiveState`: the vehicles copied, sorted by running position, and
      translated one by one. */
  method SortedPositions(vehicles: seq<Vehicle>) returns (positions: seq<Series.Driver>)
    ensures |positions| == |vehicles|
    ensures multiset(positions) == multiset(Sorting.Map(vehicles, VehicleToDriver))
    ensures forall i, j | 0 <= i < j < |positions| :: positions[i].position <= positions[j].position
  {
    var sorted := new Vehicle[|vehicles|](i requires 0 <= i < |vehicles| => vehicles[i]);
    assert sorted[..] == vehicles;
    PositionLessOrder();
    Sorting.Sort(sorted, PositionLess);
    var byPosition := sorted[..];
    positions := ToDrivers(byPosition);
    Sorting.MapPermutation(byPosition, vehicles, VehicleToDriver);
  }

  /** Every vehicle translated to a driver, in order. */
  method ToDrivers(vehicles: seq<Vehicle>) returns (drivers: seq<Series.Driver>)
    ensures drivers == Sorting.Map(vehicles, VehicleToDriver)
  {
    var out := new Series.Driver[|vehicles|];
    var i := 0;
    while i < |vehicles|
      invariant 0 <= i <= |vehicles|
      invariant forall k | 0 <= k < i :: out[k] == VehicleToDriver(vehicles[k])
    {
      out[i] := VehicleToDriver(vehicles[i]);
      i := i + 1;
    }
    drivers := out[..];
    assert forall k | 0 <= k < |drivers| :: drivers[k] == Sorting.Map(vehicles, VehicleToDriver)[k];
  }
}
