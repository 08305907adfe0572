/** The series-independent records (internal/series/series.go) and the choice of the next race
    across every configured series. */
module Series {
  import opened Wrappers

  /** Times are whole seconds since the Unix epoch. Go's zero `time.Time` (January 1 of year 1,
      UTC) is what an unset or unparsable time holds. */
  const ZeroTime: int := -62135596800

  /** `time.Time.IsZero`. */
  predicate IsZero(t: int) { t == ZeroTime }

  /** How long results stay on screen after a race finishes: 90 minutes. */
  const PostRaceGracePeriod: int := 90 * 60

  /** A scheduled race of any series (the coordinates are not modelled). */
  datatype Race = Race(
    seriesName: string,
    shortName: string,
    raceName: string,
    trackName: string,
    startTime: int,
    broadcaster: string,
    complete: bool)

  /** A driver's place in a live session. `delta` (places gained from the start) is a float in
      the source; every value the source stores there is a whole number. */
  datatype Driver = Driver(
    number: string,
    name: string,
    fullName: string,
    team: string,
    position: int,
    gap: string,
    delta: int,
    compound: string)

  /** Go's zero `Driver{}`. */
  const NoDriver: Driver := Driver("", "", "", "", 0, "", 0, "")

  /** The live state of a session. */
  datatype LiveState = LiveState(
    seriesName: string,
    shortName: string,
    raceName: string,
    trackName: string,
    currentLap: int,
    totalLaps: int,
    flagSymbol: string,
    flagName: string,
    finished: bool,
    leader: Driver,
    positions: seq<Driver>)

  /** A race `NextRaceAcrossAll` may pick: not complete and not starting before `now`. */
  predicate Eligible(r: Race, now: int)
  {
    !r.complete && r.startTime >= now
  }

  /** The races of every series whose schedule was fetched, in series order and then list
      order; a series whose fetch failed contributes nothing. */
  function AllRaces(schedules: seq<Result<seq<Race>>>): seq<Race>
  {
    if schedules == [] then []
    else
      var last := schedules[|schedules| - 1];
      AllRaces(schedules[..|schedules| - 1]) + (if last.Ok? then last.value else [])
  }

  /** `NextRaceAcrossAll`, given what each series' `FetchSchedule` returned: the eligible race
      with the earliest start; on a tie the first one met, since only a strictly earlier start
      replaces the current best. */
  method NextRaceAcrossAll(schedules: seq<Result<seq<Race>>>, now: int) returns (best: Option<Race>)
    ensures best.None? <==> forall r | r in AllRaces(schedules) :: !Eligible(r, now)
    ensures best.Some? ==> best.value in AllRaces(schedules) && Eligible(best.value, now)
    ensures best.Some? ==> forall r | r in AllRaces(schedules) && Eligible(r, now) ::
      best.value.startTime <= r.startTime
    ensures best.Some? ==> exists k | 0 <= k < |AllRaces(schedules)| ::
      AllRaces(schedules)[k] == best.value
      && forall j | 0 <= j < k && Eligible(AllRaces(schedules)[j], now) ::
        AllRaces(schedules)[j].startTime > best.value.startTime
  {
    best := None;
    ghost var seen: seq<Race> := [];
    ghost var at := 0;
    var s := 0;
    while s < |schedules|
      invariant 0 <= s <= |schedules|
      invariant seen == AllRaces(schedules[..s])
      invariant BestSoFar(best, at, seen, now)
    {
      assert schedules[..s + 1][..s] == schedules[..s];
      if schedules[s].Ok? {
        var races := schedules[s].value;
        var i := 0;
        while i < |races|
          invariant 0 <= i <= |races|
          invariant seen == AllRaces(schedules[..s]) + races[..i]
          invariant BestSoFar(best, at, seen, now)
        {
          var r := races[i];
          BestSoFarSnoc(best, at, seen, r, now);
          if !r.complete && r.startTime >= now {
            if best.None? || r.startTime < best.value.startTime {
              best := Some(r);
              at := |seen|;
            }
          }
          seen := seen + [r];
          assert races[..i + 1] == races[..i] + [r];
          i := i + 1;
        }
        assert races[..|races|] == races;
      }
      s := s + 1;
    }
    assert schedules[..|schedules|] == schedules;
  }

  /** The loop invariant of `NextRaceAcrossAll` over the races `seen` so far: `best` is the
      eligible race at index `at`, no eligible race starts earlier, and none before `at` ties. */
  ghost predicate BestSoFar(best: Option<Race>, at: int, seen: seq<Race>, now: int)
  {
    && (best.None? <==> forall j | 0 <= j < |seen| :: !Eligible(seen[j], now))
    && (best.Some? ==> 0 <= at < |seen| && seen[at] == best.value && Eligible(best.value, now))
    && (best.Some? ==> forall j | 0 <= j < |seen| && Eligible(seen[j], now) ::
         best.value.startTime <= seen[j].startTime)
    && (best.Some? ==> forall j | 0 <= j < at && Eligible(seen[j], now) ::
         seen[j].startTime > best.value.startTime)
  }

  /** One step of the scan keeps the invariant: an eligible race strictly earlier than the best
      (or the first eligible one) becomes the best, at the index it was met. */
  lemma BestSoFarSnoc(best: Option<Race>, at: int, seen: seq<Race>, r: Race, now: int)
    requires BestSoFar(best, at, seen, now)
    ensures var better := Eligible(r, now) && (best.None? || r.startTime < best.value.startTime);
      BestSoFar(if better then Some(r) else best, if better then |seen| else at, seen + [r], now)
  {
    var s := seen + [r];
    assert forall j | 0 <= j < |seen| :: s[j] == seen[j];
    assert s[|seen|] == r;
  }
}
