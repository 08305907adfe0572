/** The NASCAR schedule records (internal/nascar/types.go): a race, its session events, when
    it starts and whether it is over. */
module NascarTypes {
  import opened Wrappers

  /** One session of a race weekend. Run type 3 is the race itself. */
  datatype ScheduleEvent = ScheduleEvent(
    eventName: string,
    notes: string,
    startTimeUtc: string,
    runType: int)

  /** A race of the Cup schedule. The winner is absent (JSON null) until the race is run. */
  datatype Race = Race(
    raceId: int,
    seriesId: int,
    raceSeason: int,
    raceName: string,
    raceTypeId: int,
    trackName: string,
    dateScheduled: string,
    scheduledLaps: int,
    winnerDriverId: Option<int>,
    televisionBroadcaster: string,
    schedule: seq<ScheduleEvent>)

  /** `Race.IsComplete`: a winner is recorded. */
  predicate IsComplete(r: Race)
  {
    r.winnerDriverId.Some? && r.winnerDriverId.value > 0
  }

  /** The race session itself, with a start time given. */
  predicate IsRaceEvent(ev: ScheduleEvent)
  {
    ev.runType == 3 && ev.startTimeUtc != ""
  }

  /** The text `RaceStartUTC` parses: the start of the first race session that has one, and
      otherwise the scheduled date. */
  function StartText(events: seq<ScheduleEvent>, dateScheduled: string): (t: string)
    ensures (forall k | 0 <= k < |events| :: !IsRaceEvent(events[k])) ==> t == dateScheduled
    ensures forall k | 0 <= k < |events| && IsRaceEvent(events[k])
      && (forall j | 0 <= j < k :: !IsRaceEvent(events[j])) :: t == events[k].startTimeUtc
  {
    if events == [] then dateScheduled
    else if IsRaceEvent(events[0]) then events[0].startTimeUtc
    else StartText(events[1..], dateScheduled)
  }

  /** `Race.RaceStartUTC`. `parse` stands for `time.Parse` with the layout
      "2006-01-02T15:04:05" (UTC), giving seconds since the epoch or `None` on an error; both
      the session start and the scheduled date are read with it. */
  function RaceStartUTC(r: Race, parse: string -> Option<int>): Option<int>
  {
    parse(StartText(r.schedule, r.dateScheduled))
  }
}
