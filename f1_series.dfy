/** Formula 1 as the status line sees it (internal/f1/series.go): the season schedule built
    from meetings and race sessions, the live state derived from positions, drivers, stints
    and race-control messages, and the flag a message stands for. The OpenF1 requests are not
    modelled; what each returned is an input. */
module F1Series {
  import opened Wrappers
  import opened Strings
  import Series
  import Sorting
  import opened F1Types

  const SeriesName: string := "Formula 1"
  const ShortName: string := "F1"

  // ---------------------------------------------------------------------------
  // Lookups by key: a Go map filled in list order keeps the last value written per key.

  /** The last element of `s` whose key is `k`. */
  function LastWith<T>(s: seq<T>, key: T -> int, k: int): (r: Option<T>)
    ensures r.Some? ==> r.value in s && key(r.value) == k
    ensures r.Some? ==> exists i | 0 <= i < |s| ::
      s[i] == r.value && forall j | i < j < |s| :: key(s[j]) != k
    ensures r.None? <==> forall i | 0 <= i < |s| :: key(s[i]) != k
  {
    if s == [] then None
    else if key(s[|s| - 1]) == k then Some(s[|s| - 1])
    else LastWith(s[..|s| - 1], key, k)
  }

  /** What a Go map holds for `k`. */
  function Get<T>(m: map<int, T>, k: int): Option<T>
  {
    if k in m then Some(m[k]) else None
  }

  /** Fills a map from `s` in order, each element under its key, as
      `for _, x := range s { m[key(x)] = x }` does. */
  method KeyedByLast<T>(s: seq<T>, key: T -> int) returns (m: map<int, T>)
    ensures forall k :: Get(m, k) == LastWith(s, key, k)
  {
    m := map[];
    var i := 0;
    while i < |s|
      invariant 0 <= i <= |s|
      invariant forall k :: Get(m, k) == LastWith(s[..i], key, k)
    {
      assert s[..i + 1][..i] == s[..i];
      m := m[key(s[i]) := s[i]];
      i := i + 1;
    }
    assert s[..|s|] == s;
  }

  // ---------------------------------------------------------------------------
  // Flags

  /** The symbol and name a race-control flag message stands for; ("", "") for a flag the
      status line does not show. */
  function MapFlag(msg: RaceControlMessage): (string, string)
  {
    if msg.flag == "GREEN" then ("\U{1F7E2}", "GREEN")
    else if msg.flag == "YELLOW" then
      if Contains(msg.message, "VIRTUAL SAFETY CAR") then ("\U{1F7E1}", "VSC")
      else if Contains(msg.message, "SAFETY CAR") then ("\U{1F7E1}", "SAFETY CAR")
      else ("\U{1F7E1}", "YELLOW")
    else if msg.flag == "RED" then ("\U{1F534}", "RED")
    else if msg.flag == "CHEQUERED" then ("\U{1F3C1}", "CHEQUERED")
    else ("", "")
  }

  /** Every virtual-safety-car message also mentions "SAFETY CAR", so the order of the two
      tests decides between "VSC" and "SAFETY CAR": the more specific one comes first. */
  lemma VirtualSafetyCarMentionsSafetyCar(message: string)
    requires Contains(message, "VIRTUAL SAFETY CAR")
    ensures Contains(message, "SAFETY CAR")
  {
    assert "VIRTUAL SAFETY CAR" == "VIRTUAL " + "SAFETY CAR";
    ContainsSuffix("VIRTUAL ", "SAFETY CAR");
    ContainsTransitive(message, "VIRTUAL SAFETY CAR", "SAFETY CAR");
  }

  /** The flags shown are GREEN, YELLOW, RED and CHEQUERED; a yellow is "VSC" when the message
      names the virtual safety car, "SAFETY CAR" when it names only the safety car, and
      "YELLOW" otherwise; the symbol is empty exactly when the name is. */
  lemma MapFlagSpec(msg: RaceControlMessage)
    ensures MapFlag(msg).0 == "" <==> MapFlag(msg).1 == ""
    ensures MapFlag(msg).0 == "" <==> msg.flag !in {"GREEN", "YELLOW", "RED", "CHEQUERED"}
    ensures msg.flag == "YELLOW" ==>
      (MapFlag(msg).1 == "VSC" <==> Contains(msg.message, "VIRTUAL SAFETY CAR"))
    ensures msg.flag == "YELLOW" ==>
      (MapFlag(msg).1 == "SAFETY CAR" <==>
        Contains(msg.message, "SAFETY CAR") && !Contains(msg.message, "VIRTUAL SAFETY CAR"))
    ensures msg.flag == "YELLOW" ==>
      (MapFlag(msg).1 == "YELLOW" <==> !Contains(msg.message, "SAFETY CAR"))
  {
    if Contains(msg.message, "VIRTUAL SAFETY CAR") {
      VirtualSafetyCarMentionsSafetyCar(msg.message);
    }
  }

  // ---------------------------------------------------------------------------
  // Schedule

  /** The race name rule: " Grand Prix" is appended unless the name already says "grand
      prix" in any letter case. */
  function GrandPrixName(name: string): string
  {
    if Contains(ToLower(name), "grand prix") then name else name + " Grand Prix"
  }

  /** Every race name says "grand prix", a name that already did is kept as it is, and
      applying the rule twice changes nothing more. */
  lemma GrandPrixNameSpec(name: string)
    ensures Contains(ToLower(GrandPrixName(name)), "grand prix")
    ensures Contains(ToLower(name), "grand prix") ==> GrandPrixName(name) == name
    ensures !Contains(ToLower(name), "grand prix") ==> GrandPrixName(name) == name + " Grand Prix"
    ensures GrandPrixName(GrandPrixName(name)) == GrandPrixName(name)
  {
    if !Contains(ToLower(name), "grand prix") {
      SuffixSaysGrandPrix(name);
    }
  }

  /** Appending " Grand Prix" makes any name say "grand prix". */
  lemma SuffixSaysGrandPrix(name: string)
    ensures Contains(ToLower(name + " Grand Prix"), "grand prix")
  {
    ToLowerConcat(name, " Grand Prix");
    LowerGrandPrix();
    ContainsSuffix(ToLower(name) + " ", "grand prix");
    assert ToLower(name) + " grand prix" == (ToLower(name) + " ") + "grand prix";
  }

  lemma LowerGrandPrix()
    ensures ToLower(" Grand Prix") == " grand prix"
  {
    var s := " Grand Prix";
    assert ToLower(s)[1] == 'g' && ToLower(s)[7] == 'p';
  }

  /** An end time that parsed to a non-zero time before `now`; a time that does not parse is
      Go's zero time. */
  predicate Ended(dateEnd: string, now: int, parse: string -> Option<int>)
  {
    var end := if parse(dateEnd).Some? then parse(dateEnd).value else Series.ZeroTime;
    !Series.IsZero(end) && end < now
  }

  /** The schedule race of one race session: none when no meeting has its key or its start
      does not parse. */
  function RaceOf(meetings: seq<Meeting>, sess: Session, now: int, parse: string -> Option<int>)
    : Option<Series.Race>
  {
    var m := LastWith(meetings, MeetingKey, sess.meetingKey);
    var start := parse(sess.dateStart);
    if m.None? || start.None? then None
    else Some(Series.Race(SeriesName, ShortName, GrandPrixName(m.value.meetingName),
                          m.value.circuitShortName, start.value, "", Ended(sess.dateEnd, now, parse)))
  }

  /** The schedule races of the sessions, in session order. */
  function ScheduleOf(meetings: seq<Meeting>, sessions: seq<Session>, now: int,
                      parse: string -> Option<int>): (races: seq<Series.Race>)
    ensures |races| <= |sessions|
  {
    if sessions == [] then []
    else
      var init := ScheduleOf(meetings, sessions[..|sessions| - 1], now, parse);
      var r := RaceOf(meetings, sessions[|sessions| - 1], now, parse);
      if r.Some? then init + [r.value] else init
  }

  /** A session yields a race exactly when a meeting has its key and its start parses; the
      race is named by the meeting and the name rule, starts when the session does, and is
      complete exactly when the session has ended. */
  lemma RaceOfSpec(meetings: seq<Meeting>, sess: Session, now: int, parse: string -> Option<int>)
    ensures RaceOf(meetings, sess, now, parse).Some? <==>
      (exists i | 0 <= i < |meetings| :: meetings[i].meetingKey == sess.meetingKey)
      && parse(sess.dateStart).Some?
    ensures RaceOf(meetings, sess, now, parse).Some? ==>
      var r := RaceOf(meetings, sess, now, parse).value;
      && r.seriesName == SeriesName && r.shortName == ShortName
      && (exists i | 0 <= i < |meetings| ::
            && meetings[i].meetingKey == sess.meetingKey
            && (forall j | i < j < |meetings| :: meetings[j].meetingKey != sess.meetingKey)
            && r.raceName == GrandPrixName(meetings[i].meetingName)
            && r.trackName == meetings[i].circuitShortName)
      && Contains(ToLower(r.raceName), "grand prix")
      && r.startTime == parse(sess.dateStart).value
      && (r.complete <==> Ended(sess.dateEnd, now, parse))
  {
    var m := LastWith(meetings, MeetingKey, sess.meetingKey);
    if m.Some? {
      GrandPrixNameSpec(m.value.meetingName);
    } else {
      assert forall i | 0 <= i < |meetings| :: MeetingKey(meetings[i]) != sess.meetingKey;
    }
  }

  /** `F1Series.FetchSchedule`, given what `FetchMeetings` and `FetchRaceSessions` returned
      and the clock; errors are wrapped with what failed. */
  method FetchSchedule(meetings: Result<seq<Meeting>>, sessions: Result<seq<Session>>, now: int,
                       parse: string -> Option<int>) returns (r: Result<seq<Series.Race>>)
    ensures meetings.Err? ==> r == Err("f1 meetings: " + meetings.msg)
    ensures meetings.Ok? && sessions.Err? ==> r == Err("f1 race sessions: " + sessions.msg)
    ensures meetings.Ok? && sessions.Ok? ==> r == Ok(ScheduleOf(meetings.value, sessions.value, now, parse))
  {
    if meetings.Err? {
      return Err("f1 meetings: " + meetings.msg);
    }
    if sessions.Err? {
      return Err("f1 race sessions: " + sessions.msg);
    }
    var byKey := KeyedByLast(meetings.value, MeetingKey);
    var ss := sessions.value;
    var races: seq<Series.Race> := [];
    var i := 0;
    while i < |ss|
      invariant 0 <= i <= |ss|
      invariant races == ScheduleOf(meetings.value, ss[..i], now, parse)
    {
      assert ss[..i + 1][..i] == ss[..i];
      var sess := ss[i];
      assert Get(byKey, sess.meetingKey) == LastWith(meetings.value, MeetingKey, sess.meetingKey);
      if sess.meetingKey in byKey {
        var m := byKey[sess.meetingKey];
        var start := parse(sess.dateStart);
        if start.Some? {
          var complete := Ended(sess.dateEnd, now, parse);
          races := races + [Series.Race(SeriesName, ShortName, GrandPrixName(m.meetingName),
                                        m.circuitShortName, start.value, "", complete)];
        }
      }
      i := i + 1;
    }
    assert ss[..|ss|] == ss;
    return Ok(races);
  }

  // ---------------------------------------------------------------------------
  // Live state: the race session's latest positions

  /** The entry kept for driver `d` when the positions are read in order and an entry
      replaces the kept one only when its date string is strictly greater. */
  function Latest(ps: seq<Position>, d: int): (r: Option<Position>)
    ensures r.Some? ==> r.value in ps && r.value.driverNumber == d
    ensures r.None? <==> forall k | 0 <= k < |ps| :: ps[k].driverNumber != d
  {
    if ps == [] then None
    else
      var kept, p := Latest(ps[..|ps| - 1], d), ps[|ps| - 1];
      if p.driverNumber == d && (kept.None? || Less(kept.value.date, p.date)) then Some(p) else kept
  }

  /** The entry kept for a driver has the greatest date among that driver's entries, and of
      the entries with that date it is the first. */
  lemma {:induction false} LatestSpec(ps: seq<Position>, d: int)
    requires Latest(ps, d).Some?
    ensures exists k | 0 <= k < |ps| :: LatestAt(ps, d, k)
  {
    var init, p := ps[..|ps| - 1], ps[|ps| - 1];
    assert forall j | 0 <= j < |init| :: init[j] == ps[j];
    var kept := Latest(init, d);
    if kept.Some? {
      LatestSpec(init, d);
      var k :| 0 <= k < |init| && LatestAt(init, d, k);
      if p.driverNumber == d && Less(kept.value.date, p.date) {
        forall j | 0 <= j < |init| && ps[j].driverNumber == d
          ensures !Less(p.date, ps[j].date) && Less(ps[j].date, p.date)
        {
          if Less(p.date, ps[j].date) {
            LessTransitive(kept.value.date, p.date, ps[j].date);
          }
          if ps[j].date != kept.value.date {
            LessTotal(ps[j].date, kept.value.date);
            LessTransitive(ps[j].date, kept.value.date, p.date);
          }
        }
        LessIrreflexive(p.date);
        assert LatestAt(ps, d, |ps| - 1);
      } else {
        if p.driverNumber == d {
          assert !Less(kept.value.date, p.date);
        }
        assert LatestAt(ps, d, k);
      }
    } else {
      LessIrreflexive(p.date);
      assert LatestAt(ps, d, |ps| - 1);
    }
  }

  /** `ps[k]` is the entry of driver `d` with the greatest date, and no entry of `d` before it
      has that date. */
  predicate LatestAt(ps: seq<Position>, d: int, k: int)
  {
    && 0 <= k < |ps| && ps[k].driverNumber == d && Latest(ps, d) == Some(ps[k])
    && (forall j | 0 <= j < |ps| && ps[j].driverNumber == d :: !Less(ps[k].date, ps[j].date))
    && (forall j | 0 <= j < k && ps[j].driverNumber == d :: Less(ps[j].date, ps[k].date))
  }

  /** The de-duplication loop: one entry per driver, the latest. */
  method LatestPositions(ps: seq<Position>) returns (latest: map<int, Position>)
    ensures forall d :: Get(latest, d) == Latest(ps, d)
  {
    latest := map[];
    var i := 0;
    while i < |ps|
      invariant 0 <= i <= |ps|
      invariant forall d :: Get(latest, d) == Latest(ps[..i], d)
    {
      assert ps[..i + 1][..i] == ps[..i];
      var p := ps[i];
      if p.driverNumber !in latest || Less(latest[p.driverNumber].date, p.date) {
        latest := latest[p.driverNumber := p];
      }
      i := i + 1;
    }
    assert ps[..|ps|] == ps;
  }

  /** The driver numbers the positions mention. */
  ghost function Numbers(ps: seq<Position>): set<int>
  {
    set k | 0 <= k < |ps| :: ps[k].driverNumber
  }

  /** `e` lists the kept entries, one per driver, in some order. */
  ghost predicate IsLatestEntries(ps: seq<Position>, e: seq<Position>)
  {
    && (forall i | 0 <= i < |e| :: Latest(ps, e[i].driverNumber) == Some(e[i]))
    && (forall d | d in Numbers(ps) :: Latest(ps, d).Some? && Latest(ps, d).value in e)
    && |e| == |Numbers(ps)|
  }

  /** Reading the values of the map, in whatever order Go's map iteration takes. */
  method Values(m: map<int, Position>) returns (s: seq<Position>)
    requires forall k | k in m :: m[k].driverNumber == k
    ensures |s| == |m|
    ensures forall i | 0 <= i < |s| :: s[i].driverNumber in m && m[s[i].driverNumber] == s[i]
    ensures forall k | k in m :: m[k] in s
  {
    s := [];
    var rest := m.Keys;
    while rest != {}
      invariant rest <= m.Keys
      invariant |s| + |rest| == |m|
      invariant forall i | 0 <= i < |s| ::
        s[i].driverNumber in m && s[i].driverNumber !in rest && m[s[i].driverNumber] == s[i]
      invariant forall k | k in m && k !in rest :: m[k] in s
      decreases |rest|
    {
      if forall y :: y !in rest {
        assert false;  // rest is not empty
      }
      var k :| k in rest;
      s := s + [m[k]];
      rest := rest - {k};
    }
  }

  /** The kept entries, one per driver. */
  method LatestEntries(ps: seq<Position>) returns (e: seq<Position>)
    ensures IsLatestEntries(ps, e)
  {
    var latest := LatestPositions(ps);
    assert forall d | d in latest :: Latest(ps, d) == Some(latest[d]);
    e := Values(latest);
    assert latest.Keys == Numbers(ps) by {
      forall d | d in Numbers(ps)
        ensures d in latest
      {
        var k :| 0 <= k < |ps| && ps[k].driverNumber == d;
        assert Get(latest, d) == Latest(ps, d);
      }
      forall d | d in latest
        ensures d in Numbers(ps)
      {
        var p := latest[d];
        var k :| 0 <= k < |ps| && ps[k] == p;
      }
    }
    assert |latest| == |Numbers(ps)|;
    forall d | d in Numbers(ps)
      ensures Latest(ps, d).Some? && Latest(ps, d).value in e
    {
      assert Get(latest, d) == Latest(ps, d);
    }
  }

  /** Reordering the kept entries keeps them the kept entries. */
  lemma LatestEntriesPermutation(ps: seq<Position>, e: seq<Position>, e': seq<Position>)
    requires IsLatestEntries(ps, e) && multiset(e) == multiset(e')
    ensures IsLatestEntries(ps, e')
  {
    forall i | 0 <= i < |e'|
      ensures Latest(ps, e'[i].driverNumber) == Some(e'[i])
    {
      assert e'[i] in multiset(e');
      var j :| 0 <= j < |e| && e[j] == e'[i];
    }
    forall d | d in Numbers(ps)
      ensures Latest(ps, d).Some? && Latest(ps, d).value in e'
    {
      assert Latest(ps, d).value in multiset(e);
    }
    assert |e| == |multiset(e)| == |multiset(e')| == |e'|;
  }

  predicate PositionLess(x: Position, y: Position)
  {
    x.position < y.position
  }

  lemma PositionLessOrder()
    ensures Sorting.StrictWeakOrder(PositionLess)
  {
  }

  /** Entries in ascending order of position. */
  ghost predicate ByPosition(e: seq<Position>)
  {
    forall i, j | 0 <= i < j < |e| :: e[i].position <= e[j].position
  }

  /** `sort.Slice` over the kept entries by position. */
  method SortByPosition(e: seq<Position>) returns (sorted: seq<Position>)
    ensures multiset(sorted) == multiset(e) && ByPosition(sorted)
  {
    var a := new Position[|e|](i requires 0 <= i < |e| => e[i]);
    assert a[..] == e;
    PositionLessOrder();
    Sorting.Sort(a, PositionLess);
    sorted := a[..];
    assert Sorting.Sorted(sorted, PositionLess);
  }

  // ---------------------------------------------------------------------------
  // Live state: drivers, flag and lap

  /** The driver shown for a kept entry: the car number in decimal, the acronym, full name
      and team of the last driver record with that number (empty when there is none), the
      position, and the compound of the driver's last stint (empty when there is none). */
  function ToDriver(p: Position, ds: seq<DriverInfo>, sts: seq<Stint>): Series.Driver
  {
    var info := LastWith(ds, DriverKey, p.driverNumber);
    var d := if info.Some? then info.value else NoDriverInfo;
    var st := LastWith(sts, StintKey, p.driverNumber);
    Series.Driver(Itoa(p.driverNumber), d.nameAcronym, d.fullName, d.teamName, p.position, "", 0,
                  if st.Some? then st.value.compound else "")
  }

  /** Distinct cars give distinct driver numbers on screen. */
  lemma ToDriverNumberInjective(p: Position, q: Position, ds: seq<DriverInfo>, sts: seq<Stint>)
    requires ToDriver(p, ds, sts).number == ToDriver(q, ds, sts).number
    ensures p.driverNumber == q.driverNumber
  {
    ItoaInjective(p.driverNumber, q.driverNumber);
  }

  /** The flag of the latest "Flag" message whose flag is shown, ("", "") when there is none:
      read from the end, a message only counts while no flag has been found. */
  function FlagOf(msgs: seq<RaceControlMessage>): (string, string)
  {
    if msgs == [] then ("", "")
    else
      var later := FlagOf(msgs[1..]);
      if later.0 != "" then later
      else if msgs[0].category == "Flag" then MapFlag(msgs[0])
      else later
  }

  /** A message sets the flag when it is a "Flag" message with a shown flag. */
  predicate SetsFlag(m: RaceControlMessage)
  {
    m.category == "Flag" && MapFlag(m).0 != ""
  }

  /** The flag comes from the last message that sets one, and is empty when none does. */
  lemma {:induction false} FlagOfSpec(msgs: seq<RaceControlMessage>)
    ensures FlagOf(msgs).0 == "" <==> forall k | 0 <= k < |msgs| :: !SetsFlag(msgs[k])
    ensures FlagOf(msgs).0 == "" ==> FlagOf(msgs) == ("", "")
    ensures FlagOf(msgs).0 != "" ==> exists k | 0 <= k < |msgs| ::
      SetsFlag(msgs[k]) && FlagOf(msgs) == MapFlag(msgs[k])
      && forall j | k < j < |msgs| :: !SetsFlag(msgs[j])
  {
    if msgs != [] {
      var rest := msgs[1..];
      FlagOfSpec(rest);
      assert forall j | 0 <= j < |rest| :: rest[j] == msgs[j + 1];
      MapFlagSpec(msgs[0]);
      if FlagOf(rest).0 != "" {
        var k :| 0 <= k < |rest| && SetsFlag(rest[k]) && FlagOf(rest) == MapFlag(rest[k])
          && forall j | k < j < |rest| :: !SetsFlag(rest[j]);
        assert SetsFlag(msgs[k + 1]);
      } else if SetsFlag(msgs[0]) {
        assert forall j | 0 < j < |msgs| :: !SetsFlag(msgs[j]);
      } else {
        assert forall k | 0 <= k < |msgs| :: !SetsFlag(msgs[k]);
      }
    }
  }

  /** The highest lap any message mentions, and 0 when there are none. */
  function MaxLap(msgs: seq<RaceControlMessage>): (lap: int)
    ensures lap >= 0
    ensures forall k | 0 <= k < |msgs| :: msgs[k].lapNumber <= lap
    ensures lap == 0 || exists k | 0 <= k < |msgs| :: msgs[k].lapNumber == lap
  {
    if msgs == [] then 0
    else
      var rest := MaxLap(msgs[1..]);
      assert forall k | 1 <= k < |msgs| :: msgs[k] == msgs[1..][k - 1];
      if msgs[0].lapNumber > rest then msgs[0].lapNumber else rest
  }

  /** The race-control scan: backwards for the flag and the highest lap, then forwards again
      for the lap (the second pass finds nothing the first has not). */
  method ScanRaceControl(msgs: seq<RaceControlMessage>)
    returns (flagSymbol: string, flagName: string, currentLap: int)
    ensures (flagSymbol, flagName) == FlagOf(msgs)
    ensures currentLap == MaxLap(msgs)
  {
    flagSymbol, flagName := "", "";
    currentLap := 0;
    var i := |msgs| - 1;
    while i >= 0
      invariant -1 <= i < |msgs|
      invariant (flagSymbol, flagName) == FlagOf(msgs[i + 1..])
      invariant currentLap == MaxLap(msgs[i + 1..])
    {
      var msg := msgs[i];
      assert msgs[i..][1..] == msgs[i + 1..];
      if msg.lapNumber > currentLap {
        currentLap := msg.lapNumber;
      }
      if flagSymbol == "" && msg.category == "Flag" {
        flagSymbol, flagName := MapFlag(msg).0, MapFlag(msg).1;
      }
      i := i - 1;
    }
    assert msgs[0..] == msgs;
    var j := 0;
    while j < |msgs|
      invariant 0 <= j <= |msgs|
      invariant currentLap == MaxLap(msgs)
    {
      var lap := msgs[j].lapNumber;
      if lap > currentLap {
        currentLap := lap;
      }
      j := j + 1;
    }
  }

  // ---------------------------------------------------------------------------
  // Live state

  /** The latest session is a race that has not ended (an end time that does not parse
      counts as not ended). */
  predicate InRace(sess: Option<Session>, now: int, parse: string -> Option<int>)
  {
    sess.Some? && sess.value.sessionName == "Race" && !Ended(sess.value.dateEnd, now, parse)
  }

  /** The live state `FetchLiveState` derives: the circuit as race and track name, the highest
      lap any message mentions, no lap total, the latest shown flag, never finished; one driver
      per car in ascending order of position, each from the latest position entry of that car;
      the leader is the first of them, or the zero driver when there are none. */
  ghost predicate LiveOf(sess: Session, ps: seq<Position>, ds: seq<DriverInfo>,
                         msgs: seq<RaceControlMessage>, sts: seq<Stint>, s: Series.LiveState)
  {
    && s.seriesName == SeriesName && s.shortName == ShortName
    && s.raceName == sess.circuitShortName && s.trackName == sess.circuitShortName
    && s.currentLap == MaxLap(msgs) && s.totalLaps == 0
    && (s.flagSymbol, s.flagName) == FlagOf(msgs)
    && !s.finished
    && (exists e | IsLatestEntries(ps, e) ::
         ByPosition(e) && |s.positions| == |e|
         && forall i | 0 <= i < |e| :: s.positions[i] == ToDriver(e[i], ds, sts))
    && s.leader == (if |s.positions| > 0 then s.positions[0] else Series.NoDriver)
  }

  /** `F1Series.FetchLiveState`, given what each OpenF1 request returned and the clock. An
      error fetching the session, the positions, the drivers or the race-control messages is
      returned as it is; an error fetching the stints is ignored (no compounds); no state is
      produced unless the latest session is a race that has not ended. */
  method FetchLiveState(latest: Result<Option<Session>>, positions: Result<seq<Position>>,
                        drivers: Result<seq<DriverInfo>>, raceControl: Result<seq<RaceControlMessage>>,
                        stints: Result<seq<Stint>>, now: int, parse: string -> Option<int>)
    returns (r: Result<Option<Series.LiveState>>)
    ensures latest.Err? ==> r == Err(latest.msg)
    ensures latest.Ok? && !InRace(latest.value, now, parse) ==> r == Ok(None)
    ensures latest.Ok? && InRace(latest.value, now, parse) ==>
      if positions.Err? then r == Err(positions.msg)
      else if drivers.Err? then r == Err(drivers.msg)
      else if raceControl.Err? then r == Err(raceControl.msg)
      else (r.Ok? && r.value.Some?
            && LiveOf(latest.value.value, positions.value, drivers.value, raceControl.value,
                      if stints.Ok? then stints.value else [], r.value.value))
  {
    if latest.Err? {
      return Err(latest.msg);
    }
    if !InRace(latest.value, now, parse) {
      return Ok(None);
    }
    if positions.Err? {
      return Err(positions.msg);
    }
    if drivers.Err? {
      return Err(drivers.msg);
    }
    if raceControl.Err? {
      return Err(raceControl.msg);
    }
    var sts := if stints.Ok? then stints.value else [];
    var state := LiveStateOf(latest.value.value, positions.value, drivers.value, raceControl.value, sts);
    return Ok(Some(state));
  }

  /** The derivation of the live state once every request has succeeded. */
  method LiveStateOf(sess: Session, ps: seq<Position>, ds: seq<DriverInfo>,
                     msgs: seq<RaceControlMessage>, sts: seq<Stint>) returns (s: Series.LiveState)
    ensures LiveOf(sess, ps, ds, msgs, sts, s)
  {
    var compoundByDriver := KeyedByLast(sts, StintKey);
    var driverMap := KeyedByLast(ds, DriverKey);
    var entries := LatestEntries(ps);
    var sorted := SortByPosition(entries);
    LatestEntriesPermutation(ps, entries, sorted);
    var driverList := DriverList(sorted, ds, sts, driverMap, compoundByDriver);
    var flagSymbol, flagName, currentLap := ScanRaceControl(msgs);
    var leader := Series.NoDriver;
    if |driverList| > 0 {
      leader := driverList[0];
    }
    s := Series.LiveState(SeriesName, ShortName, sess.circuitShortName, sess.circuitShortName,
                          currentLap, 0, flagSymbol, flagName, false, leader, driverList);
  }

  /** The driver list built over the sorted entries, looking each car up in the two maps. */
  method DriverList(sorted: seq<Position>, ds: seq<DriverInfo>, sts: seq<Stint>,
                    driverMap: map<int, DriverInfo>, compoundByDriver: map<int, Stint>)
    returns (list: seq<Series.Driver>)
    requires forall k :: Get(driverMap, k) == LastWith(ds, DriverKey, k)
    requires forall k :: Get(compoundByDriver, k) == LastWith(sts, StintKey, k)
    ensures |list| == |sorted|
    ensures forall i | 0 <= i < |sorted| :: list[i] == ToDriver(sorted[i], ds, sts)
  {
    list := [];
    var i := 0;
    while i < |sorted|
      invariant 0 <= i <= |sorted| && |list| == i
      invariant forall k | 0 <= k < i :: list[k] == ToDriver(sorted[k], ds, sts)
    {
      var p := sorted[i];
      assert Get(driverMap, p.driverNumber) == LastWith(ds, DriverKey, p.driverNumber);
      assert Get(compoundByDriver, p.driverNumber) == LastWith(sts, StintKey, p.driverNumber);
      var d := if p.driverNumber in driverMap then driverMap[p.driverNumber] else NoDriverInfo;
      var compound := if p.driverNumber in compoundByDriver then compoundByDriver[p.driverNumber].compound else "";
      list := list + [Series.Driver(Itoa(p.driverNumber), d.nameAcronym, d.fullName, d.teamName,
                                    p.position, "", 0, compound)];
      i := i + 1;
    }
  }
}
