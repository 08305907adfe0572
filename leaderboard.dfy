/** The interactive dashboard (internal/ui/leaderboard.go): the state of the Bubble Tea model
    and how messages and key presses change it. Rendering, the commands `Update` returns and
    the sort of `sortedVehicles` are not modelled; the sorted vehicles are a parameter. */
module Leaderboard {
  import opened Wrappers
  import opened Strings
  import GoInt
  import Series
  import NascarTypes
  import NascarLive
  import NascarSeries

  // ---------------------------------------------------------------------------
  // Modes and messages

  const SeriesNASCAR := 0
  const SeriesF1 := 1

  const ViewLeaderboard := 0
  const ViewSchedule := 1
  const ViewEntryList := 2
  const ViewStandings := 3
  const ViewF1Leaderboard := 4
  const ViewF1Schedule := 5

  /** Current weather; only the integer fields are modelled, the float readings are not. */
  datatype Conditions = Conditions(weatherCode: int, windDirection: int)

  /** A championship standings row; only the identifying fields and the points are kept. */
  datatype PointsEntry = PointsEntry(carNumber: string, firstName: string, lastName: string,
                                     driverId: int, points: int, pointsPosition: int)

  /** The kinds of key Bubble Tea reports; `KeyRunes` is a typed character. */
  datatype KeyType = KeyRunes | KeyUp | KeyDown | KeyTab | KeyEsc | KeyEnter | KeyBackspace
                   | KeyCtrlC | KeyOther(name: string)

  datatype KeyMsg = KeyMsg(keyType: KeyType, runes: seq<char>)

  /** The name a key binding matches: the typed text for characters, else the key's name. */
  function KeyName(k: KeyMsg): string
  {
    match k.keyType
    case KeyRunes => k.runes
    case KeyUp => "up"
    case KeyDown => "down"
    case KeyTab => "tab"
    case KeyEsc => "esc"
    case KeyEnter => "enter"
    case KeyBackspace => "backspace"
    case KeyCtrlC => "ctrl+c"
    case KeyOther(name) => name
  }

  /** The messages `Update` handles. */
  datatype Msg =
    | WindowSize(width: int, height: int)
    | Tick
    | Feed(feed: Option<NascarLive.LiveFeed>)
    | Weather(conditions: Option<Conditions>)
    | WeatherTick
    | ScheduleLoaded(race: Option<NascarTypes.Race>)
    | StandingsLoaded(entries: seq<PointsEntry>)
    | F1LiveState(state: Option<Series.LiveState>)
    | F1ScheduleLoaded(races: seq<Series.Race>)
    | Error(message: string)
    | Key(key: KeyMsg)

  /** What a key does outside search mode, by the first binding it matches. */
  datatype KeyAction = Quit | MoveUp | MoveDown | StartSearch | NextSortColumn | GotoFavorite
                     | ToggleSeries | View(n: int) | NoAction

  function Action(k: KeyMsg): KeyAction
  {
    var name := KeyName(k);
    if name == "q" || name == "ctrl+c" then Quit
    else if name == "k" || name == "up" then MoveUp
    else if name == "j" || name == "down" then MoveDown
    else if name == "/" then StartSearch
    else if name == "tab" then NextSortColumn
    else if name == "f" then GotoFavorite
    else if name == "s" then ToggleSeries
    else if name == "1" then View(1)
    else if name == "2" then View(2)
    else if name == "3" then View(3)
    else if name == "4" then View(4)
    else NoAction
  }

  // ---------------------------------------------------------------------------
  // The state and its transitions

  /** What the model has fetched: the NASCAR feed, the next race, the standings, the weather,
      the last error, and the F1 live state and schedule. */
  datatype Data = Data(
    feed: Option<NascarLive.LiveFeed>,
    race: Option<NascarTypes.Race>,
    standings: seq<PointsEntry>,
    weather: Option<Conditions>,
    err: Option<string>,
    f1Live: Option<Series.LiveState>,
    f1Schedule: seq<Series.Race>)

  /** Where the table is: cursor row, first visible row, terminal size, and sort. */
  datatype Nav = Nav(cursor: int, offset: int, width: int, height: int, sortCol: int, sortAsc: bool)

  /** What the dashboard is doing: searching (and for what), quitting, and which series and
      view it shows and whether the series was chosen by hand. */
  datatype Mode = Mode(searchMode: bool, searchTerm: seq<byte>, quitting: bool,
                       activeView: int, activeSeries: int, seriesLocked: bool)

  /** The fields of the model, grouped. */
  datatype ModelState = ModelState(data: Data, nav: Nav, mode: Mode, favDriver: string)

  /** The views that belong to each series. */
  predicate ViewOf(series: int, view: int)
  {
    if series == SeriesF1 then view == ViewF1Leaderboard || view == ViewF1Schedule
    else ViewLeaderboard <= view <= ViewStandings
  }

  /** What every reachable state satisfies: cursor and offset are not negative, the sort
      column is one of the four, and the view belongs to the active series. */
  predicate ValidState(s: ModelState)
  {
    && 0 <= s.nav.cursor && 0 <= s.nav.offset
    && 0 <= s.nav.sortCol < 4
    && (s.mode.activeSeries == SeriesNASCAR || s.mode.activeSeries == SeriesF1)
    && ViewOf(s.mode.activeSeries, s.mode.activeView)
  }

  /** `NewModel(driverNum)`: the favourite driver's number, sorted by position ascending. */
  function Initial(driverNum: int): (s: ModelState)
    ensures ValidState(s)
    ensures s.favDriver == "" <==> driverNum <= 0
  {
    ItoaSign(driverNum);
    ModelState(Data(None, None, [], None, None, None, []),
               Nav(0, 0, 0, 0, 0, true),
               Mode(false, [], false, ViewLeaderboard, SeriesNASCAR, false),
               if driverNum > 0 then Itoa(driverNum) else "")
  }

  /** `visibleRows`: the terminal height less the header bar, column header and status bar. */
  function VisibleRows(s: ModelState): int
  {
    s.nav.height - 5
  }

  /** `vehicleCount`. */
  function VehicleCount(s: ModelState): nat
  {
    if s.data.feed.None? then 0 else |s.data.feed.value.vehicles|
  }

  /** `hasLiveRace`: a live Cup race in the NASCAR feed, or any F1 live state. */
  predicate HasLiveRace(s: ModelState)
  {
    (s.data.feed.Some? && NascarLive.IsLiveCupRace(s.data.feed.value)) || s.data.f1Live.Some?
  }

  /** What `sortedVehicles` returns: the feed's vehicles in some order (none without a feed). */
  predicate SortedView(s: ModelState, sorted: seq<NascarLive.Vehicle>)
  {
    if s.data.feed.None? then sorted == [] else multiset(sorted) == multiset(s.data.feed.value.vehicles)
  }

  /** Up: one row up unless at the top, and scroll so the cursor stays in view. */
  function Up(s: ModelState): ModelState
  {
    var c := if s.nav.cursor > 0 then s.nav.cursor - 1 else s.nav.cursor;
    s.(nav := s.nav.(cursor := c, offset := if c < s.nav.offset then c else s.nav.offset))
  }

  /** Down: one row down unless at the last vehicle, and scroll so the cursor stays in view. */
  function Down(s: ModelState): ModelState
  {
    var c := if s.nav.cursor < VehicleCount(s) - 1 then s.nav.cursor + 1 else s.nav.cursor;
    var visible := VisibleRows(s);
    s.(nav := s.nav.(cursor := c, offset := if c >= s.nav.offset + visible then c - visible + 1 else s.nav.offset))
  }

  /** The offset that puts row `i` in the middle of `visible` rows, or the top when `i` is
      nearer the top than that. */
  function CenteredOffset(i: int, visible: int): (o: int)
    ensures o >= 0
    ensures 0 <= i && visible >= 1 ==> o <= i < o + visible
    ensures o > 0 ==> i - o == GoInt.Quot(visible, 2)
    ensures o == 0 ==> i <= GoInt.Quot(visible, 2)
  {
    GoInt.QuotRem(visible, 2);
    var o := i - GoInt.Quot(visible, 2);
    if o < 0 then 0 else o
  }

  /** The index of the first vehicle with the given number. */
  function FirstWithNumber(vs: seq<NascarLive.Vehicle>, number: string): (r: Option<nat>)
    ensures r.Some? ==> (r.value < |vs| && vs[r.value].vehicleNumber == number
      && forall j | 0 <= j < r.value :: vs[j].vehicleNumber != number)
    ensures r.None? ==> forall j | 0 <= j < |vs| :: vs[j].vehicleNumber != number
  {
    if vs == [] then None
    else if vs[0].vehicleNumber == number then Some(0)
    else
      var r := FirstWithNumber(vs[1..], number);
      if r.Some? then Some(r.value + 1) else None
  }

  /** A search term (already lower-cased) finds a vehicle when the lower-cased full name
      contains it or the car number equals it. */
  predicate MatchesTerm(v: NascarLive.Vehicle, term: seq<byte>)
  {
    ContainsBytes(ToLowerBytes(Encode(v.driver.fullName)), term) || Encode(v.vehicleNumber) == term
  }

  /** The index of the first vehicle the term finds. */
  function FirstMatching(vs: seq<NascarLive.Vehicle>, term: seq<byte>): Option<nat>
  {
    if vs == [] then None
    else if MatchesTerm(vs[0], term) then Some(0)
    else
      var r := FirstMatching(vs[1..], term);
      if r.Some? then Some(r.value + 1) else None
  }

  /** `FirstMatching` finds the first vehicle the term finds, or none when no vehicle does. */
  lemma {:induction false} FirstMatchingSpec(vs: seq<NascarLive.Vehicle>, term: seq<byte>)
    ensures var r := FirstMatching(vs, term);
      && (r.Some? ==> (r.value < |vs| && MatchesTerm(vs[r.value], term)
                       && forall j | 0 <= j < r.value :: !MatchesTerm(vs[j], term)))
      && (r.None? ==> forall j | 0 <= j < |vs| :: !MatchesTerm(vs[j], term))
  {
    if vs != [] && !MatchesTerm(vs[0], term) {
      var rest := vs[1..];
      var r := FirstMatching(rest, term);
      FirstMatchingSpec(rest, term);
      var n := if r.Some? then r.value + 1 else |vs|;
      forall j | 0 <= j < n
        ensures !MatchesTerm(vs[j], term)
      {
        if j > 0 {
          assert vs[j] == rest[j - 1];
        }
      }
      if r.Some? {
        assert vs[r.value + 1] == rest[r.value];
      }
    }
  }

  /** When the term finds no vehicle before `i`, the first one found is at `i` if it finds
      that one, and there is none when `i` is past the end. */
  lemma FirstMatchingAt(vs: seq<NascarLive.Vehicle>, term: seq<byte>, i: nat)
    requires i <= |vs| && forall j | 0 <= j < i :: !MatchesTerm(vs[j], term)
    requires i < |vs| ==> MatchesTerm(vs[i], term)
    ensures FirstMatching(vs, term) == if i < |vs| then Some(i) else None
  {
    FirstMatchingSpec(vs, term);
  }

  /** Puts the cursor on row `i` and centres it. */
  function MoveTo(s: ModelState, i: nat): ModelState
  {
    s.(nav := s.nav.(cursor := i, offset := CenteredOffset(i, VisibleRows(s))))
  }

  /** `jumpToFavorite`: to the favourite driver's row, if there is a feed, a favourite, and
      the favourite is in it. */
  function Jump(s: ModelState, sorted: seq<NascarLive.Vehicle>): ModelState
  {
    if s.data.feed.None? || s.favDriver == "" then s
    else
      var i := FirstWithNumber(sorted, s.favDriver);
      if i.None? then s else MoveTo(s, i.value)
  }

  /** `findDriver`: to the first row the lower-cased term finds, if there is a feed. */
  function Find(s: ModelState, term: seq<byte>, sorted: seq<NascarLive.Vehicle>): ModelState
  {
    if s.data.feed.None? then s
    else
      var i := FirstMatching(sorted, ToLowerBytes(term));
      if i.None? then s else MoveTo(s, i.value)
  }

  /** `autoDetectSeries`: F1 when it is live, else NASCAR when the feed is a live Cup race,
      else nothing changes. */
  function AutoDetect(s: ModelState): ModelState
  {
    if s.data.f1Live.Some? then s.(mode := s.mode.(activeSeries := SeriesF1, activeView := ViewF1Leaderboard))
    else if s.data.feed.Some? && NascarLive.IsLiveCupRace(s.data.feed.value) then
      s.(mode := s.mode.(activeSeries := SeriesNASCAR, activeView := ViewLeaderboard))
    else s
  }

  /** `switchSeries`: the other series, on its leaderboard, and no more auto-detection. */
  function Switch(s: ModelState): ModelState
  {
    if s.mode.activeSeries == SeriesNASCAR then
      s.(mode := s.mode.(seriesLocked := true, activeSeries := SeriesF1, activeView := ViewF1Leaderboard))
    else
      s.(mode := s.mode.(seriesLocked := true, activeSeries := SeriesNASCAR, activeView := ViewLeaderboard))
  }

  /** The view keys 1 to 4. */
  function ViewKey(s: ModelState, n: int): ModelState
  {
    var f1 := s.mode.activeSeries == SeriesF1;
    if n == 1 then s.(mode := s.mode.(activeView := if f1 then ViewF1Leaderboard else ViewLeaderboard))
    else if n == 2 then s.(mode := s.mode.(activeView := if f1 then ViewF1Schedule else ViewSchedule))
    else if s.mode.activeSeries != SeriesNASCAR then s
    else if n == 3 then s.(mode := s.mode.(activeView := ViewEntryList))
    else s.(mode := s.mode.(activeView := ViewStandings))
  }

  /** `handleKey`, once the key's action is known. */
  function HandleKeyStep(s: ModelState, a: KeyAction, sorted: seq<NascarLive.Vehicle>): ModelState
  {
    match a
    case Quit => s.(mode := s.mode.(quitting := true))
    case MoveUp => Up(s)
    case MoveDown => Down(s)
    case StartSearch => s.(mode := s.mode.(searchMode := true, searchTerm := []))
    case NextSortColumn => s.(nav := s.nav.(sortCol := GoInt.Rem(s.nav.sortCol + 1, 4)))
    case GotoFavorite => Jump(s, sorted)
    case ToggleSeries => Switch(s)
    case View(n) => ViewKey(s, n)
    case NoAction => s
  }

  /** `handleSearchKey`: Esc leaves search and clears the term, Enter leaves search and finds
      the term, Backspace drops the term's last byte, anything else appends its text. */
  function HandleSearchKeyStep(s: ModelState, k: KeyMsg, sorted: seq<NascarLive.Vehicle>): ModelState
  {
    var term := s.mode.searchTerm;
    match k.keyType
    case KeyEsc => s.(mode := s.mode.(searchMode := false, searchTerm := []))
    case KeyEnter => Find(s.(mode := s.mode.(searchMode := false)), term, sorted)
    case KeyBackspace =>
      if |term| > 0 then s.(mode := s.mode.(searchTerm := term[..|term| - 1])) else s
    case _ => if |k.runes| > 0 then s.(mode := s.mode.(searchTerm := term + Encode(k.runes))) else s
  }

  /** A feed message: stored, the error cleared, and the weather dropped when there is no
      live Cup race and no F1 race either. */
  function FeedStep(d: Data, f: Option<NascarLive.LiveFeed>): Data
  {
    var t := d.(feed := f, err := None);
    if (f.None? || !NascarLive.IsLiveCupRace(f.value)) && d.f1Live.None? then t.(weather := None) else t
  }

  /** `Update`, on the model's fields. */
  function Step(s: ModelState, msg: Msg, sorted: seq<NascarLive.Vehicle>): ModelState
  {
    match msg
    case WindowSize(w, h) => s.(nav := s.nav.(width := w, height := h))
    case Tick => s
    case Feed(f) => s.(data := FeedStep(s.data, f))
    case Weather(c) => s.(data := s.data.(weather := c))
    case WeatherTick => s
    case ScheduleLoaded(r) => s.(data := s.data.(race := r))
    case StandingsLoaded(e) => s.(data := s.data.(standings := e))
    case F1LiveState(st) =>
      var t := s.(data := s.data.(f1Live := st));
      if t.mode.seriesLocked then t else AutoDetect(t)
    case F1ScheduleLoaded(rs) => s.(data := s.data.(f1Schedule := rs))
    case Error(e) => s.(data := s.data.(err := Some(e)))
    case Key(k) => if s.mode.searchMode then HandleSearchKeyStep(s, k, sorted) else HandleKeyStep(s, Action(k), sorted)
  }

  // ---------------------------------------------------------------------------
  // Properties of the transitions

  /** Up never moves the cursor above the first row and keeps it at or below the top row. */
  lemma UpBounds(s: ModelState)
    requires ValidState(s)
    ensures Up(s).nav.cursor == (if s.nav.cursor > 0 then s.nav.cursor - 1 else 0)
    ensures 0 <= Up(s).nav.offset <= Up(s).nav.cursor
  {
  }

  /** Down never moves the cursor past the last vehicle and keeps it above the bottom of the
      visible rows. */
  lemma DownBounds(s: ModelState)
    requires ValidState(s)
    ensures s.nav.cursor <= VehicleCount(s) - 1 ==> Down(s).nav.cursor <= VehicleCount(s) - 1
    ensures Down(s).nav.cursor == s.nav.cursor || Down(s).nav.cursor == s.nav.cursor + 1
    ensures Down(s).nav.cursor < Down(s).nav.offset + VisibleRows(s)
    ensures Down(s).nav.offset >= s.nav.offset
  {
  }

  /** A jump lands on a row of the feed, and on the favourite's. */
  lemma JumpLands(s: ModelState, sorted: seq<NascarLive.Vehicle>)
    requires SortedView(s, sorted)
    ensures Jump(s, sorted) != s ==> (Jump(s, sorted).nav.cursor < VehicleCount(s)
      && sorted[Jump(s, sorted).nav.cursor].vehicleNumber == s.favDriver)
  {
    if s.data.feed.Some? {
      assert |sorted| == |multiset(sorted)| == |s.data.feed.value.vehicles|;
    }
  }

  /** Tab cycles the sort column through the four columns. */
  lemma TabCycles(s: ModelState, sorted: seq<NascarLive.Vehicle>)
    requires ValidState(s) && !s.mode.searchMode
    ensures var t := Step(s, Key(KeyMsg(KeyTab, [])), sorted);
      t == s.(nav := s.nav.(sortCol := if s.nav.sortCol == 3 then 0 else s.nav.sortCol + 1))
  {
  }

  /** Outside search mode, keys 1 and 2 pick the leaderboard and the schedule of the active
      series; keys 3 and 4 pick the entry list and the standings in NASCAR mode and change
      nothing otherwise. No key changes anything but the view. */
  lemma ViewKeys(s: ModelState, sorted: seq<NascarLive.Vehicle>)
    requires !s.mode.searchMode
    ensures var f1 := s.mode.activeSeries == SeriesF1;
      Step(s, Key(KeyMsg(KeyRunes, ['1'])), sorted)
        == s.(mode := s.mode.(activeView := if f1 then ViewF1Leaderboard else ViewLeaderboard))
    ensures var f1 := s.mode.activeSeries == SeriesF1;
      Step(s, Key(KeyMsg(KeyRunes, ['2'])), sorted)
        == s.(mode := s.mode.(activeView := if f1 then ViewF1Schedule else ViewSchedule))
    ensures var nascar := s.mode.activeSeries == SeriesNASCAR;
      Step(s, Key(KeyMsg(KeyRunes, ['3'])), sorted)
        == if nascar then s.(mode := s.mode.(activeView := ViewEntryList)) else s
    ensures var nascar := s.mode.activeSeries == SeriesNASCAR;
      Step(s, Key(KeyMsg(KeyRunes, ['4'])), sorted)
        == if nascar then s.(mode := s.mode.(activeView := ViewStandings)) else s
  {
  }

  /** Views 3 and 4 exist only in NASCAR mode; in F1 mode those keys change nothing. */
  lemma NascarOnlyViews(s: ModelState, sorted: seq<NascarLive.Vehicle>, n: char)
    requires !s.mode.searchMode && s.mode.activeSeries == SeriesF1 && (n == '3' || n == '4')
    ensures Step(s, Key(KeyMsg(KeyRunes, [n])), sorted) == s
  {
  }

  /** Switching twice gives back the series and view switched from, but stays locked; once
      locked, live F1 states no longer change the series or the view. */
  lemma SwitchLocks(s: ModelState, st: Option<Series.LiveState>, sorted: seq<NascarLive.Vehicle>)
    requires ValidState(s)
    ensures Switch(s).mode.seriesLocked && Switch(s).mode.activeSeries != s.mode.activeSeries
    ensures s.mode.activeView == (if s.mode.activeSeries == SeriesF1 then ViewF1Leaderboard else ViewLeaderboard)
      ==> Switch(Switch(s)) == s.(mode := s.mode.(seriesLocked := true))
    ensures var t := Step(Switch(s), F1LiveState(st), sorted);
      t == Switch(s).(data := s.data.(f1Live := st))
  {
  }

  /** Unless locked, an F1 live state selects F1 when present, else NASCAR when the feed is a
      live Cup race, else leaves series and view alone. */
  lemma AutoDetectCases(s: ModelState, st: Option<Series.LiveState>, sorted: seq<NascarLive.Vehicle>)
    requires !s.mode.seriesLocked
    ensures var t := Step(s, F1LiveState(st), sorted);
      && (st.Some? ==> t.mode.activeSeries == SeriesF1 && t.mode.activeView == ViewF1Leaderboard)
      && (st.None? && s.data.feed.Some? && NascarLive.IsLiveCupRace(s.data.feed.value) ==>
            t.mode.activeSeries == SeriesNASCAR && t.mode.activeView == ViewLeaderboard)
      && (!HasLiveRace(s.(data := s.data.(f1Live := st))) ==> t == s.(data := s.data.(f1Live := st)))
  {
  }

  /** A feed message always clears the error; it clears the weather exactly when neither the
      new feed is a live Cup race nor F1 is live; nothing else but the feed changes. */
  lemma FeedWeather(s: ModelState, f: Option<NascarLive.LiveFeed>, sorted: seq<NascarLive.Vehicle>)
    ensures var t := Step(s, Feed(f), sorted);
      && t.data.err.None? && t.data.feed == f
      && (t.data.weather.None? <==> s.data.weather.None? || !HasLiveRace(t))
      && t.data.(weather := s.data.weather, err := s.data.err, feed := s.data.feed) == s.data
      && t.(data := s.data) == s
  {
  }

  /** In search mode Esc leaves it with an empty term, Backspace removes the last byte of a
      non-empty term, and typed text is appended as UTF-8. Nothing else changes. */
  lemma SearchEditing(s: ModelState, runes: seq<char>, sorted: seq<NascarLive.Vehicle>)
    requires s.mode.searchMode
    ensures var t := Step(s, Key(KeyMsg(KeyEsc, [])), sorted);
      t == s.(mode := s.mode.(searchMode := false, searchTerm := []))
    ensures var t := Step(s, Key(KeyMsg(KeyBackspace, [])), sorted);
      |s.mode.searchTerm| > 0 ==>
        && t.mode.searchTerm + [s.mode.searchTerm[|s.mode.searchTerm| - 1]] == s.mode.searchTerm
        && t == s.(mode := s.mode.(searchTerm := t.mode.searchTerm))
    ensures |s.mode.searchTerm| == 0 ==> Step(s, Key(KeyMsg(KeyBackspace, [])), sorted) == s
    ensures var t := Step(s, Key(KeyMsg(KeyRunes, runes)), sorted);
      t == s.(mode := s.mode.(searchTerm := s.mode.searchTerm + Encode(runes)))
  {
    var t := Step(s, Key(KeyMsg(KeyBackspace, [])), sorted);
    var term := s.mode.searchTerm;
    if |term| > 0 {
      assert t.mode.searchTerm + [term[|term| - 1]] == term;
    }
  }

  /** `hasLiveRace` on the cases of the tests: a live Cup feed, an F1 state, nothing, and a
      practice feed. */
  lemma HasLiveRaceCases(s: ModelState, f: NascarLive.LiveFeed)
    ensures s.data.f1Live.Some? ==> HasLiveRace(s)
    ensures s.data.feed == Some(f) && f.runType == 3 && f.seriesId == 1 && f.lapNumber > 0 ==> HasLiveRace(s)
    ensures s.data.feed.None? && s.data.f1Live.None? ==> !HasLiveRace(s)
    ensures s.data.feed == Some(f) && f.runType != 3 && s.data.f1Live.None? ==> !HasLiveRace(s)
  {
  }

  /** Every message keeps the state valid, and a locked series stays locked. */
  lemma StepValid(s: ModelState, msg: Msg, sorted: seq<NascarLive.Vehicle>)
    requires ValidState(s)
    ensures ValidState(Step(s, msg, sorted))
    ensures s.mode.seriesLocked ==> Step(s, msg, sorted).mode.seriesLocked
  {
    match msg
    case Key(k) =>
      if s.mode.searchMode {
        SearchKeyValid(s, k, sorted);
      } else {
        KeyValid(s, Action(k), sorted);
      }
    case F1LiveState(st) =>
    case _ =>
  }

  lemma KeyValid(s: ModelState, a: KeyAction, sorted: seq<NascarLive.Vehicle>)
    requires ValidState(s)
    ensures ValidState(HandleKeyStep(s, a, sorted))
    ensures s.mode.seriesLocked ==> HandleKeyStep(s, a, sorted).mode.seriesLocked
  {
    match a
    case NextSortColumn =>
      assert GoInt.Rem(s.nav.sortCol + 1, 4) == GoInt.Mod(s.nav.sortCol + 1, 4);
    case MoveDown =>
      DownBounds(s);
    case _ =>
  }

  lemma SearchKeyValid(s: ModelState, k: KeyMsg, sorted: seq<NascarLive.Vehicle>)
    requires ValidState(s)
    ensures ValidState(HandleSearchKeyStep(s, k, sorted))
    ensures HandleSearchKeyStep(s, k, sorted).mode.seriesLocked == s.mode.seriesLocked
  {
    if k.keyType == KeyEnter {
      FindValid(s.(mode := s.mode.(searchMode := false)), s.mode.searchTerm, sorted);
    }
  }

  /** A search moves only the cursor and the offset, and keeps them not negative. */
  lemma FindValid(s: ModelState, term: seq<byte>, sorted: seq<NascarLive.Vehicle>)
    requires ValidState(s)
    ensures ValidState(Find(s, term, sorted))
    ensures Find(s, term, sorted).(nav := s.nav) == s
    ensures Find(s, term, sorted).nav.(cursor := s.nav.cursor, offset := s.nav.offset) == s.nav
  {
  }

  // Pure helpers of the views

  /** `flagStateName`: the flag in capitals. */
  function FlagStateName(state: int): string
  {
    if state == NascarLive.FlagGreen then "GREEN"
    else if state == NascarLive.FlagCaution then "CAUTION"
    else if state == NascarLive.FlagRed then "RED"
    else if state == NascarLive.FlagWhite then "WHITE"
    else if state == NascarLive.FlagFinished then "CHECKERED"
    else "UNKNOWN"
  }

  /** The dashboard's flag name is the status line's, in capitals. */
  lemma FlagStateNameIsUpper(state: int)
    ensures FlagStateName(state) == ToUpper(NascarSeries.FlagName(state))
  {
    var n, u := NascarSeries.FlagName(state), FlagStateName(state);
    assert |u| == |n|;
    forall i | 0 <= i < |n|
      ensures ToUpper(n)[i] == u[i]
    {
    }
  }

  /** The three bytes of "…", U+2026 in UTF-8. */
  const EllipsisBytes: seq<byte> := [0xE2, 0x80, 0xA6]

  /** `truncate`: a text of at most `max` bytes unchanged, else its first `max - 1` bytes and
      "…". Go's slice would panic for a `max` below 1 on a longer text, so that is excluded. */
  function Truncate(s: seq<byte>, max: int): (r: seq<byte>)
    requires |s| <= max || max >= 1
    ensures |s| <= max ==> r == s
    ensures |s| > max ==> |r| == max + 2 && r[..max - 1] == s[..max - 1] && r[max - 1..] == EllipsisBytes
  {
    if |s| <= max then s else s[..max - 1] + EllipsisBytes
  }

  /** The ellipsis is the UTF-8 encoding of U+2026. */
  lemma EllipsisIsUtf8()
    ensures Encode("…") == EllipsisBytes
  {
  }

  // ---------------------------------------------------------------------------
  // The model object

  /** The Bubble Tea model. Its fields are the three groups of `ModelState` and the favourite
      driver; its methods change them in place, as the message handlers do. */
  class Dashboard {
    var data: Data
    var nav: Nav
    var mode: Mode
    var favDriver: string

    /** A snapshot of the fields. */
    function State(): ModelState
      reads this
    {
      ModelState(data, nav, mode, favDriver)
    }

    predicate Valid()
      reads this
    {
      ValidState(State())
    }

    /** `NewModel(driverNum)`. */
    constructor(driverNum: int)
      ensures State() == Initial(driverNum)
      ensures Valid()
    {
      data := Data(None, None, [], None, None, None, []);
      nav := Nav(0, 0, 0, 0, 0, true);
      mode := Mode(false, [], false, ViewLeaderboard, SeriesNASCAR, false);
      favDriver := if driverNum > 0 then Itoa(driverNum) else "";
    }

    /** `Update`: the new fields after one message; `sorted` is what `sortedVehicles` gives. */
    method Update(msg: Msg, sorted: seq<NascarLive.Vehicle>)
      requires Valid()
      requires SortedView(State(), sorted)
      modifies this
      ensures State() == Step(old(State()), msg, sorted)
      ensures Valid()
    {
      StepValid(State(), msg, sorted);
      match msg {
        case WindowSize(w, h) =>
          nav := nav.(width := w, height := h);
        case Tick =>
        case Feed(f) =>
          FeedArrived(f);
        case Weather(c) =>
          data := data.(weather := c);
        case WeatherTick =>
        case ScheduleLoaded(r) =>
          data := data.(race := r);
        case StandingsLoaded(e) =>
          data := data.(standings := e);
        case F1LiveState(st) =>
          data := data.(f1Live := st);
          if !mode.seriesLocked {
            AutoDetectSeries();
          }
        case F1ScheduleLoaded(rs) =>
          data := data.(f1Schedule := rs);
        case Error(e) =>
          data := data.(err := Some(e));
        case Key(k) =>
          if mode.searchMode {
            HandleSearchKey(k, sorted);
          } else {
            HandleKey(k, sorted);
          }
      }
    }

    /** A feed message: stored, the error cleared, and the weather dropped when nothing is
        live any more. */
    method FeedArrived(f: Option<NascarLive.LiveFeed>)
      modifies this
      ensures State() == old(State()).(data := FeedStep(old(data), f))
    {
      data := data.(feed := f, err := None);
      if f.None? || !NascarLive.IsLiveCupRace(f.value) {
        if data.f1Live.None? {
          data := data.(weather := None);
        }
      }
    }

    /** `handleKey`. */
    method HandleKey(k: KeyMsg, sorted: seq<NascarLive.Vehicle>)
      modifies this
      ensures State() == HandleKeyStep(old(State()), Action(k), sorted)
    {
      var action := Action(k);
      match action {
        case Quit =>
          mode := mode.(quitting := true);
        case MoveUp =>
          if nav.cursor > 0 {
            nav := nav.(cursor := nav.cursor - 1);
          }
          if nav.cursor < nav.offset {
            nav := nav.(offset := nav.cursor);
          }
        case MoveDown =>
          var max := VehicleCount(State()) - 1;
          if nav.cursor < max {
            nav := nav.(cursor := nav.cursor + 1);
          }
          var visible := VisibleRows(State());
          if nav.cursor >= nav.offset + visible {
            nav := nav.(offset := nav.cursor - visible + 1);
          }
        case StartSearch =>
          mode := mode.(searchMode := true, searchTerm := []);
        case NextSortColumn =>
          nav := nav.(sortCol := GoInt.Rem(nav.sortCol + 1, 4));
        case GotoFavorite =>
          JumpToFavorite(sorted);
        case ToggleSeries =>
          SwitchSeries();
        case View(n) =>
          SelectView(n);
        case NoAction =>
      }
    }

    /** The view keys 1 to 4: the leaderboard and the schedule of the active series, and the
        entry list and the standings in NASCAR mode only. */
    method SelectView(n: int)
      modifies this
      ensures State() == ViewKey(old(State()), n)
    {
      var f1 := mode.activeSeries == SeriesF1;
      if n == 1 {
        mode := mode.(activeView := if f1 then ViewF1Leaderboard else ViewLeaderboard);
      } else if n == 2 {
        mode := mode.(activeView := if f1 then ViewF1Schedule else ViewSchedule);
      } else if n == 3 {
        if mode.activeSeries == SeriesNASCAR {
          mode := mode.(activeView := ViewEntryList);
        }
      } else if mode.activeSeries == SeriesNASCAR {
        mode := mode.(activeView := ViewStandings);
      }
    }

    /** `handleSearchKey`. */
    method HandleSearchKey(k: KeyMsg, sorted: seq<NascarLive.Vehicle>)
      modifies this
      ensures State() == HandleSearchKeyStep(old(State()), k, sorted)
    {
      var term := mode.searchTerm;
      match k.keyType {
        case KeyEsc =>
          mode := mode.(searchMode := false, searchTerm := []);
        case KeyEnter =>
          mode := mode.(searchMode := false);
          FindDriver(term, sorted);
        case KeyBackspace =>
          if |term| > 0 {
            mode := mode.(searchTerm := term[..|term| - 1]);
          }
        case _ =>
          if |k.runes| > 0 {
            mode := mode.(searchTerm := term + Encode(k.runes));
          }
      }
    }

    /** `switchSeries`. */
    method SwitchSeries()
      modifies this
      ensures State() == Switch(old(State()))
    {
      mode := mode.(seriesLocked := true);
      if mode.activeSeries == SeriesNASCAR {
        mode := mode.(activeSeries := SeriesF1, activeView := ViewF1Leaderboard);
      } else {
        mode := mode.(activeSeries := SeriesNASCAR, activeView := ViewLeaderboard);
      }
    }

    /** `autoDetectSeries`. */
    method AutoDetectSeries()
      modifies this
      ensures State() == AutoDetect(old(State()))
    {
      if data.f1Live.Some? {
        mode := mode.(activeSeries := SeriesF1, activeView := ViewF1Leaderboard);
      } else if data.feed.Some? && NascarLive.IsLiveCupRace(data.feed.value) {
        mode := mode.(activeSeries := SeriesNASCAR, activeView := ViewLeaderboard);
      }
    }

    /** Puts the cursor on row `i` and scrolls so it is in the middle of the visible rows. */
    method CenterOn(i: nat)
      modifies this
      ensures State() == MoveTo(old(State()), i)
    {
      var visible := nav.height - 5;
      var offset := i - GoInt.Quot(visible, 2);
      if offset < 0 {
        offset := 0;
      }
      nav := nav.(cursor := i, offset := offset);
    }

    /** `jumpToFavorite`: a search of the sorted vehicles with early return. */
    method JumpToFavorite(sorted: seq<NascarLive.Vehicle>)
      modifies this
      ensures State() == Jump(old(State()), sorted)
    {
      if data.feed.None? || favDriver == "" {
        return;
      }
      var i := 0;
      while i < |sorted|
        invariant 0 <= i <= |sorted|
        invariant forall j | 0 <= j < i :: sorted[j].vehicleNumber != favDriver
      {
        if sorted[i].vehicleNumber == favDriver {
          CenterOn(i);
          return;
        }
        i := i + 1;
      }
    }

    /** `findDriver`: the same search, by a lower-cased name fragment or car number. */
    method FindDriver(term: seq<byte>, sorted: seq<NascarLive.Vehicle>)
      modifies this
      ensures State() == Find(old(State()), term, sorted)
    {
      if data.feed.None? {
        return;
      }
      var t := ToLowerBytes(term);
      var i := 0;
      while i < |sorted|
        invariant 0 <= i <= |sorted|
        invariant forall j | 0 <= j < i :: !MatchesTerm(sorted[j], t)
      {
        var v := sorted[i];
        if ContainsBytes(ToLowerBytes(Encode(v.driver.fullName)), t) || Encode(v.vehicleNumber) == t {
          FirstMatchingAt(sorted, t, i);
          CenterOn(i);
          return;
        }
        i := i + 1;
      }
      FirstMatchingAt(sorted, t, |sorted|);
    }
  }
}
