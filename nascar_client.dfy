/** The schedule side of the NASCAR client (internal/nascar/client.go): ordering the decoded
    schedule and picking the next race. Fetching, the file cache and JSON decoding are not
    modelled; the decoder's outcome is an input. */
module NascarClient {
  import opened Wrappers
  import opened Strings
  import Sorting
  import opened NascarTypes

  /** How long after its start a race still counts as the next one: 6 hours. */
  const RunningWindow: int := 6 * 3600

  /** The order `parseCupSchedule` sorts by: the scheduled-date strings, compared as Go
      compares strings. */
  predicate DateLess(x: Race, y: Race)
  {
    Less(x.dateScheduled, y.dateScheduled)
  }

  lemma DateLessOrder()
    ensures Sorting.StrictWeakOrder(DateLess)
  {
    forall x: Race
      ensures !DateLess(x, x)
    {
      LessIrreflexive(x.dateScheduled);
    }
    forall x: Race, y: Race, z: Race | DateLess(x, y) && DateLess(y, z)
      ensures DateLess(x, z)
    {
      LessTransitive(x.dateScheduled, y.dateScheduled, z.dateScheduled);
    }
    forall x: Race, y: Race, z: Race | DateLess(x, z)
      ensures DateLess(x, y) || DateLess(y, z)
    {
      LessNegativelyTransitive(x.dateScheduled, y.dateScheduled, z.dateScheduled);
    }
  }

  /** `parseCupSchedule`, given what decoding the JSON gave: a decoding error is wrapped, and
      the decoded races come back as a permutation in ascending order of their scheduled
      date. */
  method ParseCupSchedule(decoded: Result<seq<Race>>) returns (r: Result<seq<Race>>)
    ensures decoded.Err? ==> r == Err("parsing schedule: " + decoded.msg)
    ensures decoded.Ok? ==> r.Ok? && multiset(r.value) == multiset(decoded.value)
    ensures decoded.Ok? ==> forall i, j | 0 <= i < j < |r.value| ::
      !Less(r.value[j].dateScheduled, r.value[i].dateScheduled)
  {
    if decoded.Err? {
      return Err("parsing schedule: " + decoded.msg);
    }
    var races := decoded.value;
    var a := new Race[|races|](i requires 0 <= i < |races| => races[i]);
    assert a[..] == races;
    DateLessOrder();
    Sorting.Sort(a, DateLess);
    r := Ok(a[..]);
  }

  /** A race `NextRace` accepts: not complete, with a start that parses and lies after
      `now` minus 6 hours, so a race that started less than 6 hours ago may still be running. */
  predicate Upcoming(r: Race, now: int, parse: string -> Option<int>)
  {
    && !IsComplete(r)
    && RaceStartUTC(r, parse).Some?
    && RaceStartUTC(r, parse).value > now - RunningWindow
  }

  /** `NextRace` with the clock as a parameter: the index of the first race in list order that
      is upcoming, which need not be the earliest one. */
  method NextRace(races: seq<Race>, now: int, parse: string -> Option<int>) returns (idx: Option<nat>)
    ensures idx.Some? ==> idx.value < |races| && Upcoming(races[idx.value], now, parse)
    ensures idx.Some? ==> forall j | 0 <= j < idx.value :: !Upcoming(races[j], now, parse)
    ensures idx.None? <==> forall j | 0 <= j < |races| :: !Upcoming(races[j], now, parse)
  {
    var i := 0;
    while i < |races|
      invariant 0 <= i <= |races|
      invariant forall j | 0 <= j < i :: !Upcoming(races[j], now, parse)
    {
      if IsComplete(races[i]) {
        i := i + 1;
        continue;
      }
      var start := RaceStartUTC(races[i], parse);
      if start.None? {
        i := i + 1;
        continue;
      }
      if start.value > now - RunningWindow {
        return Some(i);
      }
      i := i + 1;
    }
    return None;
  }

  /** A race that is upcoming stays upcoming as the clock is turned back: the window only
      closes as time passes. */
  lemma UpcomingEarlier(r: Race, now: int, earlier: int, parse: string -> Option<int>)
    requires Upcoming(r, now, parse) && earlier <= now
    ensures Upcoming(r, earlier, parse)
  {
  }

  /** The first-upcoming index is unique: the contract of `NextRace` fixes its answer. */
  lemma NextRaceDeterministic(races: seq<Race>, now: int, parse: string -> Option<int>, a: nat, b: nat)
    requires a < |races| && Upcoming(races[a], now, parse)
    requires forall j | 0 <= j < a :: !Upcoming(races[j], now, parse)
    requires b < |races| && Upcoming(races[b], now, parse)
    requires forall j | 0 <= j < b :: !Upcoming(races[j], now, parse)
    ensures a == b
  {
  }
}
