/** The two small tables of the weather suffix (internal/weather/weather.go): the symbol of a
    WMO weather-interpretation code and the compass arrow of a wind direction. */
module Weather {
  import opened Wrappers
  import GoInt

  // ---------------------------------------------------------------------------
  // Weather symbols

  const Clear: string := "\U{2600}\U{FE0F}"
  const PartlyCloudy: string := "\U{26C5}"
  const Fog: string := "\U{1F32B}"
  const RainCloud: string := "\U{1F327}"
  const SnowCloud: string := "\U{1F328}"
  const Thunderstorm: string := "\U{26C8}"
  const SunBehindCloud: string := "\U{1F324}"

  /** The codes of each symbol: drizzle, rain and rain showers share one, snow and snow
      showers another. */
  predicate Cloudy(code: int) { code == 1 || code == 2 || code == 3 }
  predicate Foggy(code: int) { code == 45 || code == 48 }
  predicate Rainy(code: int)
  {
    || code == 51 || code == 53 || code == 55 || code == 56 || code == 57
    || code == 61 || code == 63 || code == 65 || code == 66 || code == 67
    || code == 80 || code == 81 || code == 82
  }
  predicate Snowy(code: int) { code == 71 || code == 73 || code == 75 || code == 77 || code == 85 || code == 86 }
  predicate Stormy(code: int) { code == 95 || code == 96 || code == 99 }

  /** Every code the table lists. */
  predicate Listed(code: int)
  {
    code == 0 || Cloudy(code) || Foggy(code) || Rainy(code) || Snowy(code) || Stormy(code)
  }

  /** `Symbol`: the compact symbol for a WMO code, the sun behind a cloud for any code the
      table does not list. */
  function Symbol(code: int): string
  {
    match code
    case 0 => Clear
    case 1 | 2 | 3 => PartlyCloudy
    case 45 | 48 => Fog
    case 51 | 53 | 55 | 56 | 57 => RainCloud
    case 61 | 63 | 65 | 66 | 67 => RainCloud
    case 71 | 73 | 75 | 77 => SnowCloud
    case 80 | 81 | 82 => RainCloud
    case 85 | 86 => SnowCloud
    case 95 | 96 | 99 => Thunderstorm
    case _ => SunBehindCloud
  }

  /** The symbols of the table, one per group of codes and the default last. */
  const Symbols: seq<string> := [Clear, PartlyCloudy, Fog, RainCloud, SnowCloud, Thunderstorm, SunBehindCloud]

  /** The symbols of the table are pairwise different. */
  lemma SymbolsDistinct()
    ensures forall i, j | 0 <= i < j < |Symbols| :: Symbols[i] != Symbols[j]
  {
    forall i, j | 0 <= i < j < |Symbols|
      ensures Symbols[i] != Symbols[j]
    {
      assert Symbols[i][0] != Symbols[j][0];
    }
  }

  /** `code` is one of the codes of the `k`th symbol of `Symbols`; those of the default symbol
      are the codes the table does not list. */
  predicate InGroup(code: int, k: int)
  {
    match k
    case 0 => code == 0
    case 1 => Cloudy(code)
    case 2 => Foggy(code)
    case 3 => Rainy(code)
    case 4 => Snowy(code)
    case 5 => Stormy(code)
    case _ => !Listed(code)
  }

  /** Each symbol stands for exactly its group of codes: the default symbol for exactly the
      codes the table does not list. */
  lemma SymbolGroups(code: int, k: int)
    requires 0 <= k < |Symbols|
    ensures Symbol(code) == Symbols[k] <==> InGroup(code, k)
  {
    SymbolsDistinct();
    var j := GroupOf(code);
    if InGroup(code, k) {
      GroupsDisjoint(code, j, k);
    }
  }

  /** The position in `Symbols` of the symbol of `code`. */
  function GroupOf(code: int): (k: nat)
    ensures k < |Symbols| && Symbol(code) == Symbols[k] && InGroup(code, k)
  {
    if code == 0 then 0
    else if Cloudy(code) then 1
    else if Foggy(code) then 2
    else if Rainy(code) then 3
    else if Snowy(code) then 4
    else if Stormy(code) then 5
    else 6
  }

  /** No code is in two groups. */
  lemma GroupsDisjoint(code: int, j: int, k: int)
    requires 0 <= j < |Symbols| && 0 <= k < |Symbols|
    requires InGroup(code, j) && InGroup(code, k)
    ensures j == k
  {
  }

  // ---------------------------------------------------------------------------
  // Wind direction

  /** The arrows of the eight compass points, clockwise from north. */
  const Arrows: seq<string> := [
    "\U{2191}N", "\U{2197}NE", "\U{2192}E", "\U{2198}SE",
    "\U{2193}S", "\U{2199}SW", "\U{2190}W", "\U{2196}NW"]

  /** The table index `WindDirectionArrow` computes, with Go's truncating `%` and `/`. */
  function ArrowIndex(deg: int): int
  {
    GoInt.Quot(GoInt.Rem(deg + 22, 360), 45)
  }

  /** `WindDirectionArrow`: the arrow of the 45-degree sector holding `deg`. An index outside
      the table is Go's out-of-range panic, which happens only for directions below -66. */
  function WindDirectionArrow(deg: int): Option<string>
  {
    var idx := ArrowIndex(deg);
    if 0 <= idx < |Arrows| then Some(Arrows[idx]) else None
  }

  /** For a direction of at least -66 degrees the index is in the table: the lookup never
      fails for the directions the forecast reports. */
  lemma ArrowIndexInRange(deg: int)
    requires deg >= -66
    ensures 0 <= ArrowIndex(deg) < 8
    ensures WindDirectionArrow(deg).Some?
  {
    var r := GoInt.Rem(deg + 22, 360);
    if deg + 22 >= 0 {
      assert 0 <= r < 360;
      SmallQuot(r);
    } else {
      assert GoInt.Mod(-(deg + 22), 360) == -(deg + 22);
      assert GoInt.Div(-(deg + 22), 45) == 0;
    }
  }

  /** `Div(r, 45)` of a remainder is at most 7. */
  lemma SmallQuot(r: int)
    requires 0 <= r < 360
    ensures 0 <= GoInt.Quot(r, 45) < 8
  {
    var q := GoInt.Quot(r, 45);
    GoInt.DivMod(r, 45);
    assert q * 45 <= r;
  }

  /** Turning a full circle changes nothing: `deg` and `deg + 360` get the same arrow. */
  lemma ArrowPeriodic(deg: int)
    requires deg >= 0
    ensures WindDirectionArrow(deg + 360) == WindDirectionArrow(deg)
  {
    assert GoInt.Mod(deg + 22 + 360, 360) == GoInt.Mod(deg + 22, 360);
  }

  /** Each compass point owns the directions within 22 degrees of it, north also those from 338
      degrees up: the 45-degree sector centred on that point. */
  lemma ArrowSector(deg: int, k: int)
    requires 0 <= k < 8 && 0 <= deg < 360
    requires 45 * k - 22 <= deg <= 45 * k + 22 || (k == 0 && 338 <= deg)
    ensures WindDirectionArrow(deg) == Some(Arrows[k])
  {
    var x := deg + 22;
    if x < 360 {
      assert GoInt.Mod(x, 360) == x;
      GoInt.DivOf(x, 45, k);
    } else {
      assert GoInt.Mod(x, 360) == x - 360;
      GoInt.DivOf(x - 360, 45, 0);
    }
  }

  /** The compass bearings 0, 45, ..., 315 give N, NE, ..., NW in turn, 22 degrees is still
      north and 23 already north-east, and 338 to 359 wrap round to north. */
  lemma ArrowExamples()
    ensures forall k | 0 <= k < 8 :: WindDirectionArrow(45 * k) == Some(Arrows[k])
    ensures WindDirectionArrow(22) == Some("\U{2191}N")
    ensures WindDirectionArrow(23) == Some("\U{2197}NE")
    ensures forall d | 338 <= d < 360 :: WindDirectionArrow(d) == Some("\U{2191}N")
  {
    forall k | 0 <= k < 8
      ensures WindDirectionArrow(45 * k) == Some(Arrows[k])
    {
      ArrowSector(45 * k, k);
    }
    ArrowSector(22, 0);
    ArrowSector(23, 1);
    forall d | 338 <= d < 360
      ensures WindDirectionArrow(d) == Some("\U{2191}N")
    {
      ArrowSector(d, 0);
    }
  }

  /** The lookup fails exactly when Go's remainder is at most -45, that is for directions
      from -381 to -67 modulo a full turn (towards zero): the index is then negative. */
  lemma ArrowPanics(deg: int)
    ensures WindDirectionArrow(deg).None? <==> GoInt.Rem(deg + 22, 360) <= -45
  {
    var r := GoInt.Rem(deg + 22, 360);
    if r >= 0 {
      SmallQuot(r);
    } else {
      var m := -r;
      assert 0 < m < 360;
      SmallQuot(m);
      if m < 45 {
        GoInt.DivOf(m, 45, 0);
      } else {
        GoInt.DivMod(m, 45);
        assert GoInt.Div(m, 45) >= 1;
      }
    }
  }
}
