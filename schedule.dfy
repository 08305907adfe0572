/** The countdown of the NASCAR weekend schedule view (internal/ui/schedule.go): the time left
    until an event, in days and hours, hours and minutes, or minutes. */
module Schedule {
  import opened Strings

  /** The parts `formatCountdown` shows of a difference of `diff` seconds: whole days, the
      whole hours past them, and the whole minutes past those. */
  datatype Countdown = Countdown(days: nat, hours: nat, mins: nat)

  function Parts(diff: nat): (c: Countdown)
    ensures c.hours < 24 && c.mins < 60
    ensures c.days * 86400 + c.hours * 3600 + c.mins * 60 <= diff
    ensures diff < c.days * 86400 + c.hours * 3600 + c.mins * 60 + 60
  {
    PartsBounds(diff);
    var h := diff / 3600;
    Countdown(h / 24, h % 24, (diff / 60) % 60)
  }

  /** The arithmetic behind `Parts`: the whole minutes, less the whole hours' worth of them,
      are the minutes past the whole hours. */
  lemma PartsBounds(diff: nat)
    ensures var h := diff / 3600;
      (h / 24) * 86400 + (h % 24) * 3600 + ((diff / 60) % 60) * 60 <= diff
      < (h / 24) * 86400 + (h % 24) * 3600 + ((diff / 60) % 60) * 60 + 60
  {
    var h := diff / 3600;
    var m := diff / 60;
    var k := m / 60;
    assert 3600 * h <= diff < 3600 * h + 3600;
    assert 60 * m <= diff < 60 * m + 60;
    assert 60 * k + m % 60 == m;
    assert k == h;
    assert 24 * (h / 24) + h % 24 == h;
  }

  /** `formatCountdown(target, now)`, times in seconds: nothing for an event already past,
      "Dd Hh" from one day on, "Hh Mm" from one hour on, else "Mm". */
  function FormatCountdown(target: int, now: int): string
  {
    var diff := target - now;
    if diff < 0 then ""
    else
      var c := Parts(diff);
      if c.days > 0 then Itoa(c.days) + "d " + Itoa(c.hours) + "h"
      else if c.hours > 0 then Itoa(c.hours) + "h " + Itoa(c.mins) + "m"
      else Itoa(c.mins) + "m"
  }

  /** The parts are exactly the whole days, hours and minutes of the difference: the shown
      figures are the greatest that fit, so the countdown is short of the truth by under a
      minute. */
  lemma PartsUnique(diff: nat, c: Countdown)
    requires c.hours < 24 && c.mins < 60
    requires c.days * 86400 + c.hours * 3600 + c.mins * 60 <= diff
    requires diff < c.days * 86400 + c.hours * 3600 + c.mins * 60 + 60
    ensures c == Parts(diff)
  {
    var p := Parts(diff);
    var a := c.days * 1440 + c.hours * 60 + c.mins;
    var b := p.days * 1440 + p.hours * 60 + p.mins;
    assert a == b by {
      assert a * 60 <= diff < a * 60 + 60;
      assert b * 60 <= diff < b * 60 + 60;
    }
    assert c.days * 24 + c.hours == p.days * 24 + p.hours by {
      assert c.mins == a - (c.days * 24 + c.hours) * 60;
    }
  }

  /** Which form the countdown takes, by the time left. */
  lemma FormatCountdownCases(target: int, now: int)
    ensures target < now ==> FormatCountdown(target, now) == ""
    ensures target - now >= 86400 ==>
      var c := Parts(target - now);
      FormatCountdown(target, now) == Itoa(c.days) + "d " + Itoa(c.hours) + "h"
    ensures 3600 <= target - now < 86400 ==>
      var c := Parts(target - now);
      c.days == 0 && FormatCountdown(target, now) == Itoa(c.hours) + "h " + Itoa(c.mins) + "m"
    ensures 0 <= target - now < 3600 ==>
      var c := Parts(target - now);
      c.days == 0 && c.hours == 0 && FormatCountdown(target, now) == Itoa(c.mins) + "m"
  {
    if target - now >= 0 {
      var d := target - now;
      var c := Parts(d);
      if d >= 86400 {
        assert c.days > 0;
      } else if d >= 3600 {
        assert c.days == 0 && c.hours > 0;
      } else {
        assert c.days == 0 && c.hours == 0;
      }
    }
  }

  /** An event starting now shows "0m"; a future one never shows the empty text. */
  lemma FormatCountdownNow(target: int, now: int)
    ensures FormatCountdown(now, now) == "0m"
    ensures target >= now ==> FormatCountdown(target, now) != ""
  {
    assert Parts(0) == Countdown(0, 0, 0);
  }

  /** An example from each form: 1 day 2 hours 3 minutes shows "1d 2h", 2 hours 5 minutes
      shows "2h 5m", and 59 minutes 59 seconds shows "59m". */
  lemma FormatCountdownExamples()
    ensures FormatCountdown(93780, 0) == "1d 2h"
    ensures FormatCountdown(7500, 0) == "2h 5m"
    ensures FormatCountdown(3599, 0) == "59m"
    ensures FormatCountdown(-1, 0) == ""
  {
    assert Parts(93780) == Countdown(1, 2, 3);
    assert Parts(7500) == Countdown(0, 2, 5);
    assert Parts(3599) == Countdown(0, 0, 59);
    assert Itoa(1) == "1" && Itoa(2) == "2" && Itoa(5) == "5";
    assert Itoa(59) == Itoa(5) + "9";
  }
}
