/** Clock helpers: the "YYYY-mm-dd HH:MM" timestamp and the wait until
    two minutes past the next hour. The clock reading is a parameter. */
module Timing {
  import opened Common

  /** A `datetime.datetime` reading. */
  datatype DateTime = DateTime(year: nat, month: nat, day: nat, hour: nat, minute: nat, second: nat, microsecond: nat)

  predicate ValidDateTime(t: DateTime)
  {
    1 <= t.year <= 9999 && 1 <= t.month <= 12 && 1 <= t.day <= 31 &&
    t.hour < 24 && t.minute < 60 && t.second < 60 && t.microsecond < 1000000
  }

  /** `now.strftime("%Y-%m-%d %H:%M")`; `%Y` prints the year without padding. */
  function GetTimestamp(now: DateTime): (r: string)
    requires ValidDateTime(now)
    ensures |r| == |Decimal(now.year)| + 12
  {
    Decimal(now.year) + "-" + Pad2(now.month) + "-" + Pad2(now.day) + " " + Pad2(now.hour) + ":" + Pad2(now.minute)
  }

  /** The timestamp lays out the year, then month, day, hour and minute as
      two-digit fields, separated by '-', '-', ' ' and ':'; each field reads
      back as the clock component it was made from. */
  lemma TimestampLayout(now: DateTime)
    requires ValidDateTime(now)
    ensures var r, y := GetTimestamp(now), |Decimal(now.year)|;
            && r[y] == '-' && r[y + 3] == '-' && r[y + 6] == ' ' && r[y + 9] == ':'
            && AllDigits(r[..y]) && DigitsValue(r[..y]) == now.year
            && AllDigits(r[y + 1..y + 3]) && DigitsValue(r[y + 1..y + 3]) == now.month
            && AllDigits(r[y + 4..y + 6]) && DigitsValue(r[y + 4..y + 6]) == now.day
            && AllDigits(r[y + 7..y + 9]) && DigitsValue(r[y + 7..y + 9]) == now.hour
            && AllDigits(r[y + 10..y + 12]) && DigitsValue(r[y + 10..y + 12]) == now.minute
  {
    var r, y := GetTimestamp(now), |Decimal(now.year)|;
    assert r[..y] == Decimal(now.year);
    assert r[y + 1..y + 3] == Pad2(now.month);
    assert r[y + 4..y + 6] == Pad2(now.day);
    assert r[y + 7..y + 9] == Pad2(now.hour);
    assert r[y + 10..y + 12] == Pad2(now.minute);
    DigitsValueDecimal(now.year);
    Pad2RoundTrip(now.month);
    Pad2RoundTrip(now.day);
    Pad2RoundTrip(now.hour);
    Pad2RoundTrip(now.minute);
  }

  /** Microseconds since the reading's midnight. */
  function MicrosOfDay(t: DateTime): int
  {
    ((t.hour * 60 + t.minute) * 60 + t.second) * 1000000 + t.microsecond
  }

  /** `timedelta(microseconds=d).seconds`: whole seconds, floored, reduced modulo one day. */
  function TimedeltaSeconds(d: int): (s: int)
    ensures 0 <= s < 86400
  {
    (d / 1000000) % 86400
  }

  /** `get_seconds_to_start_of_next_hour(added_margin)` at the reading `now`:
      `(now + 1h).replace(microsecond=0, second=0, minute=2) - now`, in
      seconds, plus the margin. The next hour's minute 2 is measured from the
      same midnight, so hour 24 stands for 00:02 of the following day. */
  function SecondsToStartOfNextHour(now: DateTime, addedMargin: int): int
    requires ValidDateTime(now)
  {
    var nextHour := ((now.hour + 1) * 60 + 2) * 60 * 1000000;
    TimedeltaSeconds(nextHour - MicrosOfDay(now)) + addedMargin
  }

  /** The closed form: 3720 − 60·minute − second, one less when the reading
      has microseconds, plus the margin; hence the wait lies in [120, 3720]. */
  lemma SecondsClosedForm(now: DateTime, addedMargin: int)
    requires ValidDateTime(now)
    ensures SecondsToStartOfNextHour(now, addedMargin) ==
            3720 - 60 * now.minute - now.second - (if now.microsecond > 0 then 1 else 0) + addedMargin
    ensures 120 <= SecondsToStartOfNextHour(now, addedMargin) - addedMargin <= 3720
  {
    var w := 3720 - 60 * now.minute - now.second;
    var d := ((now.hour + 1) * 60 + 2) * 60 * 1000000 - MicrosOfDay(now);
    assert d == w * 1000000 - now.microsecond;
    if now.microsecond > 0 {
      assert (w - 1) * 1000000 <= d < w * 1000000;
      assert d / 1000000 == w - 1;
    } else {
      assert d / 1000000 == w;
    }
  }

  /** The wait ends at minute 2, second 0 of the following hour: the whole
      seconds elapsed from the reading (rounded up) reach exactly that instant. */
  lemma TargetIsMinuteTwo(now: DateTime, addedMargin: int)
    requires ValidDateTime(now)
    ensures (now.hour * 60 + now.minute) * 60 + now.second + (if now.microsecond > 0 then 1 else 0)
            + (SecondsToStartOfNextHour(now, addedMargin) - addedMargin)
            == (now.hour + 1) * 3600 + 2 * 60
  {
    SecondsClosedForm(now, addedMargin);
  }

  /** Within one hour, a later reading never waits longer. */
  lemma SecondsNonIncreasing(t1: DateTime, t2: DateTime, addedMargin: int)
    requires ValidDateTime(t1) && ValidDateTime(t2)
    requires t1.hour == t2.hour && MicrosOfDay(t1) <= MicrosOfDay(t2)
    ensures SecondsToStartOfNextHour(t2, addedMargin) <= SecondsToStartOfNextHour(t1, addedMargin)
  {
    SecondsClosedForm(t1, addedMargin);
    SecondsClosedForm(t2, addedMargin);
  }
}
