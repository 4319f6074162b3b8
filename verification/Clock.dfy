/**
 The detector's clock. An instant is a number of microseconds, the resolution
 of Python's `datetime`. A notification time is stored as text with minute
 precision in a fixed UTC-6 wall clock and parsed back later; the calendar date
 is kept as a day number, the 12-hour clock text is spelled out.
 */
module Clock {
  import opened Common

  type Instant = int

  const MINUTE := 60_000_000
  const HOUR := 60 * MINUTE
  const MINUTES_PER_DAY := 1440

  /** The writer's offset: CST, six hours west of UTC. */
  const WRITER_WEST := 6 * HOUR

  /** `%b %d, %Y` as a day number, and the text of `%I:%M %p CST`. */
  datatype Stamp = Stamp(day: int, clock: string)

  predicate IsDigit(c: char) {
    '0' <= c <= '9'
  }

  function DigitValue(c: char): nat
    requires IsDigit(c)
  {
    c as int - '0' as int
  }

  function DigitChar(d: nat): char
    requires d < 10
  {
    ('0' as int + d) as char
  }

  function TwoDigits(n: nat): string
    requires n < 100
  {
    [DigitChar(n / 10), DigitChar(n % 10)]
  }

  function TwelveHour(hour: nat): nat {
    if hour % 12 == 0 then 12 else hour % 12
  }

  /** The `strftime` half: `timestamp` is aware UTC, whose `dst()` is empty, so
      the CDT branch is never taken. */
  function Format(t: Instant): Stamp {
    var minutes := (t - WRITER_WEST) / MINUTE;
    var inDay := minutes % MINUTES_PER_DAY;
    Stamp(minutes / MINUTES_PER_DAY,
          TwoDigits(TwelveHour(inDay / 60)) + ":" + TwoDigits(inDay % 60)
          + (if inDay / 60 < 12 then " AM" else " PM") + " CST")
  }

  predicate IsCapital(c: char) {
    'A' <= c <= 'Z'
  }

  /** The three capitals that end the text, or nothing. */
  function ZoneAbbreviation(clock: string): string {
    if |clock| >= 3 && IsCapital(clock[|clock| - 3]) && IsCapital(clock[|clock| - 2]) && IsCapital(clock[|clock| - 1])
    then clock[|clock| - 3..]
    else ""
  }

  /** The `strptime` half for the format `%I:%M %p <zone>`: minutes into the day. */
  function ParseClock(clock: string): Option<nat> {
    var zone := ZoneAbbreviation(clock);
    if |clock| != 9 + |zone| || clock[9..] != zone || clock[2] != ':' || clock[5] != ' ' || clock[8] != ' ' then None
    else if !IsDigit(clock[0]) || !IsDigit(clock[1]) || !IsDigit(clock[3]) || !IsDigit(clock[4]) then None
    else
      var hour := 10 * DigitValue(clock[0]) + DigitValue(clock[1]);
      var minute := 10 * DigitValue(clock[3]) + DigitValue(clock[4]);
      if !(1 <= hour <= 12) || minute >= 60 || clock[6..8] !in ["AM", "PM"] then None
      else Some((hour % 12 + if clock[6..8] == "PM" then 12 else 0) * 60 + minute)
  }

  /** The stored text read back as an instant by a reader whose zone lies `west`
      microseconds west of UTC. */
  function Parse(s: Stamp, west: int): Option<Instant> {
    match ParseClock(s.clock)
    case None => None
    case Some(inDay) => Some((s.day * MINUTES_PER_DAY + inDay) * MINUTE + west)
  }

  function FloorMinute(t: Instant): Instant {
    t / MINUTE * MINUTE
  }

  /** Python's `int(difference.total_seconds() / 3600)`: truncation toward zero. */
  function WholeHours(difference: int): int {
    if difference >= 0 then difference / HOUR else -(-difference / HOUR)
  }

  /** The code's `hour_diff`: 0 for a record never notified, and no value when
      the stored text does not parse (the code raises there). */
  function HourDiff(now: Instant, notified: Option<Stamp>, west: int): Option<int> {
    match notified
    case None => Some(0)
    case Some(s) =>
      match Parse(s, west)
      case None => None
      case Some(t) => Some(WholeHours(now - t))
  }

  lemma TwoDigitsRead(n: nat)
    requires n < 100
    ensures |TwoDigits(n)| == 2 && IsDigit(TwoDigits(n)[0]) && IsDigit(TwoDigits(n)[1])
    ensures 10 * DigitValue(TwoDigits(n)[0]) + DigitValue(TwoDigits(n)[1]) == n
  {
  }

  lemma ClockTextRead(inDay: nat)
    requires inDay < MINUTES_PER_DAY
    ensures ParseClock(TwoDigits(TwelveHour(inDay / 60)) + ":" + TwoDigits(inDay % 60)
                       + (if inDay / 60 < 12 then " AM" else " PM") + " CST") == Some(inDay)
  {
    hide ParseClock, TwoDigits;
    var hour, half := TwelveHour(inDay / 60), if inDay / 60 < 12 then " AM" else " PM";
    TwoDigitsRead(hour);
    TwoDigitsRead(inDay % 60);
    LaidOutRead(TwoDigits(hour), TwoDigits(inDay % 60), half, hour, inDay % 60);
    assert hour % 12 == inDay / 60 % 12;
  }

  lemma LaidOutRead(a: string, b: string, half: string, hour: nat, minute: nat)
    requires |a| == |b| == 2 && IsDigit(a[0]) && IsDigit(a[1]) && IsDigit(b[0]) && IsDigit(b[1])
    requires 10 * DigitValue(a[0]) + DigitValue(a[1]) == hour && 10 * DigitValue(b[0]) + DigitValue(b[1]) == minute
    requires 1 <= hour <= 12 && minute < 60 && (half == " AM" || half == " PM")
    ensures ParseClock(a + ":" + b + half + " CST") ==
            Some((hour % 12 + if half == " PM" then 12 else 0) * 60 + minute)
  {
    hide ZoneAbbreviation;
    ClockLayout(a, b, half);
  }

  lemma ClockLayout(a: string, b: string, half: string)
    requires |a| == |b| == 2 && (half == " AM" || half == " PM")
    ensures var text := a + ":" + b + half + " CST";
            && |text| == 12 && text[0] == a[0] && text[1] == a[1] && text[2] == ':'
            && text[3] == b[0] && text[4] == b[1] && text[5] == ' ' && text[8] == ' '
            && text[6..8] == half[1..] && text[9..] == "CST" && ZoneAbbreviation(text) == "CST"
  {
    var text := a + ":" + b + half + " CST";
    assert text[9..] == "CST";
    assert text[6..8] == half[1..];
  }

  lemma LocalMinutes(t: Instant)
    ensures (t - WRITER_WEST) / MINUTE == t / MINUTE - 360
    ensures ((t - WRITER_WEST) / MINUTE) * MINUTE == FloorMinute(t) - WRITER_WEST
  {
  }

  /** Writing then reading a time loses exactly the seconds, and shifts it by the
      difference of the two zones. */
  lemma StampRoundTrip(t: Instant, west: int)
    ensures Parse(Format(t), west) == Some(FloorMinute(t) + (west - WRITER_WEST))
  {
    var minutes := (t - WRITER_WEST) / MINUTE;
    LocalMinutes(t);
    ClockTextRead(minutes % MINUTES_PER_DAY);
  }

  /** The text is the wall clock six hours west of UTC: `hour:minute` there is written on a
      twelve-hour clock, with the half of the day and the zone. */
  lemma WrittenClock(day: int, hour: nat, minute: nat, rest: nat)
    requires hour < 24 && minute < 60 && rest < MINUTE
    ensures var s := Format(((day * 24 + hour + 6) * 60 + minute) * 60_000_000 + rest);
            && s.day == day && |s.clock| == 12 && s.clock[2] == ':' && s.clock[8..] == " CST"
            && s.clock[5..8] == (if hour < 12 then " AM" else " PM")
            && 10 * (s.clock[0] as int - '0' as int) + (s.clock[1] as int - '0' as int) ==
                 (if hour % 12 == 0 then 12 else hour % 12)
            && 10 * (s.clock[3] as int - '0' as int) + (s.clock[4] as int - '0' as int) == minute
  {
    var t := ((day * 24 + hour + 6) * 60 + minute) * 60_000_000 + rest;
    WallMinutes(day, hour, minute, rest);
    TwoDigitsRead(TwelveHour(hour));
    TwoDigitsRead(minute);
    var half := if hour < 12 then " AM" else " PM";
    ClockLayout(TwoDigits(TwelveHour(hour)), TwoDigits(minute), half);
    assert Format(t) == Stamp(day, TwoDigits(TwelveHour(hour)) + ":" + TwoDigits(minute) + half + " CST");
  }

  lemma WallMinutes(day: int, hour: nat, minute: nat, rest: nat)
    requires hour < 24 && minute < 60 && rest < MINUTE
    ensures var minutes := (((day * 24 + hour + 6) * 60 + minute) * 60_000_000 + rest - WRITER_WEST) / MINUTE;
            && minutes / MINUTES_PER_DAY == day && minutes % MINUTES_PER_DAY == hour * 60 + minute
            && minutes % MINUTES_PER_DAY / 60 == hour && minutes % MINUTES_PER_DAY % 60 == minute
  {
    var minutes := (((day * 24 + hour + 6) * 60 + minute) * 60_000_000 + rest - WRITER_WEST) / MINUTE;
    assert minutes == day * 1440 + (hour * 60 + minute);
  }

  lemma WholeHoursAtLeast(difference: int, k: nat)
    requires k > 0
    ensures WholeHours(difference) >= k <==> difference >= k * HOUR
  {
  }

  /** What a threshold test on `hour_diff` means for the notified instant itself. */
  lemma ThresholdMeaning(now: Instant, t: Instant, west: int, k: nat)
    requires k > 0
    ensures HourDiff(now, Some(Format(t)), west).Some?
    ensures HourDiff(now, Some(Format(t)), west).value >= k
            <==> now - FloorMinute(t) >= k * HOUR + (west - WRITER_WEST)
  {
    StampRoundTrip(t, west);
    WholeHoursAtLeast(now - FloorMinute(t) - (west - WRITER_WEST), k);
  }
}
