/** Conversion of an NBA play-by-play clock reading (`"PT11M32.00S"`, the time
    left in the period) and a period number into seconds since tip-off. */
module GameClock {
  import opened GoLib

  /** A value-and-error pair as the Go function returns it; `err` carries the text
      that failed to parse (the `Num` of Go's `strconv.NumError`). */
  datatype ClockTime = ClockTime(seconds: int, err: Option<string>)

  /** Every period is taken to last twelve minutes, overtime included. */
  const PeriodSeconds: int := 12 * 60

  /** The minutes field `clock[2:4]` and the seconds field `clock[5:7]`. */
  function MinutesField(clock: string): string
    requires |clock| >= 7
  {
    clock[2..4]
  }

  function SecondsField(clock: string): string
    requires |clock| >= 7
  {
    clock[5..7]
  }

  /** `GetGameClockTime`. The result of parsing the minutes is overwritten by
      the parse of the seconds, so only a bad seconds field is reported; a bad
      minutes field is read as 0 minutes. Slicing needs seven characters (Go
      panics on shorter strings). */
  function GetGameClockTime(clock: string, period: int): (r: ClockTime)
    requires |clock| >= 7
    ensures r.err.Some? <==> !Numeral(SecondsField(clock))
    ensures r.err.Some? ==> r.seconds == 0 && r.err.value == SecondsField(clock)
    ensures r.err.None? ==>
      r.seconds == PeriodSeconds * period - 60 * Atoi(MinutesField(clock)).GetOr(0) - Atoi(SecondsField(clock)).value
  {
    var minutes := Atoi(clock[2..4]).GetOr(0);
    var seconds := Atoi(clock[5..7]);
    if seconds.None? then
      ClockTime(0, Some(clock[5..7]))
    else
      ClockTime(((12 * (period - 1)) * 60) + ((12 - minutes) * 60) + (60 - seconds.value) - 60, None)
  }

  /** A well-formed clock reading with `mm` minutes and `ss` seconds left, and any
      suffix (`".00S"`, tenths of a second, ...). */
  function ClockString(mm: nat, ss: nat, suffix: string): (s: string)
    requires mm < 100 && ss < 100
    ensures |s| >= 7
  {
    "PT" + Pad2(mm) + "M" + Pad2(ss) + suffix
  }

  /** On a well-formed reading the result is the closed form
      `720 * period - 60 * mm - ss`, with no error. */
  lemma {:induction false} WellFormedClock(mm: nat, ss: nat, suffix: string, period: int)
    requires mm < 100 && ss < 100
    ensures GetGameClockTime(ClockString(mm, ss, suffix), period)
         == ClockTime(720 * period - 60 * mm - ss, None)
  {
    var s := ClockString(mm, ss, suffix);
    assert MinutesField(s) == Pad2(mm);
    assert SecondsField(s) == Pad2(ss);
    AtoiPad2(mm);
    AtoiPad2(ss);
  }

  /** Worked examples: the tip-off reading maps to 0 and thirty seconds later to 30. */
  lemma FirstPeriodExamples()
    ensures GetGameClockTime("PT12M00.00S", 1) == ClockTime(0, None)
    ensures GetGameClockTime("PT11M30.00S", 1) == ClockTime(30, None)
  {
    WellFormedClock(12, 0, ".00S", 1);
    assert ClockString(12, 0, ".00S") == "PT12M00.00S";
    WellFormedClock(11, 30, ".00S", 1);
    assert ClockString(11, 30, ".00S") == "PT11M30.00S";
  }

  /** Overtime is read as a twelve-minute period too: the end of regulation maps to
      2880, but the five-minute overtime's first reading maps to 3300, so the
      replay runs 420 simulated seconds with no event in between. */
  lemma OvertimeGap()
    ensures GetGameClockTime("PT00M00.00S", 4) == ClockTime(2880, None)
    ensures GetGameClockTime("PT05M00.00S", 5) == ClockTime(3300, None)
  {
    WellFormedClock(0, 0, ".00S", 4);
    assert ClockString(0, 0, ".00S") == "PT00M00.00S";
    WellFormedClock(5, 0, ".00S", 5);
    assert ClockString(5, 0, ".00S") == "PT05M00.00S";
  }

  /** Within one period, a reading with less time left maps to a later offset,
      and all readings of a regulation period fall inside its 720-second slot. */
  lemma {:induction false} ClockOrder(mm1: nat, ss1: nat, mm2: nat, ss2: nat, suffix: string, period: int)
    requires mm1 < 100 && ss1 < 60 && mm2 < 100 && ss2 < 60
    requires mm1 * 60 + ss1 <= 720 && mm2 * 60 + ss2 <= 720
    requires mm2 * 60 + ss2 <= mm1 * 60 + ss1
    ensures var t1 := GetGameClockTime(ClockString(mm1, ss1, suffix), period).seconds;
            var t2 := GetGameClockTime(ClockString(mm2, ss2, suffix), period).seconds;
            PeriodSeconds * (period - 1) <= t1 <= t2 <= PeriodSeconds * period
  {
    WellFormedClock(mm1, ss1, suffix, period);
    WellFormedClock(mm2, ss2, suffix, period);
  }

  /** A minutes field that does not parse is not reported: the reading counts as
      zero minutes left. A seconds field that does not parse yields `(0, err)`. */
  lemma MalformedFields()
    ensures GetGameClockTime("PTxxM30.00S", 1) == ClockTime(690, None)
    ensures GetGameClockTime("PT11Mxx.00S", 1) == ClockTime(0, Some("xx"))
  {
    assert MinutesField("PTxxM30.00S") == "xx";
    assert SecondsField("PTxxM30.00S") == Pad2(30);
    AtoiPad2(30);
    assert SecondsField("PT11Mxx.00S") == "xx";
  }
}
