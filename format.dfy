/**
 * The schedule attributes the thermostat entity shows (climate.py,
 * EphEmberThermostat: _time_units_to_hhmm, _format_period,
 * _format_day_schedule, extra_state_attributes). Schedule times use the
 * "hours, then one digit of tens of minutes" integer, so 173 is 17:30.
 */
module Format {
  import opened Wrappers
  import opened ZoneData
  import opened ZoneView
  import opened Dicts

  predicate IsDigits(s: string)
  {
    forall i :: 0 <= i < |s| ==> '0' <= s[i] <= '9'
  }

  function DigitChar(d: nat): (c: char)
    requires d < 10
    ensures '0' <= c <= '9' && c as int - '0' as int == d
  {
    ('0' as int + d) as char
  }

  function DigitValue(c: char): nat
    requires '0' <= c <= '9'
  {
    c as int - '0' as int
  }

  /** int(s) of a string of decimal digits. */
  function ParseDecimal(s: string): nat
    requires IsDigits(s)
    decreases |s|
  {
    if |s| == 0 then 0 else 10 * ParseDecimal(s[..|s| - 1]) + DigitValue(s[|s| - 1])
  }

  /** str(n). */
  function Decimal(n: nat): (s: string)
    ensures |s| >= 1 && IsDigits(s)
    ensures |s| == 1 <==> n < 10
    decreases n
  {
    if n < 10 then [DigitChar(n)] else Decimal(n / 10) + [DigitChar(n % 10)]
  }

  /** str(n) is str(n // 10), unless n is a single digit, followed by the last digit. */
  lemma DecimalSplit(n: nat)
    ensures var s := Decimal(n);
      s[|s| - 1] == DigitChar(n % 10) && (n >= 10 ==> s[..|s| - 1] == Decimal(n / 10))
  {
    if n >= 10 {
      var s := Decimal(n);
      assert s == Decimal(n / 10) + [DigitChar(n % 10)];
    }
  }

  /** int(str(n)) == n. */
  lemma {:induction false} DecimalReadsBack(n: nat)
    ensures ParseDecimal(Decimal(n)) == n
    decreases n
  {
    DecimalSplit(n);
    var s := Decimal(n);
    if n >= 10 {
      DecimalReadsBack(n / 10);
    } else {
      assert s[..0] == [];
    }
  }

  /** f"{n:02d}". */
  function Pad2(n: nat): (s: string)
    ensures |s| >= 2 && IsDigits(s)
    ensures n < 100 ==> |s| == 2
  {
    if n < 10 then "0" + Decimal(n) else Decimal(n)
  }

  /** int(f"{n:02d}") == n. */
  lemma Pad2ReadsBack(n: nat)
    ensures ParseDecimal(Pad2(n)) == n
  {
    DecimalReadsBack(n);
    if n < 10 {
      var s := Pad2(n);
      assert s[..1] == "0" && s[1..] == Decimal(n);
      assert s[..|s| - 1] == "0";
      assert ParseDecimal("0") == 0 by { assert "0"[..0] == []; }
    }
  }

  /**
   * _time_units_to_hhmm: all but the last digit are the hours, the last
   * digit the tens of minutes; None or a negative value is "00:00".
   */
  function TimeUnitsToHhmm(units: Option<int>): (s: string)
    ensures units.None? || units.value < 0 ==> s == "00:00"
    ensures units.Some? && units.value >= 0 ==> s == Pad2(units.value / 10) + ":" + Pad2(10 * (units.value % 10))
  {
    if units.None? || units.value < 0 then "00:00"
    else
      var t := Decimal(units.value);
      LastDigitSplit(units.value);
      if |t| > 1 then HhmmOf(ParseDecimal(t[..|t| - 1]), t)
      else HhmmOf(0, t)
  }

  /** The digits but the last read as n // 10, and the last digit is n % 10. */
  lemma LastDigitSplit(n: nat)
    ensures var t := Decimal(n);
      (|t| > 1 ==> IsDigits(t[..|t| - 1]) && ParseDecimal(t[..|t| - 1]) == n / 10)
      && (|t| == 1 ==> n / 10 == 0) && DigitValue(t[|t| - 1]) == n % 10
  {
    DecimalSplit(n);
    if n >= 10 {
      DecimalReadsBack(n / 10);
    }
  }

  /** The f-string of the hours and the last digit's minutes. */
  function HhmmOf(hours: nat, t: string): string
    requires |t| >= 1 && IsDigits(t)
  {
    Pad2(hours) + ":" + Pad2(10 * DigitValue(t[|t| - 1]))
  }

  /** f"{h:02d}" of a number below 100: its two digits. */
  lemma Pad2Digits(h: nat)
    requires h < 100
    ensures Pad2(h) == [DigitChar(h / 10), DigitChar(h % 10)]
  {
    if h >= 10 {
      assert Decimal(h) == Decimal(h / 10) + [DigitChar(h % 10)];
      assert Decimal(h / 10) == [DigitChar(h / 10)];
    } else {
      assert Decimal(h) == [DigitChar(h)];
    }
  }

  /** f"{10 * d:02d}" of a digit d: the digit, then 0. */
  lemma Pad2Tens(d: nat)
    requires d < 10
    ensures Pad2(10 * d) == [DigitChar(d), '0']
  {
    assert (10 * d) / 10 == d && (10 * d) % 10 == 0;
    Pad2Digits(10 * d);
  }

  /** The string of a time below 100:00, digit by digit. */
  lemma HhmmDigits(n: nat)
    requires n < 1000
    ensures TimeUnitsToHhmm(Some(n)) == [DigitChar(n / 10 / 10), DigitChar(n / 10 % 10), ':', DigitChar(n % 10), '0']
  {
    Pad2Digits(n / 10);
    Pad2Tens(n % 10);
  }

  /** The three examples of the docstring: 173, 90 and 100. */
  lemma HhmmOf173()
    ensures TimeUnitsToHhmm(Some(173)) == "17:30"
  {
    var n := 173;
    HhmmDigits(n);
    assert n / 10 / 10 == 1 && n / 10 % 10 == 7 && n % 10 == 3;
  }

  lemma HhmmOf90()
    ensures TimeUnitsToHhmm(Some(90)) == "09:00"
  {
    var n := 90;
    HhmmDigits(n);
    assert n / 10 / 10 == 0 && n / 10 % 10 == 9 && n % 10 == 0;
  }

  lemma HhmmOf100()
    ensures TimeUnitsToHhmm(Some(100)) == "10:00"
  {
    var n := 100;
    HhmmDigits(n);
    assert n / 10 / 10 == 1 && n / 10 % 10 == 0 && n % 10 == 0;
  }

  /** A single digit d is "00:d0". */
  lemma HhmmSingleDigit(d: nat)
    requires d < 10
    ensures TimeUnitsToHhmm(Some(d)) == "00:" + [DigitChar(d), '0']
  {
    HhmmDigits(d);
    assert d / 10 / 10 == 0 && d / 10 % 10 == 0 && d % 10 == d;
  }

  /**
   * The string reads back as its integer: the colon sits three characters
   * from the end, the hours before it and the minutes after it.
   */
  lemma HhmmRoundTrip(n: nat)
    ensures var s := TimeUnitsToHhmm(Some(n));
      |s| >= 5 && s[|s| - 3] == ':' && IsDigits(s[..|s| - 3]) && IsDigits(s[|s| - 2..])
      && ParseDecimal(s[..|s| - 3]) * 10 + ParseDecimal(s[|s| - 2..]) / 10 == n
  {
    PaddedReadsBack(n);
  }

  /** The same, for the two padded numbers joined by a colon. */
  lemma PaddedReadsBack(n: nat)
    ensures var s := Pad2(n / 10) + ":" + Pad2(10 * (n % 10));
      |s| >= 5 && s[|s| - 3] == ':' && IsDigits(s[..|s| - 3]) && IsDigits(s[|s| - 2..])
      && ParseDecimal(s[..|s| - 3]) * 10 + ParseDecimal(s[|s| - 2..]) / 10 == n
  {
    var d := n % 10;
    var h, m := Pad2(n / 10), Pad2(10 * d);
    Pad2ReadsBack(n / 10);
    Pad2Tens(d);
    assert ParseDecimal(m) == 10 * d by {
      Pad2ReadsBack(10 * d);
    }
    ColonSplit(h, m);
    TensArithmetic(n);
  }

  lemma ColonSplit(h: string, m: string)
    requires |m| == 2
    ensures var s := h + ":" + m;
      |s| == |h| + 3 && s[|s| - 3] == ':' && s[..|s| - 3] == h && s[|s| - 2..] == m
  {
    var s := h + ":" + m;
    assert s[..|s| - 3] == h;
    assert s[|s| - 2..] == m;
  }

  lemma TensArithmetic(n: nat)
    ensures (n / 10) * 10 + (10 * (n % 10)) / 10 == n
  {
    var d := n % 10;
    assert (10 * d) / 10 == d;
  }

  /** The attribute agrees with the library's reading of the same integer as a time of day. */
  lemma HhmmMatchesScheduleTime(units: Option<int>, minutes: int)
    requires ScheduleTime(units) == Ok(Some(minutes))
    ensures TimeUnitsToHhmm(units) == Pad2(minutes / 60) + ":" + Pad2(minutes % 60)
  {
    var n := units.value;
    var h, mm := n / 10, 10 * (n % 10);
    assert minutes == 60 * h + mm && 0 <= mm < 60;
    assert minutes / 60 == h && minutes % 60 == mm;
  }

  /**
   * _format_period: None for a missing period, a missing start or end, or
   * an empty one (start equal to end); otherwise "HH:MM-HH:MM".
   */
  function FormatPeriod(period: Option<ProgramData>): (r: Option<string>)
    ensures r.None? <==>
      period.None? || period.value.startTime.None? || period.value.endTime.None?
      || period.value.startTime == period.value.endTime
    ensures r.Some? ==>
      r.value == TimeUnitsToHhmm(period.value.startTime) + "-" + TimeUnitsToHhmm(period.value.endTime)
  {
    match period
    case None => None
    case Some(p) =>
      if p.startTime.None? || p.endTime.None? || p.startTime == p.endTime then None
      else Some(TimeUnitsToHhmm(p.startTime) + "-" + TimeUnitsToHhmm(p.endTime))
  }

  /** An hh:mm string holds no '-'. */
  lemma HhmmHasNoDash(units: Option<int>)
    ensures '-' !in TimeUnitsToHhmm(units)
  {
    if units.Some? && units.value >= 0 {
      var h, m := Pad2(units.value / 10), Pad2(10 * (units.value % 10));
      assert TimeUnitsToHhmm(units) == h + ":" + m;
      assert forall i :: 0 <= i < |h| ==> h[i] != '-';
      assert forall i :: 0 <= i < |m| ==> m[i] != '-';
    }
  }

  /** A period string splits at its only '-' into the start and the end. */
  lemma PeriodSplits(period: Option<ProgramData>)
    requires FormatPeriod(period).Some?
    ensures var s := FormatPeriod(period).value;
      var k := |TimeUnitsToHhmm(period.value.startTime)|;
      k < |s| && s[k] == '-'
      && s[..k] == TimeUnitsToHhmm(period.value.startTime)
      && s[k + 1..] == TimeUnitsToHhmm(period.value.endTime)
      && forall i :: 0 <= i < |s| && i != k ==> s[i] != '-'
  {
    var a, b := TimeUnitsToHhmm(period.value.startTime), TimeUnitsToHhmm(period.value.endTime);
    var s := FormatPeriod(period).value;
    HhmmHasNoDash(period.value.startTime);
    HhmmHasNoDash(period.value.endTime);
    assert s == a + "-" + b;
    assert s[..|a|] == a;
    assert s[|a| + 1..] == b;
    forall i | 0 <= i < |s| && i != |a| ensures s[i] != '-' {
      if i < |a| {
        assert s[i] == a[i];
      } else {
        assert s[i] == b[i - |a| - 1];
      }
    }
  }

  /** day_data.get("p<n>"): the first period with that number. */
  function PeriodOf(periods: seq<Period>, n: int): (p: Option<ProgramData>)
    ensures p.Some? ==> exists k :: 0 <= k < |periods| && periods[k].number == n && periods[k].program == p
    ensures (forall k :: 0 <= k < |periods| ==> periods[k].number != n) ==> p.None?
    decreases |periods|
  {
    if |periods| == 0 then None
    else if periods[0].number == n then periods[0].program
    else
      var p := PeriodOf(periods[1..], n);
      assert forall k :: 0 <= k < |periods[1..]| ==> periods[1..][k] == periods[k + 1];
      p
  }

  /** What _format_day_schedule returns: exactly the keys p1, p2 and p3. */
  datatype DaySchedule = DaySchedule(p1: Option<string>, p2: Option<string>, p3: Option<string>)

  function FormatDaySchedule(d: DeviceDay): DaySchedule
  {
    DaySchedule(FormatPeriod(PeriodOf(d.periods, 1)), FormatPeriod(PeriodOf(d.periods, 2)),
      FormatPeriod(PeriodOf(d.periods, 3)))
  }

  const DayNames: seq<string> := ["Sunday", "Monday", "Tuesday", "Wednesday", "Thursday", "Friday", "Saturday"]

  /** The name a device day is shown under: only an int dayType in 0..6 has one. */
  function DayName(d: DeviceDay): (r: Option<string>)
    ensures r.Some? <==> d.dayType.Some? && 0 <= d.dayType.value <= 6
    ensures r.Some? ==> r.value == DayNames[d.dayType.value]
  {
    if d.dayType.Some? && 0 <= d.dayType.value <= 6 then Some(DayNames[d.dayType.value]) else None
  }

  /** The schedule dict after the loop has seen these device days. */
  function Schedule(dd: seq<DeviceDay>): Dict<string, DaySchedule>
    decreases |dd|
  {
    if |dd| == 0 then []
    else
      var m := Schedule(dd[..|dd| - 1]);
      var d := dd[|dd| - 1];
      match DayName(d)
      case None => m
      case Some(name) => Put(m, name, FormatDaySchedule(d))
  }

  /** Some device day is shown under this name. */
  predicate Named(dd: seq<DeviceDay>, name: string)
  {
    exists k :: 0 <= k < |dd| && DayName(dd[k]) == Some(name)
  }

  /** The schedule dict never holds a day name twice. */
  lemma {:induction false} ScheduleUnique(dd: seq<DeviceDay>)
    ensures UniqueKeys(Schedule(dd))
    decreases |dd|
  {
    if |dd| > 0 {
      var init := dd[..|dd| - 1];
      var d := dd[|dd| - 1];
      ScheduleUnique(init);
      match DayName(d)
      case None =>
      case Some(dn) =>
        PutGet(Schedule(init), dn, FormatDaySchedule(d), dn);
    }
  }

  /** A day name is a key exactly when some device day is shown under it. */
  lemma {:induction false} ScheduleKeys(dd: seq<DeviceDay>, name: string)
    ensures Get(Schedule(dd), name).Some? <==> Named(dd, name)
    decreases |dd|
  {
    if |dd| > 0 {
      var init := dd[..|dd| - 1];
      var d := dd[|dd| - 1];
      ScheduleKeys(init, name);
      ScheduleUnique(init);
      assert Named(init, name) ==> Named(dd, name) by {
        if Named(init, name) {
          var k :| 0 <= k < |init| && DayName(init[k]) == Some(name);
          assert dd[k] == init[k];
        }
      }
      assert Named(dd, name) && DayName(d) != Some(name) ==> Named(init, name) by {
        if Named(dd, name) && DayName(d) != Some(name) {
          var k :| 0 <= k < |dd| && DayName(dd[k]) == Some(name);
          assert k < |init| && init[k] == dd[k];
        }
      }
      match DayName(d)
      case None =>
      case Some(dn) =>
        PutGet(Schedule(init), dn, FormatDaySchedule(d), name);
    }
  }

  /** A shown day that no later device day overrides is the value under its name. */
  lemma {:induction false} ScheduleLast(dd: seq<DeviceDay>, name: string, k: nat)
    requires k < |dd| && DayName(dd[k]) == Some(name)
    requires forall j :: k < j < |dd| ==> DayName(dd[j]) != Some(name)
    ensures Get(Schedule(dd), name) == Some(FormatDaySchedule(dd[k]))
    decreases |dd|
  {
    var init := dd[..|dd| - 1];
    var d := dd[|dd| - 1];
    ScheduleUnique(init);
    if k < |init| {
      assert forall j :: k < j < |init| ==> init[j] == dd[j];
      ScheduleLast(init, name, k);
      assert init[k] == dd[k];
    }
    match DayName(d)
    case None =>
    case Some(dn) =>
      PutGet(Schedule(init), dn, FormatDaySchedule(d), name);
  }

  /**
   * extra_state_attributes' "schedule" entry: absent when no device day is
   * shown, otherwise the schedule dict.
   */
  function ScheduleAttribute(dd: seq<DeviceDay>): (r: Option<Dict<string, DaySchedule>>)
    ensures r.None? <==> forall k :: 0 <= k < |dd| ==> DayName(dd[k]).None?
    ensures r.Some? ==> r.value == Schedule(dd)
  {
    var m := Schedule(dd);
    if |m| == 0 then
      assert forall k :: 0 <= k < |dd| ==> DayName(dd[k]).None? by {
        forall k | 0 <= k < |dd| ensures DayName(dd[k]).None? {
          if DayName(dd[k]).Some? {
            ScheduleKeys(dd, DayName(dd[k]).value);
          }
        }
      }
      None
    else
      assert HasKey(m, m[0].0);
      ScheduleKeys(dd, m[0].0);
      Some(m)
  }

  /** extra_state_attributes: the loop over deviceDays that fills the schedule dict. */
  method ExtraStateAttributes(z: Zone) returns (schedule: Option<Dict<string, DaySchedule>>)
    ensures schedule == ScheduleAttribute(z.deviceDays)
  {
    var dd := z.deviceDays;
    var m: Dict<string, DaySchedule> := [];
    var i := 0;
    while i < |dd|
      invariant 0 <= i <= |dd|
      invariant m == Schedule(dd[..i])
    {
      assert dd[..i + 1][..i] == dd[..i];
      var d := dd[i];
      if d.dayType.Some? && 0 <= d.dayType.value <= 6 {
        m := Put(m, DayNames[d.dayType.value], FormatDaySchedule(d));
      }
      i := i + 1;
    }
    assert dd[..i] == dd;
    if |m| > 0 {
      schedule := Some(m);
    } else {
      schedule := None;
    }
  }
}
