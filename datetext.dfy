/** Dates as text: reading the `YYYY-MM-DD HH:MM:SS` argument of the
    reports and pages (`format_date`), writing the `dd.mm.yyyy` and
    `dd.mm.yyyy HH:MM:SS` forms used in report rows, and the greeting chosen
    by hour of day (`get_greeting`). */
module DateText {
  import opened Basics
  import opened Text
  import opened Calendar

  /** What a caller may hand over as a date: an already-built datetime, a
      string, or a value of some other type. */
  datatype DateArg = DateValue(value: Instant) | Text(text: string) | Other

  function Field(s: string, lo: nat, hi: nat): nat
    requires lo <= hi <= |s| && AllDigits(s[lo..hi])
  {
    Value(s[lo..hi])
  }

  predicate IsoShape(s: string)
  {
    && |s| == 19
    && s[4] == '-' && s[7] == '-' && s[10] == ' ' && s[13] == ':' && s[16] == ':'
    && AllDigits(s[0..4]) && AllDigits(s[5..7]) && AllDigits(s[8..10])
    && AllDigits(s[11..13]) && AllDigits(s[14..16]) && AllDigits(s[17..19])
  }

  /** `datetime.strptime(s, "%Y-%m-%d %H:%M:%S")` on the zero-padded form:
      None where strptime or the datetime constructor raises (bad shape,
      month 13, day 32, February 29 of a common year, hour 24, ...). */
  function ParseIso(s: string): (r: Option<Instant>)
    ensures r.Some? ==> FormatIso(r.value) == s
  {
    if !IsoShape(s) then None
    else
      var t := DateTime(Field(s, 0, 4), Field(s, 5, 7), Field(s, 8, 10),
                        Field(s, 11, 13), Field(s, 14, 16), Field(s, 17, 19));
      if Valid(t) then
        CanonicalFields(s, t);
        Some(t)
      else None
  }

  /** The canonical `YYYY-MM-DD HH:MM:SS` text of an instant. */
  function FormatIso(t: Instant): string
  {
    Pad(t.year, 4) + "-" + Pad(t.month, 2) + "-" + Pad(t.day, 2) + " "
      + Pad(t.hour, 2) + ":" + Pad(t.minute, 2) + ":" + Pad(t.second, 2)
  }

  lemma Pow10Values()
    ensures Pow10(2) == 100 && Pow10(4) == 10000
  {
  }

  /** The pieces of a text joined by one-character separators sit at fixed
      offsets. */
  lemma SliceIso(s: string, y: string, mo: string, d: string, h: string, mi: string, se: string)
    requires |y| == 4 && |mo| == 2 && |d| == 2 && |h| == 2 && |mi| == 2 && |se| == 2
    requires s == y + "-" + mo + "-" + d + " " + h + ":" + mi + ":" + se
    ensures |s| == 19 && s[4] == '-' && s[7] == '-' && s[10] == ' ' && s[13] == ':' && s[16] == ':'
    ensures s[0..4] == y && s[5..7] == mo && s[8..10] == d
    ensures s[11..13] == h && s[14..16] == mi && s[17..19] == se
  {
    var a, b := y + "-" + mo + "-" + d, h + ":" + mi + ":" + se;
    assert s == a + " " + b;
    assert s[..10] == a && s[11..] == b;
    assert b[0..2] == h && b[3..5] == mi && b[6..8] == se;
  }

  lemma SliceDayMonthYear(r: string, d: string, m: string, y: string)
    requires |d| == 2 && |m| == 2 && |y| == 4
    requires r == d + "." + m + "." + y
    ensures |r| == 10 && r[2] == '.' && r[5] == '.'
    ensures r[0..2] == d && r[3..5] == m && r[6..10] == y
  {
  }

  lemma SliceTime(r: string, dmy: string, h: string, mi: string, s: string)
    requires |dmy| == 10 && |h| == 2 && |mi| == 2 && |s| == 2
    requires r == dmy + " " + h + ":" + mi + ":" + s
    ensures |r| == 19 && r[..10] == dmy && r[10] == ' ' && r[13] == ':' && r[16] == ':'
    ensures r[11..13] == h && r[14..16] == mi && r[17..19] == s
  {
  }

  /** Reading the canonical text of an instant gives the instant back. */
  lemma ParseFormatIso(t: Instant)
    ensures ParseIso(FormatIso(t)) == Some(t)
  {
    var s := FormatIso(t);
    var y, mo, d := Pad(t.year, 4), Pad(t.month, 2), Pad(t.day, 2);
    var h, mi, se := Pad(t.hour, 2), Pad(t.minute, 2), Pad(t.second, 2);
    SliceIso(s, y, mo, d, h, mi, se);
    Pow10Values();
    ValuePad(t.year, 4);
    ValuePad(t.month, 2);
    ValuePad(t.day, 2);
    ValuePad(t.hour, 2);
    ValuePad(t.minute, 2);
    ValuePad(t.second, 2);
  }

  /** A text of the `YYYY-MM-DD HH:MM:SS` shape whose fields make a valid
      instant is that instant's canonical text: zero-padding the fields
      gives them back. */
  lemma CanonicalFields(s: string, t: Instant)
    requires IsoShape(s)
    requires t == DateTime(Field(s, 0, 4), Field(s, 5, 7), Field(s, 8, 10),
                           Field(s, 11, 13), Field(s, 14, 16), Field(s, 17, 19))
    ensures FormatIso(t) == s
  {
    PadValue(s[0..4]);
    PadValue(s[5..7]);
    PadValue(s[8..10]);
    PadValue(s[11..13]);
    PadValue(s[14..16]);
    PadValue(s[17..19]);
    assert s == s[0..4] + [s[4]] + s[5..7] + [s[7]] + s[8..10] + [s[10]]
      + s[11..13] + [s[13]] + s[14..16] + [s[16]] + s[17..19];
  }

  /** A text parses to an instant exactly when it is that instant's
      canonical text. */
  lemma ParseIsoExactly(s: string)
    ensures forall t: Instant {:trigger FormatIso(t)} :: s == FormatIso(t) <==> ParseIso(s) == Some(t)
  {
    forall t: Instant ensures s == FormatIso(t) <==> ParseIso(s) == Some(t) {
      ParseFormatIso(t);
    }
  }

  /** `format_date`: a datetime is returned unchanged, a string in the
      `YYYY-MM-DD HH:MM:SS` form is read, and anything else -- another type,
      or a string that is not a valid date and time -- gives `now`. */
  function FormatDate(arg: DateArg, now: Instant): (r: Instant)
    ensures arg.DateValue? ==> r == arg.value
    ensures arg.Other? ==> r == now
    ensures arg.Text? ==> r == now || arg.text == FormatIso(r)
    ensures forall t: Instant {:trigger FormatIso(t)} :: arg == Text(FormatIso(t)) ==> r == t
  {
    match arg
    case DateValue(t) => t
    case Text(s) =>
      ParseIsoExactly(s);
      (match ParseIso(s)
       case Some(t) => t
       case None => now)
    case Other => now
  }

  /** An out-of-range day falls back to `now`, as in the source's tests. */
  lemma FormatDateBadDay(now: Instant)
    ensures FormatDate(Text("2025-05-32 09:42:13"), now) == now
  {
    var s := "2025-05-32 09:42:13";
    assert s[8..10] == "32";
    assert Value("32") == 32 by {
      assert "32"[..1] == "3";
    }
  }

  // ---------------------------------------------------------------------
  // strftime("%d.%m.%Y") and strftime("%d.%m.%Y %H:%M:%S")

  function FormatDayMonthYear(t: Instant): (r: string)
    ensures |r| == 10 && r[2] == '.' && r[5] == '.'
    ensures AllDigits(r[0..2]) && AllDigits(r[3..5]) && AllDigits(r[6..10])
    ensures Value(r[0..2]) == t.day && Value(r[3..5]) == t.month && Value(r[6..10]) == t.year
  {
    var d, m, y := Pad(t.day, 2), Pad(t.month, 2), Pad(t.year, 4);
    var r := d + "." + m + "." + y;
    SliceDayMonthYear(r, d, m, y);
    Pow10Values();
    ValuePad(t.day, 2);
    ValuePad(t.month, 2);
    ValuePad(t.year, 4);
    r
  }

  function FormatDayMonthYearTime(t: Instant): (r: string)
    ensures |r| == 19 && r[..10] == FormatDayMonthYear(t) && r[10] == ' ' && r[13] == ':' && r[16] == ':'
    ensures AllDigits(r[11..13]) && AllDigits(r[14..16]) && AllDigits(r[17..19])
    ensures Value(r[11..13]) == t.hour && Value(r[14..16]) == t.minute && Value(r[17..19]) == t.second
  {
    var dmy, h, mi, s := FormatDayMonthYear(t), Pad(t.hour, 2), Pad(t.minute, 2), Pad(t.second, 2);
    var r := dmy + " " + h + ":" + mi + ":" + s;
    SliceTime(r, dmy, h, mi, s);
    Pow10Values();
    ValuePad(t.hour, 2);
    ValuePad(t.minute, 2);
    ValuePad(t.second, 2);
    r
  }

  // ---------------------------------------------------------------------
  // get_greeting

  const Morning := "Доброе утро"
  const Afternoon := "Добрый день"
  const Evening := "Добрый вечер"
  const Night := "Доброй ночи"

  /** The greeting for the hour of `time`: morning from 5 to 11, afternoon
      from 12 to 17, evening from 18 to 22, night otherwise; a value that is
      not a datetime gets the afternoon greeting. */
  function Greeting(time: DateArg): (r: string)
    ensures r == Morning <==> time.DateValue? && 5 <= time.value.hour < 12
    ensures r == Afternoon <==> !time.DateValue? || 12 <= time.value.hour < 18
    ensures r == Evening <==> time.DateValue? && 18 <= time.value.hour < 23
    ensures r == Night <==> time.DateValue? && (time.value.hour < 5 || time.value.hour >= 23)
  {
    match time
    case DateValue(t) =>
      if 5 <= t.hour < 12 then Morning
      else if 12 <= t.hour < 18 then Afternoon
      else if 18 <= t.hour < 23 then Evening
      else Night
    case _ => Afternoon
  }
}
