/**
 * Naive `datetime.datetime` values with whole seconds, the fixed-width subset of
 * `strptime`/`strftime` the receipt code uses, `isoformat`/`fromisoformat`, and the
 * subtraction of a whole number of hours (`dt - timedelta(hours=h)`).
 */
module DateTimes {
  import opened Base
  import opened Text

  datatype DateTime = DateTime(year: nat, month: nat, day: nat, hour: nat, minute: nat, second: nat)

  predicate IsLeap(y: nat)
  {
    y % 4 == 0 && (y % 100 != 0 || y % 400 == 0)
  }

  function DaysInMonth(y: nat, m: nat): (n: nat)
    requires 1 <= m <= 12
    ensures 28 <= n <= 31
  {
    if m == 2 then (if IsLeap(y) then 29 else 28)
    else if m == 4 || m == 6 || m == 9 || m == 11 then 30
    else 31
  }

  function DaysInYear(y: nat): nat
  {
    if IsLeap(y) then 366 else 365
  }

  /** The range the `datetime` constructor accepts: years 1 to 9999, real calendar days. */
  predicate Valid(dt: DateTime)
  {
    1 <= dt.year <= 9999 && 1 <= dt.month <= 12 && 1 <= dt.day <= DaysInMonth(dt.year, dt.month)
    && dt.hour < 24 && dt.minute < 60 && dt.second < 60
  }

  // ---------------------------------------------------------------- absolute time

  /** Days in the years before `y`, counted from 0001-01-01. */
  function DaysBeforeYear(y: nat): nat
  {
    if y <= 1 then 0 else DaysBeforeYear(y - 1) + DaysInYear(y - 1)
  }

  /** Days in the months of year `y` before month `m`. */
  function DaysBeforeMonth(y: nat, m: nat): nat
    requires 1 <= m <= 12
  {
    if m == 1 then 0 else DaysBeforeMonth(y, m - 1) + DaysInMonth(y, m - 1)
  }

  /** Seconds elapsed since 0001-01-01 00:00:00: the reference timeline `timedelta` arithmetic moves along. */
  function Seconds(dt: DateTime): int
    requires 1 <= dt.month <= 12
  {
    var days := DaysBeforeYear(dt.year) + DaysBeforeMonth(dt.year, dt.month) + dt.day - 1;
    ((days * 24 + dt.hour) * 60 + dt.minute) * 60 + dt.second
  }

  lemma DaysBeforeDecember(y: nat)
    ensures DaysBeforeMonth(y, 12) + 31 == DaysInYear(y)
  {
    var f := DaysInMonth(y, 2);
    assert DaysBeforeMonth(y, 2) == 31;
    assert DaysBeforeMonth(y, 3) == 31 + f;
    assert DaysBeforeMonth(y, 4) == 62 + f;
    assert DaysBeforeMonth(y, 5) == 92 + f;
    assert DaysBeforeMonth(y, 6) == 123 + f;
    assert DaysBeforeMonth(y, 7) == 153 + f;
    assert DaysBeforeMonth(y, 8) == 184 + f;
    assert DaysBeforeMonth(y, 9) == 215 + f;
    assert DaysBeforeMonth(y, 10) == 245 + f;
    assert DaysBeforeMonth(y, 11) == 276 + f;
    assert DaysBeforeMonth(y, 12) == 306 + f;
  }

  /** The day before `dt`'s day, same time of day; `None` before 0001-01-01. */
  function PrevDay(dt: DateTime): (r: Option<DateTime>)
    requires Valid(dt)
    ensures r.Some? ==> Valid(r.value) && Seconds(r.value) == Seconds(dt) - 86400
    ensures r.None? <==> Seconds(dt) < 86400
  {
    if dt.day > 1 then Some(dt.(day := dt.day - 1))
    else if dt.month > 1 then Some(dt.(month := dt.month - 1, day := DaysInMonth(dt.year, dt.month - 1)))
    else if dt.year > 1 then
      DaysBeforeDecember(dt.year - 1);
      Some(dt.(year := dt.year - 1, month := 12, day := 31))
    else None
  }

  /**
   * `dt - timedelta(hours=h)` for `h < 24`: the same instant `h` hours earlier, or
   * `None` where Python raises OverflowError (before year 1).
   */
  function MinusHours(dt: DateTime, h: nat): (r: Option<DateTime>)
    requires Valid(dt) && h < 24
    ensures r.Some? ==> Valid(r.value) && r.value.minute == dt.minute && r.value.second == dt.second
  {
    if dt.hour >= h then Some(dt.(hour := dt.hour - h))
    else
      match PrevDay(dt)
      case None => None
      case Some(p) => Some(p.(hour := dt.hour + 24 - h))
  }

  /** Subtracting hours moves exactly `3600 × h` seconds back on the timeline, and fails exactly when that would cross 0001-01-01 00:00. */
  lemma MinusHoursSeconds(dt: DateTime, h: nat)
    requires Valid(dt) && h < 24
    ensures MinusHours(dt, h).Some? ==> Seconds(MinusHours(dt, h).value) == Seconds(dt) - 3600 * h
    ensures MinusHours(dt, h).None? <==> Seconds(dt) < 3600 * h
  {
    if dt.hour < h {
      var p := PrevDay(dt);
      if p.Some? {
        assert Seconds(p.value.(hour := dt.hour + 24 - h)) == Seconds(p.value) + 3600 * (24 - h);
      } else {
        assert dt.year == 1 && dt.month == 1 && dt.day == 1;
      }
    }
  }

  // ---------------------------------------------------------------- formats

  /** The `strptime`/`strftime` directives used: `%Y %m %d %H %M %S` and literal characters. */
  datatype Directive = Year | Month | Day | Hour | Minute | Second | Lit(c: char)

  type Format = seq<Directive>

  /** `'%Y%m%dT%H%M%S'`, the timestamp inside receipt QR codes. */
  const QrFormat: Format := [Year, Month, Day, Lit('T'), Hour, Minute, Second]

  /** `'%Y-%m-%dT%H:%M:%S'`, the registry's timestamps; also what `isoformat()` writes for whole seconds. */
  const ApiFormat: Format := [Year, Lit('-'), Month, Lit('-'), Day, Lit('T'), Hour, Lit(':'), Minute, Lit(':'), Second]

  /** `'%d.%m.%Y %H:%M'`, the operator sites' timestamps. */
  const SiteFormat: Format := [Day, Lit('.'), Month, Lit('.'), Year, Lit(' '), Hour, Lit(':'), Minute]

  function Width(d: Directive): nat
  {
    match d
    case Year => 4
    case Lit(_) => 1
    case _ => 2
  }

  function Field(dt: DateTime, d: Directive): nat
  {
    match d
    case Year => dt.year
    case Month => dt.month
    case Day => dt.day
    case Hour => dt.hour
    case Minute => dt.minute
    case Second => dt.second
    case Lit(_) => 0
  }

  function SetField(dt: DateTime, d: Directive, v: nat): DateTime
  {
    match d
    case Year => dt.(year := v)
    case Month => dt.(month := v)
    case Day => dt.(day := v)
    case Hour => dt.(hour := v)
    case Minute => dt.(minute := v)
    case Second => dt.(second := v)
    case Lit(_) => dt
  }

  /** What `strptime` starts from: 1900-01-01 00:00:00, overwritten by the fields the format names. */
  const Default: DateTime := DateTime(1900, 1, 1, 0, 0, 0)

  /** Consumes `s` directive by directive: fixed-width digit fields, exact literals, nothing left over. */
  function Scan(f: Format, s: string, acc: DateTime): (r: Option<DateTime>)
    decreases |f|
  {
    if f == [] then (if s == [] then Some(acc) else None)
    else if |s| < Width(f[0]) then None
    else
      var piece, rest := s[..Width(f[0])], s[Width(f[0])..];
      match f[0]
      case Lit(c) => if piece == [c] then Scan(f[1..], rest, acc) else None
      case _ => if AllDigits(piece) then Scan(f[1..], rest, SetField(acc, f[0], DigitsValue(piece))) else None
  }

  /** `datetime.strptime(s, f)`: `None` where Python raises ValueError. */
  function Strptime(s: string, f: Format): (r: Option<DateTime>)
    ensures r.Some? ==> Valid(r.value)
  {
    match Scan(f, s, Default)
    case Some(dt) => if Valid(dt) then Some(dt) else None
    case None => None
  }

  function Render(dt: DateTime, d: Directive): string
    requires Valid(dt)
  {
    match d
    case Lit(c) => [c]
    case _ => PadZero(Field(dt, d), Width(d))
  }

  /** `dt.strftime(f)`, every numeric field zero-padded to its width. */
  function Strftime(dt: DateTime, f: Format): (s: string)
    requires Valid(dt)
  {
    if f == [] then [] else Render(dt, f[0]) + Strftime(dt, f[1..])
  }

  /** The fields of `dt` that `f` names, written over `acc`. */
  function Overlay(f: Format, dt: DateTime, acc: DateTime): DateTime
  {
    if f == [] then acc else Overlay(f[1..], dt, SetField(acc, f[0], Field(dt, f[0])))
  }

  lemma RenderWidth(dt: DateTime, d: Directive)
    requires Valid(dt)
    ensures |Render(dt, d)| == Width(d)
    ensures d.Lit? ==> Render(dt, d) == [d.c]
    ensures !d.Lit? ==> AllDigits(Render(dt, d)) && DigitsValue(Render(dt, d)) == Field(dt, d)
  {
    if !d.Lit? {
      assert Pow10(2) == 100 && Pow10(4) == 10000;
      PadZeroValue(Field(dt, d), Width(d));
    }
  }

  /** `strftime` writes only digits and the format's own literal characters. */
  lemma {:induction false} StrftimeAvoids(dt: DateTime, f: Format, c: char)
    requires Valid(dt) && !IsDigit(c) && Lit(c) !in f
    ensures c !in Strftime(dt, f)
    decreases |f|
  {
    if f != [] {
      RenderWidth(dt, f[0]);
      assert f[0] != Lit(c);
      StrftimeAvoids(dt, f[1..], c);
    }
  }

  /** Reading back what `strftime` wrote recovers the fields the format names. */
  lemma {:induction false} ScanStrftime(dt: DateTime, f: Format, acc: DateTime)
    requires Valid(dt)
    ensures Scan(f, Strftime(dt, f), acc) == Some(Overlay(f, dt, acc))
    decreases |f|
  {
    if f != [] {
      var head, tail := Render(dt, f[0]), Strftime(dt, f[1..]);
      RenderWidth(dt, f[0]);
      var s := head + tail;
      assert s[..Width(f[0])] == head && s[Width(f[0])..] == tail;
      ScanStrftime(dt, f[1..], SetField(acc, f[0], Field(dt, f[0])));
    }
  }

  predicate Names(f: Format, d: Directive)
  {
    exists k :: 0 <= k < |f| && f[k] == d
  }

  lemma {:induction false} OverlayFields(f: Format, dt: DateTime, acc: DateTime)
    ensures var r := Overlay(f, dt, acc);
      (r.year == if Names(f, Year) then dt.year else acc.year) &&
      (r.month == if Names(f, Month) then dt.month else acc.month) &&
      (r.day == if Names(f, Day) then dt.day else acc.day) &&
      (r.hour == if Names(f, Hour) then dt.hour else acc.hour) &&
      (r.minute == if Names(f, Minute) then dt.minute else acc.minute) &&
      (r.second == if Names(f, Second) then dt.second else acc.second)
    decreases |f|
  {
    if f != [] {
      OverlayFields(f[1..], dt, SetField(acc, f[0], Field(dt, f[0])));
      forall d | d != f[0]
        ensures Names(f, d) <==> Names(f[1..], d)
      {
        NamesTail(f, d);
      }
      NamesAt(f, 0);
    }
  }

  lemma NamesTail(f: Format, d: Directive)
    requires f != [] && d != f[0]
    ensures Names(f, d) <==> Names(f[1..], d)
  {
    if Names(f, d) {
      var k :| 0 <= k < |f| && f[k] == d;
      assert f[1..][k - 1] == d;
    }
    if Names(f[1..], d) {
      var k :| 0 <= k < |f[1..]| && f[1..][k] == d;
      assert f[k + 1] == d;
    }
  }

  lemma NamesAt(f: Format, k: nat)
    requires k < |f|
    ensures Names(f, f[k])
  {
  }

  /**
   * `strptime(strftime(dt, f), f)` gives `dt` with the fields `f` does not name reset to
   * their defaults, for any format naming the year, month and day.
   */
  lemma StrptimeStrftime(dt: DateTime, f: Format)
    requires Valid(dt) && Names(f, Year) && Names(f, Month) && Names(f, Day)
    ensures Strptime(Strftime(dt, f), f) == Some(Overlay(f, dt, Default))
  {
    ScanStrftime(dt, f, Default);
    OverlayFields(f, dt, Default);
  }

  /** The QR format names every field, so it reads back the exact timestamp. */
  lemma QrFormatRoundTrip(dt: DateTime)
    requires Valid(dt)
    ensures Strptime(Strftime(dt, QrFormat), QrFormat) == Some(dt)
  {
    var f := QrFormat;
    NamesAt(f, 0); NamesAt(f, 1); NamesAt(f, 2); NamesAt(f, 4); NamesAt(f, 5); NamesAt(f, 6);
    StrptimeStrftime(dt, f);
    OverlayFields(f, dt, Default);
  }

  /** The registry format names every field, so it reads back the exact timestamp. */
  lemma ApiFormatRoundTrip(dt: DateTime)
    requires Valid(dt)
    ensures Strptime(Strftime(dt, ApiFormat), ApiFormat) == Some(dt)
  {
    var f := ApiFormat;
    NamesAt(f, 0); NamesAt(f, 2); NamesAt(f, 4); NamesAt(f, 6); NamesAt(f, 8); NamesAt(f, 10);
    StrptimeStrftime(dt, f);
    OverlayFields(f, dt, Default);
  }

  lemma SiteFormatNoSeconds()
    ensures !Names(SiteFormat, Second)
  {
    var f := SiteFormat;
    forall k | 0 <= k < |f| ensures f[k] != Second {
      assert f[k] in {Day, Lit('.'), Month, Year, Lit(' '), Hour, Lit(':'), Minute};
    }
  }

  /** The site format has no seconds: reading it back gives the minute the timestamp falls in. */
  lemma SiteFormatRoundTrip(dt: DateTime)
    requires Valid(dt)
    ensures Strptime(Strftime(dt, SiteFormat), SiteFormat) == Some(dt.(second := 0))
  {
    var f := SiteFormat;
    NamesAt(f, 0); NamesAt(f, 2); NamesAt(f, 4); NamesAt(f, 6); NamesAt(f, 8);
    SiteFormatNoSeconds();
    StrptimeStrftime(dt, f);
    OverlayFields(f, dt, Default);
  }

  // ---------------------------------------------------------------- ISO 8601

  /** `dt.isoformat()` for a naive value with no microseconds: `YYYY-MM-DDTHH:MM:SS`. */
  function IsoFormat(dt: DateTime): string
    requires Valid(dt)
  {
    Strftime(dt, ApiFormat)
  }

  /** `datetime.fromisoformat(s)` for the full `YYYY-MM-DDTHH:MM:SS` form. */
  function FromIsoFormat(s: string): Option<DateTime>
  {
    Strptime(s, ApiFormat)
  }

  lemma IsoRoundTrip(dt: DateTime)
    requires Valid(dt)
    ensures FromIsoFormat(IsoFormat(dt)) == Some(dt)
  {
    ApiFormatRoundTrip(dt);
  }
}
