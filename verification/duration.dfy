/**
 The uptime text of the dashboard: `formatSeconds` turns a non-negative
 `time.Duration` (a count of nanoseconds) into text such as
 "1d 1h 1m 1s". It keeps only whole seconds, strips whole days while more
 than 24 hours remain, renders the rest with Go's `Duration.String` and puts
 a space after every hour and minute marker.
 */
module Duration {
  import opened Strings

  /** Go's `time.Second`, `time.Minute` and `time.Hour`, in nanoseconds. */
  const Second: nat := 1_000_000_000
  const Minute: nat := 60_000_000_000
  const Hour: nat := 3_600_000_000_000
  /** 24 hours: `formatSeconds` subtracts `24 * time.Hour` per day. */
  const Day: nat := 86_400_000_000_000

  /** Go's `dur - dur % time.Second` for a non-negative duration. */
  function WholeSeconds(dur: nat): (t: nat)
    ensures t % Second == 0
    ensures t <= dur < t + Second
  {
    dur - dur % Second
  }

  /** A duration taken apart into whole days and what is left over. */
  datatype DayCount = DayCount(days: nat, rest: nat)

  /**
   One pass of the day-stripping loop: subtract a day while more than a day
   remains. What is left is at most a day, and never zero once a day was taken.
   */
  function StripDays(t: nat): (d: DayCount)
    ensures d.days * Day + d.rest == t
    ensures d.rest <= Day
    ensures d.days > 0 ==> d.rest > 0
    decreases t
  {
    if t > Day then
      var d := StripDays(t - Day);
      DayCount(d.days + 1, d.rest)
    else DayCount(0, t)
  }

  /** The three properties of `StripDays` determine its result. */
  lemma StripDaysUnique(t: nat, d: DayCount)
    requires d.days * Day + d.rest == t
    requires d.rest <= Day
    requires d.days > 0 ==> d.rest > 0
    ensures StripDays(t) == d
  {
    var e := StripDays(t);
    assert (e.days - d.days) * Day == d.rest - e.rest;
  }

  /** The number of days stripped, in closed form. */
  lemma StripDaysClosedForm(t: nat)
    ensures StripDays(t).days == if t == 0 then 0 else (t - 1) / Day
  {
    if t > 0 {
      var q := (t - 1) / Day;
      StripDaysUnique(t, DayCount(q, t - q * Day));
    }
  }

  /** A second pass of the loop over what the first pass left finds nothing to strip. */
  lemma SecondPassStripsNothing(t: nat)
    ensures StripDays(StripDays(t).rest) == DayCount(0, StripDays(t).rest)
  {
  }

  /**
   Go's `Duration.String` for a duration of `secs` whole seconds:
   "Zs" below a minute, "YmZs" below an hour, "XhYmZs" otherwise, zero
   fields included; zero is "0s".
   */
  function DurationString(secs: nat): string {
    if secs < 60 then NatToString(secs) + "s"
    else if secs < 3600 then NatToString(secs / 60) + "m" + NatToString(secs % 60) + "s"
    else NatToString(secs / 3600) + "h" + NatToString(secs / 60 % 60) + "m" + NatToString(secs % 60) + "s"
  }

  /** The `Duration.String` of at least an hour, token by token. */
  lemma HoursString(secs: nat)
    requires secs >= 3600
    ensures DurationString(secs)
         == (NatToString(secs / 3600) + ['h']) + ((NatToString(secs / 60 % 60) + ['m']) + (NatToString(secs % 60) + ['s']))
  {
  }

  /** The `Duration.String` of a minute up to an hour, token by token. */
  lemma MinutesString(secs: nat)
    requires 60 <= secs < 3600
    ensures DurationString(secs) == (NatToString(secs / 60) + ['m']) + (NatToString(secs % 60) + ['s'])
  {
  }

  /** A character followed by a space when it is an hour or minute marker. */
  function Spaced(c: char): string {
    if c == 'h' || c == 'm' then [c, ' '] else [c]
  }

  /** Removes every space: the inverse of `InsertSpaces` on space-free text. */
  function DropSpaces(s: string): string
    decreases |s|
  {
    if |s| == 0 then ""
    else DropSpaces(s[..|s| - 1]) + (if s[|s| - 1] == ' ' then "" else [s[|s| - 1]])
  }

  /** The number of hour and minute markers in `s`. */
  function Markers(s: string): nat
    decreases |s|
  {
    if |s| == 0 then 0
    else Markers(s[..|s| - 1]) + (if s[|s| - 1] == 'h' || s[|s| - 1] == 'm' then 1 else 0)
  }

  /**
   The character loop of `formatSeconds`: copy `s`, adding one space right
   after each 'h' and each 'm'.
   */
  function InsertSpaces(s: string): string
    decreases |s|
  {
    if |s| == 0 then "" else InsertSpaces(s[..|s| - 1]) + Spaced(s[|s| - 1])
  }

  /** The result is longer by one space per marker. */
  lemma {:induction false} InsertSpacesLength(s: string)
    ensures |InsertSpaces(s)| == |s| + Markers(s)
    decreases |s|
  {
    if |s| > 0 {
      InsertSpacesLength(s[..|s| - 1]);
    }
  }

  /** Every hour or minute marker of the result is followed by a space. */
  lemma {:induction false} MarkersFollowedBySpace(s: string)
    ensures forall i :: 0 <= i < |InsertSpaces(s)| && (InsertSpaces(s)[i] == 'h' || InsertSpaces(s)[i] == 'm') ==>
      i + 1 < |InsertSpaces(s)| && InsertSpaces(s)[i + 1] == ' '
    decreases |s|
  {
    if |s| > 0 {
      var q := InsertSpaces(s[..|s| - 1]);
      var r := InsertSpaces(s);
      MarkersFollowedBySpace(s[..|s| - 1]);
      assert r == q + Spaced(s[|s| - 1]);
      forall i | 0 <= i < |r| && (r[i] == 'h' || r[i] == 'm')
        ensures i + 1 < |r| && r[i + 1] == ' '
      {
        if i < |q| {
          assert r[i] == q[i];
          if i + 1 < |q| {
            assert r[i + 1] == q[i + 1];
          }
        }
      }
    }
  }

  /** `DropSpaces` distributes over concatenation. */
  lemma {:induction false} DropSpacesAppend(a: string, b: string)
    ensures DropSpaces(a + b) == DropSpaces(a) + DropSpaces(b)
    decreases |b|
  {
    if |b| > 0 {
      var b' := b[..|b| - 1];
      assert (a + b)[..|a + b| - 1] == a + b';
      DropSpacesAppend(a, b');
    } else {
      assert a + b == a;
    }
  }

  /** `DropSpaces` on a single character. */
  lemma DropSpacesChar(c: char)
    ensures DropSpaces([c]) == if c == ' ' then "" else [c]
  {
    assert [c][..0] == "";
  }

  /** Dropping spaces from a spaced character gives the character back. */
  lemma DropSpacesSpaced(c: char)
    requires c != ' '
    ensures DropSpaces(Spaced(c)) == [c]
  {
    DropSpacesChar(c);
    if c == 'h' || c == 'm' {
      assert Spaced(c) == [c] + [' '];
      DropSpacesAppend([c], [' ']);
      DropSpacesChar(' ');
    }
  }

  /** On space-free text, dropping the inserted spaces gives the text back. */
  lemma {:induction false} DropInsertedSpaces(s: string)
    requires ' ' !in s
    ensures DropSpaces(InsertSpaces(s)) == s
    decreases |s|
  {
    if |s| > 0 {
      var p := s[..|s| - 1];
      var c := s[|s| - 1];
      assert s == p + [c];
      assert ' ' !in p;
      DropInsertedSpaces(p);
      DropSpacesAppend(InsertSpaces(p), Spaced(c));
      DropSpacesSpaced(c);
    }
  }

  /** On space-free text, every space of the result follows an hour or minute marker. */
  lemma {:induction false} InsertedSpacesFollowMarkers(s: string)
    requires ' ' !in s
    ensures forall i :: 0 <= i < |InsertSpaces(s)| && InsertSpaces(s)[i] == ' ' ==>
      0 < i && (InsertSpaces(s)[i - 1] == 'h' || InsertSpaces(s)[i - 1] == 'm')
    decreases |s|
  {
    if |s| > 0 {
      var p := s[..|s| - 1];
      var c := s[|s| - 1];
      assert ' ' !in p by {
        assert forall k :: 0 <= k < |p| ==> p[k] == s[k];
      }
      InsertedSpacesFollowMarkers(p);
      var q := InsertSpaces(p);
      var r := InsertSpaces(s);
      assert r == q + Spaced(c);
      forall i | 0 <= i < |r| && r[i] == ' '
        ensures 0 < i && (r[i - 1] == 'h' || r[i - 1] == 'm')
      {
        if i < |q| {
          assert q[i] == ' ';
        } else {
          assert r[|q|] == c != ' ';
          assert r[i - 1] == c;
        }
      }
    }
  }

  /** The reference definition: one day-stripping pass, then the spaced `Duration.String`. */
  function Elapsed(dur: nat): string {
    var d := StripDays(WholeSeconds(dur));
    (if d.days > 0 then NatToString(d.days) + "d " else "") + InsertSpaces(DurationString(d.rest / Second))
  }

  /* ---------------------------------------------------------------------
     Reading the text back
     --------------------------------------------------------------------- */

  /** Seconds denoted by a unit marker of the elapsed text. */
  function MarkerSeconds(c: char): nat {
    if c == 'd' then 86400
    else if c == 'h' then 3600
    else if c == 'm' then 60
    else if c == 's' then 1
    else 0
  }

  predicate IsMarker(c: char) {
    c == 'd' || c == 'h' || c == 'm' || c == 's'
  }

  /** State of a left-to-right reading: seconds so far and the number being read. */
  datatype Reading = Reading(total: nat, pending: nat)

  function ReadChar(a: Reading, c: char): Reading {
    if IsDigit(c) then Reading(a.total, a.pending * 10 + DigitValue(c))
    else if IsMarker(c) then Reading(a.total + a.pending * MarkerSeconds(c), 0)
    else a
  }

  function ReadFrom(a: Reading, s: string): Reading
    decreases |s|
  {
    if |s| == 0 then a else ReadChar(ReadFrom(a, s[..|s| - 1]), s[|s| - 1])
  }

  /**
   An independent reader of elapsed text: adds up every number times the
   seconds of the marker after it, skipping spaces.
   */
  function ReadSeconds(s: string): nat {
    ReadFrom(Reading(0, 0), s).total
  }

  lemma {:induction false} ReadAppend(a: Reading, s: string, t: string)
    ensures ReadFrom(a, s + t) == ReadFrom(ReadFrom(a, s), t)
    decreases |t|
  {
    if |t| == 0 {
      assert s + t == s;
    } else {
      assert (s + t)[..|s + t| - 1] == s + t[..|t| - 1];
      ReadAppend(a, s, t[..|t| - 1]);
    }
  }

  /** Reading a numeral leaves its value pending. */
  lemma {:induction false} ReadNumeral(total: nat, n: nat)
    ensures ReadFrom(Reading(total, 0), NatToString(n)) == Reading(total, n)
    decreases n
  {
    if n >= 10 {
      ReadNumeral(total, n / 10);
      ReadAppend(Reading(total, 0), NatToString(n / 10), [DigitChar(n % 10)]);
    }
  }

  /** Reading a numeral and its marker adds the value to the total. */
  lemma ReadToken(total: nat, n: nat, u: char)
    requires IsMarker(u)
    ensures ReadFrom(Reading(total, 0), NatToString(n) + [u]) == Reading(total + n * MarkerSeconds(u), 0)
  {
    ReadNumeral(total, n);
    ReadAppend(Reading(total, 0), NatToString(n), [u]);
  }

  /** Reading two numeral-and-marker tokens adds both values. */
  lemma ReadTwoTokens(total: nat, x: nat, u: char, y: nat, v: char)
    requires IsMarker(u) && IsMarker(v)
    ensures ReadFrom(Reading(total, 0), (NatToString(x) + [u]) + (NatToString(y) + [v]))
         == Reading(total + x * MarkerSeconds(u) + y * MarkerSeconds(v), 0)
  {
    var a := NatToString(x) + [u];
    var t1 := total + x * MarkerSeconds(u);
    assert ReadFrom(Reading(total, 0), a) == Reading(t1, 0) by {
      ReadToken(total, x, u);
    }
    assert ReadFrom(Reading(t1, 0), NatToString(y) + [v]) == Reading(t1 + y * MarkerSeconds(v), 0) by {
      ReadToken(t1, y, v);
    }
    ReadAppend(Reading(total, 0), a, NatToString(y) + [v]);
  }

  /** Reading hours, minutes and seconds adds up their seconds. */
  lemma ReadClock(total: nat, h: nat, m: nat, s: nat)
    ensures ReadFrom(Reading(total, 0), (NatToString(h) + ['h']) + ((NatToString(m) + ['m']) + (NatToString(s) + ['s'])))
         == Reading(total + h * 3600 + m * 60 + s, 0)
  {
    var a, b, c := NatToString(h) + ['h'], NatToString(m) + ['m'], NatToString(s) + ['s'];
    var t1 := total + h * 3600;
    var t2 := t1 + m * 60;
    assert ReadFrom(Reading(total, 0), a) == Reading(t1, 0) by {
      assert MarkerSeconds('h') == 3600;
      ReadToken(total, h, 'h');
    }
    assert ReadFrom(Reading(t1, 0), b) == Reading(t2, 0) by {
      assert MarkerSeconds('m') == 60;
      ReadToken(t1, m, 'm');
    }
    assert ReadFrom(Reading(t2, 0), c) == Reading(t2 + s, 0) by {
      assert MarkerSeconds('s') == 1;
      ReadToken(t2, s, 's');
      assert s * MarkerSeconds('s') == s;
    }
    ReadAppend(Reading(t1, 0), b, c);
    ReadAppend(Reading(total, 0), a, b + c);
  }

  /** Hours, minutes of the hour and seconds of the minute add up to the whole. */
  lemma HoursMinutesSeconds(secs: nat)
    ensures secs / 3600 * 3600 + secs / 60 % 60 * 60 + secs % 60 == secs
  {
    var m := secs / 60;
    assert secs == m * 60 + secs % 60;
    assert m == m / 60 * 60 + m % 60;
    assert m / 60 == secs / 3600;
  }

  /** `Duration.String` below a minute reads back as its seconds. */
  lemma ReadSecondsOnly(total: nat, secs: nat)
    requires secs < 60
    ensures ReadFrom(Reading(total, 0), DurationString(secs)) == Reading(total + secs, 0)
  {
    ReadToken(total, secs, 's');
  }

  /** `Duration.String` below an hour reads back as its seconds. */
  lemma ReadMinutesSeconds(total: nat, secs: nat)
    requires 60 <= secs < 3600
    ensures ReadFrom(Reading(total, 0), DurationString(secs)) == Reading(total + secs, 0)
  {
    MinutesString(secs);
    ReadTwoTokens(total, secs / 60, 'm', secs % 60, 's');
  }

  /** `Duration.String` from an hour on reads back as its seconds. */
  lemma ReadHoursMinutesSeconds(total: nat, secs: nat)
    requires 3600 <= secs
    ensures ReadFrom(Reading(total, 0), DurationString(secs)) == Reading(total + secs, 0)
  {
    var hours, minutes, seconds := secs / 3600, secs / 60 % 60, secs % 60;
    assert ReadFrom(Reading(total, 0), DurationString(secs)) == Reading(total + hours * 3600 + minutes * 60 + seconds, 0) by {
      HoursString(secs);
      ReadClock(total, hours, minutes, seconds);
    }
    assert hours * 3600 + minutes * 60 + seconds == secs by {
      HoursMinutesSeconds(secs);
    }
  }

  /** `Duration.String` of `secs` whole seconds reads back as `secs`. */
  lemma ReadDurationString(total: nat, secs: nat)
    ensures ReadFrom(Reading(total, 0), DurationString(secs)) == Reading(total + secs, 0)
  {
    if secs < 60 {
      ReadSecondsOnly(total, secs);
    } else if secs < 3600 {
      ReadMinutesSeconds(total, secs);
    } else {
      ReadHoursMinutesSeconds(total, secs);
    }
  }

  /** The inserted spaces do not change what is read. */
  lemma {:induction false} ReadInsertSpaces(a: Reading, s: string)
    ensures ReadFrom(a, InsertSpaces(s)) == ReadFrom(a, s)
    decreases |s|
  {
    if |s| > 0 {
      var p := s[..|s| - 1];
      var c := s[|s| - 1];
      ReadInsertSpaces(a, p);
      ReadAppend(a, InsertSpaces(p), Spaced(c));
      if c == 'h' || c == 'm' {
        ReadAppend(ReadFrom(a, p), [c], [' ']);
        assert Spaced(c) == [c] + [' '];
      }
    }
  }

  /** The day prefix reads as the seconds of the days it counts. */
  lemma ReadDayPrefix(days: nat)
    ensures ReadFrom(Reading(0, 0), NatToString(days) + "d ") == Reading(days * 86400, 0)
  {
    assert NatToString(days) + "d " == (NatToString(days) + ['d']) + [' '];
    ReadAppend(Reading(0, 0), NatToString(days) + ['d'], [' ']);
    ReadToken(0, days, 'd');
  }

  /** Whole seconds of the input: the stripped days plus the seconds of the rest. */
  lemma SecondsOfParts(dur: nat)
    ensures dur / Second == StripDays(WholeSeconds(dur)).days * 86400 + StripDays(WholeSeconds(dur)).rest / Second
  {
    var t := WholeSeconds(dur);
    var d := StripDays(t);
    assert dur / Second == t / Second;
    assert d.rest == t - d.days * Day;
  }

  /** The uptime text is lossless: it reads back as the whole seconds of the input. */
  lemma ElapsedRoundTrip(dur: nat)
    ensures ReadSeconds(Elapsed(dur)) == dur / Second
  {
    var d := StripDays(WholeSeconds(dur));
    var secs := d.rest / Second;
    var body := InsertSpaces(DurationString(secs));
    var start := if d.days > 0 then d.days * 86400 else 0;
    if d.days > 0 {
      var prefix := NatToString(d.days) + "d ";
      ReadDayPrefix(d.days);
      ReadAppend(Reading(0, 0), prefix, body);
    } else {
      assert Elapsed(dur) == body;
    }
    assert ReadFrom(Reading(0, 0), Elapsed(dur)) == ReadFrom(Reading(start, 0), body);
    ReadInsertSpaces(Reading(start, 0), DurationString(secs));
    ReadDurationString(start, secs);
    SecondsOfParts(dur);
  }

  /* ---------------------------------------------------------------------
     Shape of the text
     --------------------------------------------------------------------- */

  /** Inserting spaces keeps exactly the characters other than space. */
  lemma {:induction false} InsertSpacesKeeps(s: string, c: char)
    requires c != ' '
    ensures c in InsertSpaces(s) <==> c in s
    decreases |s|
  {
    if |s| > 0 {
      var p := s[..|s| - 1];
      InsertSpacesKeeps(p, c);
      assert s == p + [s[|s| - 1]];
    }
  }

  /** A day count appears in the text exactly when at least one day was stripped. */
  lemma DayPrefixIffDays(dur: nat)
    ensures 'd' in Elapsed(dur) <==> StripDays(WholeSeconds(dur)).days > 0
  {
    var d := StripDays(WholeSeconds(dur));
    var secs := d.rest / Second;
    assert forall n: nat :: 'd' !in NatToString(n) by {
      forall n: nat ensures 'd' !in NatToString(n) {
        assert AllDigits(NatToString(n));
      }
    }
    assert 'd' !in DurationString(secs);
    InsertSpacesKeeps(DurationString(secs), 'd');
    if d.days > 0 {
      assert Elapsed(dur)[|NatToString(d.days)|] == 'd';
    }
  }

  /** `InsertSpaces` works character by character. */
  lemma {:induction false} InsertSpacesAppend(a: string, b: string)
    ensures InsertSpaces(a + b) == InsertSpaces(a) + InsertSpaces(b)
    decreases |b|
  {
    if |b| == 0 {
      assert a + b == a;
    } else {
      var b' := b[..|b| - 1];
      assert (a + b)[..|a + b| - 1] == a + b';
      InsertSpacesAppend(a, b');
    }
  }

  lemma InsertSpacesChar(c: char)
    ensures InsertSpaces([c]) == Spaced(c)
  {
    assert [c][..0] == "";
  }

  /** Digits carry no markers, so spacing leaves a numeral alone. */
  lemma {:induction false} InsertSpacesDigits(s: string)
    requires AllDigits(s)
    ensures InsertSpaces(s) == s
    decreases |s|
  {
    if |s| > 0 {
      var p := s[..|s| - 1];
      assert AllDigits(p) by {
        forall k | 0 <= k < |p|
          ensures IsDigit(p[k])
        {
          assert p[k] == s[k];
        }
      }
      InsertSpacesDigits(p);
      assert IsDigit(s[|s| - 1]);
      assert s == p + [s[|s| - 1]];
    }
  }

  /** Spacing a numeral and its unit spaces only the unit. */
  lemma SpacedToken(n: nat, u: char)
    ensures InsertSpaces(NatToString(n) + [u]) == NatToString(n) + Spaced(u)
  {
    InsertSpacesAppend(NatToString(n), [u]);
    InsertSpacesDigits(NatToString(n));
    InsertSpacesChar(u);
  }

  /** Spacing two tokens spaces each of them. */
  lemma SpacedTwoTokens(a: nat, u: char, b: nat, v: char)
    ensures InsertSpaces((NatToString(a) + [u]) + (NatToString(b) + [v]))
         == (NatToString(a) + Spaced(u)) + (NatToString(b) + Spaced(v))
  {
    InsertSpacesAppend(NatToString(a) + [u], NatToString(b) + [v]);
    SpacedToken(a, u);
    SpacedToken(b, v);
  }

  /** Spacing three tokens spaces each of them. */
  lemma SpacedThreeTokens(a: nat, u: char, b: nat, v: char, c: nat, w: char)
    ensures InsertSpaces((NatToString(a) + [u]) + ((NatToString(b) + [v]) + (NatToString(c) + [w])))
         == (NatToString(a) + Spaced(u)) + ((NatToString(b) + Spaced(v)) + (NatToString(c) + Spaced(w)))
  {
    InsertSpacesAppend(NatToString(a) + [u], (NatToString(b) + [v]) + (NatToString(c) + [w]));
    SpacedToken(a, u);
    SpacedTwoTokens(b, v, c, w);
  }

  /**
   The spaced `Duration.String`: "Zs", "Ym Zs" or "Xh Ym Zs", one space
   after each hour and minute field.
   */
  lemma SpacedDurationString(secs: nat)
    ensures InsertSpaces(DurationString(secs)) ==
      if secs < 60 then NatToString(secs) + "s"
      else if secs < 3600 then (NatToString(secs / 60) + "m ") + (NatToString(secs % 60) + "s")
      else (NatToString(secs / 3600) + "h ") + ((NatToString(secs / 60 % 60) + "m ") + (NatToString(secs % 60) + "s"))
  {
    assert Spaced('h') == "h " && Spaced('m') == "m " && Spaced('s') == "s";
    if secs < 60 {
      SpacedToken(secs, 's');
    } else if secs < 3600 {
      MinutesString(secs);
      SpacedTwoTokens(secs / 60, 'm', secs % 60, 's');
    } else {
      HoursString(secs);
      SpacedThreeTokens(secs / 3600, 'h', secs / 60 % 60, 'm', secs % 60, 's');
    }
  }

  /** Zero renders as "0s", with no day count. */
  lemma ElapsedZero()
    ensures Elapsed(0) == "0s"
  {
    assert StripDays(WholeSeconds(0)) == DayCount(0, 0);
    SpacedDurationString(0);
    assert NatToString(0) == "0";
  }

  /** The numerals of one and of zero. */
  lemma SmallNumerals()
    ensures NatToString(0) == "0" && NatToString(1) == "1"
    ensures NatToString(24) == "24"
  {
    assert NatToString(2) == "2";
  }

  lemma SpacedHourMinuteSecond(secs: nat)
    requires secs == 3661
    ensures InsertSpaces(DurationString(secs)) == "1h 1m 1s"
  {
    assert secs / 3600 == 1 && secs / 60 % 60 == 1 && secs % 60 == 1;
    SpacedDurationString(secs);
    SmallNumerals();
  }

  lemma SpacedFullDay(secs: nat)
    requires secs == 86400
    ensures InsertSpaces(DurationString(secs)) == "24h 0m 0s"
  {
    assert secs / 3600 == 24 && secs / 60 % 60 == 0 && secs % 60 == 0;
    SpacedDurationString(secs);
    SmallNumerals();
  }

  /** One day, one hour, one minute and one second (plus a stray fraction). */
  lemma ElapsedDayHourMinuteSecond(dur: nat)
    requires dur == 90061 * Second + 999
    ensures Elapsed(dur) == "1d 1h 1m 1s"
  {
    var d := DayCount(1, 3661 * Second);
    assert StripDays(WholeSeconds(dur)) == d by {
      assert WholeSeconds(dur) == 90061 * Second;
      StripDaysUnique(90061 * Second, d);
    }
    var secs := d.rest / Second;
    assert InsertSpaces(DurationString(secs)) == "1h 1m 1s" by {
      SpacedHourMinuteSecond(secs);
    }
    assert NatToString(d.days) == "1" by {
      SmallNumerals();
    }
  }

  /** Exactly two days strip only one: the remainder is a full 24 hours. */
  lemma ElapsedTwoDays(dur: nat)
    requires dur == 2 * Day
    ensures Elapsed(dur) == "1d 24h 0m 0s"
  {
    var d := DayCount(1, Day);
    assert StripDays(WholeSeconds(dur)) == d by {
      assert WholeSeconds(dur) == 2 * Day;
      StripDaysUnique(2 * Day, d);
    }
    var secs := d.rest / Second;
    assert InsertSpaces(DurationString(secs)) == "24h 0m 0s" by {
      SpacedFullDay(secs);
    }
    assert NatToString(d.days) == "1" by {
      SmallNumerals();
    }
  }

  /**
   One of the two day-stripping loops of `formatSeconds`: while more than
   24 hours are left, count one more day and take 24 hours away. It starts
   from `days0` days and `t0` left over. On whole seconds, "more than 24
   hours" (measured in hours as a float) is the integer test `t > Day`.
   */
  method StripDayLoop(days0: nat, t0: nat) returns (days: nat, t: nat)
    requires days0 > 0 ==> t0 > 0
    ensures days * Day + t == days0 * Day + t0
    ensures t <= Day
    ensures days > 0 ==> t > 0
  {
    days, t := days0, t0;
    while t > Day
      invariant days * Day + t == days0 * Day + t0
      invariant days > 0 ==> t > 0
      decreases t
    {
      days := days + 1;
      t := t - Day;
    }
  }

  /** The character loop of `formatSeconds`, appending to `prefix`. */
  method AppendSpaced(prefix: string, s1: string) returns (s: string)
    ensures s == prefix + InsertSpaces(s1)
  {
    s := prefix;
    var i := 0;
    while i < |s1|
      invariant 0 <= i <= |s1|
      invariant s == prefix + InsertSpaces(s1[..i])
    {
      assert s1[..i + 1][..i] == s1[..i];
      s := s + [s1[i]];
      if s1[i] == 'h' || s1[i] == 'm' {
        s := s + " ";
      }
      i := i + 1;
    }
    assert s1[..i] == s1;
  }

  /**
   `formatSeconds` as written, with both day-stripping loops: it produces
   the reference text `Elapsed(dur)`.
   */
  method FormatSeconds(dur: nat) returns (s: string)
    ensures s == Elapsed(dur)
  {
    var t := dur - dur % Second;
    var days: nat := 0;
    days, t := StripDayLoop(days, t);
    days, t := StripDayLoop(days, t);
    StripDaysUnique(WholeSeconds(dur), DayCount(days, t));

    var s1 := DurationString(t / Second);
    var s2 := "";
    if days > 0 {
      s2 := NatToString(days) + "d ";
    }
    s := AppendSpaced(s2, s1);
  }
}
