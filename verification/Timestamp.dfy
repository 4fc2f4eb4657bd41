/**
 ISO 8601 timestamps to Unix seconds and back (PermissionSync.cpp, ReadDigits, Expect,
 ParseIso8601 and FormatUtc).

 `Stamp` is what a timestamp says, `Render` how it is written. The parser is proved to accept
 exactly the renderings of valid stamps, and to read back the stamp that was written.
 */
module Timestamps {
  import opened Options
  import opened Calendar

  datatype Zone = Utc(letter: char) | Offset(negative: bool, hours: int, minutes: int, colon: bool)

  // Seconds may be left out; a fraction, if written, has at least one digit and is dropped.
  datatype Seconds = NoSeconds | WithSeconds(second: int, fraction: string)

  datatype Stamp = Stamp(date: Date, separator: char, hour: int, minute: int, seconds: Seconds, zone: Zone)

  predicate IsDigit(c: char) {
    '0' <= c <= '9'
  }

  predicate AllDigits(s: string) {
    forall i :: 0 <= i < |s| ==> IsDigit(s[i])
  }

  predicate ValidZone(z: Zone) {
    match z
    case Utc(letter) => letter == 'Z' || letter == 'z'
    case Offset(_, h, m, _) => 0 <= h <= 23 && 0 <= m <= 59
  }

  // A leap second is accepted as :60.
  predicate ValidStamp(t: Stamp) {
    && 1970 <= t.date.y <= 9999 && IsDate(t.date)
    && (t.separator == 'T' || t.separator == 't' || t.separator == ' ')
    && 0 <= t.hour <= 23 && 0 <= t.minute <= 59
    && (t.seconds.WithSeconds? ==> 0 <= t.seconds.second <= 60 && AllDigits(t.seconds.fraction))
    && ValidZone(t.zone)
  }

  function Digit(d: int): (c: char)
    requires 0 <= d < 10
    ensures IsDigit(c) && c as int - 48 == d
  {
    (48 + d) as char
  }

  // The last `width` decimal digits of v.
  function Digits(v: int, width: nat): (s: string)
    requires v >= 0
    ensures |s| == width && AllDigits(s)
  {
    if width == 0 then "" else Digits(v / 10, width - 1) + [Digit(v % 10)]
  }

  function ValueOf(s: string): (v: int)
    requires AllDigits(s)
    ensures v >= 0
    decreases |s|
  {
    if s == "" then 0 else ValueOf(s[..|s| - 1]) * 10 + (s[|s| - 1] as int - 48)
  }

  function RenderZone(z: Zone): string
    requires ValidZone(z)
  {
    match z
    case Utc(letter) => [letter]
    case Offset(negative, h, m, colon) =>
      (if negative then "-" else "+") + Digits(h, 2) + (if colon then ":" else "") + Digits(m, 2)
  }

  function RenderTail(seconds: Seconds, zone: Zone): string
    requires ValidZone(zone)
    requires seconds.WithSeconds? ==> 0 <= seconds.second
  {
    match seconds
    case NoSeconds => RenderZone(zone)
    case WithSeconds(second, fraction) =>
      ":" + Digits(second, 2) + (if fraction == "" then "" else "." + fraction) + RenderZone(zone)
  }

  function RenderHead(t: Stamp): (s: string)
    requires ValidStamp(t)
    ensures |s| == 16
  {
    Digits(t.date.y, 4) + "-" + Digits(t.date.m, 2) + "-" + Digits(t.date.d, 2) + [t.separator] +
    Digits(t.hour, 2) + ":" + Digits(t.minute, 2)
  }

  function Render(t: Stamp): string
    requires ValidStamp(t)
  {
    RenderHead(t) + RenderTail(t.seconds, t.zone)
  }

  function OffsetSeconds(z: Zone): int {
    match z
    case Utc(_) => 0
    case Offset(negative, h, m, _) => (if negative then -1 else 1) * (h * 3600 + m * 60)
  }

  function SecondOf(s: Seconds): int {
    if s.NoSeconds? then 0 else if s.second == 60 then 59 else s.second
  }

  function UnixOf(t: Stamp): int {
    DaysFromCivil(t.date) * 86400 + t.hour * 3600 + t.minute * 60 + SecondOf(t.seconds) - OffsetSeconds(t.zone)
  }

  // ---------------------------------------------------------------- reading, as functions

  predicate DigitsAt(s: string, at: nat, width: nat) {
    at + width <= |s| && AllDigits(s[at..at + width])
  }

  function CountDigits(s: string): (n: nat)
    ensures n <= |s| && AllDigits(s[..n]) && (n < |s| ==> !IsDigit(s[n]))
  {
    if s == "" || !IsDigit(s[0]) then 0
    else
      var n := 1 + CountDigits(s[1..]);
      assert s[..n] == [s[0]] + s[1..][..n - 1];
      n
  }

  function ScanZone(s: string): Option<Zone> {
    if s == "" then None
    else if s[0] == 'Z' || s[0] == 'z' then if |s| == 1 then Some(Utc(s[0])) else None
    else if s[0] != '+' && s[0] != '-' then None
    else if !DigitsAt(s, 1, 2) then None
    else
      var colon := |s| > 3 && s[3] == ':';
      var at := if colon then 4 else 3;
      if !DigitsAt(s, at, 2) || |s| != at + 2 then None
      else
        var z := Offset(s[0] == '-', ValueOf(s[1..3]), ValueOf(s[at..at + 2]), colon);
        if ValidZone(z) then Some(z) else None
  }

  function ScanTail(s: string): Option<(Seconds, Zone)> {
    if s == "" || s[0] != ':' then
      var z := ScanZone(s);
      if z.Some? then Some((NoSeconds, z.value)) else None
    else if !DigitsAt(s, 1, 2) then None
    else
      var n := if |s| > 3 && s[3] == '.' then CountDigits(s[4..]) else 0;
      if |s| > 3 && s[3] == '.' && n == 0 then None
      else
        var at := if n == 0 then 3 else 4 + n;
        var z := ScanZone(s[at..]);
        if z.Some? then Some((WithSeconds(ValueOf(s[1..3]), if n == 0 then "" else s[4..at]), z.value)) else None
  }

  predicate HeadShape(s: string) {
    && |s| >= 16
    && DigitsAt(s, 0, 4) && s[4] == '-' && DigitsAt(s, 5, 2) && s[7] == '-' && DigitsAt(s, 8, 2)
    && (s[10] == 'T' || s[10] == 't' || s[10] == ' ')
    && DigitsAt(s, 11, 2) && s[13] == ':' && DigitsAt(s, 14, 2)
  }

  function Scan(s: string): Option<Stamp> {
    if !HeadShape(s) then None
    else
      var tail := ScanTail(s[16..]);
      if tail.None? then None
      else
        var t := Stamp(Date(ValueOf(s[0..4]), ValueOf(s[5..7]), ValueOf(s[8..10])), s[10],
                       ValueOf(s[11..13]), ValueOf(s[14..16]), tail.value.0, tail.value.1);
        if ValidStamp(t) then Some(t) else None
  }

  // ---------------------------------------------------------------- reading and writing agree

  function Pow10(n: nat): (p: int)
    ensures p >= 1
  {
    if n == 0 then 1 else 10 * Pow10(n - 1)
  }

  lemma {:induction false} ValueOfDigits(v: int, width: nat)
    requires 0 <= v < Pow10(width)
    ensures ValueOf(Digits(v, width)) == v
  {
    if width > 0 {
      ValueOfDigits(v / 10, width - 1);
      var s := Digits(v, width);
      assert s[..width - 1] == Digits(v / 10, width - 1);
    }
  }

  lemma {:induction false} DigitsOfValue(s: string)
    requires AllDigits(s)
    ensures ValueOf(s) < Pow10(|s|) && Digits(ValueOf(s), |s|) == s
    decreases |s|
  {
    if s != "" {
      var init := s[..|s| - 1];
      DigitsOfValue(init);
      assert s == init + [s[|s| - 1]];
      assert ValueOf(s) / 10 == ValueOf(init);
    }
  }

  lemma SmallPowers()
    ensures Pow10(2) == 100 && Pow10(4) == 10000
  {
    assert Pow10(1) == 10 && Pow10(2) == 100 && Pow10(3) == 1000;
  }

  // Where the parts of a written offset are found again; a and b are two characters each.
  lemma OffsetPieces(sign: string, a: string, colon: string, b: string)
    requires |sign| == 1 && |a| == 2 && |colon| <= 1 && |b| == 2
    ensures var s := sign + a + colon + b;
            && |s| == |colon| + 5 && s[0] == sign[0] && s[1..3] == a
            && s[3 + |colon|..5 + |colon|] == b && (if colon == "" then s[3] == b[0] else s[3] == colon[0])
  {
  }

  lemma OffsetReadsBack(negative: bool, hours: string, minutes: string, colon: bool)
    requires |hours| == 2 && |minutes| == 2 && AllDigits(hours) && AllDigits(minutes)
    requires ValueOf(hours) <= 23 && ValueOf(minutes) <= 59
    ensures var s := (if negative then "-" else "+") + hours + (if colon then ":" else "") + minutes;
            && ScanZone(s) == Some(Offset(negative, ValueOf(hours), ValueOf(minutes), colon))
            && s != "" && (s[0] == '+' || s[0] == '-')
  {
    OffsetPieces(if negative then "-" else "+", hours, if colon then ":" else "", minutes);
    assert IsDigit(minutes[0]);
  }

  lemma ZoneReadsBack(z: Zone)
    requires ValidZone(z)
    ensures ScanZone(RenderZone(z)) == Some(z)
    ensures RenderZone(z) != "" && RenderZone(z)[0] != ':' && RenderZone(z)[0] != '.' && !IsDigit(RenderZone(z)[0])
  {
    if z.Offset? {
      SmallPowers();
      ValueOfDigits(z.hours, 2);
      ValueOfDigits(z.minutes, 2);
      OffsetReadsBack(z.negative, Digits(z.hours, 2), Digits(z.minutes, 2), z.colon);
    }
  }

  lemma OffsetSplits(s: string, colon: bool)
    requires |s| == (if colon then 6 else 5) && (colon ==> s[3] == ':')
    ensures s == [s[0]] + s[1..3] + (if colon then ":" else "") + (if colon then s[4..6] else s[3..5])
  {
  }

  lemma ZoneWritesBack(s: string)
    requires ScanZone(s).Some?
    ensures ValidZone(ScanZone(s).value) && RenderZone(ScanZone(s).value) == s
  {
    if s[0] == '+' || s[0] == '-' {
      var colon := |s| > 3 && s[3] == ':';
      DigitsOfValue(s[1..3]);
      DigitsOfValue(if colon then s[4..6] else s[3..5]);
      OffsetSplits(s, colon);
    } else {
      assert s == [s[0]];
    }
  }

  lemma {:induction false} CountDigitsStops(digits: string, rest: string)
    requires AllDigits(digits) && (rest == "" || !IsDigit(rest[0]))
    ensures CountDigits(digits + rest) == |digits|
    decreases |digits|
  {
    if digits == "" {
      assert digits + rest == rest;
    } else {
      assert (digits + rest)[1..] == digits[1..] + rest;
      CountDigitsStops(digits[1..], rest);
    }
  }

  lemma SecondsReadBack(second: string, fraction: string, zone: Zone, r: string)
    requires |second| == 2 && AllDigits(second) && AllDigits(fraction)
    requires r != "" && r[0] != '.' && !IsDigit(r[0]) && ScanZone(r) == Some(zone)
    ensures ScanTail(":" + second + (if fraction == "" then "" else "." + fraction) + r) ==
            Some((WithSeconds(ValueOf(second), fraction), zone))
  {
    var s := ":" + second + (if fraction == "" then "" else "." + fraction) + r;
    assert s[1..3] == second;
    if fraction == "" {
      assert s[3..] == r && s[3] == r[0];
    } else {
      FractionPieces(second, fraction, r);
      CountDigitsStops(fraction, r);
    }
  }

  lemma FractionPieces(second: string, fraction: string, r: string)
    requires |second| == 2
    ensures var s := ":" + second + ("." + fraction) + r;
            && s[3] == '.' && s[4..] == fraction + r
            && s[4..4 + |fraction|] == fraction && s[4 + |fraction|..] == r
  {
  }

  lemma TailReadsBack(seconds: Seconds, zone: Zone)
    requires ValidZone(zone)
    requires seconds.WithSeconds? ==> 0 <= seconds.second <= 60 && AllDigits(seconds.fraction)
    ensures ScanTail(RenderTail(seconds, zone)) == Some((seconds, zone))
  {
    ZoneReadsBack(zone);
    if seconds.WithSeconds? {
      SmallPowers();
      ValueOfDigits(seconds.second, 2);
      SecondsReadBack(Digits(seconds.second, 2), seconds.fraction, zone, RenderZone(zone));
    }
  }

  lemma TailWritesBack(s: string)
    requires ScanTail(s).Some?
    ensures var (seconds, zone) := ScanTail(s).value;
            && ValidZone(zone) && (seconds.WithSeconds? ==> 0 <= seconds.second && AllDigits(seconds.fraction))
            && RenderTail(seconds, zone) == s
  {
    if s == "" || s[0] != ':' {
      ZoneWritesBack(s);
    } else {
      DigitsOfValue(s[1..3]);
      var n := if |s| > 3 && s[3] == '.' then CountDigits(s[4..]) else 0;
      if n == 0 {
        ZoneWritesBack(s[3..]);
        PlainTailSplits(s);
      } else {
        ZoneWritesBack(s[4 + n..]);
        FractionTailSplits(s, n);
      }
    }
  }

  lemma PlainTailSplits(s: string)
    requires |s| >= 3 && s[0] == ':'
    ensures s == ":" + s[1..3] + "" + s[3..]
  {
  }

  lemma FractionTailSplits(s: string, n: nat)
    requires |s| >= 4 + n && s[0] == ':' && s[3] == '.'
    ensures s[4..4 + n] == s[4..][..n]
    ensures s == ":" + s[1..3] + ("." + s[4..4 + n]) + s[4 + n..]
  {
  }

  lemma HeadPieces(y: string, m: string, d: string, separator: char, h: string, n: string, rest: string)
    requires |y| == 4 && |m| == 2 && |d| == 2 && |h| == 2 && |n| == 2
    ensures var s := y + "-" + m + "-" + d + [separator] + h + ":" + n + rest;
            && |s| >= 16 && s[16..] == rest && s[4] == '-' && s[7] == '-' && s[10] == separator && s[13] == ':'
            && s[0..4] == y && s[5..7] == m && s[8..10] == d && s[11..13] == h && s[14..16] == n
  {
  }

  lemma HeadReadsBack(t: Stamp, rest: string)
    requires ValidStamp(t)
    ensures var s := RenderHead(t) + rest;
            && HeadShape(s) && s[16..] == rest && s[10] == t.separator
            && s[0..4] == Digits(t.date.y, 4) && s[5..7] == Digits(t.date.m, 2) && s[8..10] == Digits(t.date.d, 2)
            && s[11..13] == Digits(t.hour, 2) && s[14..16] == Digits(t.minute, 2)
  {
    HeadPieces(Digits(t.date.y, 4), Digits(t.date.m, 2), Digits(t.date.d, 2), t.separator,
               Digits(t.hour, 2), Digits(t.minute, 2), rest);
  }

  lemma HeadValues(t: Stamp)
    requires ValidStamp(t)
    ensures ValueOf(Digits(t.date.y, 4)) == t.date.y && ValueOf(Digits(t.date.m, 2)) == t.date.m
    ensures ValueOf(Digits(t.date.d, 2)) == t.date.d
    ensures ValueOf(Digits(t.hour, 2)) == t.hour && ValueOf(Digits(t.minute, 2)) == t.minute
  {
    SmallPowers();
    ValueOfDigits(t.date.y, 4);
    ValueOfDigits(t.date.m, 2);
    ValueOfDigits(t.date.d, 2);
    ValueOfDigits(t.hour, 2);
    ValueOfDigits(t.minute, 2);
  }

  lemma HeadWritesBack(s: string, t: Stamp)
    requires HeadShape(s) && ValidStamp(t) && s[10] == t.separator
    requires ValueOf(s[0..4]) == t.date.y && ValueOf(s[5..7]) == t.date.m && ValueOf(s[8..10]) == t.date.d
    requires ValueOf(s[11..13]) == t.hour && ValueOf(s[14..16]) == t.minute
    ensures RenderHead(t) == s[..16]
  {
    DigitsOfValue(s[0..4]);
    DigitsOfValue(s[5..7]);
    DigitsOfValue(s[8..10]);
    DigitsOfValue(s[11..13]);
    DigitsOfValue(s[14..16]);
    assert s[..16] == s[0..4] + "-" + s[5..7] + "-" + s[8..10] + [s[10]] + s[11..13] + ":" + s[14..16];
  }

  /** Every valid stamp, however it is written, is accepted and read back as itself. */
  lemma ParseReadsRender(t: Stamp)
    requires ValidStamp(t)
    ensures Scan(Render(t)) == Some(t)
  {
    HeadReadsBack(t, RenderTail(t.seconds, t.zone));
    HeadValues(t);
    TailReadsBack(t.seconds, t.zone);
  }

  /** Nothing else is accepted: an accepted text is the rendering of the stamp it is read as. */
  lemma AcceptedIsRendered(s: string)
    requires Scan(s).Some?
    ensures ValidStamp(Scan(s).value) && Render(Scan(s).value) == s
  {
    var t := Scan(s).value;
    HeadWritesBack(s, t);
    TailWritesBack(s[16..]);
    assert s == s[..16] + s[16..];
  }

  // ---------------------------------------------------------------- the parser

  lemma AllDigitsGrows(s: string)
    requires s != "" && AllDigits(s[..|s| - 1]) && IsDigit(s[|s| - 1])
    ensures AllDigits(s)
  {
    forall i | 0 <= i < |s|
      ensures IsDigit(s[i])
    {
      assert i < |s| - 1 ==> s[i] == s[..|s| - 1][i];
    }
  }

  method ReadDigits(text: string, pos: nat, count: nat) returns (ok: bool, next: nat, value: int)
    ensures ok == DigitsAt(text, pos, count)
    ensures ok ==> next == pos + count && value == ValueOf(text[pos..pos + count])
  {
    next, value := pos, 0;
    if pos + count > |text| {
      return false, pos, 0;
    }
    for i := 0 to count
      invariant AllDigits(text[pos..pos + i]) && value == ValueOf(text[pos..pos + i])
    {
      var c := text[pos + i];
      if !IsDigit(c) {
        assert text[pos..pos + count][i] == c;
        return false, pos, 0;
      }
      ghost var read := text[pos..pos + i + 1];
      assert read[..i] == text[pos..pos + i] && read[i] == c;
      AllDigitsGrows(read);
      value := value * 10 + (c as int - 48);
    }
    return true, pos + count, value;
  }

  method ParseZone(text: string, start: nat) returns (ok: bool, offsetSeconds: int)
    requires start < |text|
    ensures ok == ScanZone(text[start..]).Some?
    ensures ok ==> offsetSeconds == OffsetSeconds(ScanZone(text[start..]).value)
  {
    var pos := start;
    offsetSeconds := 0;
    ghost var s := text[start..];
    if text[pos] == 'Z' || text[pos] == 'z' {
      pos := pos + 1;
    } else if text[pos] == '+' || text[pos] == '-' {
      var sign := if text[pos] == '-' then -1 else 1;
      pos := pos + 1;
      var offH, offM;
      ok, pos, offH := ReadDigits(text, pos, 2);
      assert start + 3 <= |text| ==> s[1..3] == text[start + 1..start + 3];
      if !ok {
        return;
      }
      if pos < |text| && text[pos] == ':' {
        pos := pos + 1;
      }
      ghost var at := pos - start;
      ok, pos, offM := ReadDigits(text, pos, 2);
      assert start + at + 2 <= |text| ==> s[at..at + 2] == text[start + at..start + at + 2];
      if !ok || offH > 23 || offM > 59 {
        return false, 0;
      }
      offsetSeconds := sign * (offH * 3600 + offM * 60);
    } else {
      return false, 0;
    }
    ok := pos == |text|;
  }

  // Seconds and fraction, if written; `next` is where the zone starts.
  method ParseSeconds(text: string, start: nat) returns (ok: bool, next: nat, second: int)
    requires start <= |text|
    ensures ok ==> start <= next <= |text| && second >= 0 && (next == start ==> second == 0)
    ensures var s := text[start..];
            if s == "" || s[0] != ':' then ok && next == start && second == 0
            else
              var n := if |s| > 3 && s[3] == '.' then CountDigits(s[4..]) else 0;
              && (ok <==> DigitsAt(s, 1, 2) && !(|s| > 3 && s[3] == '.' && n == 0))
              && (ok ==> next == start + (if n == 0 then 3 else 4 + n) && second == ValueOf(s[1..3]))
  {
    ghost var s := text[start..];
    next, second := start, 0;
    if start == |text| || text[start] != ':' {
      return true, start, 0;
    }
    var pos := start + 1;
    ok, pos, second := ReadDigits(text, pos, 2);
    assert start + 3 <= |text| ==> s[1..3] == text[start + 1..start + 3];
    if !ok {
      return false, start, 0;
    }
    if pos < |text| && text[pos] == '.' {
      pos := pos + 1;
      var first := pos;
      assert text[first..] == s[4..];
      while pos < |text| && IsDigit(text[pos])
        invariant first <= pos <= |text|
        invariant pos - first + CountDigits(text[pos..]) == CountDigits(text[first..])
      {
        assert text[pos..][1..] == text[pos + 1..];
        pos := pos + 1;
      }
      assert pos < |text| ==> text[pos..][0] == text[pos];
      if pos == first {
        return false, start, 0;
      }
    }
    next := pos;
  }

  /** Accepts exactly the renderings of valid stamps, and computes their Unix time. */
  method ParseIso8601(text: string) returns (ok: bool, unixSeconds: int)
    ensures ok <==> Scan(text).Some?
    ensures ok ==> unixSeconds == UnixOf(Scan(text).value)
    ensures ok <==> exists t :: ValidStamp(t) && Render(t) == text
  {
    if Scan(text).Some? {
      AcceptedIsRendered(text);
    }
    assert (exists t :: ValidStamp(t) && Render(t) == text) ==> Scan(text).Some? by {
      forall t | ValidStamp(t) && Render(t) == text
        ensures Scan(text).Some?
      {
        ParseReadsRender(t);
      }
    }
    ok, unixSeconds := Parse(text);
  }

  method Parse(text: string) returns (ok: bool, unixSeconds: int)
    ensures ok <==> Scan(text).Some?
    ensures ok ==> unixSeconds == UnixOf(Scan(text).value)
  {
    unixSeconds := 0;
    var year, month, day, hour, minute, second, offset;
    ok, year, month, day, hour, minute, second, offset := ParseFields(text);
    if ok {
      unixSeconds := DaysFromCivil(Date(year, month, day)) * 86400 + hour * 3600 + minute * 60 +
                     (if second == 60 then 59 else second) - offset;
    }
  }

  method ParseFields(text: string)
    returns (ok: bool, year: int, month: int, day: int, hour: int, minute: int, second: int, offset: int)
    ensures ok <==> Scan(text).Some?
    ensures ok ==>
      var t := Scan(text).value;
      && t.date == Date(year, month, day) && t.hour == hour && t.minute == minute && OffsetSeconds(t.zone) == offset
      && second == if t.seconds.NoSeconds? then 0 else t.seconds.second
  {
    second, offset := 0, 0;
    ok, year, month, day, hour, minute := ParseHead(text);
    if !ok {
      return;
    }
    var pos;
    ok, pos, second := ParseSeconds(text, 16);
    if !ok || pos >= |text| {
      ok := false;
      return;
    }
    ok, offset := ParseZone(text, pos);
    assert text[16..][pos - 16..] == text[pos..];
    if !ok {
      return;
    }
    RangesChecked(text);
    if year < 1970 || month < 1 || month > 12 || day < 1 || day > DaysInMonth(month) ||
       hour > 23 || minute > 59 || second > 60 {
      ok := false;
      return;
    }
    var leap := (year % 4 == 0 && year % 100 != 0) || year % 400 == 0;
    ok := !(month == 2 && day == 29 && !leap);
  }

  // The checks on the ranges of the fields, as the parser makes them.
  predicate InRange(c: Date, hour: int, minute: int, second: int) {
    && c.y >= 1970 && 1 <= c.m <= 12 && 1 <= c.d <= DaysInMonth(c.m) && hour <= 23 && minute <= 59 && second <= 60
    && !(c.m == 2 && c.d == 29 && !IsLeap(c.y))
  }

  lemma RangesChecked(text: string)
    requires HeadShape(text) && ScanTail(text[16..]).Some?
    ensures var (seconds, zone) := ScanTail(text[16..]).value;
            Scan(text).Some? <==>
            InRange(Date(ValueOf(text[0..4]), ValueOf(text[5..7]), ValueOf(text[8..10])),
                    ValueOf(text[11..13]), ValueOf(text[14..16]), if seconds.NoSeconds? then 0 else seconds.second)
  {
    YearFits(text);
    TailWritesBack(text[16..]);
  }

  lemma YearFits(text: string)
    requires HeadShape(text)
    ensures ValueOf(text[0..4]) <= 9999
  {
    SmallPowers();
    DigitsOfValue(text[0..4]);
  }

  function DaysInMonth(month: int): int
    requires 1 <= month <= 12
  {
    [31, 29, 31, 30, 31, 30, 31, 31, 30, 31, 30, 31][month - 1]
  }

  method ParseHead(text: string) returns (ok: bool, year: int, month: int, day: int, hour: int, minute: int)
    ensures ok == HeadShape(text)
    ensures ok ==> year == ValueOf(text[0..4]) && month == ValueOf(text[5..7]) && day == ValueOf(text[8..10])
    ensures ok ==> hour == ValueOf(text[11..13]) && minute == ValueOf(text[14..16])
  {
    year, month, day, hour, minute := 0, 0, 0, 0, 0;
    var pos := 0;
    ok, pos, year := ReadDigits(text, pos, 4);
    if !ok || !Expect(text, pos, '-') {
      ok := false;
      return;
    }
    ok, pos, month := ReadDigits(text, pos + 1, 2);
    if !ok || !Expect(text, pos, '-') {
      ok := false;
      return;
    }
    ok, pos, day := ReadDigits(text, pos + 1, 2);
    if !ok || pos >= |text| || (text[pos] != 'T' && text[pos] != 't' && text[pos] != ' ') {
      ok := false;
      return;
    }
    ok, pos, hour := ReadDigits(text, pos + 1, 2);
    if !ok || !Expect(text, pos, ':') {
      ok := false;
      return;
    }
    ok, pos, minute := ReadDigits(text, pos + 1, 2);
  }

  predicate Expect(text: string, pos: nat, c: char) {
    pos < |text| && text[pos] == c
  }

  // ---------------------------------------------------------------- printing

  // %0<width>d of a number that is not negative: at least `width` digits.
  function Padded(v: int, width: nat): string
    requires v >= 0
    decreases v, width
  {
    if v < Pow10(width) then Digits(v, width)
    else
      TenthIsLess(v, width);
      Padded(v / 10, if width == 0 then 0 else width - 1) + [Digit(v % 10)]
  }

  lemma TenthIsLess(v: int, width: nat)
    requires v >= Pow10(width)
    ensures 0 <= v / 10 < v
  {
  }

  function PaddedYear(y: int): string {
    if y >= 0 then Padded(y, 4) else "-" + Padded(-y, 3)
  }

  function FormatUtc(unixSeconds: int): string {
    var days := unixSeconds / 86400;
    DaysOfCivil(days);
    PrintFields(CivilFromDays(days), unixSeconds % 86400)
  }

  function PrintFields(c: Date, rem: int): string
    requires c.m >= 0 && c.d >= 0 && rem >= 0
  {
    PaddedYear(c.y) + "-" + Padded(c.m, 2) + "-" + Padded(c.d, 2) + " " +
    Padded(rem / 3600, 2) + ":" + Padded(rem % 3600 / 60, 2) + " UTC"
  }

  // The day and the second of it are recovered from their sum.
  lemma DayAndRest(unixSeconds: int, days: int, rest: int)
    requires 0 <= rest < 86400 && unixSeconds == days * 86400 + rest
    ensures unixSeconds / 86400 == days && unixSeconds % 86400 == rest
  {
  }

  // What FormatUtc prints, from its fields.
  function Line(c: Date, hour: int, minute: int): string
    requires c.y >= 0 && c.m >= 0 && c.d >= 0 && hour >= 0 && minute >= 0
  {
    Digits(c.y, 4) + "-" + Digits(c.m, 2) + "-" + Digits(c.d, 2) + " " +
    Digits(hour, 2) + ":" + Digits(minute, 2) + " UTC"
  }

  lemma PrintedFields(c: Date, hour: int, minute: int, second: int)
    requires 0 <= c.y <= 9999 && 0 <= c.m < 100 && 0 <= c.d < 100
    requires 0 <= hour < 24 && 0 <= minute < 60 && 0 <= second < 60
    ensures PrintFields(c, hour * 3600 + minute * 60 + second) == Line(c, hour, minute)
  {
    TimeOfDay(hour, minute, second);
    SmallPowers();
  }

  // The print of a moment given by its date and time of day.
  lemma PrintsMoment(c: Date, unixSeconds: int, rest: int)
    requires IsDate(c) && 0 <= rest < 86400 && unixSeconds == DaysFromCivil(c) * 86400 + rest
    ensures FormatUtc(unixSeconds) == PrintFields(c, rest)
  {
    var days := DayOfDate(c);
    PrintsNumber(c, days, unixSeconds, rest);
  }

  lemma DayOfDate(c: Date) returns (days: int)
    requires IsDate(c)
    ensures days == DaysFromCivil(c) && CivilFromDays(days) == c
  {
    days := DaysFromCivil(c);
    CivilOfDays(c);
  }

  lemma PrintsNumber(c: Date, days: int, unixSeconds: int, rest: int)
    requires 0 <= rest < 86400 && unixSeconds == days * 86400 + rest && CivilFromDays(days) == c && IsDate(c)
    ensures FormatUtc(unixSeconds) == PrintFields(c, rest)
  {
    DayAndRest(unixSeconds, days, rest);
  }

  lemma HeadText(t: Stamp, text: string)
    requires ValidStamp(t) && Render(t) == text
    ensures |text| >= 16
    ensures text[..10] + " " + text[11..16] + " UTC" == Line(t.date, t.hour, t.minute)
  {
    HeadReadsBack(t, RenderTail(t.seconds, t.zone));
    assert text == RenderHead(t) + RenderTail(t.seconds, t.zone);
    assert text[..10] == text[0..4] + "-" + text[5..7] + "-" + text[8..10];
    assert text[11..16] == text[11..13] + ":" + text[14..16];
  }

  function SecondsOfDay(t: Stamp): int {
    t.hour * 3600 + t.minute * 60 + SecondOf(t.seconds)
  }

  lemma MomentOfStamp(t: Stamp)
    requires ValidStamp(t) && t.zone.Utc?
    ensures 0 <= SecondsOfDay(t) < 86400 && UnixOf(t) == DaysFromCivil(t.date) * 86400 + SecondsOfDay(t)
  {
  }

  lemma StampPrints(t: Stamp)
    requires ValidStamp(t) && t.zone.Utc?
    ensures FormatUtc(UnixOf(t)) == PrintFields(t.date, SecondsOfDay(t))
  {
    MomentOfStamp(t);
    PrintsMoment(t.date, UnixOf(t), SecondsOfDay(t));
  }

  lemma StampLine(t: Stamp)
    requires ValidStamp(t)
    ensures PrintFields(t.date, SecondsOfDay(t)) == Line(t.date, t.hour, t.minute)
  {
    PrintedFields(t.date, t.hour, t.minute, SecondOf(t.seconds));
  }

  /** An accepted timestamp in zone Z prints back as its own date, hour and minute. */
  lemma PrintsBack(text: string)
    requires Scan(text).Some? && Scan(text).value.zone.Utc?
    ensures FormatUtc(UnixOf(Scan(text).value)) == text[..10] + " " + text[11..16] + " UTC"
  {
    AcceptedIsRendered(text);
    var t := Scan(text).value;
    StampPrints(t);
    StampLine(t);
    HeadText(t, text);
  }

  lemma TimeOfDay(hour: int, minute: int, second: int)
    requires 0 <= hour && 0 <= minute < 60 && 0 <= second < 60
    ensures var rest := hour * 3600 + minute * 60 + second;
            rest / 3600 == hour && rest % 3600 / 60 == minute
  {
  }

  // The same local time in zone Z.
  function InZoneZ(t: Stamp): Stamp {
    t.(zone := Utc('Z'))
  }

  lemma ZoneShifts(t: Stamp)
    requires ValidStamp(t) && t.zone.Offset?
    ensures ValidStamp(InZoneZ(t))
    ensures UnixOf(InZoneZ(t)) == UnixOf(t) + (if t.zone.negative then -1 else 1) * (t.zone.hours * 3600 + t.zone.minutes * 60)
  {
  }

  lemma ZoneIsLast(t: Stamp)
    requires ValidStamp(t) && t.zone.Offset?
    ensures var z, text := RenderZone(t.zone), Render(t);
            |z| <= |text| && text[|text| - |z|..] == z && text[..|text| - |z|] + "Z" == Render(InZoneZ(t))
  {
  }

  /**
   An offset shifts the result by exactly itself: replacing the written offset by Z gives an
   accepted timestamp that many seconds later.
   */
  lemma OffsetShifts(text: string)
    requires Scan(text).Some? && Scan(text).value.zone.Offset?
    ensures var t := Scan(text).value;
            var z := RenderZone(t.zone);
            && |z| <= |text| && text[|text| - |z|..] == z
            && Scan(text[..|text| - |z|] + "Z").Some?
            && UnixOf(Scan(text[..|text| - |z|] + "Z").value) ==
               UnixOf(t) + (if t.zone.negative then -1 else 1) * (t.zone.hours * 3600 + t.zone.minutes * 60)
  {
    var t := Scan(text).value;
    AcceptedIsRendered(text);
    ZoneShifts(t);
    ZoneIsLast(t);
    ParseReadsRender(InZoneZ(t));
  }

  // ---------------------------------------------------------------- second by second

  // The stamp one second later, with its own carries.
  function NextSecond(t: Stamp): Stamp
    requires t.seconds.WithSeconds?
  {
    var zero := t.seconds.(second := 0);
    if t.seconds.second < 59 then t.(seconds := t.seconds.(second := t.seconds.second + 1))
    else if t.minute < 59 then t.(minute := t.minute + 1, seconds := zero)
    else if t.hour < 23 then t.(hour := t.hour + 1, minute := 0, seconds := zero)
    else t.(date := NextDate(t.date), hour := 0, minute := 0, seconds := zero)
  }

  // A stamp in zone Z that names a second of its minute.
  predicate NamesSecond(t: Stamp) {
    ValidStamp(t) && t.zone.Utc? && t.seconds.WithSeconds? && t.seconds.second <= 59
  }

  // The last second a stamp can name.
  predicate IsLast(t: Stamp) {
    t.date == Date(9999, 12, 31) && t.hour == 23 && t.minute == 59 && t.seconds.WithSeconds? && t.seconds.second == 59
  }

  lemma NextSecondIsNamed(t: Stamp)
    requires NamesSecond(t)
    ensures NamesSecond(NextSecond(t)) <==> !IsLast(t)
  {
    NextDayIsNextNumber(t.date);
  }

  lemma NextSecondAdds(t: Stamp, days: int, next: int)
    requires NamesSecond(t) && days == DaysFromCivil(t.date) && next == DaysFromCivil(NextDate(t.date)) && next == days + 1
    ensures UnixOf(NextSecond(t)) == UnixOf(t) + 1
  {
    var seconds := t.hour * 3600 + t.minute * 60 + t.seconds.second;
    assert UnixOf(t) == days * 86400 + seconds;
    if t.seconds.second == 59 && t.minute == 59 && t.hour == 23 {
      assert UnixOf(NextSecond(t)) == next * 86400;
    } else {
      assert UnixOf(NextSecond(t)) == days * 86400 + seconds + 1;
    }
  }

  /**
   The text of the next second, with its carries through minute, hour, day, month and year, is
   accepted and has a Unix time one greater; only the last second of the year 9999 has none.
   */
  lemma NextSecondIsOneMore(text: string)
    requires Scan(text).Some? && NamesSecond(Scan(text).value)
    ensures var next := NextSecond(Scan(text).value);
            && (ValidStamp(next) <==> !IsLast(Scan(text).value))
            && (ValidStamp(next) ==> Scan(Render(next)) == Some(next) && UnixOf(next) == UnixOf(Scan(text).value) + 1)
  {
    var t := Scan(text).value;
    NextSecondIsNamed(t);
    NextDayIsNextNumber(t.date);
    NextSecondAdds(t, DaysFromCivil(t.date), DaysFromCivil(NextDate(t.date)));
    if ValidStamp(NextSecond(t)) {
      ParseReadsRender(NextSecond(t));
    }
  }

  lemma EpochHead(t: Stamp)
    requires ValidStamp(t) && t.date == Date(1970, 1, 1) && t.separator == 'T' && t.hour == 0 && t.minute == 0
    ensures RenderHead(t) == "1970-01-01T00:00"
  {
    EpochDigits();
  }

  lemma EpochDigits()
    ensures Digits(1970, 4) == "1970" && Digits(1, 2) == "01" && Digits(0, 2) == "00"
  {
    assert Digits(1, 1) == "1" && Digits(0, 1) == "0";
    assert Digits(19, 2) == "19";
    assert Digits(197, 3) == "197";
  }

  /** The count starts at the first second of 1970. */
  lemma EpochIsZero(text: string)
    requires text == "1970-01-01T00:00" + ":00Z"
    ensures Scan(text).Some? && UnixOf(Scan(text).value) == 0
  {
    var epoch := Stamp(Date(1970, 1, 1), 'T', 0, 0, WithSeconds(0, ""), Utc('Z'));
    EpochHead(epoch);
    EpochDigits();
    assert RenderTail(epoch.seconds, epoch.zone) == ":00Z";
    ParseReadsRender(epoch);
    DayZero();
  }

  // The second a stamp counts for.
  function CountedSecond(seconds: Seconds): int {
    match seconds
    case NoSeconds => 0
    case WithSeconds(second, _) => if second == 60 then 59 else second
  }

  /** A minute without seconds is its second 00, a leap second is :59, and a fraction changes nothing. */
  lemma SecondsByDefault(t: Stamp)
    requires ValidStamp(t)
    ensures var named := t.(seconds := WithSeconds(CountedSecond(t.seconds), ""));
            && Scan(Render(t)) == Some(t) && ValidStamp(named) && Scan(Render(named)) == Some(named)
            && UnixOf(t) == UnixOf(named)
  {
    var named := t.(seconds := WithSeconds(CountedSecond(t.seconds), ""));
    ParseReadsRender(t);
    ParseReadsRender(named);
  }
}
