// The fields technicalRecord (technical.py) reads off the property
// dictionary of `identify -verbose`, and the technical profile they fill in.
//
// Each field is '' when the image lacks its property. Four of them can end
// the run with an exception nothing catches: a geometry or a resolution
// that re.split does not cut in two (IndexError), a photometric
// interpretation other than RGB or black ('4' - 3 is a TypeError), and a
// timestamp strptime refuses (ValueError).

module TechnicalFields {
  import opened Common
  import opened Records
  import TechnicalProfile

  /** The property dictionary. */
  type Props = map<string, string>

  /** The value of `key`, or '' when the image lacks the property. */
  function Prop(prop: Props, key: string): string
  {
    if key in prop then prop[key] else ""
  }

  // ---------------------------------------------------------------------
  // re.split on a character class

  /** Python `re.split('[...]', s)` for the class `seps`: cut at every
    * character of the class. */
  function SplitChars(s: string, seps: set<char>): (parts: seq<string>)
    ensures |parts| >= 1
    decreases |s|
  {
    if s == [] then [""]
    else
      var rest := SplitChars(s[1..], seps);
      if s[0] in seps then [""] + rest else [[s[0]] + rest[0]] + rest[1..]
  }

  /** The index of the first character of the class, or |s|. */
  function FirstIn(s: string, seps: set<char>): (i: nat)
    ensures i <= |s|
    ensures forall j :: 0 <= j < i ==> s[j] !in seps
    ensures i < |s| ==> s[i] in seps
  {
    if s == [] then 0 else if s[0] in seps then 0 else 1 + FirstIn(s[1..], seps)
  }

  /** The first part is the text before the first character of the class;
    * there is a second part exactly when the class occurs, and the parts
    * after the first are the split of the text after it. */
  lemma {:induction false} SplitCharsHead(s: string, seps: set<char>)
    ensures SplitChars(s, seps)[0] == s[..FirstIn(s, seps)]
    ensures |SplitChars(s, seps)| >= 2 <==> FirstIn(s, seps) < |s|
    ensures FirstIn(s, seps) < |s| ==> SplitChars(s, seps)[1..] == SplitChars(s[FirstIn(s, seps) + 1..], seps)
    decreases |s|
  {
    if s != [] && s[0] !in seps {
      SplitCharsHead(s[1..], seps);
      if FirstIn(s, seps) < |s| {
        assert s[1..][FirstIn(s[1..], seps) + 1..] == s[FirstIn(s, seps) + 1..];
      }
    }
  }

  // ---------------------------------------------------------------------
  // The fields

  const GEOMETRY_SEPS: set<char> := {'x', '+'}
  const RESOLUTION_SEPS: set<char> := {'x'}

  /** Two fields cut out of one property: the texts before the first and
    * between the first and second separator, ('', '') without the
    * property, None (IndexError) when no separator occurs. */
  function Pair(prop: Props, key: string, seps: set<char>): Option<(string, string)>
  {
    if key !in prop then Some(("", ""))
    else
      var parts := SplitChars(prop[key], seps);
      if |parts| < 2 then None else Some((parts[0], parts[1]))
  }

  /** The pair is the text before the first separator and the text up to
    * the next one; it exists exactly when the property is missing or holds
    * a separator. */
  lemma PairMeaning(prop: Props, key: string, seps: set<char>)
    ensures key !in prop ==> Pair(prop, key, seps) == Some(("", ""))
    ensures key in prop ==>
      var s := prop[key];
      var i := FirstIn(s, seps);
      (Pair(prop, key, seps).Some? <==> i < |s|) &&
      (i < |s| ==> Pair(prop, key, seps).value == (s[..i], s[i + 1..][..FirstIn(s[i + 1..], seps)]))
  {
    if key in prop {
      var s := prop[key];
      SplitCharsHead(s, seps);
      if FirstIn(s, seps) < |s| {
        SplitCharsHead(s[FirstIn(s, seps) + 1..], seps);
      }
    }
  }

  /** 'filename': the text after the last '/', and its stem before the
    * first '.'; ('', '') without the property. */
  function FileNames(prop: Props): (names: (string, string))
    ensures "filename" !in prop ==> names == ("", "")
  {
    if "filename" in prop then
      var nameExt := AfterLast(prop["filename"], '/');
      (nameExt, BeforeFirst(nameExt, '.'))
    else ("", "")
  }

  /** With the property, the file name is the text after the last '/' of
    * the path, and the stem is that name up to its first '.'. */
  lemma FileNamesMeaning(prop: Props)
    requires "filename" in prop
    ensures var (nameExt, name) := FileNames(prop);
      LastPart(prop["filename"], '/', nameExt) &&
      |name| <= |nameExt| && name == nameExt[..|name|] && '.' !in name &&
      (|name| < |nameExt| ==> nameExt[|name|] == '.')
  {
    var nameExt := AfterLast(prop["filename"], '/');
    AfterLastShape(prop["filename"], '/');
    BeforeFirstShape(nameExt, '.');
  }

  /** 'Depth': a depth mentioning 8 is recorded as GrayScale, one
    * mentioning 24 (and not 8) as 24-bit color, any other as ''. */
  function DepthOf(prop: Props): (r: string)
    ensures r in {"", "GrayScale", "24-bit color"}
    ensures r == "GrayScale" <==> "Depth" in prop && Contains(prop["Depth"], "8")
    ensures r == "24-bit color" <==> "Depth" in prop && !Contains(prop["Depth"], "8") && Contains(prop["Depth"], "24")
  {
    if "Depth" !in prop then ""
    else if Contains(prop["Depth"], "8") then "GrayScale"
    else if Contains(prop["Depth"], "24") then "24-bit color"
    else ""
  }

  /** 'Compression': kept when it mentions None, otherwise recorded as
    * CCITT group 4. */
  function CompressionOf(prop: Props): (r: string)
    ensures "Compression" !in prop <==> r == "" && "Compression" !in prop
    ensures "Compression" in prop ==> (r == prop["Compression"] <==> Contains(prop["Compression"], "None") || prop["Compression"] == "CCITT group 4")
  {
    if "Compression" !in prop then ""
    else if !Contains(prop["Compression"], "None") then "CCITT group 4"
    else prop["Compression"]
  }

  /** 'tiff:photometric': the interpretation, the samples per pixel (3 for
    * RGB, 1 for black, 4 otherwise) and the extra samples. As written the
    * extra samples of 4 samples are `'4' - 3`, a TypeError; as intended
    * they are the samples beyond 3. */
  function Photometric(prop: Props, build: Build): Option<(string, string, string)>
  {
    if "tiff:photometric" !in prop then Some(("", "", ""))
    else
      var p := prop["tiff:photometric"];
      var samples := if Contains(p, "RGB") then "3" else if Contains(p, "black") then "1" else "4";
      if samples == "4" then
        if build == AsWritten then None else Some((p, samples, NatToString(4 - 3)))
      else Some((p, samples, "0"))
  }

  /** As written, an image whose photometric interpretation mentions
    * neither RGB nor black ends the run. */
  lemma PhotometricAsWrittenRaises(prop: Props)
    requires "tiff:photometric" in prop
    requires !Contains(prop["tiff:photometric"], "RGB") && !Contains(prop["tiff:photometric"], "black")
    ensures Photometric(prop, AsWritten).None?
  {
  }

  /** As intended, the photometric fields always exist, and the extra
    * samples are the samples per pixel beyond 3 (0 when there are at most
    * 3). */
  lemma PhotometricIntended(prop: Props)
    requires "tiff:photometric" in prop
    ensures Photometric(prop, Intended).Some?
    ensures var r := Photometric(prop, Intended).value;
      r.0 == prop["tiff:photometric"] && r.1 in {"1", "3", "4"} &&
      (forall i :: 0 <= i < |r.1| ==> IsDigit(r.1[i])) && (forall i :: 0 <= i < |r.2| ==> IsDigit(r.2[i])) &&
      DigitsValue(r.2) == if DigitsValue(r.1) > 3 then DigitsValue(r.1) - 3 else 0
  {
    var r := Photometric(prop, Intended).value;
    assert DigitsValue("4") == 4 && DigitsValue("3") == 3 && DigitsValue("1") == 1 && DigitsValue("0") == 0;
    if r.1 == "4" {
      NatToStringRoundTrip(1);
    }
  }

  // ---------------------------------------------------------------------
  // The scan timestamp: datetime.strptime(s, '%Y:%m:%d %H:%M:%S')
  //
  // Python's _strptime turns the format into a regular expression: %Y is
  // four digits, %m %d %H %M %S are one or two digits (the day may also be
  // a space and a digit), the ':' are literal and the space matches any run
  // of whitespace. The match must cover the whole text, and datetime then
  // refuses a year 0, a day past the month's end and a second of 60 or 61.

  /** A date and time of day as a datetime holds them. */
  datatype DateTime = DateTime(year: nat, month: nat, day: nat, hour: nat, minute: nat, second: nat)

  predicate LeapYear(y: nat)
  {
    y % 4 == 0 && (y % 100 != 0 || y % 400 == 0)
  }

  function DaysInMonth(y: nat, m: nat): nat
  {
    if m == 2 then (if LeapYear(y) then 29 else 28)
    else if m in {4, 6, 9, 11} then 30
    else 31
  }

  /** The values the datetime constructor accepts. */
  predicate ValidDateTime(t: DateTime)
  {
    1 <= t.year <= 9999 && 1 <= t.month <= 12 && 1 <= t.day <= DaysInMonth(t.year, t.month)
    && t.hour <= 23 && t.minute <= 59 && t.second <= 59
  }

  /** The characters str.isspace() holds for, which `\s` matches. */
  predicate IsSpace(c: char)
  {
    c == ' ' || '\t' <= c <= '\r' || '\U{1C}' <= c <= '\U{1F}' || c == '\U{85}' || c == '\U{A0}'
    || c == '\U{1680}' || '\U{2000}' <= c <= '\U{200A}' || c == '\U{2028}' || c == '\U{2029}'
    || c == '\U{202F}' || c == '\U{205F}' || c == '\U{3000}'
  }

  /** The length of the longest prefix of whitespace. */
  function LeadingSpaces(s: string): (n: nat)
    ensures n <= |s|
    ensures forall j :: 0 <= j < n ==> IsSpace(s[j])
    ensures n < |s| ==> !IsSpace(s[n])
  {
    if s == [] || !IsSpace(s[0]) then 0 else 1 + LeadingSpaces(s[1..])
  }

  /** The index of the first whitespace character, or |s|. */
  function FirstSpace(s: string): (n: nat)
    ensures n <= |s|
    ensures forall j :: 0 <= j < n ==> !IsSpace(s[j])
    ensures n < |s| ==> IsSpace(s[n])
  {
    if s == [] || IsSpace(s[0]) then 0 else 1 + FirstSpace(s[1..])
  }

  /** The texts the six directives matched, and the whitespace between
    * the date and the time. */
  datatype TimestampTexts = TimestampTexts(
    year: string, month: string, day: string, gap: string, hour: string, minute: string, second: string)

  /** The text the texts were cut from. */
  function Assemble(t: TimestampTexts): string
  {
    t.year + [':'] + (t.month + [':'] + (t.day + TimeText(t.gap, t.hour, t.minute, t.second)))
  }

  /** The whitespace and the time of day. */
  function TimeText(gap: string, hour: string, minute: string, second: string): string
  {
    gap + (hour + [':'] + (minute + [':'] + second))
  }

  /** The text before the first `c` and the text after it, or None when
    * `c` does not occur. */
  function CutAt(s: string, c: char): (r: Option<(string, string)>)
    ensures r.None? <==> c !in s
    ensures r.Some? ==> r.value.0 + [c] + r.value.1 == s && c !in r.value.0
  {
    if s == [] then None
    else if s[0] == c then Some(([], s[1..]))
    else
      match CutAt(s[1..], c)
      case None => None
      case Some((a, b)) =>
        assert s == [s[0]] + (a + [c] + b);
        Some(([s[0]] + a, b))
  }

  /** The day's text and what follows it: a space and one more character,
    * or the text up to the first whitespace. */
  function CutDay(u: string): (r: (string, string))
    ensures r.0 + r.1 == u
  {
    var k := if u != [] && u[0] == ' ' then (if |u| < 2 then |u| else 2) else FirstSpace(u);
    assert u[..k] + u[k..] == u;
    (u[..k], u[k..])
  }

  /** The hour, minute and second texts, cut at the two ':'. */
  function CutClock(time: string): (r: Option<(string, string, string)>)
    ensures r.Some? ==> r.value.0 + [':'] + (r.value.1 + [':'] + r.value.2) == time
  {
    match CutAt(time, ':')
    case None => None
    case Some((hour, afterHour)) =>
      match CutAt(afterHour, ':')
      case None => None
      case Some((minute, second)) => Some((hour, minute, second))
  }

  /** The whitespace after the day and the clock texts; None when there is
    * no whitespace or a ':' is missing. */
  function CutTime(u: string): (r: Option<(string, string, string, string)>)
    ensures r.Some? ==> IsGap(r.value.0) && TimeText(r.value.0, r.value.1, r.value.2, r.value.3) == u
  {
    var w := LeadingSpaces(u);
    if w == 0 then None
    else
      match CutClock(u[w..])
      case None => None
      case Some((hour, minute, second)) =>
        assert u == u[..w] + u[w..];
        Some((u[..w], hour, minute, second))
  }

  /** Cut a timestamp where the format's separators fall: four characters
    * and ':', the month up to the next ':', the day, the run of whitespace,
    * then the text up to ':', up to ':', and the rest. None when a
    * separator is missing. */
  function SplitTimestamp(s: string): (r: Option<TimestampTexts>)
    ensures r.Some? ==> Assemble(r.value) == s && IsGap(r.value.gap)
  {
    if |s| < 5 || s[4] != ':' then None
    else
      CutAround(s, 4);
      SplitDate(s[..4], s[5..])
  }

  lemma CutAround(s: string, i: nat)
    requires i < |s|
    ensures s == s[..i] + [s[i]] + s[i + 1..]
  {
  }

  /** The texts after the year's ':'. */
  function SplitDate(year: string, u: string): (r: Option<TimestampTexts>)
    ensures r.Some? ==> Assemble(r.value) == year + [':'] + u && IsGap(r.value.gap)
  {
    match CutAt(u, ':')
    case None => None
    case Some((month, afterMonth)) => SplitDay(year, month, afterMonth)
  }

  /** The texts after the month's ':'. */
  function SplitDay(year: string, month: string, v: string): (r: Option<TimestampTexts>)
    ensures r.Some? ==> r.value.year == year && r.value.month == month && IsGap(r.value.gap)
    ensures r.Some? ==> r.value.day + TimeText(r.value.gap, r.value.hour, r.value.minute, r.value.second) == v
  {
    var cut := CutDay(v);
    match CutTime(cut.1)
    case None => None
    case Some((gap, hour, minute, second)) => Some(TimestampTexts(year, month, cut.0, gap, hour, minute, second))
  }

  /** A non-empty run of whitespace. */
  predicate IsGap(g: string)
  {
    g != [] && forall i :: 0 <= i < |g| ==> IsSpace(g[i])
  }

  predicate AllDigits(s: string)
  {
    forall i :: 0 <= i < |s| ==> IsDigit(s[i])
  }

  /** The texts each directive's pattern accepts: %Y `\d\d\d\d`, %m
    * `1[0-2]|0[1-9]|[1-9]`, %d `3[01]|[12]\d|0[1-9]|[1-9]| [1-9]`, %H
    * `2[0-3]|[01]\d|\d`, %M `[0-5]\d|\d` and %S `6[01]|[0-5]\d|\d`. */
  predicate YearText(s: string)
  {
    |s| == 4 && AllDigits(s)
  }

  predicate MonthText(s: string)
  {
    (|s| == 1 && '1' <= s[0] <= '9')
    || (|s| == 2 && ((s[0] == '1' && '0' <= s[1] <= '2') || (s[0] == '0' && '1' <= s[1] <= '9')))
  }

  predicate DayText(s: string)
  {
    (|s| == 1 && '1' <= s[0] <= '9')
    || (|s| == 2 && s[0] == ' ' && '1' <= s[1] <= '9')
    || (|s| == 2 && ((s[0] == '3' && '0' <= s[1] <= '1') || ('1' <= s[0] <= '2' && IsDigit(s[1]))
                     || (s[0] == '0' && '1' <= s[1] <= '9')))
  }

  predicate HourText(s: string)
  {
    (|s| == 1 && IsDigit(s[0]))
    || (|s| == 2 && ((s[0] == '2' && '0' <= s[1] <= '3') || ('0' <= s[0] <= '1' && IsDigit(s[1]))))
  }

  predicate MinuteText(s: string)
  {
    (|s| == 1 && IsDigit(s[0])) || (|s| == 2 && '0' <= s[0] <= '5' && IsDigit(s[1]))
  }

  predicate SecondText(s: string)
  {
    MinuteText(s) || (|s| == 2 && s[0] == '6' && '0' <= s[1] <= '1')
  }

  predicate TextsAccepted(t: TimestampTexts)
  {
    YearText(t.year) && MonthText(t.month) && DayText(t.day)
    && HourText(t.hour) && MinuteText(t.minute) && SecondText(t.second)
  }

  /** Python int() of an accepted text (the day's leading space is
    * stripped). */
  function TextValue(s: string): nat
    requires MonthText(s) || DayText(s) || HourText(s) || SecondText(s)
  {
    if s[0] == ' ' then DigitsValue(s[1..]) else DigitsValue(s)
  }

  function TextsValue(t: TimestampTexts): DateTime
    requires TextsAccepted(t)
  {
    DateTime(DigitsValue(t.year), TextValue(t.month), TextValue(t.day),
      TextValue(t.hour), TextValue(t.minute), TextValue(t.second))
  }

  /** datetime.strptime(s, '%Y:%m:%d %H:%M:%S'), None for the ValueError. */
  function ParseTimestamp(s: string): (r: Option<DateTime>)
    ensures r.Some? ==> ValidDateTime(r.value)
  {
    var texts := SplitTimestamp(s);
    if texts.None? || !TextsAccepted(texts.value) then None
    else if ValidDateTime(TextsValue(texts.value)) then Some(TextsValue(texts.value))
    else None
  }

  /** CutAt undoes the joining of two texts at a `c` the first lacks. */
  lemma {:induction false} CutAtJoin(a: string, c: char, b: string)
    requires c !in a
    ensures CutAt(a + [c] + b, c) == Some((a, b))
  {
    if a != [] {
      assert (a + [c] + b)[1..] == a[1..] + [c] + b;
      CutAtJoin(a[1..], c, b);
      assert [a[0]] + a[1..] == a;
    }
  }

  lemma {:induction false} FirstInDigits(a: string, b: string)
    requires AllDigits(a) && b != [] && IsSpace(b[0])
    ensures FirstSpace(a + b) == |a|
  {
    if a != [] {
      assert !IsSpace(a[0]) by { assert IsDigit(a[0]); }
      assert (a + b)[1..] == a[1..] + b;
      FirstInDigits(a[1..], b);
    }
  }

  lemma CutDayJoin(day: string, rest: string)
    requires DayText(day) && rest != [] && IsSpace(rest[0])
    ensures CutDay(day + rest) == (day, rest)
  {
    if day[0] != ' ' {
      FirstInDigits(day, rest);
    }
    assert (day + rest)[..|day|] == day;
  }

  lemma CutClockJoin(hour: string, minute: string, second: string)
    requires HourText(hour) && MinuteText(minute)
    ensures CutClock(hour + [':'] + (minute + [':'] + second)) == Some((hour, minute, second))
  {
    CutAtJoin(hour, ':', minute + [':'] + second);
    CutAtJoin(minute, ':', second);
  }

  lemma CutTimeJoin(gap: string, hour: string, minute: string, second: string)
    requires IsGap(gap) && HourText(hour) && MinuteText(minute)
    ensures CutTime(TimeText(gap, hour, minute, second)) == Some((gap, hour, minute, second))
  {
    var time := hour + [':'] + (minute + [':'] + second);
    var u := gap + time;
    assert !IsSpace(hour[0]) by { assert IsDigit(hour[0]); }
    LeadingSpacesAt(gap, time);
    assert u[|gap|..] == time && u[..|gap|] == gap;
    CutClockJoin(hour, minute, second);
  }

  /** The splitting undoes Assemble on texts the patterns accept. */
  lemma JoinSplits(t: TimestampTexts)
    requires TextsAccepted(t) && IsGap(t.gap)
    ensures SplitTimestamp(Assemble(t)) == Some(t)
  {
    var s := Assemble(t);
    var u := t.month + [':'] + (t.day + TimeText(t.gap, t.hour, t.minute, t.second));
    assert s == t.year + [':'] + u;
    assert s[..4] == t.year && s[5..] == u;
    SplitDateJoin(t);
  }

  /** The texts after the year's ':' are cut back into the month and the
    * rest. */
  lemma SplitDateJoin(t: TimestampTexts)
    requires TextsAccepted(t) && IsGap(t.gap)
    ensures SplitDate(t.year, t.month + [':'] + (t.day + TimeText(t.gap, t.hour, t.minute, t.second))) == Some(t)
  {
    var v := t.day + TimeText(t.gap, t.hour, t.minute, t.second);
    assert ':' !in t.month by { assert IsDigit(t.month[0]) && (|t.month| == 2 ==> IsDigit(t.month[1])); }
    CutAtJoin(t.month, ':', v);
    SplitDayJoin(t);
  }

  /** The texts after the month's ':' are cut back into the day, the
    * whitespace and the clock. */
  lemma SplitDayJoin(t: TimestampTexts)
    requires TextsAccepted(t) && IsGap(t.gap)
    ensures SplitDay(t.year, t.month, t.day + TimeText(t.gap, t.hour, t.minute, t.second)) == Some(t)
  {
    var rest := TimeText(t.gap, t.hour, t.minute, t.second);
    assert rest[0] == t.gap[0];
    CutDayJoin(t.day, rest);
    CutTimeJoin(t.gap, t.hour, t.minute, t.second);
  }

  /** The whitespace run ends where text not starting with whitespace
    * begins. */
  lemma {:induction false} LeadingSpacesAt(a: string, b: string)
    requires forall i :: 0 <= i < |a| ==> IsSpace(a[i])
    requires b == [] || !IsSpace(b[0])
    ensures LeadingSpaces(a + b) == |a|
  {
    if a != [] {
      assert (a + b)[1..] == a[1..] + b;
      LeadingSpacesAt(a[1..], b);
    }
  }


  /** strptime converts a text exactly when it is made of texts the
    * directives' patterns accept, joined by ':' and a run of whitespace,
    * and they denote a real date and time; it yields their values. */
  lemma ParseMeaning(s: string, dt: DateTime)
    ensures ParseTimestamp(s) == Some(dt) <==>
      exists t :: Assemble(t) == s && TextsAccepted(t) && IsGap(t.gap) && TextsValue(t) == dt && ValidDateTime(dt)
  {
    if ParseTimestamp(s) == Some(dt) {
      var t := SplitTimestamp(s).value;
      assert Assemble(t) == s && IsGap(t.gap);
    }
    forall t | Assemble(t) == s && TextsAccepted(t) && IsGap(t.gap) && TextsValue(t) == dt && ValidDateTime(dt)
      ensures ParseTimestamp(s) == Some(dt)
    {
      JoinSplits(t);
    }
  }

  // ---------------------------------------------------------------------
  // The EDTF form

  lemma DigitsValueSnoc(s: string, c: char)
    requires AllDigits(s) && IsDigit(c)
    ensures DigitsValue(s + [c]) == 10 * DigitsValue(s) + (c as int - '0' as int)
  {
    assert (s + [c])[..|s|] == s;
  }

  /** strftime's two-digit fields (%m %d %H %M %S). */
  function Pad2(n: nat): (r: string)
    requires n < 100
    ensures |r| == 2 && AllDigits(r) && DigitsValue(r) == n
  {
    DigitCharValue(n / 10);
    DigitCharValue(n % 10);
    DigitsValueSnoc([], DigitChar(n / 10));
    DigitsValueSnoc([DigitChar(n / 10)], DigitChar(n % 10));
    [DigitChar(n / 10), DigitChar(n % 10)]
  }

  /** strftime's %Y: the year in four digits. */
  function Pad4(n: nat): (r: string)
    requires n < 10000
    ensures |r| == 4 && AllDigits(r) && DigitsValue(r) == n
  {
    var hi := Pad2(n / 100);
    var lo := Pad2(n % 100);
    DigitsValueSnoc(hi, lo[0]);
    DigitsValueSnoc(hi + [lo[0]], lo[1]);
    assert DigitsValue([lo[0]]) == lo[0] as int - '0' as int by { DigitsValueSnoc([], lo[0]); }
    DigitsValueSnoc([lo[0]], lo[1]);
    assert hi + [lo[0]] + [lo[1]] == hi + lo;
    assert [lo[0]] + [lo[1]] == lo;
    hi + lo
  }

  /** `tz[:3] + ":" + tz[3:]` of the clock's `%z` offset ("+0530" becomes
    * "+05:30"). */
  function TzOffset(tz: string): string
  {
    SliceTo(tz, 3) + ":" + SliceFrom(tz, 3)
  }

  /** The time of day as strftime writes "%H:%M:%S". */
  function Clock(dt: DateTime): string
    requires ValidDateTime(dt)
  {
    Pad2(dt.hour) + [':'] + (Pad2(dt.minute) + [':'] + Pad2(dt.second))
  }

  /** `date_format.strftime("%Y-%m-%d %H:%M:%S")` with its one space
    * replaced by 'T', followed by the clock's offset. */
  function EdtfTimestamp(dt: DateTime, tz: string): (r: string)
    requires ValidDateTime(dt)
    ensures |r| == 19 + |TzOffset(tz)| && r[19..] == TzOffset(tz)
  {
    Pad4(dt.year) + (['-'] + (Pad2(dt.month) + (['-'] + (Pad2(dt.day) + (['T'] + (Clock(dt) + TzOffset(tz)))))))
  }

  /** The EDTF date-time read back in the form of the TIFF timestamp: '-'
    * and 'T' turned back into ':' and ' ', and the offset dropped. */
  function TiffTimestamp(r: string): string
    requires |r| >= 19
  {
    var month := r[5..];
    var day := month[3..];
    var clock := day[3..];
    r[..4] + [':'] + (month[..2] + [':'] + (day[..2] + ([' '] + clock[..8])))
  }

  /** The conversion loses nothing: the EDTF form separates the date by '-'
    * and the time by 'T', and read back it is a timestamp strptime turns
    * into the same date and time. */
  lemma EdtfRoundTrip(dt: DateTime, tz: string)
    requires ValidDateTime(dt)
    ensures var r := EdtfTimestamp(dt, tz); r[4] == '-' && r[7] == '-' && r[10] == 'T'
    ensures ParseTimestamp(TiffTimestamp(EdtfTimestamp(dt, tz))) == Some(dt)
  {
    var r := EdtfTimestamp(dt, tz);
    var dayRest := Pad2(dt.day) + (['T'] + (Clock(dt) + TzOffset(tz)));
    var monthRest := Pad2(dt.month) + (['-'] + dayRest);
    assert r == Pad4(dt.year) + (['-'] + monthRest);
    assert r[..4] == Pad4(dt.year);
    assert r[5..] == monthRest;
    assert monthRest[3..] == dayRest;
    assert dayRest[3..] == Clock(dt) + TzOffset(tz);
    assert TiffTimestamp(r) == Assemble(TiffTexts(dt, " "));
    ParseFull(dt, " ");
  }

  /** The timestamp as a TIFF writer records it, every number in full,
    * with `gap` between the date and the time. */
  function TiffTexts(dt: DateTime, gap: string): TimestampTexts
    requires ValidDateTime(dt)
  {
    TimestampTexts(Pad4(dt.year), Pad2(dt.month), Pad2(dt.day), gap,
      Pad2(dt.hour), Pad2(dt.minute), Pad2(dt.second))
  }

  /** The same timestamp with the month, day and time written without
    * leading zeros ("2020:1:5 3:4:5"). */
  function UnpaddedTexts(dt: DateTime): TimestampTexts
    requires ValidDateTime(dt)
  {
    TimestampTexts(Pad4(dt.year), NatToString(dt.month), NatToString(dt.day), " ",
      NatToString(dt.hour), NatToString(dt.minute), NatToString(dt.second))
  }

  lemma DigitCharAt(d: nat)
    requires d < 10
    ensures DigitChar(d) as int == '0' as int + d
  {
  }

  /** A number below 100, written in two digits or without leading zeros,
    * is a text the pattern of each directive it fits accepts, and converts
    * back to the number. */
  lemma NumberTexts(n: nat)
    requires n < 100
    ensures 1 <= n <= 12 ==> MonthText(Pad2(n)) && MonthText(NatToString(n))
    ensures 1 <= n <= 31 ==> DayText(Pad2(n)) && DayText(NatToString(n))
    ensures n <= 23 ==> HourText(Pad2(n)) && HourText(NatToString(n))
    ensures n <= 59 ==> MinuteText(Pad2(n)) && MinuteText(NatToString(n))
    ensures n <= 59 ==> SecondText(Pad2(n)) && SecondText(NatToString(n))
    ensures Pad2(n)[0] != ' ' && NatToString(n)[0] != ' ' && DigitsValue(NatToString(n)) == n
  {
    NatToStringRoundTrip(n);
    DigitCharAt(n / 10);
    DigitCharAt(n % 10);
    if n >= 10 {
      assert NatToString(n) == [DigitChar(n / 10), DigitChar(n % 10)];
    }
  }

  /** strptime reads back every date and time written in full, with any
    * run of whitespace between the date and the time. */
  lemma ParseFull(dt: DateTime, gap: string)
    requires ValidDateTime(dt) && IsGap(gap)
    ensures ParseTimestamp(Assemble(TiffTexts(dt, gap))) == Some(dt)
  {
    NumberTexts(dt.month); NumberTexts(dt.day); NumberTexts(dt.hour); NumberTexts(dt.minute); NumberTexts(dt.second);
    var t := TiffTexts(dt, gap);
    assert TextsValue(t) == dt;
    JoinSplits(t);
  }

  /** strptime also reads back a date and time written without leading
    * zeros. */
  lemma ParseUnpadded(dt: DateTime)
    requires ValidDateTime(dt)
    ensures ParseTimestamp(Assemble(UnpaddedTexts(dt))) == Some(dt)
  {
    NumberTexts(dt.month); NumberTexts(dt.day); NumberTexts(dt.hour); NumberTexts(dt.minute); NumberTexts(dt.second);
    var t := UnpaddedTexts(dt);
    assert TextsValue(t) == dt;
    JoinSplits(t);
  }

  /** 'tiff:timestamp' in EDTF form, '' without the property, None
    * (ValueError) when strptime refuses it. */
  function ScanTimestamp(prop: Props, tz: string): Option<string>
  {
    if "tiff:timestamp" !in prop then Some("")
    else
      match ParseTimestamp(prop["tiff:timestamp"])
      case None => None
      case Some(dt) => Some(EdtfTimestamp(dt, tz))
  }

  /** "2020:1:5 3:4:5" and "2020:01:05  03:04:05" are converted as
    * "2020:01:05 03:04:05" is. */
  lemma ScanSameInstant(dt: DateTime, gap: string, tz: string)
    requires ValidDateTime(dt) && IsGap(gap)
    ensures ScanTimestamp(map["tiff:timestamp" := Assemble(UnpaddedTexts(dt))], tz) == Some(EdtfTimestamp(dt, tz))
    ensures ScanTimestamp(map["tiff:timestamp" := Assemble(TiffTexts(dt, gap))], tz) == Some(EdtfTimestamp(dt, tz))
  {
    ParseUnpadded(dt);
    ParseFull(dt, gap);
  }

  // ---------------------------------------------------------------------
  // All fields

  /** The values technicalRecord assigns before building the profile. */
  datatype Fields = Fields(
    fileName: string, stem: string,
    width: string, length: string, bitsPerSample: string, compression: string,
    photometric: string, samplesPerPixel: string, extraSamples: string,
    xResolution: string, yResolution: string, resolutionUnit: string, colorSpace: string,
    backgroundColor: string, borderColor: string, matteColor: string, transparentColor: string,
    rowsPerStrip: string, endian: string, orientation: string, scanDateTime: string,
    make: string, model: string, software: string)

  /** The eleven flags: each says whether the image has the property. */
  function PropFlags(prop: Props): TechnicalProfile.Flags
  {
    TechnicalProfile.Flags(
      "tiff:rows-per-strip" in prop, "tiff:endian" in prop, "Orientation" in prop,
      "tiff:photometric" in prop, "Background color" in prop, "Border color" in prop,
      "Matte color" in prop, "Transparent color" in prop,
      "tiff:make" in prop, "icc:model" in prop, "tiff:software" in prop)
  }

  /** The fields of an image, or None when one of them raises. */
  function Extract(prop: Props, tz: string, build: Build): Option<Fields>
  {
    var geometry := Pair(prop, "Geometry", GEOMETRY_SEPS);
    var photometric := Photometric(prop, build);
    var resolution := Pair(prop, "Resolution", RESOLUTION_SEPS);
    var scan := ScanTimestamp(prop, tz);
    if geometry.None? || photometric.None? || resolution.None? || scan.None? then None
    else
      var names := FileNames(prop);
      Some(Fields(names.0, names.1,
        geometry.value.0, geometry.value.1, DepthOf(prop), CompressionOf(prop),
        photometric.value.0, photometric.value.1, photometric.value.2,
        resolution.value.0, resolution.value.1, Prop(prop, "Units"), Prop(prop, "Colorspace"),
        Prop(prop, "Background color"), Prop(prop, "Border color"), Prop(prop, "Matte color"),
        Prop(prop, "Transparent color"),
        Prop(prop, "tiff:rows-per-strip"), Prop(prop, "tiff:endian"), Prop(prop, "Orientation"),
        scan.value, Prop(prop, "tiff:make"), Prop(prop, "icc:model"), Prop(prop, "tiff:software")))
  }

  /** The extraction raises exactly when the geometry or the resolution has
    * no separator, the photometric interpretation is neither RGB nor black
    * (as written), or the timestamp is not a valid date and time. */
  lemma ExtractRaises(prop: Props, tz: string, build: Build)
    ensures Extract(prop, tz, build).None? <==>
      ("Geometry" in prop && FirstIn(prop["Geometry"], GEOMETRY_SEPS) == |prop["Geometry"]|)
      || ("Resolution" in prop && FirstIn(prop["Resolution"], RESOLUTION_SEPS) == |prop["Resolution"]|)
      || (build == AsWritten && "tiff:photometric" in prop
          && !Contains(prop["tiff:photometric"], "RGB") && !Contains(prop["tiff:photometric"], "black"))
      || ("tiff:timestamp" in prop && ParseTimestamp(prop["tiff:timestamp"]).None?)
  {
    PairMeaning(prop, "Geometry", GEOMETRY_SEPS);
    PairMeaning(prop, "Resolution", RESOLUTION_SEPS);
  }

  /** A field of an optional property is set only when the image has the
    * property, so every value the profile receives has a key in the
    * profile shell. */
  lemma ExtractFlagged(prop: Props, tz: string, build: Build)
    requires Extract(prop, tz, build).Some?
    ensures Flagged(Extract(prop, tz, build).value, PropFlags(prop))
  {
  }

  // ---------------------------------------------------------------------
  // Filling the profile

  /** Where a field goes in the technical entity: under the image entity,
    * under the scanner entity, or directly. */
  datatype Slot = ImageSlot(k: Label) | ScannerSlot(k: Label) | TopSlot(k: Label)

  function PathOf(s: Slot): seq<Label>
  {
    match s
    case ImageSlot(k) => [Image, k]
    case ScannerSlot(k) => [Scanner, k]
    case TopSlot(k) => [k]
  }

  /** A top-level slot never names one of the two inner entities. */
  predicate ValidSlot(s: Slot)
  {
    s.TopSlot? ==> s.k != Image && s.k != Scanner
  }

  /** The fields of a dictionary, or none. */
  function FieldsOf(d: Doc): map<Label, Doc>
  {
    if d.Obj? then d.fields else map[]
  }

  /** The value at a slot, if the entities on its path exist. */
  function SlotValue(d: Doc, s: Slot): Option<Doc>
  {
    match s
    case TopSlot(k) => if Has(d, k) then Some(d.fields[k]) else None
    case ImageSlot(k) => if Has(d, Image) && Has(d.fields[Image], k) then Some(d.fields[Image].fields[k]) else None
    case ScannerSlot(k) => if Has(d, Scanner) && Has(d.fields[Scanner], k) then Some(d.fields[Scanner].fields[k]) else None
  }

  /** SlotValue is the value at the slot's path. */
  lemma SlotValueAt(d: Doc, s: Slot)
    ensures SlotValue(d, s) == At(d, PathOf(s))
  {
    var p := PathOf(s);
    if s.TopSlot? {
      assert p[1..] == [];
    } else if Has(d, p[0]) {
      var c := d.fields[p[0]];
      assert p[1..] == [s.k] && p[1..][1..] == [];
      assert At(d, p) == At(c, [s.k]);
      if Has(c, s.k) {
        assert At(c, [s.k]) == At(c.fields[s.k], []);
      }
    }
  }

  /** `metadataRecord[tech]...[key] = v`. */
  function SetSlot(d: Doc, s: Slot, v: string): Doc
  {
    match s
    case TopSlot(k) => Obj(FieldsOf(d)[k := Str(v)])
    case ImageSlot(k) => Obj(FieldsOf(d)[Image := Obj(FieldsOf(Child(d, Image))[k := Str(v)])])
    case ScannerSlot(k) => Obj(FieldsOf(d)[Scanner := Obj(FieldsOf(Child(d, Scanner))[k := Str(v)])])
  }

  /** The assignment puts `v` at the slot and leaves every other slot as it
    * was. */
  lemma SetSlotAt(d: Doc, s: Slot, v: string, t: Slot)
    requires d.Obj? && ValidSlot(s) && ValidSlot(t)
    ensures SlotValue(SetSlot(d, s, v), s) == Some(Str(v))
    ensures t != s ==> SlotValue(SetSlot(d, s, v), t) == SlotValue(d, t)
  {
  }

  /** Two dictionaries with the same keys at the top, in the image entity
    * and in the scanner entity. */
  predicate SameKeys(d1: Doc, d2: Doc)
  {
    (forall k :: Has(d1, k) <==> Has(d2, k))
    && (forall k :: Has(Child(d1, Image), k) <==> Has(Child(d2, Image), k))
    && (forall k :: Has(Child(d1, Scanner), k) <==> Has(Child(d2, Scanner), k))
  }

  /** Assigning an existing slot adds no key. */
  lemma SetSlotKeys(d: Doc, s: Slot, v: string)
    requires d.Obj? && ValidSlot(s) && SlotValue(d, s).Some?
    ensures SameKeys(SetSlot(d, s, v), d)
    ensures forall t :: ValidSlot(t) ==> (SlotValue(SetSlot(d, s, v), t).Some? <==> SlotValue(d, t).Some?)
  {
  }

  /** The assignments of the non-empty fields, in order. */
  function Fill(d: Doc, es: seq<(Slot, string)>): Doc
    decreases |es|
  {
    if es == [] then d
    else Fill(if es[0].1 != "" then SetSlot(d, es[0].0, es[0].1) else d, es[1..])
  }

  predicate DistinctSlots(es: seq<(Slot, string)>)
  {
    forall i, j :: 0 <= i < j < |es| ==> es[i].0 != es[j].0
  }

  /** After the assignments a slot holds its non-empty field, and a slot
    * no non-empty field names is as it was. */
  lemma {:induction false} FillAt(d: Doc, es: seq<(Slot, string)>, t: Slot)
    requires d.Obj? && ValidSlot(t) && DistinctSlots(es)
    requires forall i :: 0 <= i < |es| ==> ValidSlot(es[i].0)
    ensures forall i :: 0 <= i < |es| && es[i].0 == t && es[i].1 != "" ==> SlotValue(Fill(d, es), t) == Some(Str(es[i].1))
    ensures (forall i :: 0 <= i < |es| && es[i].0 == t ==> es[i].1 == "") ==> SlotValue(Fill(d, es), t) == SlotValue(d, t)
    decreases |es|
  {
    if es != [] {
      var d' := if es[0].1 != "" then SetSlot(d, es[0].0, es[0].1) else d;
      if es[0].1 != "" {
        SetSlotAt(d, es[0].0, es[0].1, t);
      }
      FillAt(d', es[1..], t);
      if es[0].0 == t && es[0].1 != "" {
        FillUntouched(d', es[1..], t);
      }
    }
  }

  /** A slot no later assignment names keeps its value. */
  lemma {:induction false} FillUntouched(d: Doc, es: seq<(Slot, string)>, t: Slot)
    requires d.Obj? && ValidSlot(t)
    requires forall i :: 0 <= i < |es| ==> ValidSlot(es[i].0) && es[i].0 != t
    ensures SlotValue(Fill(d, es), t) == SlotValue(d, t)
    decreases |es|
  {
    if es != [] {
      var d' := if es[0].1 != "" then SetSlot(d, es[0].0, es[0].1) else d;
      if es[0].1 != "" {
        SetSlotAt(d, es[0].0, es[0].1, t);
      }
      FillUntouched(d', es[1..], t);
    }
  }

  /** Assignments to existing slots only add no key. */
  lemma {:induction false} FillKeys(d: Doc, es: seq<(Slot, string)>)
    requires d.Obj?
    requires forall i :: 0 <= i < |es| ==> ValidSlot(es[i].0) && (es[i].1 != "" ==> SlotValue(d, es[i].0).Some?)
    ensures SameKeys(Fill(d, es), d)
    decreases |es|
  {
    if es != [] {
      var d' := if es[0].1 != "" then SetSlot(d, es[0].0, es[0].1) else d;
      if es[0].1 != "" {
        SetSlotKeys(d, es[0].0, es[0].1);
      }
      FillKeys(d', es[1..]);
    }
  }

  /** The fields in the order technicalRecord assigns them. */
  function Entries(f: Fields): seq<(Slot, string)>
  {
    [(ImageSlot(Width), f.width), (ImageSlot(Length), f.length),
     (ImageSlot(BitsPerSample), f.bitsPerSample), (ImageSlot(Compression), f.compression),
     (ImageSlot(PhotometricInterpretation), f.photometric), (ImageSlot(SamplesPerPixel), f.samplesPerPixel),
     (ImageSlot(XResolution), f.xResolution), (ImageSlot(YResolution), f.yResolution),
     (ImageSlot(ResolutionUnit), f.resolutionUnit), (ImageSlot(ColorSpace), f.colorSpace),
     (ImageSlot(ExtraSamples), f.extraSamples), (ImageSlot(BackgroundColor), f.backgroundColor),
     (ImageSlot(BorderColor), f.borderColor), (ImageSlot(MatteColor), f.matteColor),
     (ImageSlot(TransparentColor), f.transparentColor), (TopSlot(ScanDateTime), f.scanDateTime),
     (ScannerSlot(Make), f.make), (ScannerSlot(Model), f.model), (ScannerSlot(Software), f.software),
     (TopSlot(RowsPerStrip), f.rowsPerStrip), (TopSlot(Endian), f.endian),
     (TopSlot(Orientation), f.orientation)]
  }

  /** The position of a field's label in Entries. */
  function EntryRank(k: Label): int
  {
    match k
    case Width => 0 case Length => 1 case BitsPerSample => 2 case Compression => 3
    case PhotometricInterpretation => 4 case SamplesPerPixel => 5 case XResolution => 6
    case YResolution => 7 case ResolutionUnit => 8 case ColorSpace => 9 case ExtraSamples => 10
    case BackgroundColor => 11 case BorderColor => 12 case MatteColor => 13 case TransparentColor => 14
    case ScanDateTime => 15 case Make => 16 case Model => 17 case Software => 18
    case RowsPerStrip => 19 case Endian => 20 case Orientation => 21
    case _ => -1
  }

  /** Each field names a different slot, and a valid one. */
  lemma EntriesDistinct(f: Fields)
    ensures DistinctSlots(Entries(f))
    ensures forall i :: 0 <= i < |Entries(f)| ==> ValidSlot(Entries(f)[i].0)
  {
    var es := Entries(f);
    forall i | 0 <= i < |es|
      ensures EntryRank(es[i].0.k) == i && ValidSlot(es[i].0)
    {
    }
  }

  /** The technical entity: the shell of createtechnicalProfile with every
    * non-empty field assigned. */
  function TechDoc(f: Fields, flags: TechnicalProfile.Flags): Doc
  {
    Fill(TechnicalProfile.TechShell(flags), Entries(f))
  }

  /** Each non-empty field sits at its place in the entity; an empty one
    * leaves its place as the shell has it. */
  lemma TechDocFields(f: Fields, flags: TechnicalProfile.Flags, i: nat)
    requires i < |Entries(f)|
    ensures var e := Entries(f)[i];
      At(TechDoc(f, flags), PathOf(e.0)) ==
        if e.1 != "" then Some(Str(e.1)) else At(TechnicalProfile.TechShell(flags), PathOf(e.0))
  {
    var es := Entries(f);
    EntriesDistinct(f);
    FillAt(TechnicalProfile.TechShell(flags), es, es[i].0);
    SlotValueAt(TechDoc(f, flags), es[i].0);
    SlotValueAt(TechnicalProfile.TechShell(flags), es[i].0);
  }

  /** The slot is a key of the shell under the flags. */
  predicate InShell(flags: TechnicalProfile.Flags, s: Slot)
  {
    match s
    case ImageSlot(k) => TechnicalProfile.InImage(flags, k)
    case ScannerSlot(k) => TechnicalProfile.InScanner(flags, k)
    case TopSlot(k) => TechnicalProfile.InTech(flags, k) && k != Image && k != Scanner
  }

  /** The slots of the shell are those the flags call for. */
  lemma ShellSlot(flags: TechnicalProfile.Flags, s: Slot)
    requires ValidSlot(s)
    ensures SlotValue(TechnicalProfile.TechShell(flags), s).Some? <==> InShell(flags, s)
  {
    var shell := TechnicalProfile.TechShell(flags);
    match s
    case ImageSlot(k) =>
      assert Has(shell, Image) && shell.fields[Image] == TechnicalProfile.ImageShell(flags);
    case ScannerSlot(k) =>
      if TechnicalProfile.InScanner(flags, k) {
        assert Has(shell, Scanner) && shell.fields[Scanner] == TechnicalProfile.ScannerShell(flags);
      }
    case TopSlot(k) =>
  }

  /** Every optional field that is set has its flag. */
  predicate Flagged(f: Fields, fl: TechnicalProfile.Flags)
  {
    (f.extraSamples != "" ==> fl.ext) && (f.backgroundColor != "" ==> fl.bac)
    && (f.borderColor != "" ==> fl.bor) && (f.matteColor != "" ==> fl.mat)
    && (f.transparentColor != "" ==> fl.tra) && (f.rowsPerStrip != "" ==> fl.rps)
    && (f.endian != "" ==> fl.end) && (f.orientation != "" ==> fl.ori)
    && (f.make != "" ==> fl.mke) && (f.model != "" ==> fl.mod) && (f.software != "" ==> fl.sof)
  }

  /** With its flags set, every field that is set has a place in the shell. */
  lemma EntriesInShell(f: Fields, flags: TechnicalProfile.Flags)
    requires Flagged(f, flags)
    ensures forall i :: 0 <= i < |Entries(f)| && Entries(f)[i].1 != "" ==> InShell(flags, Entries(f)[i].0)
  {
    var es := Entries(f);
    forall i | 0 <= i < |es| && es[i].1 != "" ensures InShell(flags, es[i].0) {
      if i < 10 {
        assert es[i].0.ImageSlot? && TechnicalProfile.IsImageKey(es[i].0.k);
      } else if i < 15 {
        assert es[i].0.ImageSlot?;
      } else if i < 19 {
        assert i == 15 || es[i].0.ScannerSlot?;
      } else {
        assert es[i].0.TopSlot?;
      }
    }
  }

  /** When every optional field that is set has its flag, the entity keeps
    * the keys of the shell, so the flags read back off it are the ones it
    * was built from. */
  lemma TechDocFlags(f: Fields, flags: TechnicalProfile.Flags)
    requires Flagged(f, flags)
    ensures TechnicalProfile.FlagsOf(TechDoc(f, flags)) == flags
  {
    var shell := TechnicalProfile.TechShell(flags);
    var es := Entries(f);
    EntriesDistinct(f);
    EntriesInShell(f, flags);
    forall i | 0 <= i < |es| && es[i].1 != "" ensures SlotValue(shell, es[i].0).Some? {
      ShellSlot(flags, es[i].0);
    }
    FillKeys(shell, es);
    TechnicalProfile.ShellDeterminesFlags(flags);
  }
}
