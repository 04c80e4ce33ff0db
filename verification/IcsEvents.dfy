/**
 Calendar events (packages/domain/src/services.ts, parseIcsBusyWindows): reading the
 VEVENT components of section 3.6.1 of RFC 5545, against printing them.
 */
module IcsEvents {
  import opened Common
  import opened IcsLines

  // Content lines: name, parameters, value

  datatype Field = Field(value: string, params: map<string, string>)

  datatype ContentLine = ContentLine(name: string, params: map<string, string>, value: string)

  function UpperChar(c: char): char {
    if 'a' <= c <= 'z' then ((c as int - 'a' as int + 'A' as int) as char) else c
  }

  function Upper(text: string): string {
    seq(|text|, i requires 0 <= i < |text| => UpperChar(text[i]))
  }

  function Split(text: string, sep: char): seq<string>
    decreases |text|
  {
    var i := IndexOf(text, sep);
    if i == |text| then [text] else [text[..i]] + Split(text[i + 1..], sep)
  }

  /** Later parameters win; those without a name or a value are dropped. */
  function AddParam(params: map<string, string>, param: string): map<string, string> {
    var i := IndexOf(param, '=');
    if 0 < i && i + 1 < |param| then params[Upper(param[..i]) := param[i + 1..]] else params
  }

  function ParamsOf(pieces: seq<string>): map<string, string> {
    if pieces == [] then map[] else AddParam(ParamsOf(pieces[..|pieces| - 1]), pieces[|pieces| - 1])
  }

  function ParseLine(line: string): Option<ContentLine> {
    var i := IndexOf(line, ':');
    if i == |line| || i == 0 then None
    else
      var pieces := Split(line[..i], ';');
      Some(ContentLine(Upper(pieces[0]), ParamsOf(pieces[1..]), line[i + 1..]))
  }

  // Dates

  datatype Stamp = Stamp(year: nat, month: nat, day: nat, hour: nat, minute: nat, second: nat)

  /** Instants of UTC and of zoned date-times, and the hash that names events without a UID. */
  datatype Calendar = Calendar(utc: Stamp -> int, zoned: (Stamp, string) -> int, hash: (string, string, string) -> string)

  predicate IsDigit(c: char) {
    '0' <= c <= '9'
  }

  predicate AreDigits(text: string) {
    forall i | 0 <= i < |text| :: IsDigit(text[i])
  }

  function DigitOf(n: nat): char
    requires n < 10
  {
    ('0' as int + n) as char
  }

  function NumberOf(text: string): nat
    requires AreDigits(text)
  {
    if text == [] then 0 else 10 * NumberOf(text[..|text| - 1]) + (text[|text| - 1] as int - '0' as int)
  }

  /** `n` in exactly `width` digits. */
  function Digits(n: nat, width: nat): string {
    if width == 0 then "" else Digits(n / 10, width - 1) + [DigitOf(n % 10)]
  }

  function Power10(width: nat): nat {
    if width == 0 then 1 else 10 * Power10(width - 1)
  }

  lemma {:induction false} DigitsRoundTrip(n: nat, width: nat)
    requires n < Power10(width)
    ensures |Digits(n, width)| == width && AreDigits(Digits(n, width)) && NumberOf(Digits(n, width)) == n
  {
    if width > 0 {
      DigitsRoundTrip(n / 10, width - 1);
      assert Digits(n, width)[..width - 1] == Digits(n / 10, width - 1);
    }
  }

  predicate AreDigitsAt(text: string, from: nat, width: nat) {
    from + width <= |text| && AreDigits(text[from..from + width])
  }

  function NumberAt(text: string, from: nat, width: nat): nat
    requires AreDigitsAt(text, from, width)
  {
    NumberOf(text[from..from + width])
  }

  /** The tail of the pattern after "YYYYMMDDTHHMM": seconds, the UTC mark, both or neither. */
  predicate IsTimeTail(text: string) {
    || |text| == 13
    || (|text| == 14 && text[13] == 'Z')
    || (|text| == 15 && AreDigitsAt(text, 13, 2))
    || (|text| == 16 && AreDigitsAt(text, 13, 2) && text[15] == 'Z')
  }

  /** parseIcsDateTime: an instant, or nothing when the pattern does not match. */
  function ParseDateTime(cal: Calendar, text: string, timezone: string): Option<int> {
    if !AreDigitsAt(text, 0, 4) || !AreDigitsAt(text, 4, 2) || !AreDigitsAt(text, 6, 2) then None
    else
      var date := Stamp(NumberAt(text, 0, 4), NumberAt(text, 4, 2), NumberAt(text, 6, 2), 0, 0, 0);
      if |text| == 8 then Some(cal.zoned(date, timezone))
      else if text[8] != 'T' || !AreDigitsAt(text, 9, 2) || !AreDigitsAt(text, 11, 2) || !IsTimeTail(text) then None
      else
        var stamp := date.(hour := NumberAt(text, 9, 2), minute := NumberAt(text, 11, 2),
                           second := if |text| >= 15 then NumberAt(text, 13, 2) else 0);
        if text[|text| - 1] == 'Z' then Some(cal.utc(stamp))
        else Some(cal.zoned(stamp.(second := 0), timezone) + stamp.second * 1000)
  }

  // Events

  datatype BusyWindow = BusyWindow(id: string, start: int, end: int, timezone: string, title: Option<string>)

  /** Later fields of the same name win. */
  function FieldsOf(lines: seq<string>): map<string, Field> {
    if lines == [] then map[]
    else
      var earlier := FieldsOf(lines[..|lines| - 1]);
      match ParseLine(lines[|lines| - 1])
      case None => earlier
      case Some(line) => earlier[line.name := Field(line.value, line.params)]
  }

  function ValueOf(fields: map<string, Field>, name: string): Option<string> {
    if name in fields then Some(fields[name].value) else None
  }

  function TimezoneOf(start: Field, end: Field, fallback: string): string {
    if "TZID" in start.params then start.params["TZID"] else if "TZID" in end.params then end.params["TZID"] else fallback
  }

  function ParseEvent(cal: Calendar, lines: seq<string>, fallback: string): Option<BusyWindow> {
    WindowOf(cal, FieldsOf(lines), fallback)
  }

  function WindowOf(cal: Calendar, fields: map<string, Field>, fallback: string): Option<BusyWindow> {
    if "DTSTART" !in fields || "DTEND" !in fields then None
    else
      var start, end := fields["DTSTART"], fields["DTEND"];
      var timezone := TimezoneOf(start, end, fallback);
      var from, to := ParseDateTime(cal, start.value, timezone), ParseDateTime(cal, end.value, timezone);
      if from.None? || to.None? || to.value <= from.value then None
      else
        var title := ValueOf(fields, "SUMMARY");
        Some(BusyWindow(ValueOf(fields, "UID").GetOr("ics:" + cal.hash(start.value, end.value, title.GetOr(""))),
                        from.value, to.value, timezone, title))
  }

  /** Where the scan of the lines stands. */
  datatype Scan = Scan(windows: seq<BusyWindow>, eventLines: seq<string>, insideEvent: bool)

  function ScanLine(cal: Calendar, scan: Scan, line: string, fallback: string): Scan {
    if line == "BEGIN:VEVENT" then Scan(scan.windows, [], true)
    else if line == "END:VEVENT" then
      var window := ParseEvent(cal, scan.eventLines, fallback);
      Scan(scan.windows + (if window.Some? then [window.value] else []), [], false)
    else if scan.insideEvent then scan.(eventLines := scan.eventLines + [line])
    else scan
  }

  function ScanLines(cal: Calendar, scan: Scan, lines: seq<string>, fallback: string): Scan
    decreases |lines|
  {
    if lines == [] then scan else ScanLines(cal, ScanLine(cal, scan, lines[0], fallback), lines[1..], fallback)
  }

  function ParseWindows(cal: Calendar, lines: seq<string>, fallback: string): seq<BusyWindow> {
    ScanLines(cal, Scan([], [], false), lines, fallback).windows
  }

  method ParseIcsBusyWindows(cal: Calendar, space: Space, contents: string, fallback: string) returns (windows: seq<BusyWindow>)
    ensures windows == ParseWindows(cal, Unfold(space, SplitLines(contents)), fallback)
  {
    var lines := UnfoldIcsLines(space, contents);
    windows := [];
    var eventLines: seq<string> := [];
    var insideEvent := false;
    for k := 0 to |lines|
      invariant ScanLines(cal, Scan(windows, eventLines, insideEvent), lines[k..], fallback)
             == ScanLines(cal, Scan([], [], false), lines, fallback)
    {
      var line := lines[k];
      assert lines[k..][1..] == lines[k + 1..];
      if line == "BEGIN:VEVENT" {
        insideEvent := true;
        eventLines := [];
        continue;
      }
      if line == "END:VEVENT" {
        var window := ParseEvent(cal, eventLines, fallback);
        windows := windows + if window.Some? then [window.value] else [];
        insideEvent := false;
        eventLines := [];
        continue;
      }
      if insideEvent {
        eventLines := eventLines + [line];
      }
    }
  }

  // Property lines: name, parameters and value, in print

  datatype Param = Param(name: string, value: string)

  datatype Property = Property(name: string, params: seq<Param>, value: string)

  function ParamText(param: Param): string {
    param.name + ['='] + param.value
  }

  function ParamTexts(params: seq<Param>): seq<string> {
    seq(|params|, i requires 0 <= i < |params| => ParamText(params[i]))
  }

  function Join(pieces: seq<string>, sep: char): string
    requires pieces != []
  {
    if |pieces| == 1 then pieces[0] else pieces[0] + [sep] + Join(pieces[1..], sep)
  }

  function LeftOf(property: Property): string {
    Join([property.name] + ParamTexts(property.params), ';')
  }

  /** `name;key=value:value`, with any number of parameters. */
  function PropertyLine(property: Property): string {
    LeftOf(property) + [':'] + property.value
  }

  predicate FitsLeft(text: string) {
    text != "" && ':' !in text && ';' !in text
  }

  /** Either part may be empty, and the value may hold further equals signs. */
  predicate IsParam(param: Param) {
    ':' !in param.name && ';' !in param.name && '=' !in param.name && ':' !in param.value && ';' !in param.value
  }

  predicate IsProperty(property: Property) {
    FitsLeft(property.name) && forall i | 0 <= i < |property.params| :: IsParam(property.params[i])
  }

  /** Equal but for the case of letters, the name being in capitals. */
  predicate IsNamed(text: string, name: string) {
    && |text| == |name|
    && forall i | 0 <= i < |text| :: text[i] == name[i] || ('A' <= name[i] <= 'Z' && text[i] as int == name[i] as int + 32)
  }

  predicate IsCapital(name: string) {
    forall i | 0 <= i < |name| :: !('a' <= name[i] <= 'z')
  }

  /** The last parameter of the name that has a value. */
  function LastParam(params: seq<Param>, name: string): Option<string> {
    if params == [] then None
    else if IsNamed(params[|params| - 1].name, name) && params[|params| - 1].value != "" then Some(params[|params| - 1].value)
    else LastParam(params[..|params| - 1], name)
  }

  /** The last property of the name. */
  function LastNamed(properties: seq<Property>, name: string): Option<Property> {
    if properties == [] then None
    else if IsNamed(properties[|properties| - 1].name, name) then Some(properties[|properties| - 1])
    else LastNamed(properties[..|properties| - 1], name)
  }

  lemma UpperIsNamed(text: string, name: string)
    requires IsCapital(name)
    ensures Upper(text) == name <==> IsNamed(text, name)
  {
    if IsNamed(text, name) {
      assert forall i :: 0 <= i < |text| ==> Upper(text)[i] == name[i];
    }
  }

  lemma SplitAtFirst(before: string, sep: char, after: string)
    requires sep !in before
    ensures Split(before + [sep] + after, sep) == [before] + Split(after, sep)
  {
    var whole := before + [sep] + after;
    IndexOfMark(before, sep, after);
    assert whole[..|before|] == before && whole[|before| + 1..] == after;
  }

  lemma {:induction false} SplitUndoesJoin(pieces: seq<string>, sep: char)
    requires pieces != [] && forall i :: 0 <= i < |pieces| ==> sep !in pieces[i]
    ensures Split(Join(pieces, sep), sep) == pieces
  {
    if |pieces| == 1 {
      NoMark(pieces[0], sep);
    } else {
      SplitAtFirst(pieces[0], sep, Join(pieces[1..], sep));
      SplitUndoesJoin(pieces[1..], sep);
      assert pieces == [pieces[0]] + pieces[1..];
    }
  }

  lemma {:induction false} JoinHas(pieces: seq<string>, sep: char, c: char)
    requires pieces != [] && c != sep && forall i :: 0 <= i < |pieces| ==> c !in pieces[i]
    ensures c !in Join(pieces, sep)
    ensures |Join(pieces, sep)| >= |pieces[0]|
  {
    if |pieces| > 1 {
      JoinHas(pieces[1..], sep, c);
    }
  }

  lemma LeftIsSplit(property: Property)
    requires IsProperty(property)
    ensures Split(LeftOf(property), ';') == [property.name] + ParamTexts(property.params)
    ensures ':' !in LeftOf(property) && LeftOf(property) != ""
  {
    var pieces := [property.name] + ParamTexts(property.params);
    forall i | 0 <= i < |pieces| ensures ';' !in pieces[i] && ':' !in pieces[i] {
      if i > 0 {
        assert IsParam(property.params[i - 1]);
      }
    }
    SplitUndoesJoin(pieces, ';');
    JoinHas(pieces, ';', ':');
  }

  lemma ParamIsAdded(params: map<string, string>, param: Param)
    requires IsParam(param)
    ensures AddParam(params, ParamText(param)) == if param.name == "" || param.value == "" then params else params[Upper(param.name) := param.value]
  {
    var text := ParamText(param);
    IndexOfMark(param.name, '=', param.value);
    assert text[..|param.name|] == param.name && text[|param.name| + 1..] == param.value;
  }

  ghost predicate AreParams(found: map<string, string>, params: seq<Param>) {
    forall name :: IsCapital(name) && name != "" ==>
      (if name in found then LastParam(params, name) == Some(found[name]) else LastParam(params, name) == None)
  }

  lemma {:induction false} ParamsAreRead(params: seq<Param>)
    requires forall i :: 0 <= i < |params| ==> IsParam(params[i])
    ensures AreParams(ParamsOf(ParamTexts(params)), params)
  {
    if params != [] {
      var front, last := params[..|params| - 1], params[|params| - 1];
      ParamsAreRead(front);
      var texts := ParamTexts(params);
      assert texts[..|texts| - 1] == ParamTexts(front) && texts[|texts| - 1] == ParamText(last);
      ParamIsAdded(ParamsOf(ParamTexts(front)), last);
      forall name | IsCapital(name) ensures Upper(last.name) == name <==> IsNamed(last.name, name) {
        UpperIsNamed(last.name, name);
      }
    }
  }

  /** A printed property reads back: its value as it stands, its name and parameters whatever the case of their letters. */
  lemma LineRoundTrip(property: Property)
    requires IsProperty(property)
    ensures ParseLine(PropertyLine(property)).Some?
    ensures var line := ParseLine(PropertyLine(property)).value;
            && line.value == property.value && AreParams(line.params, property.params)
            && forall name :: IsCapital(name) ==> (line.name == name <==> IsNamed(property.name, name))
  {
    var left := LeftOf(property);
    var line := left + [':'] + property.value;
    LeftIsSplit(property);
    IndexOfMark(left, ':', property.value);
    assert line[..|left|] == left && line[|left| + 1..] == property.value;
    var pieces := Split(left, ';');
    assert pieces[0] == property.name && pieces[1..] == ParamTexts(property.params);
    ParamsAreRead(property.params);
    forall name | IsCapital(name) ensures Upper(property.name) == name <==> IsNamed(property.name, name) {
      UpperIsNamed(property.name, name);
    }
  }

  /** A line without a colon, or with nothing before it, says nothing. */
  lemma UnreadableExactlyWhen(line: string)
    ensures ParseLine(line).None? <==> ':' !in line || line[0] == ':'
  {
    var n := IndexOf(line, ':');
    assert forall i :: 0 <= i < n ==> line[i] == line[..n][i];
    if ':' !in line {
      NoMark(line, ':');
    }
  }

  // Dates, in print

  /** A date, or a date-time local to a zone or of UTC, with or without its seconds. */
  datatype When = Day(stamp: Stamp) | Local(stamp: Stamp, seconds: bool) | Utc(stamp: Stamp, seconds: bool)

  predicate IsStamp(stamp: Stamp) {
    stamp.year < 10000 && stamp.month < 100 && stamp.day < 100 && stamp.hour < 100 && stamp.minute < 100 && stamp.second < 100
  }

  /** What is not printed is zero. */
  predicate IsWhen(when: When) {
    && IsStamp(when.stamp)
    && (when.Day? ==> when.stamp.hour == 0 && when.stamp.minute == 0 && when.stamp.second == 0)
    && (!when.Day? && !when.seconds ==> when.stamp.second == 0)
  }

  function PrintDate(stamp: Stamp): string {
    Digits(stamp.year, 4) + Digits(stamp.month, 2) + Digits(stamp.day, 2)
  }

  function PrintTime(stamp: Stamp, seconds: bool): string {
    PrintDate(stamp) + "T" + Digits(stamp.hour, 2) + Digits(stamp.minute, 2) + if seconds then Digits(stamp.second, 2) else ""
  }

  function PrintWhen(when: When): string {
    match when
    case Day(stamp) => PrintDate(stamp)
    case Local(stamp, seconds) => PrintTime(stamp, seconds)
    case Utc(stamp, seconds) => PrintTime(stamp, seconds) + "Z"
  }

  /** A date is its midnight in the zone; a local time's seconds are added to the instant of its minute. */
  function InstantAt(cal: Calendar, when: When, timezone: string): int {
    match when
    case Day(stamp) => cal.zoned(stamp, timezone)
    case Local(stamp, _) => cal.zoned(stamp.(second := 0), timezone) + stamp.second * 1000
    case Utc(stamp, _) => cal.utc(stamp)
  }

  ghost predicate Denotes(text: string, when: When) {
    IsWhen(when) && PrintWhen(when) == text
  }

  lemma {:induction false} NumberRoundTrip(text: string)
    requires AreDigits(text)
    ensures NumberOf(text) < Power10(|text|) && Digits(NumberOf(text), |text|) == text
  {
    if text != [] {
      var front, last := text[..|text| - 1], text[|text| - 1];
      NumberRoundTrip(front);
      var digit := last as int - '0' as int;
      assert NumberOf(text) / 10 == NumberOf(front) && NumberOf(text) % 10 == digit && DigitOf(digit) == last;
    }
  }

  /** The pieces of a text, each in its place. */
  lemma PiecesOf(year: string, month: string, day: string, rest: string)
    requires |year| == 4 && |month| == 2 && |day| == 2
    ensures var text := year + month + day + rest;
            |text| == 8 + |rest| && text[8..] == rest && text[0..4] == year && text[4..6] == month && text[6..8] == day
  {}

  lemma TimePiecesOf(date: string, hour: string, minute: string, second: string, rest: string)
    requires |date| == 8 && |hour| == 2 && |minute| == 2
    ensures var text := date + "T" + hour + minute + second + rest;
            && |text| == 13 + |second| + |rest| && text[8] == 'T' && text[9..11] == hour && text[11..13] == minute
            && text[13..13 + |second|] == second && text[13 + |second|..] == rest
  {}

  /** The numbers of a printed date, each in its place, whatever follows. */
  lemma DateParts(stamp: Stamp, rest: string)
    requires IsStamp(stamp)
    ensures var text := PrintDate(stamp) + rest;
            && |text| == 8 + |rest| && text[8..] == rest
            && AreDigitsAt(text, 0, 4) && NumberAt(text, 0, 4) == stamp.year
            && AreDigitsAt(text, 4, 2) && NumberAt(text, 4, 2) == stamp.month
            && AreDigitsAt(text, 6, 2) && NumberAt(text, 6, 2) == stamp.day
  {
    assert Power10(2) == 100 && Power10(4) == 10000;
    DigitsRoundTrip(stamp.year, 4);
    DigitsRoundTrip(stamp.month, 2);
    DigitsRoundTrip(stamp.day, 2);
    PiecesOf(Digits(stamp.year, 4), Digits(stamp.month, 2), Digits(stamp.day, 2), rest);
  }

  lemma TimeParts(stamp: Stamp, seconds: bool, rest: string)
    requires IsStamp(stamp)
    ensures var text := PrintTime(stamp, seconds) + rest;
            && |text| == (if seconds then 15 else 13) + |rest| && text[8] == 'T'
            && (if seconds then text[15..] == rest else text[13..] == rest)
            && AreDigitsAt(text, 9, 2) && NumberAt(text, 9, 2) == stamp.hour
            && AreDigitsAt(text, 11, 2) && NumberAt(text, 11, 2) == stamp.minute
            && (seconds ==> AreDigitsAt(text, 13, 2) && NumberAt(text, 13, 2) == stamp.second)
  {
    assert Power10(2) == 100;
    DateParts(stamp, "");
    DigitsRoundTrip(stamp.hour, 2);
    DigitsRoundTrip(stamp.minute, 2);
    DigitsRoundTrip(stamp.second, 2);
    TimePiecesOf(
      PrintDate(stamp), Digits(stamp.hour, 2), Digits(stamp.minute, 2), if seconds then Digits(stamp.second, 2) else "", rest);
  }

  lemma DigitsAreLast(text: string, from: nat)
    requires AreDigitsAt(text, from, 2) && |text| == from + 2
    ensures IsDigit(text[|text| - 1])
  {
    assert text[from..from + 2][1] == text[|text| - 1];
  }

  lemma DayRoundTrip(cal: Calendar, stamp: Stamp, timezone: string)
    requires IsWhen(Day(stamp))
    ensures ParseDateTime(cal, PrintWhen(Day(stamp)), timezone) == Some(InstantAt(cal, Day(stamp), timezone))
  {
    DateParts(stamp, "");
    assert PrintDate(stamp) + "" == PrintDate(stamp);
  }

  lemma TimeText(stamp: Stamp, seconds: bool, utc: bool)
    requires IsStamp(stamp)
    ensures var text := PrintTime(stamp, seconds) + if utc then "Z" else "";
            && AreDigitsAt(text, 0, 4) && AreDigitsAt(text, 4, 2) && AreDigitsAt(text, 6, 2) && |text| > 8
            && NumberAt(text, 0, 4) == stamp.year && NumberAt(text, 4, 2) == stamp.month && NumberAt(text, 6, 2) == stamp.day
  {
    var rest := if utc then "Z" else "";
    var tail := "T" + Digits(stamp.hour, 2) + Digits(stamp.minute, 2) + (if seconds then Digits(stamp.second, 2) else "") + rest;
    assert PrintTime(stamp, seconds) + rest == PrintDate(stamp) + tail;
    assert |tail| > 0;
    DateParts(stamp, tail);
  }

  lemma TimeEnds(stamp: Stamp, seconds: bool, utc: bool)
    requires IsStamp(stamp)
    ensures var text := PrintTime(stamp, seconds) + if utc then "Z" else "";
            IsTimeTail(text) && (|text| >= 15 <==> seconds) && (text[|text| - 1] == 'Z' <==> utc)
  {
    TimeParts(stamp, seconds, if utc then "Z" else "");
    if !utc {
      DigitsAreLast(PrintTime(stamp, seconds) + "", if seconds then 13 else 11);
    }
  }

  lemma TimeRoundTrip(cal: Calendar, stamp: Stamp, seconds: bool, utc: bool, timezone: string)
    requires IsWhen(Utc(stamp, seconds))
    ensures var text := PrintTime(stamp, seconds) + if utc then "Z" else "";
            var when := if utc then Utc(stamp, seconds) else Local(stamp, seconds);
            ParseDateTime(cal, text, timezone) == Some(InstantAt(cal, when, timezone))
  {
    TimeText(stamp, seconds, utc);
    TimeEnds(stamp, seconds, utc);
    TimeParts(stamp, seconds, if utc then "Z" else "");
  }

  lemma WhenRoundTrip(cal: Calendar, when: When, timezone: string)
    requires IsWhen(when)
    ensures ParseDateTime(cal, PrintWhen(when), timezone) == Some(InstantAt(cal, when, timezone))
  {
    match when
    case Day(stamp) => DayRoundTrip(cal, stamp, timezone);
    case Local(stamp, seconds) =>
      TimeRoundTrip(cal, stamp, seconds, false, timezone);
      assert PrintTime(stamp, seconds) + "" == PrintTime(stamp, seconds);
    case Utc(stamp, seconds) => TimeRoundTrip(cal, stamp, seconds, true, timezone);
  }

  /** The date or time a readable text was printed from. */
  function WhenOf(text: string): When
    requires AreDigitsAt(text, 0, 4) && AreDigitsAt(text, 4, 2) && AreDigitsAt(text, 6, 2)
    requires |text| > 8 ==> AreDigitsAt(text, 9, 2) && AreDigitsAt(text, 11, 2) && IsTimeTail(text)
  {
    var date := Stamp(NumberAt(text, 0, 4), NumberAt(text, 4, 2), NumberAt(text, 6, 2), 0, 0, 0);
    if |text| == 8 then Day(date)
    else
      var seconds := |text| >= 15;
      var stamp := date.(hour := NumberAt(text, 9, 2), minute := NumberAt(text, 11, 2), second := if seconds then NumberAt(text, 13, 2) else 0);
      if text[|text| - 1] == 'Z' then Utc(stamp, seconds) else Local(stamp, seconds)
  }

  lemma PartIsPrinted(text: string, from: nat, width: nat)
    requires AreDigitsAt(text, from, width)
    ensures NumberAt(text, from, width) < Power10(width) && Digits(NumberAt(text, from, width), width) == text[from..from + width]
  {
    NumberRoundTrip(text[from..from + width]);
  }

  lemma TwoDigits(text: string, from: nat)
    requires AreDigitsAt(text, from, 2)
    ensures NumberAt(text, from, 2) < 100 && Digits(NumberAt(text, from, 2), 2) == text[from..from + 2]
  {
    assert Power10(2) == 100;
    PartIsPrinted(text, from, 2);
  }

  lemma FourDigits(text: string, from: nat)
    requires AreDigitsAt(text, from, 4)
    ensures NumberAt(text, from, 4) < 10000 && Digits(NumberAt(text, from, 4), 4) == text[from..from + 4]
  {
    assert Power10(2) == 100 && Power10(4) == 10000;
    PartIsPrinted(text, from, 4);
  }

  lemma DateSlices(text: string)
    requires |text| >= 8
    ensures text[..8] == text[0..4] + text[4..6] + text[6..8]
  {}

  lemma DateIsPrinted(text: string)
    requires AreDigitsAt(text, 0, 4) && AreDigitsAt(text, 4, 2) && AreDigitsAt(text, 6, 2)
    ensures var stamp := Stamp(NumberAt(text, 0, 4), NumberAt(text, 4, 2), NumberAt(text, 6, 2), 0, 0, 0);
            IsStamp(stamp) && PrintDate(stamp) == text[..8]
  {
    FourDigits(text, 0);
    TwoDigits(text, 4);
    TwoDigits(text, 6);
    DateSlices(text);
  }

  lemma TimeIsPrinted(text: string, stamp: Stamp)
    requires |text| >= 13 && PrintDate(stamp) == text[..8] && text[8] == 'T' && IsTimeTail(text)
    requires AreDigitsAt(text, 9, 2) && AreDigitsAt(text, 11, 2)
    requires stamp.hour == NumberAt(text, 9, 2) && stamp.minute == NumberAt(text, 11, 2)
    requires stamp.second == if |text| >= 15 then NumberAt(text, 13, 2) else 0
    ensures stamp.hour < 100 && stamp.minute < 100 && stamp.second < 100
    ensures PrintTime(stamp, |text| >= 15) == text[..if |text| >= 15 then 15 else 13]
  {
    TwoDigits(text, 9);
    TwoDigits(text, 11);
    assert text[..13] == text[..8] + "T" + text[9..11] + text[11..13];
    if |text| >= 15 {
      TwoDigits(text, 13);
      assert text[..15] == text[..13] + text[13..15];
    }
  }

  lemma ReadIsPrinted(cal: Calendar, text: string, timezone: string)
    requires ParseDateTime(cal, text, timezone).Some?
    ensures Denotes(text, WhenOf(text))
  {
    DateIsPrinted(text);
    if |text| == 8 {
      assert text == text[..8];
    } else {
      TimeIsPrinted(text, WhenOf(text).stamp);
      LastIsPrinted(text);
    }
  }

  /** What follows the digits is the UTC mark or nothing. */
  lemma LastIsPrinted(text: string)
    requires |text| >= 13 && IsTimeTail(text) && AreDigitsAt(text, 11, 2)
    ensures var digits := if |text| >= 15 then 15 else 13;
            text == text[..digits] + if text[|text| - 1] == 'Z' then "Z" else ""
  {
    if |text| == 13 || |text| == 15 {
      DigitsAreLast(text, |text| - 2);
    }
  }

  /** A text is a date exactly when it is printed from one, and its instant is the one printed. */
  lemma ReadsExactlyWhen(cal: Calendar, text: string, timezone: string)
    ensures ParseDateTime(cal, text, timezone).Some? <==> exists when :: Denotes(text, when)
    ensures forall when :: Denotes(text, when) ==> ParseDateTime(cal, text, timezone) == Some(InstantAt(cal, when, timezone))
  {
    if ParseDateTime(cal, text, timezone).Some? {
      ReadIsPrinted(cal, text, timezone);
    }
    forall when | Denotes(text, when)
      ensures ParseDateTime(cal, text, timezone) == Some(InstantAt(cal, when, timezone))
    {
      WhenRoundTrip(cal, when, timezone);
    }
  }

  // Events, in print

  function Lines(properties: seq<Property>): seq<string> {
    seq(|properties|, i requires 0 <= i < |properties| => PropertyLine(properties[i]))
  }

  /** The zone named with the start, failing that with the end, failing that the caller's. */
  function ZoneOf(start: Property, end: Property, fallback: string): string {
    LastParam(start.params, "TZID").GetOr(LastParam(end.params, "TZID").GetOr(fallback))
  }

  /** What the properties of an event say: the last of each name, with an id of its own when it has none. */
  function WindowFor(cal: Calendar, properties: seq<Property>, fallback: string): Option<BusyWindow> {
    match (LastNamed(properties, "DTSTART"), LastNamed(properties, "DTEND"))
    case (Some(start), Some(end)) =>
      var timezone := ZoneOf(start, end, fallback);
      var from, to := ParseDateTime(cal, start.value, timezone), ParseDateTime(cal, end.value, timezone);
      if from.Some? && to.Some? && from.value < to.value then
        var title := match LastNamed(properties, "SUMMARY") case Some(summary) => Some(summary.value) case None => None;
        var id := match LastNamed(properties, "UID")
                  case Some(uid) => uid.value
                  case None => "ics:" + cal.hash(start.value, end.value, title.GetOr(""));
        Some(BusyWindow(id, from.value, to.value, timezone, title))
      else None
    case _ => None
  }

  ghost predicate AreFields(fields: map<string, Field>, properties: seq<Property>) {
    forall name :: IsCapital(name) ==>
      match LastNamed(properties, name)
      case None => name !in fields
      case Some(property) => name in fields && fields[name].value == property.value && AreParams(fields[name].params, property.params)
  }

  predicate AreProperties(properties: seq<Property>) {
    forall i | 0 <= i < |properties| :: IsProperty(properties[i]) && IsBodyLine(PropertyLine(properties[i]))
  }

  lemma {:induction false} FieldsAreRead(properties: seq<Property>)
    requires AreProperties(properties)
    ensures AreFields(FieldsOf(Lines(properties)), properties)
  {
    if properties != [] {
      var front, last := properties[..|properties| - 1], properties[|properties| - 1];
      FieldsAreRead(front);
      var lines := Lines(properties);
      assert lines[..|lines| - 1] == Lines(front) && lines[|lines| - 1] == PropertyLine(last);
      LineRoundTrip(last);
      FieldIsAdded(FieldsOf(Lines(front)), front, last, ParseLine(PropertyLine(last)).value);
      assert front + [last] == properties;
    }
  }

  lemma FieldIsAdded(fields: map<string, Field>, front: seq<Property>, last: Property, line: ContentLine)
    requires AreFields(fields, front) && line.value == last.value && AreParams(line.params, last.params)
    requires forall name :: IsCapital(name) ==> (line.name == name <==> IsNamed(last.name, name))
    ensures AreFields(fields[line.name := Field(line.value, line.params)], front + [last])
  {
    assert (front + [last])[..|front|] == front;
  }

  lemma FieldMeans(fields: map<string, Field>, properties: seq<Property>, name: string)
    requires AreFields(fields, properties) && IsCapital(name)
    ensures match LastNamed(properties, name)
            case None => name !in fields
            case Some(property) => name in fields && fields[name].value == property.value && AreParams(fields[name].params, property.params)
  {}

  lemma ParamMeans(found: map<string, string>, params: seq<Param>, name: string)
    requires AreParams(found, params) && IsCapital(name) && name != ""
    ensures if name in found then LastParam(params, name) == Some(found[name]) else LastParam(params, name) == None
  {}

  lemma ZoneIsRead(start: Field, end: Field, from: Property, to: Property, fallback: string)
    requires AreParams(start.params, from.params) && AreParams(end.params, to.params)
    ensures TimezoneOf(start, end, fallback) == ZoneOf(from, to, fallback)
  {
    ParamMeans(start.params, from.params, "TZID");
    ParamMeans(end.params, to.params, "TZID");
  }

  lemma FieldsGiveWindow(cal: Calendar, fields: map<string, Field>, properties: seq<Property>, fallback: string)
    requires AreFields(fields, properties)
    ensures WindowOf(cal, fields, fallback) == WindowFor(cal, properties, fallback)
  {
    FieldMeans(fields, properties, "DTSTART");
    FieldMeans(fields, properties, "DTEND");
    FieldMeans(fields, properties, "SUMMARY");
    FieldMeans(fields, properties, "UID");
    if "DTSTART" in fields && "DTEND" in fields {
      var start, end := LastNamed(properties, "DTSTART").value, LastNamed(properties, "DTEND").value;
      ZoneIsRead(fields["DTSTART"], fields["DTEND"], start, end, fallback);
    }
  }

  /** The event read from its printed lines is the one its properties tell of. */
  lemma EventReadsBack(cal: Calendar, properties: seq<Property>, fallback: string)
    requires AreProperties(properties)
    ensures ParseEvent(cal, Lines(properties), fallback) == WindowFor(cal, properties, fallback)
  {
    FieldsAreRead(properties);
    FieldsGiveWindow(cal, FieldsOf(Lines(properties)), properties, fallback);
  }

  // The scan: which lines are an event's

  predicate IsBodyLine(line: string) {
    line != "BEGIN:VEVENT" && line != "END:VEVENT"
  }

  /** An event was begun at `b`, and no line between ends it or begins another. */
  ghost predicate Opens(lines: seq<string>, b: int, n: int) {
    0 <= b < n <= |lines| && lines[b] == "BEGIN:VEVENT" && forall i :: b < i < n ==> IsBodyLine(lines[i])
  }

  lemma {:induction false} ScanOneMore(cal: Calendar, scan: Scan, lines: seq<string>, line: string, fallback: string)
    ensures ScanLines(cal, scan, lines + [line], fallback) == ScanLine(cal, ScanLines(cal, scan, lines, fallback), line, fallback)
    decreases |lines|
  {
    if lines == [] {
      assert ([] + [line])[0] == line && ([] + [line])[1..] == [];
    } else {
      assert (lines + [line])[0] == lines[0] && (lines + [line])[1..] == lines[1..] + [line];
      ScanOneMore(cal, ScanLine(cal, scan, lines[0], fallback), lines[1..], line, fallback);
    }
  }

  lemma StaysOpen(lines: seq<string>, n: nat, m: nat)
    requires m == n + 1 <= |lines| && IsBodyLine(lines[n])
    ensures forall b :: Opens(lines, b, m) <==> Opens(lines, b, n)
    ensures (exists b :: Opens(lines, b, m)) <==> exists b :: Opens(lines, b, n)
  {
    if b :| Opens(lines, b, n) {
      assert Opens(lines, b, m);
    }
    if b :| Opens(lines, b, m) {
      assert Opens(lines, b, n);
    }
  }

  function ScanOf(cal: Calendar, lines: seq<string>, fallback: string): Scan {
    ScanLines(cal, Scan([], [], false), lines, fallback)
  }

  lemma {:induction false} ScanMeans(cal: Calendar, lines: seq<string>, n: nat, fallback: string)
    requires n <= |lines|
    ensures var scan := ScanOf(cal, lines[..n], fallback);
            && (scan.insideEvent <==> exists b :: Opens(lines, b, n))
            && (forall b :: Opens(lines, b, n) ==> scan.eventLines == lines[b + 1..n])
            && (!scan.insideEvent ==> scan.eventLines == [])
  {
    if n > 0 {
      ScanMeans(cal, lines, n - 1, fallback);
      assert lines[..n] == lines[..n - 1] + [lines[n - 1]];
      ScanOneMore(cal, Scan([], [], false), lines[..n - 1], lines[n - 1], fallback);
      var before := ScanOf(cal, lines[..n - 1], fallback);
      if lines[n - 1] == "BEGIN:VEVENT" {
        assert Opens(lines, n - 1, n) && forall b :: Opens(lines, b, n) ==> b == n - 1;
      } else if lines[n - 1] == "END:VEVENT" {
        assert forall b :: Opens(lines, b, n) ==> b < n - 1 && !IsBodyLine(lines[n - 1]);
      } else {
        StaysOpen(lines, n - 1, n);
      }
    }
  }

  /** A line adds a window exactly when it ends an event that was begun, and the lines between tell of one. */
  lemma LineGivesWindow(cal: Calendar, lines: seq<string>, k: nat, fallback: string)
    requires k < |lines|
    ensures var before, after := ParseWindows(cal, lines[..k], fallback), ParseWindows(cal, lines[..k + 1], fallback);
            && (forall b :: Opens(lines, b, k) && lines[k] == "END:VEVENT" ==>
                  match ParseEvent(cal, lines[b + 1..k], fallback)
                  case Some(window) => after == before + [window]
                  case None => after == before)
            && (lines[k] != "END:VEVENT" || (forall b :: !Opens(lines, b, k)) ==> after == before)
  {
    ScanMeans(cal, lines, k, fallback);
    assert lines[..k + 1] == lines[..k] + [lines[k]];
    ScanOneMore(cal, Scan([], [], false), lines[..k], lines[k], fallback);
    assert ParseEvent(cal, [], fallback).None?;
  }

  // Whole files: events among other lines

  /** A calendar's own lines, its time zones' lines or an empty last line; or an event. */
  datatype Part = Other(line: string) | Component(properties: seq<Property>)

  predicate IsFilePart(part: Part) {
    match part
    case Other(line) => IsBodyLine(line)
    case Component(properties) => AreProperties(properties)
  }

  function PartLines(part: Part): seq<string> {
    match part
    case Other(line) => [line]
    case Component(properties) => ["BEGIN:VEVENT"] + Lines(properties) + ["END:VEVENT"]
  }

  function PrintFile(parts: seq<Part>): seq<string> {
    if parts == [] then [] else PartLines(parts[0]) + PrintFile(parts[1..])
  }

  function WindowsOf(cal: Calendar, part: Part, fallback: string): seq<BusyWindow> {
    match part
    case Other(_) => []
    case Component(properties) =>
      match WindowFor(cal, properties, fallback)
      case Some(window) => [window]
      case None => []
  }

  function WindowsFor(cal: Calendar, parts: seq<Part>, fallback: string): seq<BusyWindow> {
    if parts == [] then [] else WindowsOf(cal, parts[0], fallback) + WindowsFor(cal, parts[1..], fallback)
  }

  lemma {:induction false} ScanBody(
    cal: Calendar, windows: seq<BusyWindow>, seen: seq<string>, body: seq<string>, rest: seq<string>, fallback: string)
    requires forall i :: 0 <= i < |body| ==> IsBodyLine(body[i])
    ensures ScanLines(cal, Scan(windows, seen, true), body + rest, fallback)
         == ScanLines(cal, Scan(windows, seen + body, true), rest, fallback)
    decreases |body|
  {
    if body == [] {
      assert body + rest == rest && seen + body == seen;
    } else {
      assert (body + rest)[0] == body[0] && (body + rest)[1..] == body[1..] + rest;
      assert IsBodyLine(body[0]);
      assert ScanLine(cal, Scan(windows, seen, true), body[0], fallback) == Scan(windows, seen + [body[0]], true);
      ScanBody(cal, windows, seen + [body[0]], body[1..], rest, fallback);
      assert seen + [body[0]] + body[1..] == seen + body;
    }
  }

  lemma ScanComponent(cal: Calendar, windows: seq<BusyWindow>, properties: seq<Property>, rest: seq<string>, fallback: string)
    requires AreProperties(properties)
    ensures var part := Component(properties);
            ScanLines(cal, Scan(windows, [], false), PartLines(part) + rest, fallback)
            == ScanLines(cal, Scan(windows + WindowsOf(cal, part, fallback), [], false), rest, fallback)
  {
    var body, tail := Lines(properties), ["END:VEVENT"] + rest;
    var lines := ["BEGIN:VEVENT"] + body + ["END:VEVENT"] + rest;
    assert lines[0] == "BEGIN:VEVENT" && lines[1..] == body + tail;
    ScanBody(cal, windows, [], body, tail, fallback);
    assert [] + body == body;
    EventReadsBack(cal, properties, fallback);
    EndIsRead(cal, windows, body, rest, fallback);
  }

  lemma EndIsRead(cal: Calendar, windows: seq<BusyWindow>, body: seq<string>, rest: seq<string>, fallback: string)
    ensures var window := ParseEvent(cal, body, fallback);
            ScanLines(cal, Scan(windows, body, true), ["END:VEVENT"] + rest, fallback)
            == ScanLines(cal, Scan(windows + (if window.Some? then [window.value] else []), [], false), rest, fallback)
  {
    var tail := ["END:VEVENT"] + rest;
    assert tail[0] == "END:VEVENT" && tail[1..] == rest;
    assert "END:VEVENT"[0] != "BEGIN:VEVENT"[0];
  }

  lemma ScanPart(cal: Calendar, windows: seq<BusyWindow>, part: Part, rest: seq<string>, fallback: string)
    requires IsFilePart(part)
    ensures ScanLines(cal, Scan(windows, [], false), PartLines(part) + rest, fallback)
         == ScanLines(cal, Scan(windows + WindowsOf(cal, part, fallback), [], false), rest, fallback)
  {
    match part
    case Other(line) =>
      var lines := [line] + rest;
      assert lines[0] == line && lines[1..] == rest && windows + [] == windows;
    case Component(properties) =>
      ScanComponent(cal, windows, properties, rest, fallback);
  }

  lemma ScanFirstPart(cal: Calendar, windows: seq<BusyWindow>, parts: seq<Part>, fallback: string)
    requires parts != [] && IsFilePart(parts[0])
    ensures ScanLines(cal, Scan(windows, [], false), PrintFile(parts), fallback)
         == ScanLines(cal, Scan(windows + WindowsOf(cal, parts[0], fallback), [], false), PrintFile(parts[1..]), fallback)
  {
    var rest := PrintFile(parts[1..]);
    assert PrintFile(parts) == PartLines(parts[0]) + rest;
    ScanPart(cal, windows, parts[0], rest, fallback);
  }

  lemma ConcatAgain<T>(left: seq<T>, middle: seq<T>, right: seq<T>)
    ensures left + (middle + right) == left + middle + right
  {}

  lemma {:induction false} ScanFile(cal: Calendar, windows: seq<BusyWindow>, parts: seq<Part>, fallback: string)
    requires forall i :: 0 <= i < |parts| ==> IsFilePart(parts[i])
    ensures ScanLines(cal, Scan(windows, [], false), PrintFile(parts), fallback)
         == Scan(windows + WindowsFor(cal, parts, fallback), [], false)
    decreases |parts|
  {
    if parts == [] {
      assert windows + WindowsFor(cal, parts, fallback) == windows;
    } else {
      var first, rest := WindowsOf(cal, parts[0], fallback), WindowsFor(cal, parts[1..], fallback);
      ScanFirstPart(cal, windows, parts, fallback);
      ScanFile(cal, windows + first, parts[1..], fallback);
      ConcatAgain(windows, first, rest);
    }
  }

  /** Reading the lines of any file gives the windows its events tell of, in order. */
  lemma {:induction false} ParseUndoesPrint(cal: Calendar, parts: seq<Part>, fallback: string)
    requires forall i :: 0 <= i < |parts| ==> IsFilePart(parts[i])
    ensures ParseWindows(cal, PrintFile(parts), fallback) == WindowsFor(cal, parts, fallback)
  {
    ScanFile(cal, [], parts, fallback);
    assert [] + WindowsFor(cal, parts, fallback) == WindowsFor(cal, parts, fallback);
  }

  /**
   However the lines of a calendar file are folded and ended, and whatever lines stand around and between its
   events: if no first piece ends in white space, the file reads back as the windows of its events in order.
   */
  lemma FoldedFileReadsBack(cal: Calendar, space: Space, parts: seq<Part>, doc: seq<Folding>, breaks: seq<string>, fallback: string)
    requires forall i :: 0 <= i < |parts| ==> IsFilePart(parts[i])
    requires IsDocument(doc) && WholeLines(doc) == PrintFile(parts) && AreBreaks(PhysicalLines(doc), breaks)
    requires forall i :: 0 <= i < |doc| ==> !EndsInSpace(space, doc[i].first)
    ensures ParseWindows(cal, Unfold(space, SplitLines(JoinLines(PhysicalLines(doc), breaks))), fallback) == WindowsFor(cal, parts, fallback)
  {
    UnfoldUndoesFolding(space, doc, breaks);
    ParseUndoesPrint(cal, parts, fallback);
  }

  /** The lines of an ordinary calendar file may stand around events, and the last one may be empty. */
  lemma CalendarLinesAreOther()
    ensures forall line :: line in {"BEGIN:VCALENDAR", "VERSION:2.0", "BEGIN:VTIMEZONE", "END:VTIMEZONE", "END:VCALENDAR", ""} ==> IsFilePart(Other(line))
  {
    assert "BEGIN:VEVENT"[7] == 'E' && "END:VEVENT"[5] == 'E';
    assert "BEGIN:VCALENDAR"[7] == 'C' && "BEGIN:VTIMEZONE"[7] == 'T' && "END:VTIMEZONE"[5] == 'T' && "END:VCALENDAR"[5] == 'C';
  }
}
