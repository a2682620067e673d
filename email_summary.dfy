/** `format_matches_summary` (send_calendar_email.py): the body of the daily
    e-mail, one entry per match of the saved match list, "HH:MM - home vs
    away" and an optional venue line, with fixed texts for an empty list and
    for any failure. */
module EmailSummary {
  import opened Text
  import opened JsonValues

  // ---------------------------------------------------------------------------
  // datetime.strptime(date, '%Y-%m-%dT%H:%M:%S%z') and strftime('%H:%M')

  /** A parsed timestamp; `offset` is the UTC offset in minutes. */
  datatype Timestamp = Timestamp(year: nat, month: nat, day: nat, hour: nat, minute: nat, second: nat, offset: int)

  predicate LeapYear(y: nat) {
    y % 4 == 0 && (y % 100 != 0 || y % 400 == 0)
  }

  function DaysIn(y: nat, m: nat): nat {
    if m == 2 then (if LeapYear(y) then 29 else 28)
    else if m == 4 || m == 6 || m == 9 || m == 11 then 30
    else 31
  }

  /** What `datetime` accepts: the fields in range, the offset under a day. */
  predicate ValidTimestamp(t: Timestamp) {
    && 1 <= t.year <= 9999
    && 1 <= t.month <= 12 && 1 <= t.day <= DaysIn(t.year, t.month)
    && t.hour <= 23 && t.minute <= 59 && t.second <= 59
    && -(23 * 60 + 59) <= t.offset <= 23 * 60 + 59
  }

  /** The value of the `n` digits of `s` at `k`, if they are all digits. */
  function Digits(s: string, k: nat, n: nat): Option<nat> {
    if k + n <= |s| && AllDigits(s[k..k + n]) then Some(DecimalValue(s[k..k + n])) else None
  }

  /** `%z`: "Z", or a sign, two digits of hours, an optional colon and two
      digits of minutes (below 60); the offset must stay under a day. */
  function ParseOffset(z: string): Option<int> {
    if z == "Z" then Some(0)
    else if |z| != 5 && |z| != 6 then None
    else if z[0] != '+' && z[0] != '-' then None
    else if |z| == 6 && z[3] != ':' then None
    else
      var hh, mm := Digits(z, 1, 2), Digits(z, |z| - 2, 2);
      if hh.None? || mm.None? || hh.value > 23 || mm.value > 59 then None
      else
        var minutes := hh.value * 60 + mm.value;
        Some(if z[0] == '-' then -minutes else minutes)
  }

  /** The literal characters of the format; strptime matches 'T' ignoring case. */
  predicate Separators(s: string) {
    |s| >= 20 && s[4] == '-' && s[7] == '-' && (s[10] == 'T' || s[10] == 't') && s[13] == ':' && s[16] == ':'
  }

  /** `datetime.strptime(s, '%Y-%m-%dT%H:%M:%S%z')` for two-digit fields. */
  function ParseIso(s: string): (r: Option<Timestamp>)
    ensures r.Some? ==> ValidTimestamp(r.value)
  {
    if !Separators(s) then None
    else
      var y, mo, d := Digits(s, 0, 4), Digits(s, 5, 2), Digits(s, 8, 2);
      var h, mi, sec := Digits(s, 11, 2), Digits(s, 14, 2), Digits(s, 17, 2);
      var z := ParseOffset(s[19..]);
      if y.None? || mo.None? || d.None? || h.None? || mi.None? || sec.None? || z.None? then None
      else
        var t := Timestamp(y.value, mo.value, d.value, h.value, mi.value, sec.value, z.value);
        if ValidTimestamp(t) then Some(t) else None
  }

  /** A number below 100 written with two digits, as strftime pads it. */
  function TwoDigits(n: nat): (r: string)
    requires n < 100
    ensures |r| == 2 && AllDigits(r) && DecimalValue(r) == n
  {
    var r := [DigitChar(n / 10), DigitChar(n % 10)];
    assert r[..1][..0] == [] && r[..1][0] == r[0] && r[..2] == r;
    assert DecimalValue(r[..1]) == n / 10;
    r
  }

  /** `strftime('%H:%M')` */
  function HourMinute(t: Timestamp): string
    requires ValidTimestamp(t)
  {
    TwoDigits(t.hour) + ":" + TwoDigits(t.minute)
  }

  /** A UTC offset in minutes written as "+HH:MM" or "-HH:MM". */
  function OffsetText(offset: int): (z: string)
    requires -(23 * 60 + 59) <= offset <= 23 * 60 + 59
    ensures |z| == 6
  {
    var m: nat := if offset < 0 then -offset else offset;
    [if offset < 0 then '-' else '+', DigitChar(m / 60 / 10), DigitChar(m / 60 % 10), ':',
     DigitChar(m % 60 / 10), DigitChar(m % 60 % 10)]
  }

  /** The time written back in the format the parser reads, with a numeric
      offset. */
  function FormatIso(t: Timestamp): (s: string)
    requires ValidTimestamp(t)
    ensures |s| == 25
  {
    [ DigitChar(t.year / 1000), DigitChar(t.year / 100 % 10), DigitChar(t.year / 10 % 10), DigitChar(t.year % 10),
      '-', DigitChar(t.month / 10), DigitChar(t.month % 10), '-', DigitChar(t.day / 10), DigitChar(t.day % 10),
      'T', DigitChar(t.hour / 10), DigitChar(t.hour % 10), ':', DigitChar(t.minute / 10), DigitChar(t.minute % 10),
      ':', DigitChar(t.second / 10), DigitChar(t.second % 10) ]
    + OffsetText(t.offset)
  }

  /** Two written digits read back as their value. */
  lemma TwoDigitsRead(s: string, k: nat, n: nat)
    requires n < 100 && k + 2 <= |s| && s[k] == DigitChar(n / 10) && s[k + 1] == DigitChar(n % 10)
    ensures Digits(s, k, 2) == Some(n)
  {
    assert s[k..k + 2] == TwoDigits(n);
  }

  /** Four written digits read back as their value. */
  lemma FourDigitsRead(s: string, y: nat)
    requires y <= 9999 && 4 <= |s|
    requires s[0] == DigitChar(y / 1000) && s[1] == DigitChar(y / 100 % 10)
    requires s[2] == DigitChar(y / 10 % 10) && s[3] == DigitChar(y % 10)
    ensures Digits(s, 0, 4) == Some(y)
  {
    var w := s[..4];
    assert w[..1][..0] == [] && w[..2][..1] == w[..1] && w[..3][..2] == w[..2] && w[..4][..3] == w[..3];
    assert DecimalValue(w[..1]) == y / 1000;
    assert DecimalValue(w[..2]) == y / 100;
    assert DecimalValue(w[..3]) == y / 10;
    assert w == w[..4];
  }

  /** Parsing what `FormatIso` writes gives the timestamp back. */
  lemma IsoRoundTrip(t: Timestamp)
    requires ValidTimestamp(t)
    ensures ParseIso(FormatIso(t)) == Some(t)
  {
    var s := FormatIso(t);
    DateFieldsRead(t);
    TimeFieldsRead(t);
    assert s[19..] == OffsetText(t.offset);
    OffsetRead(t.offset);
    ParseIsoFields(s, t);
  }

  /** A string with the separators, the fields of `t` and its offset parses to `t`. */
  lemma ParseIsoFields(s: string, t: Timestamp)
    requires ValidTimestamp(t) && Separators(s)
    requires Digits(s, 0, 4) == Some(t.year) && Digits(s, 5, 2) == Some(t.month) && Digits(s, 8, 2) == Some(t.day)
    requires Digits(s, 11, 2) == Some(t.hour) && Digits(s, 14, 2) == Some(t.minute) && Digits(s, 17, 2) == Some(t.second)
    requires ParseOffset(s[19..]) == Some(t.offset)
    ensures ParseIso(s) == Some(t)
  {
  }

  /** The date written by `FormatIso` reads back. */
  lemma DateFieldsRead(t: Timestamp)
    requires ValidTimestamp(t)
    ensures var s := FormatIso(t);
      Digits(s, 0, 4) == Some(t.year) && Digits(s, 5, 2) == Some(t.month) && Digits(s, 8, 2) == Some(t.day)
  {
    var s := FormatIso(t);
    FourDigitsRead(s, t.year);
    TwoDigitsRead(s, 5, t.month);
    TwoDigitsRead(s, 8, t.day);
  }

  /** The time of day written by `FormatIso` reads back. */
  lemma TimeFieldsRead(t: Timestamp)
    requires ValidTimestamp(t)
    ensures var s := FormatIso(t);
      Digits(s, 11, 2) == Some(t.hour) && Digits(s, 14, 2) == Some(t.minute) && Digits(s, 17, 2) == Some(t.second)
  {
    var s := FormatIso(t);
    TwoDigitsRead(s, 11, t.hour);
    TwoDigitsRead(s, 14, t.minute);
    TwoDigitsRead(s, 17, t.second);
  }

  /** A written offset reads back as its value. */
  lemma OffsetRead(offset: int)
    requires -(23 * 60 + 59) <= offset <= 23 * 60 + 59
    ensures ParseOffset(OffsetText(offset)) == Some(offset)
  {
    var m: nat := if offset < 0 then -offset else offset;
    TwoDigitsRead(OffsetText(offset), 1, m / 60);
    TwoDigitsRead(OffsetText(offset), 4, m % 60);
  }

  /** The hour and minute strftime writes are the ones the date string holds. */
  lemma HourMinuteAsWritten(s: string)
    requires ParseIso(s).Some?
    ensures HourMinute(ParseIso(s).value) == s[11..16]
  {
    var t := ParseIso(s).value;
    DigitsWritten(s, 11, t.hour);
    DigitsWritten(s, 14, t.minute);
  }

  /** Two digits that read as `n` are how `n` is written. */
  lemma DigitsWritten(s: string, k: nat, n: nat)
    requires Digits(s, k, 2) == Some(n)
    ensures n < 100 && s[k..k + 2] == TwoDigits(n)
  {
    var w := s[k..k + 2];
    assert w[..1][..0] == [] && w[..1][0] == w[0];
    assert DecimalValue(w[..1]) == DigitValue(w[0]);
    assert n == 10 * DigitValue(w[0]) + DigitValue(w[1]);
  }

  // ---------------------------------------------------------------------------
  // format_matches_summary

  const NoMatchesText := "No matches scheduled for today."
  const ErrorText := "Error retrieving match information."

  /** What one match contributes to its entry. */
  datatype Fields = Fields(time: Timestamp, home: Json, away: Json, venue: Json)

  /** The fields of one match, `None` where the script raises: a match that
      is not a dict, a missing "date", "home_team" or "away_team", or a date
      strptime rejects. A missing venue reads as `None`. */
  function MatchFields(m: Json): (r: Option<Fields>)
    ensures r.Some? ==> ValidTimestamp(r.value.time)
  {
    var date, home, away := Subscript(m, "date"), Subscript(m, "home_team"), Subscript(m, "away_team");
    if date.None? || !date.value.JStr? || home.None? || away.None? then None
    else
      var t := ParseIso(date.value.s);
      if t.None? then None else Some(Fields(t.value, home.value, away.value, Get(m, "venue", JNull).value))
  }

  /** "HH:MM - home vs away", then "\nVenue: venue" when the venue is truthy. */
  function Render(f: Fields): string
    requires ValidTimestamp(f.time)
  {
    var head := HourMinute(f.time) + " - " + Str(f.home) + " vs " + Str(f.away);
    if Truthy(f.venue) then head + "\nVenue: " + Str(f.venue) else head
  }

  /** The entry of one match. */
  function Entry(m: Json): Option<string> {
    var f := MatchFields(m);
    if f.None? then None else Some(Render(f.value))
  }

  /** An entry is the hour and minute as the date string writes them, " - ",
      the home team, " vs ", the away team, and the venue line when the match
      has a truthy venue. */
  lemma EntryStartsWithTime(m: Json)
    requires Entry(m).Some?
    ensures var e := Entry(m).value;
      && |e| >= 8 && m.JObj?
      && Subscript(m, "date").Some? && Subscript(m, "date").value.JStr?
      && e[..5] == Subscript(m, "date").value.s[11..16] && e[5..8] == " - "
    ensures HasKey(m, "home_team") && HasKey(m, "away_team")
    ensures var venue := Get(m, "venue", JNull).value;
      Entry(m).value ==
        Subscript(m, "date").value.s[11..16] + " - " +
        Str(Subscript(m, "home_team").value) + " vs " + Str(Subscript(m, "away_team").value) +
        (if Truthy(venue) then "\nVenue: " + Str(venue) else "")
  {
    var f := MatchFields(m).value;
    var s := Subscript(m, "date").value.s;
    assert Entry(m).value == Render(f) && f.time == ParseIso(s).value;
    RenderStartsWithTime(f);
    HourMinuteAsWritten(s);
  }

  /** A rendered entry begins with "HH:MM - ". */
  lemma RenderStartsWithTime(f: Fields)
    requires ValidTimestamp(f.time)
    ensures var e := Render(f); |e| >= 8 && e[..5] == HourMinute(f.time) && e[5..8] == " - "
  {
    var head := HourMinute(f.time) + " - " + Str(f.home) + " vs " + Str(f.away);
    assert head[..5] == HourMinute(f.time) && head[5..8] == " - ";
  }

  /** A venue line closes the entry exactly when the venue is present and
      non-empty; otherwise the entry ends with the away team. */
  lemma RenderEnding(f: Fields)
    requires ValidTimestamp(f.time)
    ensures var e, line := Render(f), "\nVenue: " + Str(f.venue);
      && (Truthy(f.venue) ==> |e| >= |line| && e[|e| - |line|..] == line)
      && (!Truthy(f.venue) ==> |e| >= |Str(f.away)| && e[|e| - |Str(f.away)|..] == Str(f.away))
  {
  }

  /** The same, for a match of the file: the venue is read with
      `match.get('venue')`. */
  lemma VenueLine(m: Json)
    requires Entry(m).Some?
    ensures var e := Entry(m).value;
      var venue := Get(m, "venue", JNull).value;
      var line := "\nVenue: " + Str(venue);
      && (Truthy(venue) ==> |e| >= |line| && e[|e| - |line|..] == line)
      && (!Truthy(venue) ==> |e| >= |Str(Subscript(m, "away_team").value)| &&
                             e[|e| - |Str(Subscript(m, "away_team").value)|..] == Str(Subscript(m, "away_team").value))
  {
    var f := MatchFields(m).value;
    assert Entry(m).value == Render(f);
    assert f.venue == Get(m, "venue", JNull).value && f.away == Subscript(m, "away_team").value;
    RenderEnding(f);
  }

  /** No match makes the script raise. */
  predicate AllEntries(items: seq<Json>) {
    forall i :: 0 <= i < |items| ==> Entry(items[i]).Some?
  }

  /** The entries of all matches, in the order of the list. */
  function Entries(items: seq<Json>): seq<string>
    requires AllEntries(items)
  {
    seq(|items|, i requires 0 <= i < |items| => Entry(items[i]).value)
  }

  /** The loop of `format_matches_summary`: the entry of each match in turn,
      stopping (`ok` false) at the first one that raises. */
  method CollectEntries(items: seq<Json>) returns (ok: bool, summary: seq<string>)
    ensures ok <==> AllEntries(items)
    ensures ok ==> summary == Entries(items)
  {
    summary := [];
    for i := 0 to |items|
      invariant |summary| == i
      invariant forall j :: 0 <= j < i ==> Entry(items[j]) == Some(summary[j])
    {
      var entry := Entry(items[i]);
      if entry.None? {
        return false, summary;
      }
      summary := summary + [entry.value];
    }
    ok := true;
  }

  /** `format_matches_summary()`, given the decoded match file (`None` when it
      is missing or not valid JSON). */
  method FormatMatchesSummary(file: Option<Json>) returns (text: string)
    ensures file.None? ==> text == ErrorText
    ensures file.Some? && !Truthy(file.value) ==> text == NoMatchesText
    ensures file.Some? && Truthy(file.value) && !file.value.JArr? ==> text == ErrorText
    ensures file.Some? && file.value.JArr? && file.value.items != [] ==>
              if AllEntries(file.value.items) then text == Join("\n\n", Entries(file.value.items))
              else text == ErrorText
  {
    if file.None? {
      return ErrorText;
    }
    var matches := file.value;
    if !Truthy(matches) {
      return NoMatchesText;
    }
    if !matches.JArr? {
      // A dict iterates over its keys and a string over its characters:
      // subscripting either with 'date' raises; a number is not iterable.
      return ErrorText;
    }
    var ok, summary := CollectEntries(matches.items);
    if !ok {
      return ErrorText;
    }
    text := Join("\n\n", summary);
  }

  /** A non-empty summary begins with the first match's entry and holds every
      entry once, in list order, with a blank line between neighbours: entry
      `i` starts after the earlier entries and their `i` separators, and
      nothing else is in the text. */
  lemma SummaryLayout(items: seq<Json>)
    requires items != [] && AllEntries(items)
    ensures var es := Entries(items);
      && es[0] == Entry(items[0]).value
      && es[0] <= Join("\n\n", es)
      && |Join("\n\n", es)| == TotalLength(es) + 2 * (|es| - 1)
    ensures var es := Entries(items); forall i :: 0 <= i < |es| ==>
      es[i] == Entry(items[i]).value && Placed("\n\n", es, i)
  {
    var es := Entries(items);
    JoinStartsWithFirst("\n\n", es);
    JoinLength("\n\n", es);
    forall i | 0 <= i < |es| ensures Placed("\n\n", es, i) {
      JoinPlacement("\n\n", es, i);
    }
  }
}
