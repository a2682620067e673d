/** `analyze_log_file` (analyze_logs.py): one pass over the lines of the
    bot's log that tracks the date of the latest timestamped line, the number
    of fixtures found per date, the notifications sent per fixture, the error
    messages and the remaining API quota, and the report saved as JSON. */
module LogAnalysis {
  import opened Text
  import opened Dicts
  import opened JsonValues

  // ---------------------------------------------------------------------------
  // f.readlines()

  predicate NoNewline(t: string) {
    forall i :: 0 <= i < |t| ==> t[i] != '\n'
  }

  /** The length of the first line of a non-empty text, its newline included. */
  function FirstLineLength(s: string): (n: nat)
    requires s != []
    decreases |s|
    ensures 0 < n <= |s|
    ensures NoNewline(s[..n - 1])
    ensures s[n - 1] == '\n' || n == |s|
  {
    if s[0] == '\n' || |s| == 1 then 1
    else
      var n := 1 + FirstLineLength(s[1..]);
      assert s[..n - 1] == [s[0]] + s[1..][..n - 2];
      n
  }

  /** `f.readlines()`: the text cut just after every newline; a last piece
      without a newline is kept when the text does not end with one. */
  function SplitLines(s: string): seq<string>
    decreases |s|
  {
    if s == [] then []
    else
      var n := FirstLineLength(s);
      [s[..n]] + SplitLines(s[n..])
  }

  /** `"".join(lines)` */
  function Concat(lines: seq<string>): string {
    if lines == [] then "" else lines[0] + Concat(lines[1..])
  }

  /** What `readlines()` can return: non-empty lines with a newline at most as
      their last character, and every line but the last ending in one. */
  predicate WellFormedLines(lines: seq<string>) {
    forall k :: 0 <= k < |lines| ==>
      && lines[k] != []
      && NoNewline(lines[k][..|lines[k]| - 1])
      && (k < |lines| - 1 ==> lines[k][|lines[k]| - 1] == '\n')
  }

  /** Reading the lines loses nothing: they put back together to the text. */
  lemma {:induction false} SplitLinesRoundTrip(s: string)
    ensures Concat(SplitLines(s)) == s
    decreases |s|
  {
    if s != [] {
      var n := FirstLineLength(s);
      SplitLinesRoundTrip(s[n..]);
      assert SplitLines(s)[1..] == SplitLines(s[n..]);
      assert s == s[..n] + s[n..];
    }
  }

  /** The lines `readlines()` gives are well formed. */
  lemma {:induction false} SplitLinesWellFormed(s: string)
    ensures WellFormedLines(SplitLines(s))
    decreases |s|
  {
    if s != [] {
      var n := FirstLineLength(s);
      var lines, rest := SplitLines(s), SplitLines(s[n..]);
      SplitLinesWellFormed(s[n..]);
      assert lines == [s[..n]] + rest;
      forall k | 0 <= k < |lines|
        ensures lines[k] != [] && NoNewline(lines[k][..|lines[k]| - 1])
        ensures k < |lines| - 1 ==> lines[k][|lines[k]| - 1] == '\n'
      {
        if k > 0 {
          assert lines[k] == rest[k - 1];
        } else {
          assert lines[0] == s[..n] && s[..n][..n - 1] == s[..n - 1];
          if rest != [] {
            assert s[n..] != [];
            assert s[..n][n - 1] == s[n - 1];
          }
        }
      }
    }
  }

  /** A first line ends at its newline, or at the end of the text. */
  lemma {:induction false} FirstLineOf(l: string, rest: string)
    requires l != [] && NoNewline(l[..|l| - 1])
    requires l[|l| - 1] == '\n' || rest == []
    ensures FirstLineLength(l + rest) == |l|
    decreases |l|
  {
    if |l| > 1 {
      assert (l + rest)[0] == l[0] && l[0] == l[..|l| - 1][0];
      assert (l + rest)[1..] == l[1..] + rest;
      assert l[1..][..|l[1..]| - 1] == l[..|l| - 1][1..];
      FirstLineOf(l[1..], rest);
    }
  }

  /** Well-formed lines are what `readlines()` gives back for their text. */
  lemma {:induction false} ConcatRoundTrip(lines: seq<string>)
    requires WellFormedLines(lines)
    ensures SplitLines(Concat(lines)) == lines
  {
    if lines != [] {
      var l, rest := lines[0], Concat(lines[1..]);
      assert Concat(lines) == l + rest;
      assert WellFormedLines(lines[1..]) by {
        forall k | 0 <= k < |lines[1..]|
          ensures lines[1..][k] == lines[k + 1]
        {
        }
      }
      if |lines| == 1 {
        assert rest == [];
      }
      FirstLineOf(l, rest);
      assert (l + rest)[..|l|] == l && (l + rest)[|l|..] == rest;
      ConcatRoundTrip(lines[1..]);
    }
  }

  // ---------------------------------------------------------------------------
  // The four patterns of lines 15-18, as Python's `re` reads them: `.` does
  // not match a newline, `$` matches at the end of the text or just before a
  // newline that ends it, `\d+` is greedy and `.*?` is lazy.

  datatype Pattern =
    | FoundMatches      // r"Found (\d+) matches from Football-Data\.org"
    | SentNotification  // r"Sent Telegram notification for match: (.*?) vs (.*?)$"
    | ErrorLine         // r"ERROR.*?: (.*?)$"
    | ApiHeaders        // r"API Response Headers.*?X-Requests-Available-Minute: (\d+)"

  /** The literal text a pattern starts with. */
  function Prefix(p: Pattern): string {
    match p
    case FoundMatches => "Found "
    case SentNotification => "Sent Telegram notification for match: "
    case ErrorLine => "ERROR"
    case ApiHeaders => "API Response Headers"
  }

  const FoundSuffix := " matches from Football-Data.org"
  const Versus := " vs "
  const Colon := ": "
  const RemainingKey := "X-Requests-Available-Minute: "

  /** The number of groups a pattern captures. */
  function Arity(p: Pattern): nat {
    if p == SentNotification then 2 else 1
  }

  /** What the groups of a match look like: as many as the pattern captures,
      and a non-empty run of digits for a `(\d+)` group. */
  predicate Shaped(p: Pattern, groups: seq<string>) {
    && |groups| == Arity(p)
    && ((p == FoundMatches || p == ApiHeaders) ==> groups[0] != [] && AllDigits(groups[0]))
  }

  /** `(.*?)$` tried from index `k`: the rest of the text without the newline
      that may end it, provided no other newline lies in between. */
  function TailToEnd(s: string, k: nat): Option<string> {
    if k < |s| && s[|s| - 1] == '\n' && NoNewline(s[k..|s| - 1]) then Some(s[k..|s| - 1])
    else if k <= |s| && NoNewline(s[k..]) then Some(s[k..])
    else None
  }

  lemma TailToEndIff(s: string, k: nat, t: string)
    ensures TailToEnd(s, k) == Some(t) <==>
            k <= |s| && NoNewline(t) && (s[k..] == t || s[k..] == t + "\n")
  {
    if k < |s| && s[|s| - 1] == '\n' {
      assert s[k..] == s[k..|s| - 1] + "\n";
      assert s[k..][|s[k..]| - 1] == '\n';
    }
    if k <= |s| && NoNewline(t) && s[k..] == t + "\n" {
      assert s[k..|s| - 1] == t;
    }
  }

  /** The part of a pattern after its lazy `.*?` gap, tried at index `q`; the
      gap began at `st`. `FoundMatches` has no gap: its digits start at `q`. */
  function After(p: Pattern, s: string, st: nat, q: nat): (r: Option<seq<string>>)
    requires st <= q
    ensures r.Some? ==> Shaped(p, r.value)
  {
    match p
    case FoundMatches =>
      var n := DigitRun(s, q);
      if n > 0 && OccursAt(s, q + n, FoundSuffix) then Some([s[q..q + n]]) else None
    case SentNotification =>
      var away := TailToEnd(s, q + |Versus|);
      if OccursAt(s, q, Versus) && away.Some? then Some([s[st..q], away.value]) else None
    case ErrorLine =>
      var message := TailToEnd(s, q + |Colon|);
      if OccursAt(s, q, Colon) && message.Some? then Some([message.value]) else None
    case ApiHeaders =>
      var k := q + |RemainingKey|;
      var n := DigitRun(s, k);
      if OccursAt(s, q, RemainingKey) && n > 0 then
        assert AllDigits(s[k..k + n]);
        Some([s[k..k + n]])
      else None
  }

  /** A lazy `.*?` from `st`: the rest of the pattern is tried at `q`, then one
      character further, and so on; the gap never takes in a newline. */
  function Lazy(p: Pattern, s: string, st: nat, q: nat): (r: Option<seq<string>>)
    requires st <= q <= |s|
    decreases |s| - q
    ensures r.Some? ==> Shaped(p, r.value)
  {
    var here := After(p, s, st, q);
    if here.Some? then here
    else if q == |s| || s[q] == '\n' then None
    else Lazy(p, s, st, q + 1)
  }

  /** The groups of a match of `p` that starts at index `i`. */
  function MatchAt(p: Pattern, s: string, i: nat): (r: Option<seq<string>>)
    ensures r.Some? ==> Shaped(p, r.value)
  {
    var k := i + |Prefix(p)|;
    if !OccursAt(s, i, Prefix(p)) then None
    else if p == FoundMatches then After(p, s, k, k)
    else Lazy(p, s, k, k)
  }

  /** The first entry of `ms` that is present. */
  function First<T>(ms: seq<Option<T>>): (r: Option<T>)
    ensures r.Some? ==> exists k :: 0 <= k < |ms| && ms[k] == r
  {
    if ms == [] then None
    else if ms[0].Some? then ms[0]
    else
      var r := First(ms[1..]);
      assert r.Some? ==> exists k :: 0 <= k < |ms[1..]| && ms[1..][k] == r;
      r
  }

  /** `p.search(s)`: the match that starts at the leftmost index. */
  function Search(p: Pattern, s: string): (r: Option<seq<string>>)
    ensures r.Some? ==> Shaped(p, r.value)
  {
    First(seq(|s| + 1, k requires 0 <= k => MatchAt(p, s, k)))
  }

  /** `First` picks the leftmost present entry. */
  lemma {:induction false} FirstIsLeftmost<T>(ms: seq<Option<T>>, x: T)
    ensures First(ms).None? <==> forall k :: 0 <= k < |ms| ==> ms[k].None?
    ensures First(ms) == Some(x) <==>
            exists k :: 0 <= k < |ms| && ms[k] == Some(x) && forall j :: 0 <= j < k ==> ms[j].None?
  {
    if ms != [] && ms[0].None? {
      var tail := ms[1..];
      FirstIsLeftmost(tail, x);
      if exists k :: 0 <= k < |tail| && tail[k] == Some(x) && forall j :: 0 <= j < k ==> tail[j].None? {
        var k :| 0 <= k < |tail| && tail[k] == Some(x) && forall j :: 0 <= j < k ==> tail[j].None?;
        forall j | 0 <= j < k + 1
          ensures ms[j].None?
        {
          if j > 0 {
            assert ms[j] == tail[j - 1];
          }
        }
      }
      if exists k :: 0 <= k < |ms| && ms[k] == Some(x) && forall j :: 0 <= j < k ==> ms[j].None? {
        var k :| 0 <= k < |ms| && ms[k] == Some(x) && forall j :: 0 <= j < k ==> ms[j].None?;
        assert tail[k - 1] == ms[k];
        assert forall j :: 0 <= j < k - 1 ==> tail[j] == ms[j + 1];
      }
      forall k | 0 <= k < |tail| ensures tail[k] == ms[k + 1] {
      }
    }
  }

  /** The search finds nothing exactly when the pattern matches at no index. */
  lemma SearchFails(p: Pattern, s: string)
    ensures Search(p, s).None? <==> forall k :: 0 <= k <= |s| ==> MatchAt(p, s, k).None?
  {
    var ms := seq(|s| + 1, k requires 0 <= k => MatchAt(p, s, k));
    FirstIsLeftmost(ms, []);
    forall k | 0 <= k <= |s| ensures ms[k] == MatchAt(p, s, k) {
    }
  }

  /** Otherwise it reports the match at the leftmost index `k` where there is one. */
  lemma SearchIsLeftmost(p: Pattern, s: string) returns (k: nat)
    requires Search(p, s).Some?
    ensures k <= |s| && MatchAt(p, s, k) == Search(p, s)
    ensures forall j :: 0 <= j < k ==> MatchAt(p, s, j).None?
  {
    var ms := seq(|s| + 1, k requires 0 <= k => MatchAt(p, s, k));
    FirstIsLeftmost(ms, Search(p, s).value);
    k :| 0 <= k < |ms| && ms[k] == Search(p, s) && forall j :: 0 <= j < k ==> ms[j].None?;
    forall j | 0 <= j < k ensures MatchAt(p, s, j).None? {
      assert ms[j] == MatchAt(p, s, j);
    }
  }

  /** A match with none to its left is the one the search reports. */
  lemma SearchFindsLeftmost(p: Pattern, s: string, k: nat)
    requires k <= |s| && MatchAt(p, s, k).Some?
    requires forall j :: 0 <= j < k ==> MatchAt(p, s, j).None?
    ensures Search(p, s) == MatchAt(p, s, k)
  {
    SearchFails(p, s);
    var k' := SearchIsLeftmost(p, s);
    assert k' == k;
  }

  /** The lazy gap from `q` can stop at `r`: it holds no newline, the rest of
      the pattern matches at `r` and at no index before. */
  ghost predicate StopsAt(p: Pattern, s: string, st: nat, q: nat, r: nat)
    requires st <= q
  {
    && q <= r <= |s| && NoNewline(s[q..r])
    && After(p, s, st, r).Some?
    && forall j :: q <= j < r ==> After(p, s, st, j).None?
  }

  /** The lazy gap takes the shortest stretch after which the rest of the
      pattern matches. */
  lemma {:induction false} LazyIsShortest(p: Pattern, s: string, st: nat, q: nat, r: nat)
    requires st <= q <= |s|
    requires StopsAt(p, s, st, q, r)
    decreases |s| - q
    ensures Lazy(p, s, st, q) == After(p, s, st, r)
  {
    if r > q {
      assert s[q..r][0] == s[q];
      assert s[q + 1..r] == s[q..r][1..];
      LazyIsShortest(p, s, st, q + 1, r);
    }
  }

  /** No gap without a newline reaches past a newline or the end. */
  lemma GapEndsAtNewline(s: string, q: nat)
    requires q == |s| || (q < |s| && s[q] == '\n')
    ensures forall r :: q <= r <= |s| && NoNewline(s[q..r]) ==> r == q
  {
    forall r | q < r <= |s|
      ensures !NoNewline(s[q..r])
    {
      assert s[q..r][0] == s[q];
    }
  }

  /** Past a character that is not a newline, a gap from `q` is one from
      `q + 1` grown by that character. */
  lemma GapStep(s: string, q: nat)
    requires q < |s| && s[q] != '\n'
    ensures forall r :: q < r <= |s| ==> (NoNewline(s[q..r]) <==> NoNewline(s[q + 1..r]))
  {
    forall r | q < r <= |s| ensures NoNewline(s[q..r]) <==> NoNewline(s[q + 1..r]) {
      assert s[q..r] == [s[q]] + s[q + 1..r];
    }
  }

  /** The lazy gap fails exactly when the rest of the pattern matches at no
      index before the next newline. */
  lemma {:induction false} LazyFails(p: Pattern, s: string, st: nat, q: nat)
    requires st <= q <= |s|
    decreases |s| - q
    ensures Lazy(p, s, st, q).None? <==>
            forall r :: q <= r <= |s| && NoNewline(s[q..r]) ==> After(p, s, st, r).None?
  {
    if After(p, s, st, q).None? {
      if q < |s| && s[q] != '\n' {
        LazyFails(p, s, st, q + 1);
        GapStep(s, q);
      } else {
        GapEndsAtNewline(s, q);
      }
    } else {
      assert NoNewline(s[q..q]);
    }
  }

  /** A greedy `\d+` takes the whole run of digits. */
  lemma {:induction false} DigitRunIs(s: string, k: nat, n: nat)
    requires k + n <= |s|
    requires forall i :: k <= i < k + n ==> IsDigit(s[i])
    requires k + n == |s| || !IsDigit(s[k + n])
    ensures DigitRun(s, k) == n
    decreases n
  {
    if n > 0 {
      DigitRunIs(s, k + 1, n - 1);
    }
  }

  /** "Found N matches from Football-Data.org" at index `i`, with N the digits. */
  lemma FoundMatchesAt(s: string, i: nat, digits: string)
    ensures MatchAt(FoundMatches, s, i) == Some([digits]) <==>
            digits != [] && AllDigits(digits) && OccursAt(s, i, "Found " + digits + FoundSuffix)
  {
    OccursAtConcat(s, i, "Found ", digits + FoundSuffix);
    assert "Found " + digits + FoundSuffix == "Found " + (digits + FoundSuffix);
    FoundAfter(s, i + 6, digits);
  }

  /** The count and the rest of the "Found" message, from index `k`. */
  lemma FoundAfter(s: string, k: nat, digits: string)
    ensures After(FoundMatches, s, k, k) == Some([digits]) <==>
            digits != [] && AllDigits(digits) && OccursAt(s, k, digits + FoundSuffix)
  {
    DigitsThen(s, k, digits, FoundSuffix);
  }

  /** A run of digits at `k` followed by `rest`, which does not start with a digit. */
  lemma DigitsThen(s: string, k: nat, digits: string, rest: string)
    requires rest != [] && !IsDigit(rest[0])
    ensures (var n := DigitRun(s, k); n > 0 && OccursAt(s, k + n, rest) && s[k..k + n] == digits) <==>
            digits != [] && AllDigits(digits) && OccursAt(s, k, digits + rest)
  {
    OccursAtConcat(s, k, digits, rest);
    var n := DigitRun(s, k);
    if digits != [] && AllDigits(digits) && OccursAt(s, k, digits) && OccursAt(s, k + |digits|, rest) {
      forall j | k <= j < k + |digits| ensures IsDigit(s[j]) {
        assert s[j] == s[k..k + |digits|][j - k];
      }
      assert s[k + |digits|] == s[k + |digits|..k + |digits| + |rest|][0];
      DigitRunIs(s, k, |digits|);
    }
  }

  /** The quota field: the key "X-Requests-Available-Minute: " at index `q`
      followed by its whole run of digits. */
  lemma RemainingAt(s: string, st: nat, q: nat, digits: string)
    requires st <= q
    ensures After(ApiHeaders, s, st, q) == Some([digits]) <==>
            && digits != [] && AllDigits(digits)
            && OccursAt(s, q, RemainingKey + digits)
            && (q + |RemainingKey| + |digits| == |s| || !IsDigit(s[q + |RemainingKey| + |digits|]))
  {
    var k := q + |RemainingKey|;
    OccursAtConcat(s, q, RemainingKey, digits);
    if digits != [] && AllDigits(digits) && OccursAt(s, k, digits) &&
       (k + |digits| == |s| || !IsDigit(s[k + |digits|])) {
      forall j | k <= j < k + |digits| ensures IsDigit(s[j]) {
        assert s[j] == s[k..k + |digits|][j - k];
      }
      DigitRunIs(s, k, |digits|);
    }
  }

  /** The fixture of a notification line: the home team runs from the gap's
      start to " vs " at `q`, the away team is the rest of the line. */
  lemma FixtureAfter(s: string, st: nat, q: nat, home: string, away: string)
    requires st <= q
    ensures After(SentNotification, s, st, q) == Some([home, away]) <==>
            && OccursAt(s, q, Versus) && home == s[st..q]
            && NoNewline(away) && (s[q + 4..] == away || s[q + 4..] == away + "\n")
  {
    TailToEndIff(s, q + 4, away);
  }

  /** The message of an error line: what follows ": " at `q` to the end of the line. */
  lemma MessageAfter(s: string, st: nat, q: nat, message: string)
    requires st <= q
    ensures After(ErrorLine, s, st, q) == Some([message]) <==>
            && OccursAt(s, q, Colon)
            && NoNewline(message) && (s[q + 2..] == message || s[q + 2..] == message + "\n")
  {
    TailToEndIff(s, q + 2, message);
  }

  // ---------------------------------------------------------------------------
  // What the checks of the loop (lines 31-51) find in one line

  /** `re.match(r"(\d{4}-\d{2}-\d{2})", line)`: the line begins with a date. */
  predicate StartsWithDate(line: string) {
    && |line| >= 10
    && AllDigits(line[..4]) && line[4] == '-'
    && AllDigits(line[5..7]) && line[7] == '-'
    && AllDigits(line[8..10])
  }

  /** `N` of a "Found N matches from Football-Data.org" line. */
  function FoundCount(line: string): Option<nat> {
    var m := Search(FoundMatches, line);
    if m.Some? then Some(DecimalValue(m.value[0])) else None
  }

  /** `f"{home} vs {away}"` of a notification line. */
  function SentTo(line: string): Option<string> {
    var m := Search(SentNotification, line);
    if m.Some? then Some(m.value[0] + " vs " + m.value[1]) else None
  }

  /** The message of an error line. */
  function Message(line: string): Option<string> {
    var m := Search(ErrorLine, line);
    if m.Some? then Some(m.value[0]) else None
  }

  /** The remaining quota of an API-headers line. */
  function Remaining(line: string): Option<nat> {
    var m := Search(ApiHeaders, line);
    if m.Some? then Some(DecimalValue(m.value[0])) else None
  }

  /** What the five checks find in a line; each is `None` when its pattern
      does not match. */
  datatype Reading = Reading(
    stamp: Option<string>,
    count: Option<nat>,
    fixture: Option<string>,
    message: Option<string>,
    remaining: Option<nat>)

  function Read(line: string): Reading {
    Reading(if StartsWithDate(line) then Some(line[..10]) else None,
            FoundCount(line), SentTo(line), Message(line), Remaining(line))
  }

  function Readings(lines: seq<string>): (rs: seq<Reading>)
    ensures |rs| == |lines|
    ensures forall k :: 0 <= k < |lines| ==> rs[k] == Read(lines[k])
  {
    seq(|lines|, k requires 0 <= k < |lines| => Read(lines[k]))
  }

  /** "ERROR: " followed by a one-line text is an error line with that text as message. */
  lemma ErrorPrefixMessage(rest: string)
    requires NoNewline(rest)
    ensures Message("ERROR: " + rest) == Some(rest)
  {
    var line := "ERROR: " + rest;
    assert line[..5] == "ERROR" && line[5..7] == Colon && line[7..] == rest;
    TailToEndIff(line, 7, rest);
    assert After(ErrorLine, line, 5, 5) == Some([rest]);
    assert MatchAt(ErrorLine, line, 0) == Some([rest]);
    var k := SearchIsLeftmost(ErrorLine, line);
  }

  /** After "ERROR: ", a "Found N matches" message still counts as one. */
  lemma FoundAfterErrorPrefix(digits: string)
    requires digits != [] && AllDigits(digits)
    ensures FoundCount("ERROR: " + ("Found " + digits + FoundSuffix)) == Some(DecimalValue(digits))
  {
    var rest := "Found " + digits + FoundSuffix;
    var line := "ERROR: " + rest;
    assert line[7..7 + |rest|] == rest;
    FoundMatchesAt(line, 7, digits);
    NoFoundInErrorPrefix(line);
    SearchFindsLeftmost(FoundMatches, line, 7);
  }

  /** "Found " cannot start inside the prefix "ERROR: ". */
  lemma NoFoundInErrorPrefix(line: string)
    requires |line| >= 7 && line[..7] == "ERROR: "
    ensures forall j :: 0 <= j < 7 ==> MatchAt(FoundMatches, line, j).None?
  {
    forall j | 0 <= j < 7 ensures !OccursAt(line, j, Prefix(FoundMatches)) {
      assert line[j] == "ERROR: "[j] != 'F';
      if j + 6 <= |line| {
        assert line[j..j + 6][0] == line[j];
      }
    }
  }

  /** The checks are independent: a line can be both an error line and a
      "Found" line, and then the loop records it in both places. */
  lemma OneLineTwoRecords(digits: string)
    requires digits != [] && AllDigits(digits)
    ensures var line := "ERROR: " + ("Found " + digits + FoundSuffix);
      && Read(line).message == Some("Found " + digits + FoundSuffix)
      && Read(line).count == Some(DecimalValue(digits))
  {
    var rest := "Found " + digits + FoundSuffix;
    assert NoNewline(rest) by {
      forall i | 0 <= i < |rest| ensures rest[i] != '\n' {
        if 6 <= i < 6 + |digits| {
          assert rest[i] == digits[i - 6];
        }
      }
    }
    ErrorPrefixMessage(rest);
    FoundAfterErrorPrefix(digits);
  }

  // ---------------------------------------------------------------------------
  // The accumulation (lines 28-51)

  /** What the loop has gathered: `current_date` (`None` before the first
      timestamp), `match_counts`, `notification_counts`, `errors` and
      `api_calls`. */
  datatype Tally = Tally(
    currentDate: Option<string>,
    matchCounts: Dict<Option<string>, nat>,
    notificationCounts: Dict<string, nat>,
    errors: seq<string>,
    apiCalls: seq<nat>)

  const Start: Tally := Tally(None, Empty(), Empty(), [], [])

  /** `counts[key] += 1` on a `defaultdict(int)`. */
  function Bump(counts: Dict<string, nat>, key: string): Dict<string, nat> {
    Put(counts, key, GetOr(counts, key, 0) + 1)
  }

  /** One turn of the loop: the date update, then four independent checks. */
  function Step(t: Tally, r: Reading): Tally {
    var date := if r.stamp.Some? then r.stamp else t.currentDate;
    Tally(
      date,
      if r.count.Some? then Put(t.matchCounts, date, r.count.value) else t.matchCounts,
      if r.fixture.Some? then Bump(t.notificationCounts, r.fixture.value) else t.notificationCounts,
      if r.message.Some? then t.errors + [r.message.value] else t.errors,
      if r.remaining.Some? then t.apiCalls + [r.remaining.value] else t.apiCalls)
  }

  /** The state after the loop has taken in `rs`. */
  function Fold(rs: seq<Reading>): Tally {
    if rs == [] then Start else Step(Fold(rs[..|rs| - 1]), rs[|rs| - 1])
  }

  /** The state after the loop has read `lines`. */
  function Analyze(lines: seq<string>): Tally {
    Fold(Readings(lines))
  }

  /** The date in force while reading `k` is taken in, its own stamp included. */
  function DateAt(rs: seq<Reading>, k: nat): Option<string>
    requires k < |rs|
  {
    Fold(rs[..k + 1]).currentDate
  }

  /** Taking in more readings does not change the date in force at an earlier one. */
  lemma DateAtPrefix(rs: seq<Reading>, n: nat, k: nat)
    requires k < n <= |rs|
    ensures DateAt(rs[..n], k) == DateAt(rs, k)
  {
    assert rs[..n][..k + 1] == rs[..k + 1];
  }

  /** The date is `None` until the first line that starts with a timestamp. */
  lemma {:induction false} NoDateBeforeFirstStamp(rs: seq<Reading>)
    ensures Fold(rs).currentDate.None? <==> forall k :: 0 <= k < |rs| ==> rs[k].stamp.None?
  {
    if rs != [] {
      var init := rs[..|rs| - 1];
      NoDateBeforeFirstStamp(init);
      assert forall k :: 0 <= k < |init| ==> init[k] == rs[k];
    }
  }

  /** Otherwise it is the date of the latest line that starts with one. */
  lemma {:induction false} LatestStamp(rs: seq<Reading>) returns (k: nat)
    requires Fold(rs).currentDate.Some?
    ensures k < |rs| && rs[k].stamp.Some? && Fold(rs).currentDate == rs[k].stamp
    ensures forall j :: k < j < |rs| ==> rs[j].stamp.None?
  {
    var last := |rs| - 1;
    if rs[last].stamp.Some? {
      k := last;
    } else {
      var init := rs[..last];
      k := LatestStamp(init);
      assert init[k] == rs[k];
      assert forall j :: k < j < last ==> init[j] == rs[j];
    }
  }

  /** The date is the one the line itself carries when it starts with one. */
  lemma StampSetsDate(rs: seq<Reading>, k: nat)
    requires k < |rs| && rs[k].stamp.Some?
    ensures DateAt(rs, k) == rs[k].stamp
  {
    assert rs[..k + 1][..k] == rs[..k];
  }

  /** The count kept for a date is the one of the last "Found" line read
      while that date was in force: a later line overwrites, it does not add. */
  lemma {:induction false} LastCountWins(rs: seq<Reading>, d: Option<string>) returns (k: nat)
    requires d in Fold(rs).matchCounts.entries
    ensures k < |rs| && rs[k].count.Some? && DateAt(rs, k) == d
    ensures Fold(rs).matchCounts.entries[d] == rs[k].count.value
    ensures forall j :: k < j < |rs| ==> rs[j].count.None? || DateAt(rs, j) != d
  {
    var last := |rs| - 1;
    var init := rs[..last];
    var before, after := Fold(init), Fold(rs);
    assert DateAt(rs, last) == after.currentDate by {
      assert rs[..last + 1] == rs;
    }
    if rs[last].count.Some? && after.currentDate == d {
      k := last;
    } else {
      assert d in before.matchCounts.entries && after.matchCounts.entries[d] == before.matchCounts.entries[d];
      k := LastCountWins(init, d);
      assert init[k] == rs[k];
      DateAtPrefix(rs, last, k);
      forall j | k < j < last ensures rs[j].count.None? || DateAt(rs, j) != d {
        assert init[j] == rs[j];
        DateAtPrefix(rs, last, j);
      }
    }
  }

  /** A "Found" line puts the date in force at it among the keys. */
  lemma {:induction false} CountKeyFromLine(rs: seq<Reading>, k: nat)
    requires k < |rs| && rs[k].count.Some?
    ensures DateAt(rs, k) in Fold(rs).matchCounts.entries
  {
    var last := |rs| - 1;
    var init := rs[..last];
    if k == last {
      assert rs[..last + 1] == rs;
    } else {
      CountKeyFromLine(init, k);
      DateAtPrefix(rs, last, k);
      assert init[k] == rs[k];
    }
  }

  /** `match_counts` has a key for a date exactly when some "Found" line was
      read while that date was in force. */
  lemma MatchCountKeys(rs: seq<Reading>, d: Option<string>)
    ensures d in Fold(rs).matchCounts.entries <==>
            exists k :: 0 <= k < |rs| && rs[k].count.Some? && DateAt(rs, k) == d
  {
    if d in Fold(rs).matchCounts.entries {
      var k := LastCountWins(rs, d);
    }
    if exists k :: 0 <= k < |rs| && rs[k].count.Some? && DateAt(rs, k) == d {
      var k :| 0 <= k < |rs| && rs[k].count.Some? && DateAt(rs, k) == d;
      CountKeyFromLine(rs, k);
    }
  }

  /** The two counters are well-formed dictionaries. */
  lemma {:induction false} CountersValid(rs: seq<Reading>)
    ensures Valid(Fold(rs).matchCounts) && Valid(Fold(rs).notificationCounts)
  {
    if rs != [] {
      CountersValid(rs[..|rs| - 1]);
    }
  }

  /** The fixtures of the notification lines, in line order. */
  function SentFixtures(rs: seq<Reading>): seq<string> {
    if rs == [] then []
    else
      var fixture := rs[|rs| - 1].fixture;
      SentFixtures(rs[..|rs| - 1]) + if fixture.Some? then [fixture.value] else []
  }

  /** Each notification line adds exactly one to its fixture's counter: the
      counter of a fixture is the number of lines that name it. */
  lemma {:induction false} NotificationCounts(rs: seq<Reading>, fixture: string)
    ensures GetOr(Fold(rs).notificationCounts, fixture, 0) == multiset(SentFixtures(rs))[fixture]
  {
    if rs != [] {
      NotificationCounts(rs[..|rs| - 1], fixture);
    }
  }

  function Number(n: nat): int {
    n
  }

  /** The counters add up to the number of notification lines. */
  lemma {:induction false} NotificationTotal(rs: seq<Reading>)
    ensures Valid(Fold(rs).notificationCounts)
    ensures Total(Fold(rs).notificationCounts, Number) == |SentFixtures(rs)|
  {
    CountersValid(rs);
    if rs != [] {
      var init := rs[..|rs| - 1];
      var fixture := rs[|rs| - 1].fixture;
      NotificationTotal(init);
      if fixture.Some? {
        BumpTotal(Fold(init).notificationCounts, fixture.value);
      }
    }
  }

  /** `counts[key] += 1` adds one to the sum of the counters. */
  lemma BumpTotal(counts: Dict<string, nat>, key: string)
    requires Valid(counts)
    ensures Total(Bump(counts, key), Number) == Total(counts, Number) + 1
  {
    PutTotal(counts, key, GetOr(counts, key, 0) + 1, Number);
  }

  /** The indices of the present entries, in order. */
  function Present<T>(xs: seq<Option<T>>): seq<nat> {
    if xs == [] then []
    else Present(xs[..|xs| - 1]) + if xs[|xs| - 1].Some? then [|xs| - 1] else []
  }

  /** `Present` lists every present entry once, in increasing order, and nothing else. */
  lemma {:induction false} PresentExactly<T>(xs: seq<Option<T>>)
    ensures forall m :: 0 <= m < |Present(xs)| ==> Present(xs)[m] < |xs| && xs[Present(xs)[m]].Some?
    ensures forall m, n :: 0 <= m < n < |Present(xs)| ==> Present(xs)[m] < Present(xs)[n]
    ensures forall k :: 0 <= k < |xs| && xs[k].Some? ==> k in Present(xs)
  {
    if xs != [] {
      var last := |xs| - 1;
      var init := xs[..last];
      PresentExactly(init);
      var p0, p := Present(init), Present(xs);
      assert p == p0 + if xs[last].Some? then [last] else [];
      forall m | 0 <= m < |p| ensures p[m] < |xs| && xs[p[m]].Some? {
        if m < |p0| {
          assert p[m] == p0[m] && init[p0[m]] == xs[p0[m]];
        }
      }
      forall m, n | 0 <= m < n < |p| ensures p[m] < p[n] {
        assert p[m] == p0[m];
        if n < |p0| {
          assert p[n] == p0[n];
        }
      }
      forall k | 0 <= k < |xs| && xs[k].Some? ensures k in p {
        if k < last {
          assert init[k] == xs[k];
          assert k in p0;
        }
      }
    }
  }

  function Messages(rs: seq<Reading>): (ms: seq<Option<string>>)
    ensures |ms| == |rs| && forall k :: 0 <= k < |rs| ==> ms[k] == rs[k].message
  {
    seq(|rs|, k requires 0 <= k < |rs| => rs[k].message)
  }

  function Quotas(rs: seq<Reading>): (qs: seq<Option<nat>>)
    ensures |qs| == |rs| && forall k :: 0 <= k < |rs| ==> qs[k] == rs[k].remaining
  {
    seq(|rs|, k requires 0 <= k < |rs| => rs[k].remaining)
  }

  /** `errors` holds one message per error line, in line order. */
  lemma {:induction false} ErrorsInLineOrder(rs: seq<Reading>)
    ensures |Fold(rs).errors| == |Present(Messages(rs))|
    ensures forall m :: 0 <= m < |Fold(rs).errors| ==>
              Present(Messages(rs))[m] < |rs| && rs[Present(Messages(rs))[m]].message == Some(Fold(rs).errors[m])
  {
    if rs != [] {
      var init := rs[..|rs| - 1];
      ErrorsInLineOrder(init);
      assert Messages(rs)[..|rs| - 1] == Messages(init);
    }
  }

  /** `api_calls` holds one quota per API-headers line, in line order. */
  lemma {:induction false} ApiCallsInLineOrder(rs: seq<Reading>)
    ensures |Fold(rs).apiCalls| == |Present(Quotas(rs))|
    ensures forall m :: 0 <= m < |Fold(rs).apiCalls| ==>
              Present(Quotas(rs))[m] < |rs| && rs[Present(Quotas(rs))[m]].remaining == Some(Fold(rs).apiCalls[m])
  {
    if rs != [] {
      var init := rs[..|rs| - 1];
      ApiCallsInLineOrder(init);
      assert Quotas(rs)[..|rs| - 1] == Quotas(init);
    }
  }

  // ---------------------------------------------------------------------------
  // The saved report (lines 80-85)

  const ReportKeys: seq<string> := ["matches_by_date", "notifications", "api_calls", "errors"]

  /** `json.dump` writes the `None` date key as "null". */
  function DateName(d: Option<string>): string {
    if d.None? then "null" else d.value
  }

  function Identity(s: string): string {
    s
  }

  /** The members `dict(counts)` is written as, in the dict's order. */
  function CountMembers<K(==,!new)>(keys: seq<K>, counts: Dict<K, nat>, name: K -> string): seq<Member> {
    if keys == [] then []
    else
      var k := keys[|keys| - 1];
      CountMembers(keys[..|keys| - 1], counts, name) + [Member(name(k), JNum(GetOr(counts, k, 0)))]
  }

  /** The report dictionary the script saves. */
  function Report(t: Tally): Json {
    JObj([
      Member("matches_by_date", JObj(CountMembers(t.matchCounts.keys, t.matchCounts, DateName))),
      Member("notifications", JObj(CountMembers(t.notificationCounts.keys, t.notificationCounts, Identity))),
      Member("api_calls", JArr(seq(|t.apiCalls|, i requires 0 <= i < |t.apiCalls| => JNum(t.apiCalls[i])))),
      Member("errors", JArr(seq(|t.errors|, i requires 0 <= i < |t.errors| => JStr(t.errors[i]))))])
  }

  /** The report has exactly the four keys, and its two lists are the ones gathered. */
  lemma ReportShape(t: Tally)
    ensures forall key :: HasKey(Report(t), key) <==> key in ReportKeys
    ensures Subscript(Report(t), "errors") == Some(JArr(seq(|t.errors|, i requires 0 <= i < |t.errors| => JStr(t.errors[i]))))
    ensures Subscript(Report(t), "api_calls") == Some(JArr(seq(|t.apiCalls|, i requires 0 <= i < |t.apiCalls| => JNum(t.apiCalls[i]))))
  {
    var members := Report(t).members;
    assert |members| == 4 && forall i :: 0 <= i < 4 ==> members[i].key == ReportKeys[i];
    forall key ensures HasKey(Report(t), key) <==> key in ReportKeys {
      if key in ReportKeys {
        var i :| 0 <= i < 4 && ReportKeys[i] == key;
        assert members[i].key == key;
      }
    }
  }

  // ---------------------------------------------------------------------------
  // analyze_log_file

  /** Reading one more line is one more turn of the loop. */
  lemma AnalyzeNext(lines: seq<string>, i: nat)
    requires i < |lines|
    ensures Analyze(lines[..i + 1]) == Step(Analyze(lines[..i]), Read(lines[i]))
  {
    assert Readings(lines[..i + 1])[..i] == Readings(lines[..i]);
  }

  /** `analyze_log_file(file_path)`: `file` is the file's text, `None` when it
      cannot be found; the result is the report it saves, `None` when it
      saves none. */
  method AnalyzeLogFile(file: Option<string>) returns (report: Option<Json>)
    ensures file.None? ==> report.None?
    ensures file.Some? ==> report == Some(Report(Analyze(SplitLines(file.value))))
  {
    if file.None? {
      return None;
    }
    var lines := SplitLines(file.value);
    var matchCounts: Dict<Option<string>, nat> := Empty();
    var notificationCounts: Dict<string, nat> := Empty();
    var errors: seq<string> := [];
    var apiCalls: seq<nat> := [];
    var currentDate: Option<string> := None;
    for i := 0 to |lines|
      invariant Tally(currentDate, matchCounts, notificationCounts, errors, apiCalls) == Analyze(lines[..i])
    {
      var line := lines[i];
      ghost var before := Tally(currentDate, matchCounts, notificationCounts, errors, apiCalls);
      AnalyzeNext(lines, i);
      if StartsWithDate(line) {
        currentDate := Some(line[..10]);
      }
      var count := FoundCount(line);
      if count.Some? {
        matchCounts := Put(matchCounts, currentDate, count.value);
      }
      var fixture := SentTo(line);
      if fixture.Some? {
        notificationCounts := Bump(notificationCounts, fixture.value);
      }
      var message := Message(line);
      if message.Some? {
        errors := errors + [message.value];
      }
      var remaining := Remaining(line);
      if remaining.Some? {
        apiCalls := apiCalls + [remaining.value];
      }
      assert Tally(currentDate, matchCounts, notificationCounts, errors, apiCalls) == Step(before, Read(line));
    }
    assert lines[..|lines|] == lines;
    report := Some(Report(Tally(currentDate, matchCounts, notificationCounts, errors, apiCalls)));
  }
}
