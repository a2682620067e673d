/** fetch_tv_schedule.py: the football filter of the Rai and Mediaset
    scrapers and `update_tv_schedule`, which groups the scraped programs by
    channel, lets the Sky Sport and DAZN lists replace their channel's entry,
    and sorts every channel's list by its time string.

    HTML parsing is not modelled: a scraped page is the list of program cards
    of each channel section, with the stripped text of the title and time
    elements when the card has them. */
module TvSchedule {
  import opened Text
  import opened Dicts

  /** One entry of the schedule, the dict every scraper appends. */
  datatype Program = Program(channel: string, time: string, program: string, description: string)

  // ---------------------------------------------------------------------------
  // The football filter (lines 50-51 and 97-98)

  const FootballKeywords: seq<string> := ["calcio", "serie a", "champions", "europa", "coppa italia"]

  /** Some keyword of `keywords` occurs in `text`. */
  predicate AnyKeyword(text: string, keywords: seq<string>) {
    keywords != [] && (Contains(text, keywords[0]) || AnyKeyword(text, keywords[1..]))
  }

  /** `any(keyword in title.lower() for keyword in [...])`. */
  predicate IsFootballTitle(title: string) {
    AnyKeyword(Lower(title), FootballKeywords)
  }

  /** A title is a football title exactly when one of the keywords occurs in
      its lower-cased form. */
  lemma {:induction false} AnyKeywordIff(text: string, keywords: seq<string>)
    ensures AnyKeyword(text, keywords) <==>
            exists k: nat, j: nat :: k < |keywords| && OccursAt(text, j, keywords[k])
  {
    if keywords != [] {
      AnyKeywordIff(text, keywords[1..]);
      ContainsIff(text, keywords[0]);
      if exists k: nat, j: nat :: 0 < k < |keywords| && OccursAt(text, j, keywords[k]) {
        var k: nat, j: nat :| 0 < k < |keywords| && OccursAt(text, j, keywords[k]);
        assert keywords[1..][k - 1] == keywords[k];
      }
      if exists k: nat, j: nat :: k < |keywords[1..]| && OccursAt(text, j, keywords[1..][k]) {
        var k: nat, j: nat :| k < |keywords[1..]| && OccursAt(text, j, keywords[1..][k]);
        assert keywords[1..][k] == keywords[k + 1];
      }
    }
  }

  /** Case does not matter: "SERIE A" is a football title. */
  lemma SerieAIsFootball()
    ensures IsFootballTitle("SERIE A")
  {
    assert Lower("SERIE A") == "serie a";
    assert OccursAt("serie a", 0, FootballKeywords[1]);
    AnyKeywordIff("serie a", FootballKeywords);
  }

  // ---------------------------------------------------------------------------
  // The Rai and Mediaset scrapers' card loop

  /** A program card: the stripped text of its title and time elements, when present. */
  datatype Card = Card(title: Option<string>, time: Option<string>)

  /** A card is kept when it has both elements and its title is a football title. */
  predicate Kept(card: Card) {
    card.title.Some? && card.time.Some? && IsFootballTitle(card.title.value)
  }

  /** The entry a kept card of channel `name` becomes; `written` is the channel
      as written into the entry. */
  function CardProgram(name: string, written: string, card: Card): Program
    requires card.title.Some? && card.time.Some?
  {
    Program(written, card.time.value, card.title.value, "Diretta su " + name)
  }

  /** The entries of the kept cards, in card order. */
  function FootballPrograms(name: string, written: string, cards: seq<Card>): (r: seq<Program>)
    ensures |r| <= |cards|
    ensures forall i :: 0 <= i < |r| ==> r[i].channel == written
  {
    if cards == [] then []
    else
      var card := cards[|cards| - 1];
      FootballPrograms(name, written, cards[..|cards| - 1]) + (if Kept(card) then [CardProgram(name, written, card)] else [])
  }

  /** A card is kept exactly when it is a football card: every kept card's
      entry is in the result, and every entry comes from a kept card. */
  lemma {:induction false} FootballProgramsExactly(name: string, written: string, cards: seq<Card>)
    ensures forall i :: 0 <= i < |cards| && Kept(cards[i]) ==>
              CardProgram(name, written, cards[i]) in FootballPrograms(name, written, cards)
    ensures forall p :: p in FootballPrograms(name, written, cards) ==>
              exists i :: 0 <= i < |cards| && Kept(cards[i]) && p == CardProgram(name, written, cards[i])
  {
    if cards != [] {
      var init := cards[..|cards| - 1];
      FootballProgramsExactly(name, written, init);
      forall p | p in FootballPrograms(name, written, cards)
        ensures exists i :: 0 <= i < |cards| && Kept(cards[i]) && p == CardProgram(name, written, cards[i])
      {
        if p in FootballPrograms(name, written, init) {
          var i :| 0 <= i < |init| && Kept(init[i]) && p == CardProgram(name, written, init[i]);
          assert cards[i] == init[i];
        } else {
          assert p == CardProgram(name, written, cards[|cards| - 1]);
        }
      }
    }
  }

  /** The loop over one channel section's cards (lines 41-58 and 88-105). */
  method CollectFootball(name: string, written: string, cards: seq<Card>) returns (programs: seq<Program>)
    ensures programs == FootballPrograms(name, written, cards)
  {
    programs := [];
    for i := 0 to |cards|
      invariant programs == FootballPrograms(name, written, cards[..i])
    {
      assert cards[..i + 1][..i] == cards[..i];
      var card := cards[i];
      if card.title.Some? && card.time.Some? {
        var titleText := card.title.value;
        var timeText := card.time.value;
        if IsFootballTitle(titleText) {
          programs := programs + [Program(written, timeText, titleText, "Diretta su " + name)];
        }
      }
    }
    assert cards[..|cards|] == cards;
  }

  /** The cards of one channel section; a page without the section has none. */
  function SectionCards(page: map<string, seq<Card>>, section: string): seq<Card> {
    if section in page then page[section] else []
  }

  /** A channel section of a scraped page: the key it is found under, the
      channel name the scraper uses in descriptions, and the channel as
      written in the entries. */
  datatype Section = Section(key: string, name: string, written: string)

  /** The programs a scraper returns for `page` from its two sections, in
      order; a page that failed gives none. */
  function PagePrograms(page: Option<map<string, seq<Card>>>, first: Section, second: Section): (r: seq<Program>)
    ensures page.None? ==> r == []
    ensures forall i :: 0 <= i < |r| ==> r[i].channel in {first.written, second.written}
  {
    if page.None? then []
    else FootballPrograms(first.name, first.written, SectionCards(page.value, first.key)) +
         FootballPrograms(second.name, second.written, SectionCards(page.value, second.key))
  }

  function RaiPrograms(page: Option<map<string, seq<Card>>>): seq<Program> {
    PagePrograms(page, Section("Rai 1", "Rai 1", "RAI 1"), Section("Rai 2", "Rai 2", "RAI 2"))
  }

  function MediasetPrograms(page: Option<map<string, seq<Card>>>): seq<Program> {
    PagePrograms(page, Section("CANALE 5", "Canale 5", "Canale 5"), Section("ITALIA 1", "Italia 1", "Italia 1"))
  }

  /** `fetch_raiplay_schedule()`: the sections 'Rai 1' and 'Rai 2', in that
      order, with the channel written upper-cased. `page` is `None` when
      fetching or parsing raised, which the scraper turns into `[]`. */
  method FetchRaiPlaySchedule(page: Option<map<string, seq<Card>>>) returns (programs: seq<Program>)
    ensures programs == RaiPrograms(page)
    ensures page.None? ==> programs == []
    ensures page.Some? ==>
              programs == FootballPrograms("Rai 1", "RAI 1", SectionCards(page.value, "Rai 1")) +
                          FootballPrograms("Rai 2", "RAI 2", SectionCards(page.value, "Rai 2"))
    ensures forall i :: 0 <= i < |programs| ==> programs[i].channel in {"RAI 1", "RAI 2"}
  {
    if page.None? {
      return [];
    }
    assert Upper("Rai 1") == "RAI 1" && Upper("Rai 2") == "RAI 2";
    var rai1 := CollectFootball("Rai 1", Upper("Rai 1"), SectionCards(page.value, "Rai 1"));
    var rai2 := CollectFootball("Rai 2", Upper("Rai 2"), SectionCards(page.value, "Rai 2"));
    programs := rai1 + rai2;
  }

  /** `fetch_mediaset_schedule()`: the sections 'CANALE 5' and 'ITALIA 1', in
      that order, written as 'Canale 5' and 'Italia 1'. */
  method FetchMediasetSchedule(page: Option<map<string, seq<Card>>>) returns (programs: seq<Program>)
    ensures programs == MediasetPrograms(page)
    ensures page.None? ==> programs == []
    ensures page.Some? ==>
              programs == FootballPrograms("Canale 5", "Canale 5", SectionCards(page.value, "CANALE 5")) +
                          FootballPrograms("Italia 1", "Italia 1", SectionCards(page.value, "ITALIA 1"))
    ensures forall i :: 0 <= i < |programs| ==> programs[i].channel in {"Canale 5", "Italia 1"}
  {
    if page.None? {
      return [];
    }
    var canale5 := CollectFootball("Canale 5", "Canale 5", SectionCards(page.value, "CANALE 5"));
    var italia1 := CollectFootball("Italia 1", "Italia 1", SectionCards(page.value, "ITALIA 1"));
    programs := canale5 + italia1;
  }

  // ---------------------------------------------------------------------------
  // Sorting by the time string

  /** Python's `a <= b` on strings: code point by code point, a proper prefix first. */
  predicate StrLe(a: string, b: string) {
    a == [] || (b != [] && (a[0] < b[0] || (a[0] == b[0] && StrLe(a[1..], b[1..]))))
  }

  lemma {:induction false} StrLeTotal(a: string, b: string)
    ensures StrLe(a, b) || StrLe(b, a)
  {
    if a != [] && b != [] && a[0] == b[0] {
      StrLeTotal(a[1..], b[1..]);
    }
  }

  lemma {:induction false} StrLeTransitive(a: string, b: string, c: string)
    requires StrLe(a, b) && StrLe(b, c)
    ensures StrLe(a, c)
  {
    if a != [] && a[0] == b[0] && b[0] == c[0] {
      StrLeTransitive(a[1..], b[1..], c[1..]);
    }
  }

  ghost predicate SortedByTime(s: seq<Program>) {
    forall i, j :: 0 <= i < j < |s| ==> StrLe(s[i].time, s[j].time)
  }

  /** Inserting a programme that starts before the last one of a sorted list
      into the rest keeps every start at most the last one's. */
  lemma InsertBelow(s: seq<Program>, p: Program)
    requires s != [] && SortedByTime(s) && StrLe(p.time, s[|s| - 1].time)
    ensures forall x :: x in Insert(s[..|s| - 1], p) ==> StrLe(x.time, s[|s| - 1].time)
  {
    var init, last, r0 := s[..|s| - 1], s[|s| - 1], Insert(s[..|s| - 1], p);
    forall x | x in r0 ensures StrLe(x.time, last.time) {
      assert x in multiset(r0);
      if x != p {
        assert x in multiset(init);
        var i :| 0 <= i < |init| && init[i] == x;
        assert s[i] == x;
      }
    }
  }

  /** Inserts `p` after every entry whose time is not later than its own. */
  function Insert(s: seq<Program>, p: Program): (r: seq<Program>)
    ensures multiset(r) == multiset(s) + multiset{p}
  {
    if s == [] then [p]
    else if StrLe(s[|s| - 1].time, p.time) then s + [p]
    else
      assert s == s[..|s| - 1] + [s[|s| - 1]];
      Insert(s[..|s| - 1], p) + [s[|s| - 1]]
  }

  lemma {:induction false} InsertSorted(s: seq<Program>, p: Program)
    requires SortedByTime(s)
    ensures SortedByTime(Insert(s, p))
  {
    if s != [] && !StrLe(s[|s| - 1].time, p.time) {
      var init, last := s[..|s| - 1], s[|s| - 1];
      InsertSorted(init, p);
      var r0 := Insert(init, p);
      StrLeTotal(last.time, p.time);
      InsertBelow(s, p);
      forall i, j | 0 <= i < j < |r0| + 1 ensures StrLe((r0 + [last])[i].time, (r0 + [last])[j].time) {
        if j == |r0| {
          assert r0[i] in r0;
        }
      }
    } else if s != [] {
      var last := s[|s| - 1];
      forall i, j | 0 <= i < j < |s| + 1 ensures StrLe((s + [p])[i].time, (s + [p])[j].time) {
        if j == |s| && i < |s| - 1 {
          StrLeTransitive(s[i].time, last.time, p.time);
        }
      }
    }
  }

  /** `list.sort(key=lambda x: x['time'])`, a stable insertion sort. */
  function SortByTime(s: seq<Program>): (r: seq<Program>)
    ensures multiset(r) == multiset(s) && |r| == |s|
  {
    if s == [] then []
    else
      var init, last := s[..|s| - 1], s[|s| - 1];
      assert s == init + [last];
      assert multiset(s) == multiset(init) + multiset{last};
      var sorted := SortByTime(init);
      assert |Insert(sorted, last)| == |multiset(Insert(sorted, last))|;
      Insert(sorted, last)
  }

  /** The sorted list is ordered by time and holds the same entries. */
  lemma {:induction false} SortByTimeSorted(s: seq<Program>)
    ensures SortedByTime(SortByTime(s)) && multiset(SortByTime(s)) == multiset(s)
  {
    if s != [] {
      SortByTimeSorted(s[..|s| - 1]);
      InsertSorted(SortByTime(s[..|s| - 1]), s[|s| - 1]);
    }
  }

  // ---------------------------------------------------------------------------
  // update_tv_schedule

  type Schedule = Dict<string, seq<Program>>

  /** The number of entries in a channel list. */
  function Count(s: seq<Program>): int {
    |s|
  }

  /** One turn of the append loop: the channel's list is created empty when the
      channel is new (`if channel not in schedule: schedule[channel] = []`),
      then the program is appended to it. */
  function AddProgram(d: Schedule, p: Program): Schedule {
    Put(d, p.channel, GetOr(d, p.channel, []) + [p])
  }

  /** The append loop over one scraper's programs. */
  function AddAll(d: Schedule, programs: seq<Program>): (r: Schedule)
    ensures Valid(d) ==> Valid(r)
  {
    if programs == [] then d
    else AddProgram(AddAll(d, programs[..|programs| - 1]), programs[|programs| - 1])
  }

  /** `if programs: schedule[key] = programs`. */
  function SetIfNonEmpty(d: Schedule, key: string, programs: seq<Program>): (r: Schedule)
    ensures Valid(d) ==> Valid(r)
  {
    if programs == [] then d else Put(d, key, programs)
  }

  /** The schedule before sorting. */
  function Built(rai: seq<Program>, mediaset: seq<Program>, sky: seq<Program>, dazn: seq<Program>): (r: Schedule)
    ensures Valid(r)
  {
    SetIfNonEmpty(SetIfNonEmpty(AddAll(AddAll(Empty(), rai), mediaset), "Sky Sport", sky), "DAZN", dazn)
  }

  /** Every channel list sorted; the channels keep their order. */
  function SortLists(d: Schedule): (r: Schedule)
    ensures Valid(d) ==> Valid(r)
  {
    Dict(d.keys, map k | k in d.entries :: SortByTime(d.entries[k]))
  }

  /** The programs of `programs` on `channel`, in order. */
  function OnChannel(programs: seq<Program>, channel: string): seq<Program> {
    if programs == [] then []
    else
      var p := programs[|programs| - 1];
      OnChannel(programs[..|programs| - 1], channel) + (if p.channel == channel then [p] else [])
  }

  /** Assigning twice to the same key leaves the second value. */
  lemma PutTwice(d: Schedule, k: string, v1: seq<Program>, v2: seq<Program>)
    ensures Put(Put(d, k, v1), k, v2) == Put(d, k, v2)
  {
    assert d.entries[k := v1][k := v2] == d.entries[k := v2];
  }

  /** One of the append loops (lines 198-202 and 206-210). */
  method AppendPrograms(start: Schedule, programs: seq<Program>) returns (schedule: Schedule)
    ensures schedule == AddAll(start, programs)
  {
    schedule := start;
    for i := 0 to |programs|
      invariant schedule == AddAll(start, programs[..i])
    {
      assert programs[..i + 1][..i] == programs[..i];
      var program := programs[i];
      var channel := program.channel;
      if channel !in schedule.entries {
        PutTwice(schedule, channel, [], [program]);
        schedule := Put(schedule, channel, []);
      }
      schedule := Put(schedule, channel, schedule.entries[channel] + [program]);
    }
    assert programs[..|programs|] == programs;
  }

  /** The schedule once the first `n` channels have been sorted. */
  function SortedUpTo(built: Schedule, n: nat): Schedule
    requires n <= |built.keys|
  {
    Dict(built.keys, map k | k in built.entries ::
                       if k in built.keys[..n] then SortByTime(built.entries[k]) else built.entries[k])
  }

  /** Sorting the next channel's list, which is still as built, moves on to
      the next prefix. */
  lemma SortStep(built: Schedule, n: nat)
    requires Valid(built) && n < |built.keys|
    ensures var d, channel := SortedUpTo(built, n), built.keys[n];
      && channel in d.entries && d.entries[channel] == built.entries[channel]
      && Put(d, channel, SortByTime(d.entries[channel])) == SortedUpTo(built, n + 1)
  {
    var d, channel := SortedUpTo(built, n), built.keys[n];
    assert channel !in built.keys[..n];
    var lhs := d.entries[channel := SortByTime(built.entries[channel])];
    var rhs := SortedUpTo(built, n + 1).entries;
    forall k | k in built.entries
      ensures k in lhs && k in rhs && lhs[k] == rhs[k]
    {
      assert k in built.keys[..n + 1] <==> k in built.keys[..n] || k == channel;
    }
    assert lhs == rhs;
  }

  /** The sorting loop (lines 223-224): each channel's list is sorted in turn. */
  method SortChannels(built: Schedule) returns (schedule: Schedule)
    requires Valid(built)
    ensures schedule == SortLists(built)
  {
    schedule := built;
    assert built.keys[..0] == [];
    assert schedule == SortedUpTo(built, 0);
    for i := 0 to |schedule.keys|
      invariant schedule == SortedUpTo(built, i)
    {
      SortStep(built, i);
      var channel := schedule.keys[i];
      schedule := Put(schedule, channel, SortByTime(schedule.entries[channel]));
    }
    assert built.keys[..|built.keys|] == built.keys;
  }

  /** `update_tv_schedule()`, given what the four scrapers returned (a scraper
      that fails returns `[]`). Writing the file is left out. */
  method UpdateTvSchedule(rai: seq<Program>, mediaset: seq<Program>, sky: seq<Program>, dazn: seq<Program>)
    returns (schedule: Schedule)
    ensures schedule == SortLists(Built(rai, mediaset, sky, dazn))
  {
    schedule := Empty();
    schedule := AppendPrograms(schedule, rai);
    schedule := AppendPrograms(schedule, mediaset);
    if sky != [] {
      schedule := Put(schedule, "Sky Sport", sky);
    }
    if dazn != [] {
      schedule := Put(schedule, "DAZN", dazn);
    }
    schedule := SortChannels(schedule);
  }

  // ---------------------------------------------------------------------------
  // Properties of the schedule

  /** The append loop creates a channel's key on first sight and appends the
      channel's programs in scraper order. */
  lemma {:induction false} AddAllContents(d: Schedule, programs: seq<Program>, channel: string)
    ensures channel in AddAll(d, programs).entries <==>
            channel in d.entries || exists i :: 0 <= i < |programs| && programs[i].channel == channel
    ensures GetOr(AddAll(d, programs), channel, []) == GetOr(d, channel, []) + OnChannel(programs, channel)
  {
    if programs != [] {
      var init := programs[..|programs| - 1];
      AddAllContents(d, init, channel);
      if exists i :: 0 <= i < |init| && init[i].channel == channel {
        var i :| 0 <= i < |init| && init[i].channel == channel;
        assert programs[i] == init[i];
      }
      if exists i :: 0 <= i < |programs| && programs[i].channel == channel {
        var i :| 0 <= i < |programs| && programs[i].channel == channel;
        if i < |init| {
          assert init[i] == programs[i];
        }
      }
    }
  }

  /** Each append adds one entry. */
  lemma {:induction false} AddAllTotal(d: Schedule, programs: seq<Program>)
    requires Valid(d)
    ensures Total(AddAll(d, programs), Count) == Total(d, Count) + |programs|
  {
    if programs != [] {
      var init, p := programs[..|programs| - 1], programs[|programs| - 1];
      AddAllTotal(d, init);
      PutTotal(AddAll(d, init), p.channel, GetOr(AddAll(d, init), p.channel, []) + [p], Count);
    }
  }

  /** Sorting keeps every list's length. */
  lemma SortListsTotal(d: Schedule)
    requires Valid(d)
    ensures Total(SortLists(d), Count) == Total(d, Count)
  {
    SumSameMeasures(d.keys, SortLists(d).entries, d.entries, Count);
  }

  /** Every channel list of the result is ordered by time and holds exactly
      the entries gathered for that channel. */
  lemma ListsSortedPermuted(rai: seq<Program>, mediaset: seq<Program>, sky: seq<Program>, dazn: seq<Program>, channel: string)
    requires channel in Built(rai, mediaset, sky, dazn).entries
    ensures var final := SortLists(Built(rai, mediaset, sky, dazn));
      && channel in final.entries
      && SortedByTime(final.entries[channel])
      && multiset(final.entries[channel]) == multiset(Built(rai, mediaset, sky, dazn).entries[channel])
  {
    SortByTimeSorted(Built(rai, mediaset, sky, dazn).entries[channel]);
  }

  /** Sorting keeps the keys and replaces each list by its sorted copy. */
  lemma SortListsAt(d: Schedule, channel: string)
    ensures channel in SortLists(d).entries <==> channel in d.entries
    ensures GetOr(SortLists(d), channel, []) == SortByTime(GetOr(d, channel, []))
  {
  }

  /** Setting one key leaves every other key as it was. */
  lemma SetIfNonEmptyOther(d: Schedule, key: string, programs: seq<Program>, channel: string)
    requires channel != key
    ensures channel in SetIfNonEmpty(d, key, programs).entries <==> channel in d.entries
    ensures GetOr(SetIfNonEmpty(d, key, programs), channel, []) == GetOr(d, channel, [])
  {
  }

  /** A channel other than Sky Sport and DAZN lists the Rai programs on it,
      then the Mediaset ones, sorted by time; its key exists exactly when
      one of them is on it. */
  lemma OtherChannels(rai: seq<Program>, mediaset: seq<Program>, sky: seq<Program>, dazn: seq<Program>, channel: string)
    requires channel != "Sky Sport" && channel != "DAZN"
    ensures var final := SortLists(Built(rai, mediaset, sky, dazn));
      && (channel in final.entries <==>
            (exists i :: 0 <= i < |rai| && rai[i].channel == channel) ||
            (exists i :: 0 <= i < |mediaset| && mediaset[i].channel == channel))
      && GetOr(final, channel, []) == SortByTime(OnChannel(rai, channel) + OnChannel(mediaset, channel))
  {
    var d0 := AddAll(Empty(), rai);
    var d1 := AddAll(d0, mediaset);
    var d2 := SetIfNonEmpty(d1, "Sky Sport", sky);
    var d3 := SetIfNonEmpty(d2, "DAZN", dazn);
    assert d3 == Built(rai, mediaset, sky, dazn);
    AddAllContents(Empty(), rai, channel);
    AddAllContents(d0, mediaset, channel);
    SetIfNonEmptyOther(d1, "Sky Sport", sky, channel);
    SetIfNonEmptyOther(d2, "DAZN", dazn, channel);
    SortListsAt(d3, channel);
    assert GetOr(Empty<string, seq<Program>>(), channel, []) == [];
    assert GetOr(d0, channel, []) == OnChannel(rai, channel);
    assert GetOr(d3, channel, []) == OnChannel(rai, channel) + OnChannel(mediaset, channel);
  }

  /** The Sky Sport and DAZN keys hold their scraper's sorted list when it is
      non-empty; an empty list leaves the key to whatever the Rai and
      Mediaset programs put there. */
  lemma SkyAndDazn(rai: seq<Program>, mediaset: seq<Program>, sky: seq<Program>, dazn: seq<Program>)
    ensures var final := SortLists(Built(rai, mediaset, sky, dazn));
      var early := AddAll(AddAll(Empty(), rai), mediaset);
      && (sky != [] ==> "Sky Sport" in final.entries && final.entries["Sky Sport"] == SortByTime(sky))
      && (dazn != [] ==> "DAZN" in final.entries && final.entries["DAZN"] == SortByTime(dazn))
      && (sky == [] ==> ("Sky Sport" in final.entries <==> "Sky Sport" in early.entries))
      && (dazn == [] ==> ("DAZN" in final.entries <==> "DAZN" in early.entries))
  {
    var d1 := AddAll(AddAll(Empty(), rai), mediaset);
    var d2 := SetIfNonEmpty(d1, "Sky Sport", sky);
    var d3 := SetIfNonEmpty(d2, "DAZN", dazn);
    assert d3 == Built(rai, mediaset, sky, dazn);
    SetIfNonEmptyOther(d2, "DAZN", dazn, "Sky Sport");
    SortListsAt(d3, "Sky Sport");
    SortListsAt(d3, "DAZN");
  }

  /** The channel names the Rai and Mediaset scrapers write. */
  predicate FixedChannels(rai: seq<Program>, mediaset: seq<Program>) {
    && (forall i :: 0 <= i < |rai| ==> rai[i].channel in {"RAI 1", "RAI 2"})
    && (forall i :: 0 <= i < |mediaset| ==> mediaset[i].channel in {"Canale 5", "Italia 1"})
  }

  /** With the scrapers' channel names, no entry is lost: the schedule holds
      as many entries as the four scrapers returned. */
  lemma TotalEntries(rai: seq<Program>, mediaset: seq<Program>, sky: seq<Program>, dazn: seq<Program>)
    requires FixedChannels(rai, mediaset)
    ensures Total(SortLists(Built(rai, mediaset, sky, dazn)), Count) == |rai| + |mediaset| + |sky| + |dazn|
  {
    var d0 := AddAll(Empty(), rai);
    var d1 := AddAll(d0, mediaset);
    AddAllTotal(Empty(), rai);
    AddAllTotal(d0, mediaset);
    assert Total(Empty<string, seq<Program>>(), Count) == 0;
    assert Total(d1, Count) == |rai| + |mediaset|;
    NoScraperWrites(rai, mediaset, "Sky Sport");
    NoScraperWrites(rai, mediaset, "DAZN");
    AddAllContents(Empty(), rai, "Sky Sport");
    AddAllContents(d0, mediaset, "Sky Sport");
    AddAllContents(Empty(), rai, "DAZN");
    AddAllContents(d0, mediaset, "DAZN");
    var d2 := SetIfNonEmpty(d1, "Sky Sport", sky);
    if sky != [] {
      PutTotal(d1, "Sky Sport", sky, Count);
    }
    assert Total(d2, Count) == |rai| + |mediaset| + |sky|;
    SetIfNonEmptyOther(d1, "Sky Sport", sky, "DAZN");
    var d3 := SetIfNonEmpty(d2, "DAZN", dazn);
    if dazn != [] {
      PutTotal(d2, "DAZN", dazn, Count);
    }
    assert Total(d3, Count) == |rai| + |mediaset| + |sky| + |dazn|;
    assert d3 == Built(rai, mediaset, sky, dazn);
    SortListsTotal(d3);
  }

  /** The Rai and Mediaset scrapers never write the Sky Sport or DAZN key. */
  lemma NoScraperWrites(rai: seq<Program>, mediaset: seq<Program>, channel: string)
    requires FixedChannels(rai, mediaset)
    requires channel == "Sky Sport" || channel == "DAZN"
    ensures !exists i :: 0 <= i < |rai| && rai[i].channel == channel
    ensures !exists i :: 0 <= i < |mediaset| && mediaset[i].channel == channel
  {
  }

  /** The schedule the four scrapers' results produce holds every program they returned. */
  method UpdateFromPages(raiPage: Option<map<string, seq<Card>>>, mediasetPage: Option<map<string, seq<Card>>>,
                         sky: seq<Program>, dazn: seq<Program>)
    returns (schedule: Schedule, total: nat)
    ensures Valid(schedule)
    ensures schedule == SortLists(Built(RaiPrograms(raiPage), MediasetPrograms(mediasetPage), sky, dazn))
    ensures total == Total(schedule, Count)
    ensures total == |RaiPrograms(raiPage)| + |MediasetPrograms(mediasetPage)| + |sky| + |dazn|
    ensures raiPage.None? && mediasetPage.None? ==> total == |sky| + |dazn|
  {
    var rai := FetchRaiPlaySchedule(raiPage);
    var mediaset := FetchMediasetSchedule(mediasetPage);
    schedule := UpdateTvSchedule(rai, mediaset, sky, dazn);
    TotalEntries(rai, mediaset, sky, dazn);
    total := |rai| + |mediaset| + |sky| + |dazn|;
  }
}
