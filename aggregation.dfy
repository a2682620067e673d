/** `FootballDataSources` (multi_source_matches.py): five fixture APIs queried
    in a fixed priority order, their answers mapped to one record shape,
    concatenated, and deduplicated by (home team, away team, kick-off time),
    first record seen wins.

    The network is an input: `responses(src)` is the decoded body of a
    successful (status 200) answer from `src`, or `None` when the request
    raised, the status was not 200 or the body was not JSON. The process
    environment is a map from variable name to value. */
module MultiSource {
  import opened Text
  import opened JsonValues

  /** One data source per `fetch_*_matches` method. */
  datatype Source = FootballData | RapidApi | ApiFootball | OddsApi | ApiSports

  /** The order in which `fetch_matches` queries the sources. */
  const Priority: seq<Source> := [RapidApi, OddsApi, FootballData, ApiFootball, ApiSports]

  /** The environment variable the constructor reads each source's key from. */
  function KeyVariable(src: Source): string {
    match src
    case FootballData => "FOOTBALL_DATA_API_KEY"
    case RapidApi => "RAPIDAPI_KEY"
    case ApiSports => "API_SPORTS_KEY"
    case ApiFootball => "API_FOOTBALL_KEY"
    case OddsApi => "ODDS_API_KEY"
  }

  /** The `source` tag each adapter writes into its records. */
  function Tag(src: Source): string {
    match src
    case FootballData => "Football-Data.org"
    case RapidApi => "RapidAPI"
    case ApiFootball => "API-Football"
    case OddsApi => "Odds API"
    case ApiSports => "API-Sports"
  }

  /** The member of the response body that holds the list of fixtures. */
  function ListKey(src: Source): string {
    match src
    case FootballData => "matches"
    case OddsApi => "data"
    case _ => "response"
  }

  /** The dict each adapter builds per fixture. The first three fields are
      whatever JSON value the payload held there. */
  datatype MatchRecord = MatchRecord(
    homeTeam: Json,
    awayTeam: Json,
    datetime: Json,
    competition: Json,
    source: string)

  // ---------------------------------------------------------------------------
  // Keys

  /** `self.apis[name]['key']`, set from `os.getenv(variable, '')`. */
  function ConfiguredKey(env: map<string, string>, src: Source): string {
    if KeyVariable(src) in env then env[KeyVariable(src)] else ""
  }

  /** `_validate_api_key`: false exactly when the key variable is unset or empty. */
  function ValidateApiKey(env: map<string, string>, src: Source): (ok: bool)
    ensures ok <==> KeyVariable(src) in env && env[KeyVariable(src)] != ""
  {
    ConfiguredKey(env, src) != ""
  }

  // ---------------------------------------------------------------------------
  // Mapping one payload item to a record

  /** The four fields the dict-shaped sources read through `.get` chains. */
  datatype Field = Home | Away | Time | Competition

  /** The `.get` chain for field `f` of the four dict-shaped sources. */
  function FieldPath(src: Source, f: Field): (keys: seq<string>)
    requires src != OddsApi
    ensures |keys| > 0
  {
    match f
    case Home => if src == FootballData then ["homeTeam", "name"] else ["teams", "home", "name"]
    case Away => if src == FootballData then ["awayTeam", "name"] else ["teams", "away", "name"]
    case Time => if src == FootballData then ["utcDate"] else ["fixture", "date"]
    case Competition => if src == FootballData then ["competition", "name"] else ["league", "name"]
  }

  /** The default at the end of each chain: 'Unknown' for a team, the requested
      date for the kick-off time, 'Unknown League' for the competition. */
  function FieldDefault(f: Field, date: string): Json {
    match f
    case Home => JStr("Unknown")
    case Away => JStr("Unknown")
    case Time => JStr(date)
    case Competition => JStr("Unknown League")
  }

  /** The record field that holds `f`. */
  function FieldOf(r: MatchRecord, f: Field): Json {
    match f
    case Home => r.homeTeam
    case Away => r.awayTeam
    case Time => r.datetime
    case Competition => r.competition
  }

  /** `item.get(k1, {}) ... .get(kn, default)` for field `f`. */
  function ReadField(src: Source, item: Json, date: string, f: Field): Option<Json>
    requires src != OddsApi
  {
    GetChain(item, FieldPath(src, f), FieldDefault(f, date))
  }

  /** Python's `x[i]` on the value of an Odds API item's `teams`: a list gives
      its element, a string its character; anything else, or an index past the
      end, raises. */
  function Index(j: Json, i: nat): (r: Option<Json>)
    ensures r.Some? <==> (j.JArr? && i < |j.items|) || (j.JStr? && i < |j.s|)
  {
    match j
    case JArr(items) => if i < |items| then Some(items[i]) else None
    case JStr(s) => if i < |s| then Some(JStr([s[i]])) else None
    case _ => None
  }

  /** One iteration of the list comprehension in `fetch_<src>_matches`;
      `None` stands for the exception the item raises. */
  function MapItem(src: Source, item: Json, date: string): (r: Option<MatchRecord>)
    ensures r.Some? ==> r.value.source == Tag(src)
    ensures r.Some? ==> item.JObj?
  {
    if src == OddsApi then
      match (Get(item, "teams", JArr([])), Get(item, "commence_time", JStr(date)),
             Get(item, "sport_key", JStr("Unknown League")))
      case (Some(teams), Some(time), Some(league)) =>
        (match (Index(teams, 0), Index(teams, 1))
         case (Some(home), Some(away)) => Some(MatchRecord(home, away, time, league, Tag(src)))
         case _ => None)
      case _ => None
    else
      match (ReadField(src, item, date, Home), ReadField(src, item, date, Away),
             ReadField(src, item, date, Time), ReadField(src, item, date, Competition))
      case (Some(home), Some(away), Some(time), Some(competition)) =>
        Some(MatchRecord(home, away, time, competition, Tag(src)))
      case _ => None
  }

  /** A dict-shaped source's record, field by field: the item maps exactly when
      no field's chain of subscripts runs into a value that is not a dict; a
      field whose keys are all present carries the payload's value, and a field
      whose chain reaches a dict lacking the next key carries the default. */
  lemma MissingFieldDefaults(src: Source, item: Json, date: string)
    requires src != OddsApi
    ensures MapItem(src, item, date).Some? <==>
      forall f: Field, n: nat :: !BlockedAt(item, FieldPath(src, f), n)
    ensures MapItem(src, item, date).Some? ==> forall f: Field ::
      Path(item, FieldPath(src, f)).Some? ==>
        FieldOf(MapItem(src, item, date).value, f) == Path(item, FieldPath(src, f)).value
    ensures MapItem(src, item, date).Some? ==> forall f: Field, n: nat ::
      MissesAt(item, FieldPath(src, f), n) ==>
        FieldOf(MapItem(src, item, date).value, f) == FieldDefault(f, date)
  {
    MapItemReadsFields(src, item, date);
    forall f: Field {
      ReadFieldMeaning(src, item, date, f);
    }
  }

  /** The dict-shaped branch of MapItem succeeds exactly when all four reads do,
      and carries what they read. */
  lemma MapItemReadsFields(src: Source, item: Json, date: string)
    requires src != OddsApi
    ensures MapItem(src, item, date).Some? <==> forall f: Field :: ReadField(src, item, date, f).Some?
    ensures MapItem(src, item, date).Some? ==>
      forall f: Field :: FieldOf(MapItem(src, item, date).value, f) == ReadField(src, item, date, f).value
  {
    if !MapItem(src, item, date).Some? {
      assert !ReadField(src, item, date, Home).Some? || !ReadField(src, item, date, Away).Some? ||
             !ReadField(src, item, date, Time).Some? || !ReadField(src, item, date, Competition).Some?;
    }
  }

  /** What one field's `.get` chain reads. */
  lemma ReadFieldMeaning(src: Source, item: Json, date: string, f: Field)
    requires src != OddsApi
    ensures ReadField(src, item, date, f).None? <==> exists n: nat :: BlockedAt(item, FieldPath(src, f), n)
    ensures Path(item, FieldPath(src, f)).Some? ==>
      ReadField(src, item, date, f) == Path(item, FieldPath(src, f))
    ensures forall n: nat :: MissesAt(item, FieldPath(src, f), n) ==>
      ReadField(src, item, date, f) == Some(FieldDefault(f, date))
  {
    var keys := FieldPath(src, f);
    GetChainFails(item, keys, FieldDefault(f, date));
    if Path(item, keys).Some? {
      GetChainFound(item, keys, FieldDefault(f, date));
    }
    forall n: nat | MissesAt(item, keys, n) ensures ReadField(src, item, date, f) == Some(FieldDefault(f, date)) {
      GetChainMissing(item, keys, FieldDefault(f, date), n);
    }
  }

  /** The Odds API defaults: a missing `commence_time` gives the requested date
      and a missing `sport_key` gives 'Unknown League'; present, each carries
      the payload's value. */
  lemma OddsFieldDefaults(item: Json, date: string)
    requires MapItem(OddsApi, item, date).Some?
    ensures var r := MapItem(OddsApi, item, date).value;
      && (HasKey(item, "commence_time") ==> r.datetime == Subscript(item, "commence_time").value)
      && (!HasKey(item, "commence_time") ==> r.datetime == JStr(date))
      && (HasKey(item, "sport_key") ==> r.competition == Subscript(item, "sport_key").value)
      && (!HasKey(item, "sport_key") ==> r.competition == JStr("Unknown League"))
  {
  }

  /** An Odds API item maps exactly when it is a dict whose `teams` (default
      `[]`) has at least two entries; the record's teams are those two entries. */
  lemma OddsItemNeedsTwoTeams(item: Json, date: string)
    ensures var teams := Get(item, "teams", JArr([]));
      MapItem(OddsApi, item, date).Some? <==>
        item.JObj? && ((teams.value.JArr? && |teams.value.items| >= 2) || (teams.value.JStr? && |teams.value.s| >= 2))
    ensures var r := MapItem(OddsApi, item, date);
      r.Some? && Get(item, "teams", JArr([])).value.JArr? ==>
        r.value.homeTeam == Get(item, "teams", JArr([])).value.items[0] &&
        r.value.awayTeam == Get(item, "teams", JArr([])).value.items[1]
  {
  }

  /** The list comprehension of `fetch_<src>_matches`. */
  function MapAll(src: Source, items: seq<Json>, date: string): Option<seq<MatchRecord>> {
    MapOrFail(item => MapItem(src, item, date), items)
  }

  /** What `fetch_<src>_matches` makes of a successful response body.
      `body.get(ListKey, [])` raises unless the body is a dict; a list is mapped
      item by item; iterating any other value either yields nothing, yields
      strings whose `.get` raises, or raises at once, and every exception gives
      `[]`. */
  function ParseBody(src: Source, body: Json, date: string): seq<MatchRecord> {
    match Get(body, ListKey(src), JArr([]))
    case Some(JArr(items)) =>
      (match MapAll(src, items, date)
       case Some(records) => records
       case None => [])
    case _ => []
  }

  /** `fetch_<src>_matches(date)`. */
  function FetchSource(src: Source, env: map<string, string>, date: string, response: Option<Json>)
    : (r: seq<MatchRecord>)
    ensures !ValidateApiKey(env, src) ==> r == []
    ensures response.None? ==> r == []
    ensures forall i :: 0 <= i < |r| ==> r[i].source == Tag(src)
  {
    if !ValidateApiKey(env, src) then []
    else match response
      case None => []
      case Some(body) => ParseBody(src, body, date)
  }

  /** A single Odds API item without two `teams` entries empties the whole Odds adapter. */
  lemma OneShortTeamsListEmptiesOdds(env: map<string, string>, date: string, body: Json, k: nat)
    requires var data := Get(body, ListKey(OddsApi), JArr([]));
      data.Some? && data.value.JArr? && k < |data.value.items| &&
      var item := data.value.items[k];
      item.JObj? && Get(item, "teams", JArr([])).value.JArr? &&
      |Get(item, "teams", JArr([])).value.items| < 2
    ensures FetchSource(OddsApi, env, date, Some(body)) == []
  {
    var items := Get(body, ListKey(OddsApi), JArr([])).value.items;
    OddsItemNeedsTwoTeams(items[k], date);
    assert MapAll(OddsApi, items, date).None?;
  }

  // ---------------------------------------------------------------------------
  // Querying the sources in order

  /** The records each source adds to `all_matches`. */
  function Contribution(env: map<string, string>, date: string, responses: Source -> Option<Json>)
    : Source -> seq<MatchRecord>
  {
    src => FetchSource(src, env, date, responses(src))
  }

  /** The records of `srcs`, source after source. */
  function Concat(srcs: seq<Source>, f: Source -> seq<MatchRecord>): seq<MatchRecord> {
    if srcs == [] then [] else Concat(srcs[..|srcs| - 1], f) + f(srcs[|srcs| - 1])
  }

  /** The concatenation `all_matches` built by the first loop of `fetch_matches`. */
  function Collect(srcs: seq<Source>, env: map<string, string>, date: string,
                   responses: Source -> Option<Json>): seq<MatchRecord>
  {
    Concat(srcs, Contribution(env, date, responses))
  }

  /** The sources that send a request: those with a key, in query order. */
  function Requested(srcs: seq<Source>, env: map<string, string>): seq<Source> {
    if srcs == [] then []
    else
      var last := srcs[|srcs| - 1];
      Requested(srcs[..|srcs| - 1], env) + (if ValidateApiKey(env, last) then [last] else [])
  }

  /** Every source with a key sends its request, whatever the others returned,
      and in the order of `srcs`. */
  lemma {:induction false} RequestedExactly(srcs: seq<Source>, env: map<string, string>)
    ensures forall s :: s in Requested(srcs, env) <==> s in srcs && ValidateApiKey(env, s)
    ensures |Requested(srcs, env)| <= |srcs|
  {
    if srcs != [] {
      RequestedExactly(srcs[..|srcs| - 1], env);
      assert srcs == srcs[..|srcs| - 1] + [srcs[|srcs| - 1]];
    }
  }

  /** Sources that contribute nothing leave nothing in the concatenation. */
  lemma {:induction false} ConcatEmpty(srcs: seq<Source>, f: Source -> seq<MatchRecord>)
    requires forall t :: t in srcs ==> f(t) == []
    ensures Concat(srcs, f) == []
  {
    if srcs != [] {
      assert forall t :: t in srcs[..|srcs| - 1] ==> t in srcs;
      ConcatEmpty(srcs[..|srcs| - 1], f);
    }
  }

  /** Among distinct sources, one alone contributing leaves exactly its records. */
  lemma {:induction false} ConcatSingle(srcs: seq<Source>, s: Source, f: Source -> seq<MatchRecord>)
    requires forall i, j :: 0 <= i < j < |srcs| ==> srcs[i] != srcs[j]
    requires forall t :: t in srcs && t != s ==> f(t) == []
    ensures Concat(srcs, f) == if s in srcs then f(s) else []
  {
    if srcs != [] {
      var init, last := srcs[..|srcs| - 1], srcs[|srcs| - 1];
      if last == s {
        LastOnlyContributes(srcs, f);
      } else {
        assert forall i :: 0 <= i < |init| ==> init[i] == srcs[i];
        assert forall t :: t in init ==> t in srcs;
        ConcatSingle(init, s, f);
        assert s in srcs <==> s in init;
      }
    }
  }

  /** When the last of distinct sources is the only one contributing, the
      concatenation is its records. */
  lemma LastOnlyContributes(srcs: seq<Source>, f: Source -> seq<MatchRecord>)
    requires srcs != []
    requires forall i, j :: 0 <= i < j < |srcs| ==> srcs[i] != srcs[j]
    requires forall t :: t in srcs && t != srcs[|srcs| - 1] ==> f(t) == []
    ensures Concat(srcs, f) == f(srcs[|srcs| - 1])
  {
    var init := srcs[..|srcs| - 1];
    forall t | t in init ensures f(t) == [] {
      var k :| 0 <= k < |init| && init[k] == t;
      assert srcs[k] != srcs[|srcs| - 1];
    }
    ConcatEmpty(init, f);
  }

  /** Sources that fail (no key, or no successful response) add nothing: when
      every source fails, `all_matches` is empty. */
  lemma CollectAllFailing(srcs: seq<Source>, env: map<string, string>, date: string,
                          responses: Source -> Option<Json>)
    requires forall s :: s in srcs ==> !ValidateApiKey(env, s) || responses(s).None?
    ensures Collect(srcs, env, date, responses) == []
  {
    ConcatEmpty(srcs, Contribution(env, date, responses));
  }

  /** When only one source contributes, `all_matches` is exactly that source's records. */
  lemma CollectSingleContributor(srcs: seq<Source>, s: Source, env: map<string, string>,
                                 date: string, responses: Source -> Option<Json>)
    requires forall i, j :: 0 <= i < j < |srcs| ==> srcs[i] != srcs[j]
    requires forall t :: t in srcs && t != s ==> FetchSource(t, env, date, responses(t)) == []
    ensures Collect(srcs, env, date, responses) ==
            (if s in srcs then FetchSource(s, env, date, responses(s)) else [])
  {
    ConcatSingle(srcs, s, Contribution(env, date, responses));
  }

  // ---------------------------------------------------------------------------
  // Deduplication

  /** Python's `True == 1` and `False == 0` hold for dict keys and set members,
      so the key stores booleans as the numbers they equal. */
  function KeyPart(j: Json): Json {
    if j.JBool? then JNum(if j.b then 1 else 0) else j
  }

  /** `(match.get('home_team'), match.get('away_team'), match.get('datetime'))`. */
  datatype Key = Key(home: Json, away: Json, datetime: Json)

  function KeyOf(r: MatchRecord): Key {
    Key(KeyPart(r.homeTeam), KeyPart(r.awayTeam), KeyPart(r.datetime))
  }

  /** Lists and dicts cannot be hashed: putting a key holding one into the
      `seen` set raises TypeError. */
  predicate Hashable(r: MatchRecord) {
    && !(r.homeTeam.JArr? || r.homeTeam.JObj?)
    && !(r.awayTeam.JArr? || r.awayTeam.JObj?)
    && !(r.datetime.JArr? || r.datetime.JObj?)
  }

  /** The keys of the records in `s`. */
  function KeysOf(s: seq<MatchRecord>): set<Key> {
    if s == [] then {} else KeysOf(s[..|s| - 1]) + {KeyOf(s[|s| - 1])}
  }

  /** Reference definition of the dedup loop: a record is kept when no earlier record has its key. */
  function FirstSeen(s: seq<MatchRecord>): seq<MatchRecord> {
    if s == [] then []
    else
      var init, last := s[..|s| - 1], s[|s| - 1];
      FirstSeen(init) + (if KeyOf(last) in KeysOf(init) then [] else [last])
  }

  ghost predicate NoDuplicateKeys(s: seq<MatchRecord>) {
    forall i, j :: 0 <= i < j < |s| ==> KeyOf(s[i]) != KeyOf(s[j])
  }

  /** `s[i]` is the first record of `s` with its key. */
  ghost predicate FirstOccurrence(s: seq<MatchRecord>, i: int)
    requires 0 <= i < |s|
  {
    forall j :: 0 <= j < i ==> KeyOf(s[j]) != KeyOf(s[i])
  }

  lemma KeysOfMembers(s: seq<MatchRecord>)
    ensures forall k :: k in KeysOf(s) <==> exists i :: 0 <= i < |s| && KeyOf(s[i]) == k
    ensures |KeysOf(s)| <= |s|
  {
    KeysOfSize(s);
    forall k ensures k in KeysOf(s) <==> exists i :: 0 <= i < |s| && KeyOf(s[i]) == k {
      KeysOfMember(s, k);
    }
  }

  /** One key at a time: `k` is a key of `s` exactly when some record has it. */
  lemma {:induction false} KeysOfMember(s: seq<MatchRecord>, k: Key)
    ensures k in KeysOf(s) <==> exists i :: 0 <= i < |s| && KeyOf(s[i]) == k
  {
    if s != [] {
      var init, last := s[..|s| - 1], s[|s| - 1];
      KeysOfMember(init, k);
      if k in KeysOf(init) {
        var i :| 0 <= i < |init| && KeyOf(init[i]) == k;
        assert KeyOf(s[i]) == k;
      } else if k == KeyOf(last) {
        assert KeyOf(s[|s| - 1]) == k;
      } else {
        forall i | 0 <= i < |s| ensures KeyOf(s[i]) != k {
          if i < |init| {
            assert KeyOf(init[i]) == KeyOf(s[i]);
          }
        }
      }
    }
  }

  /** There are never more keys than records. */
  lemma {:induction false} KeysOfSize(s: seq<MatchRecord>)
    ensures |KeysOf(s)| <= |s|
  {
    if s != [] {
      KeysOfSize(s[..|s| - 1]);
    }
  }

  /** Every key of the input survives deduplication, and no other key appears. */
  lemma {:induction false} FirstSeenKeys(s: seq<MatchRecord>)
    ensures KeysOf(FirstSeen(s)) == KeysOf(s)
  {
    if s != [] {
      var init, last := s[..|s| - 1], s[|s| - 1];
      FirstSeenKeys(init);
      var r := FirstSeen(s);
      if KeyOf(last) in KeysOf(init) {
        assert r == FirstSeen(init);
      } else {
        assert r == FirstSeen(init) + [last];
        assert r[..|r| - 1] == FirstSeen(init);
      }
    }
  }

  /** No two records of the output share a key. */
  lemma {:induction false} FirstSeenNoDuplicates(s: seq<MatchRecord>)
    ensures NoDuplicateKeys(FirstSeen(s))
  {
    if s != [] {
      var init, last := s[..|s| - 1], s[|s| - 1];
      FirstSeenNoDuplicates(init);
      if KeyOf(last) !in KeysOf(init) {
        var prev := FirstSeen(init);
        FirstSeenKeys(init);
        KeysOfMembers(prev);
        var r := prev + [last];
        forall i, j | 0 <= i < j < |r| ensures KeyOf(r[i]) != KeyOf(r[j]) {
          if j == |r| - 1 {
            assert KeyOf(prev[i]) in KeysOf(prev);
          }
        }
      }
    }
  }

  /** Dropping the last record does not change which earlier records are first occurrences. */
  lemma FirstOccurrenceInPrefix(s: seq<MatchRecord>, i: int)
    requires 0 <= i < |s| - 1
    ensures FirstOccurrence(s, i) <==> FirstOccurrence(s[..|s| - 1], i)
  {
    var init := s[..|s| - 1];
    assert forall j :: 0 <= j <= i ==> s[j] == init[j];
  }

  /** The last record is a first occurrence exactly when its key is new. */
  lemma LastIsFirstOccurrence(s: seq<MatchRecord>)
    requires s != []
    ensures FirstOccurrence(s, |s| - 1) <==> KeyOf(s[|s| - 1]) !in KeysOf(s[..|s| - 1])
  {
    var init := s[..|s| - 1];
    KeysOfMembers(init);
    if KeyOf(s[|s| - 1]) in KeysOf(init) {
      var w :| 0 <= w < |init| && KeyOf(init[w]) == KeyOf(s[|s| - 1]);
      assert KeyOf(s[w]) == KeyOf(s[|s| - 1]);
    } else {
      forall j | 0 <= j < |s| - 1 ensures KeyOf(s[j]) != KeyOf(s[|s| - 1]) {
        assert KeyOf(init[j]) in KeysOf(init);
      }
    }
  }

  /** `idx` lists, in increasing order, the input positions the records of
      `FirstSeen(s)` come from, and those positions are exactly the first
      occurrences of their keys. */
  ghost predicate Selects(s: seq<MatchRecord>, idx: seq<nat>) {
    && |idx| == |FirstSeen(s)|
    && (forall k :: 0 <= k < |idx| ==> idx[k] < |s| && FirstSeen(s)[k] == s[idx[k]])
    && (forall k, l :: 0 <= k < l < |idx| ==> idx[k] < idx[l])
    && (forall k :: 0 <= k < |idx| ==> idx[k] < |s| && FirstOccurrence(s, idx[k]))
    && (forall i :: 0 <= i < |s| && FirstOccurrence(s, i) ==> i in idx)
  }

  /** A last record whose key was seen before adds no position. */
  lemma SelectsSeenKey(s: seq<MatchRecord>, prev: seq<nat>)
    requires s != [] && Selects(s[..|s| - 1], prev)
    requires KeyOf(s[|s| - 1]) in KeysOf(s[..|s| - 1])
    ensures Selects(s, prev)
  {
    var init := s[..|s| - 1];
    LastIsFirstOccurrence(s);
    assert FirstSeen(s) == FirstSeen(init);
    forall k | 0 <= k < |prev|
      ensures FirstSeen(s)[k] == s[prev[k]] && FirstOccurrence(s, prev[k])
    {
      assert s[prev[k]] == init[prev[k]];
      FirstOccurrenceInPrefix(s, prev[k]);
    }
    forall i | 0 <= i < |s| && FirstOccurrence(s, i) ensures i in prev {
      FirstOccurrenceInPrefix(s, i);
    }
  }

  /** A last record with a new key adds its own position. */
  lemma SelectsNewKey(s: seq<MatchRecord>, prev: seq<nat>)
    requires s != [] && Selects(s[..|s| - 1], prev)
    requires KeyOf(s[|s| - 1]) !in KeysOf(s[..|s| - 1])
    ensures Selects(s, prev + [|s| - 1])
  {
    var init, idx := s[..|s| - 1], prev + [|s| - 1];
    LastIsFirstOccurrence(s);
    var r0, r := FirstSeen(init), FirstSeen(s);
    assert r == r0 + [s[|s| - 1]];
    forall k | 0 <= k < |prev|
      ensures idx[k] < |s| && r[k] == s[idx[k]] && FirstOccurrence(s, idx[k])
    {
      assert idx[k] == prev[k] && r[k] == r0[k] && s[prev[k]] == init[prev[k]];
      FirstOccurrenceInPrefix(s, prev[k]);
    }
    forall k, l | 0 <= k < l < |idx| ensures idx[k] < idx[l] {
      assert idx[k] == prev[k];
      if l < |prev| {
        assert idx[l] == prev[l];
      }
    }
    forall i | 0 <= i < |s| && FirstOccurrence(s, i) ensures i in idx {
      if i < |s| - 1 {
        FirstOccurrenceInPrefix(s, i);
        assert i in prev;
      }
    }
  }

  /** The output is a subsequence of the input made of exactly the first
      occurrence of each key. */
  lemma {:induction false} FirstSeenSelectsFirstOccurrences(s: seq<MatchRecord>) returns (idx: seq<nat>)
    ensures Selects(s, idx)
  {
    if s == [] {
      return [];
    }
    var prev := FirstSeenSelectsFirstOccurrences(s[..|s| - 1]);
    if KeyOf(s[|s| - 1]) in KeysOf(s[..|s| - 1]) {
      SelectsSeenKey(s, prev);
      idx := prev;
    } else {
      SelectsNewKey(s, prev);
      idx := prev + [|s| - 1];
    }
  }

  /** The output has one record per distinct key of the input, so it is never longer than the input. */
  lemma {:induction false} FirstSeenLength(s: seq<MatchRecord>)
    ensures |FirstSeen(s)| == |KeysOf(s)| <= |s|
  {
    KeysOfMembers(s);
    if s != [] {
      var init, last := s[..|s| - 1], s[|s| - 1];
      FirstSeenLength(init);
      assert KeysOf(s) == KeysOf(init) + {KeyOf(last)};
      if KeyOf(last) !in KeysOf(init) {
        assert FirstSeen(s) == FirstSeen(init) + [last];
        assert |KeysOf(s)| == |KeysOf(init)| + 1;
      } else {
        assert FirstSeen(s) == FirstSeen(init);
        assert KeysOf(s) == KeysOf(init);
      }
    }
  }

  /** A list without repeated keys is left as it is, so deduplicating twice changes nothing. */
  lemma {:induction false} FirstSeenOfDistinct(s: seq<MatchRecord>)
    requires NoDuplicateKeys(s)
    ensures FirstSeen(s) == s
  {
    if s != [] {
      var init, last := s[..|s| - 1], s[|s| - 1];
      DistinctSplit(s);
      FirstSeenOfDistinct(init);
      LastIsFirstOccurrence(s);
      SplitLast(s);
    }
  }

  /** Without repeated keys, the prefix has none either and the last record is new. */
  lemma DistinctSplit(s: seq<MatchRecord>)
    requires s != [] && NoDuplicateKeys(s)
    ensures NoDuplicateKeys(s[..|s| - 1]) && FirstOccurrence(s, |s| - 1)
  {
    var init := s[..|s| - 1];
    forall i, j | 0 <= i < j < |init| ensures KeyOf(init[i]) != KeyOf(init[j]) {
      assert init[i] == s[i] && init[j] == s[j];
    }
  }

  lemma FirstSeenIdempotent(s: seq<MatchRecord>)
    ensures FirstSeen(FirstSeen(s)) == FirstSeen(s)
  {
    FirstSeenNoDuplicates(s);
    FirstSeenOfDistinct(FirstSeen(s));
  }

  // ---------------------------------------------------------------------------
  // fetch_matches

  /** The second loop of `fetch_matches`: walk `all` with a `seen` set and keep
      each record whose key is new. `None` when hashing a key raised TypeError,
      which `fetch_matches` does not catch. */
  method Deduplicate(all: seq<MatchRecord>) returns (unique: Option<seq<MatchRecord>>)
    ensures unique.Some? <==> forall i :: 0 <= i < |all| ==> Hashable(all[i])
    ensures unique.Some? ==> unique.value == FirstSeen(all)
  {
    var seen: set<Key> := {};
    var kept: seq<MatchRecord> := [];
    for i := 0 to |all|
      invariant seen == KeysOf(all[..i])
      invariant kept == FirstSeen(all[..i])
      invariant forall j :: 0 <= j < i ==> Hashable(all[j])
    {
      assert all[..i + 1][..i] == all[..i];
      var record := all[i];
      if !Hashable(record) {
        return None;
      }
      var key := KeyOf(record);
      if key !in seen {
        seen := seen + {key};
        kept := kept + [record];
      }
    }
    assert all[..|all|] == all;
    unique := Some(kept);
  }

  /** One more source of the priority list adds its records and, when it has a
      key, its request. */
  lemma QueryStep(n: nat, env: map<string, string>, date: string, responses: Source -> Option<Json>)
    requires n < |Priority|
    ensures Collect(Priority[..n + 1], env, date, responses) ==
            Collect(Priority[..n], env, date, responses) + FetchSource(Priority[n], env, date, responses(Priority[n]))
    ensures Requested(Priority[..n + 1], env) ==
            Requested(Priority[..n], env) + (if ValidateApiKey(env, Priority[n]) then [Priority[n]] else [])
  {
    assert Priority[..n + 1][..n] == Priority[..n];
  }

  /** `FootballDataSources.fetch_matches(date)`: query every source in
      priority order, concatenate, deduplicate. `requested` lists the sources
      that sent a request, in order. */
  method FetchMatches(env: map<string, string>, date: string, responses: Source -> Option<Json>)
    returns (unique: Option<seq<MatchRecord>>, requested: seq<Source>)
    ensures requested == Requested(Priority, env)
    ensures var all := Collect(Priority, env, date, responses);
      unique.Some? <==> forall i :: 0 <= i < |all| ==> Hashable(all[i])
    ensures unique.Some? ==> unique.value == FirstSeen(Collect(Priority, env, date, responses))
  {
    var all: seq<MatchRecord> := [];
    requested := [];
    for n := 0 to |Priority|
      invariant all == Collect(Priority[..n], env, date, responses)
      invariant requested == Requested(Priority[..n], env)
    {
      var src := Priority[n];
      QueryStep(n, env, date, responses);
      if ValidateApiKey(env, src) {
        requested := requested + [src];
      }
      var matches := FetchSource(src, env, date, responses(src));
      if matches != [] {
        all := all + matches;
      }
    }
    assert Priority[..|Priority|] == Priority;
    unique := Deduplicate(all);
  }
}
