/** Decoded JSON values, as Python's `json` module hands them to the scripts,
    and the Python operations the scripts apply to them: `d.get(k, default)`,
    `d[k]`, truthiness and `str(v)`. */
module JsonValues {
  import opened Text

  /** A decoded JSON value. Objects keep their members in document order, as a
      Python dict does; `json.loads` collapses a repeated key, so the members of
      a decoded object have distinct keys. JSON numbers are integers here. */
  datatype Json =
    | JNull
    | JBool(b: bool)
    | JNum(n: int)
    | JStr(s: string)
    | JArr(items: seq<Json>)
    | JObj(members: seq<Member>)

  datatype Member = Member(key: string, value: Json)

  const EmptyObject: Json := JObj([])

  /** The value stored under `key` (the last member with that key, as in a dict built from the pairs). */
  function Lookup(members: seq<Member>, key: string): (r: Option<Json>)
    ensures r.None? <==> forall i :: 0 <= i < |members| ==> members[i].key != key
    ensures r.Some? ==> exists i :: 0 <= i < |members| && members[i] == Member(key, r.value)
  {
    if members == [] then None
    else if members[|members| - 1].key == key then Some(members[|members| - 1].value)
    else Lookup(members[..|members| - 1], key)
  }

  predicate HasKey(j: Json, key: string) {
    j.JObj? && Lookup(j.members, key).Some?
  }

  /** `j.get(key, default)`. `None` stands for the AttributeError raised when `j` is not a dict. */
  function Get(j: Json, key: string, default: Json): (r: Option<Json>)
    ensures r.Some? <==> j.JObj?
    ensures j.JObj? && !HasKey(j, key) ==> r == Some(default)
    ensures HasKey(j, key) ==> r == Lookup(j.members, key)
  {
    if j.JObj? then
      match Lookup(j.members, key)
      case Some(v) => Some(v)
      case None => Some(default)
    else None
  }

  /** `j[key]` with a string key. `None` stands for the KeyError (missing key)
      or TypeError (not a dict) it raises. */
  function Subscript(j: Json, key: string): (r: Option<Json>)
    ensures r.Some? <==> HasKey(j, key)
    ensures r.Some? ==> r == Lookup(j.members, key)
  {
    if j.JObj? then Lookup(j.members, key) else None
  }

  /** `j[k1][k2]...[kn]`; `None` stands for the KeyError or TypeError it raises. */
  function Path(j: Json, keys: seq<string>): (r: Option<Json>)
    ensures keys == [] ==> r == Some(j)
    ensures keys != [] && !HasKey(j, keys[0]) ==> r.None?
    decreases |keys|
  {
    if keys == [] then Some(j)
    else match Subscript(j, keys[0])
      case Some(inner) => Path(inner, keys[1..])
      case None => None
  }

  /** `j.get(k1, {}).get(k2, {}) ... .get(kn, default)`: every key but the last
      defaults to an empty dict. `None` when some step is applied to a non-dict. */
  function GetChain(j: Json, keys: seq<string>, default: Json): Option<Json>
    requires |keys| > 0
    decreases |keys|
  {
    if |keys| == 1 then Get(j, keys[0], default)
    else
      match Get(j, keys[0], EmptyObject)
      case None => None
      case Some(inner) => GetChain(inner, keys[1..], default)
  }

  /** A chain of `.get` calls on a dict that lacks the first key ends at the default. */
  lemma {:induction false} GetChainAbsent(j: Json, keys: seq<string>, default: Json)
    requires |keys| > 0 && j.JObj? && !HasKey(j, keys[0])
    ensures GetChain(j, keys, default) == Some(default)
    decreases |keys|
  {
    if |keys| > 1 {
      assert Get(j, keys[0], EmptyObject) == Some(EmptyObject);
      GetChainAbsent(EmptyObject, keys[1..], default);
    }
  }

  /** Following `keys[..n]` by subscripts reaches a dict that lacks `keys[n]`. */
  predicate MissesAt(j: Json, keys: seq<string>, n: nat) {
    n < |keys| && Path(j, keys[..n]).Some? && Path(j, keys[..n]).value.JObj? &&
    !HasKey(Path(j, keys[..n]).value, keys[n])
  }

  /** Following `keys[..n]` by subscripts reaches a value that is not a dict. */
  predicate BlockedAt(j: Json, keys: seq<string>, n: nat) {
    n < |keys| && Path(j, keys[..n]).Some? && !Path(j, keys[..n]).value.JObj?
  }

  /** One subscript step: below a present first key, a prefix path is the
      shorter prefix path from that key's value. */
  lemma PathPrefixStep(j: Json, keys: seq<string>, n: nat)
    requires 1 <= n <= |keys| && HasKey(j, keys[0])
    ensures Path(j, keys[..n]) == Path(Subscript(j, keys[0]).value, keys[1..][..n - 1])
  {
    assert keys[..n][0] == keys[0];
    assert keys[..n][1..] == keys[1..][..n - 1];
  }

  /** Below a missing first key no prefix path past the first is readable. */
  lemma PathPrefixMissing(j: Json, keys: seq<string>, n: nat)
    requires 1 <= n <= |keys| && !HasKey(j, keys[0])
    ensures Path(j, keys[..n]).None?
  {
    assert keys[..n][0] == keys[0];
  }

  /** A chain of `.get` calls whose keys are all present yields the value at the end of the path. */
  lemma {:induction false} GetChainFound(j: Json, keys: seq<string>, default: Json)
    requires |keys| > 0 && Path(j, keys).Some?
    ensures GetChain(j, keys, default) == Path(j, keys)
    decreases |keys|
  {
    var inner := Subscript(j, keys[0]).value;
    assert Get(j, keys[0], EmptyObject) == Some(inner);
    if |keys| > 1 {
      GetChainFound(inner, keys[1..], default);
    }
  }

  /** A chain of `.get` calls that reaches a dict lacking the next key ends at the default. */
  lemma {:induction false} GetChainMissing(j: Json, keys: seq<string>, default: Json, n: nat)
    requires |keys| > 0 && MissesAt(j, keys, n)
    ensures GetChain(j, keys, default) == Some(default)
    decreases n
  {
    if n == 0 {
      GetChainAbsent(j, keys, default);
    } else {
      var inner := Subscript(j, keys[0]).value;
      PathPrefixStep(j, keys, n);
      assert keys[1..][n - 1] == keys[n];
      GetChainMissing(inner, keys[1..], default, n - 1);
    }
  }

  /** A chain of `.get` calls raises exactly when the subscripts along its keys
      reach a value that is not a dict. */
  lemma {:induction false} GetChainFails(j: Json, keys: seq<string>, default: Json)
    requires |keys| > 0
    ensures GetChain(j, keys, default).None? <==> exists n: nat :: BlockedAt(j, keys, n)
    decreases |keys|
  {
    if !j.JObj? {
      assert BlockedAt(j, keys, 0);
    } else if |keys| == 1 {
      forall n: nat | BlockedAt(j, keys, n) ensures false {
      }
    } else if !HasKey(j, keys[0]) {
      GetChainAbsent(j, keys, default);
      forall n: nat | BlockedAt(j, keys, n) ensures false {
        if n > 0 { PathPrefixMissing(j, keys, n); }
      }
    } else {
      var inner := Subscript(j, keys[0]).value;
      assert Get(j, keys[0], EmptyObject) == Some(inner);
      GetChainFails(inner, keys[1..], default);
      if GetChain(j, keys, default).None? {
        var m: nat :| BlockedAt(inner, keys[1..], m);
        PathPrefixStep(j, keys, m + 1);
        assert BlockedAt(j, keys, m + 1);
      } else {
        forall n: nat | BlockedAt(j, keys, n) ensures false {
          if n > 0 {
            PathPrefixStep(j, keys, n);
            assert BlockedAt(inner, keys[1..], n - 1);
          }
        }
      }
    }
  }

  /** Python's `bool(j)`. */
  predicate Truthy(j: Json) {
    match j
    case JNull => false
    case JBool(b) => b
    case JNum(n) => n != 0
    case JStr(s) => s != ""
    case JArr(items) => items != []
    case JObj(members) => members != []
  }

  /** Python's `str(j)`, as an f-string renders a decoded value: a string is
      itself, every other value is its `repr`. */
  function Str(j: Json): string {
    if j.JStr? then j.s else Repr(j)
  }

  /** Python's `repr(j)`. */
  function Repr(j: Json): string
    decreases j, 1
  {
    match j
    case JNull => "None"
    case JBool(b) => if b then "True" else "False"
    case JNum(n) => IntToString(n)
    case JStr(s) => ReprString(s)
    case JArr(items) => "[" + ReprItems(items) + "]"
    case JObj(members) => "{" + ReprMembers(members) + "}"
  }

  function ReprItems(items: seq<Json>): string
    decreases items, 0
  {
    if items == [] then ""
    else if |items| == 1 then Repr(items[0])
    else Repr(items[0]) + ", " + ReprItems(items[1..])
  }

  function ReprMembers(members: seq<Member>): string
    decreases members, 0
  {
    if members == [] then ""
    else
      var m := ReprString(members[0].key) + ": " + Repr(members[0].value);
      if |members| == 1 then m else m + ", " + ReprMembers(members[1..])
  }

  // ---------------------------------------------------------------------------
  // repr() of a string

  /** The quote `repr` puts around `s`: double quotes when `s` holds a single
      quote and no double quote, single quotes otherwise. */
  function QuoteFor(s: string): char {
    if '\'' in s && '"' !in s then '"' else '\''
  }

  /** The lower-case hexadecimal digit for `d`. */
  function HexDigit(d: nat): char
    requires d < 16
  {
    if d < 10 then DigitChar(d) else ('a' as int + d - 10) as char
  }

  /** The last `width` hexadecimal digits of `n`, zero-padded. */
  function Hex(n: nat, width: nat): (r: string)
    ensures |r| == width
  {
    if width == 0 then "" else Hex(n / 16, width - 1) + [HexDigit(n % 16)]
  }

  /** How `repr` writes one character of a string quoted with `q`: a
      backslash, the quote itself, tab, newline and carriage return get a
      backslash escape, other non-printable characters a `\x`, `\u` or `\U`
      escape, and everything else stands for itself. */
  function EscapeChar(c: char, q: char): string {
    if c == '\\' then "\\\\"
    else if c == q then ['\\', q]
    else if c == '\t' then "\\t"
    else if c == '\n' then "\\n"
    else if c == '\r' then "\\r"
    else if IsPrintable(c) then [c]
    else if (c as int) < 0x100 then "\\x" + Hex(c as int, 2)
    else if (c as int) < 0x1_0000 then "\\u" + Hex(c as int, 4)
    else "\\U" + Hex(c as int, 8)
  }

  function EscapeAll(s: string, q: char): string {
    if s == [] then "" else EscapeChar(s[0], q) + EscapeAll(s[1..], q)
  }

  /** `repr(s)` for a string. */
  function ReprString(s: string): string {
    var q := QuoteFor(s);
    [q] + EscapeAll(s, q) + [q]
  }

  /** The escapes leave plain text alone: a string of printable characters
      without a backslash or the quote is written as it is. */
  lemma {:induction false} EscapePlain(s: string, q: char)
    requires forall i :: 0 <= i < |s| ==> IsPrintable(s[i]) && s[i] != '\\' && s[i] != q
    ensures EscapeAll(s, q) == s
    decreases |s|
  {
    if s != [] {
      assert IsPrintable(s[0]) && s[0] != '\\' && s[0] != q;
      assert '\t' < ' ' && '\n' < ' ' && '\r' < ' ';
      EscapePlain(s[1..], q);
    }
  }

  /** What `repr` writes for a string: the quote it picks opens and closes the
      text; a string with a single quote and no double quote is put in double
      quotes with its single quotes unescaped; and a string of printable
      characters without backslashes or single quotes is only wrapped in
      single quotes. */
  lemma ReprStringShape(s: string)
    ensures var r := ReprString(s); |r| >= 2 && r[0] == QuoteFor(s) && r[|r| - 1] == QuoteFor(s)
    ensures QuoteFor(s) == '"' <==> '\'' in s && '"' !in s
    ensures ('\'' in s && '"' !in s && forall i :: 0 <= i < |s| ==> IsPrintable(s[i]) && s[i] != '\\') ==>
      ReprString(s) == "\"" + s + "\""
    ensures (forall i :: 0 <= i < |s| ==> IsPrintable(s[i]) && s[i] != '\\' && s[i] != '\'') ==>
      ReprString(s) == "'" + s + "'"
  {
    var q := QuoteFor(s);
    if forall i :: 0 <= i < |s| ==> IsPrintable(s[i]) && s[i] != '\\' && s[i] != q {
      EscapePlain(s, q);
    }
  }

  /** Python's falsy values: `bool(j)` is false exactly for None, False, 0,
      the empty string, the empty list and the empty dict. */
  lemma FalsyValues(j: Json)
    ensures !Truthy(j) <==> j in [JNull, JBool(false), JNum(0), JStr(""), JArr([]), JObj([])]
  {
  }

  /** `str()` of a decoded value: a string is itself, None and the booleans
      are their Python names, a number is its decimal text, and a list or dict
      is its bracketed `repr`. */
  lemma StrOfValues(j: Json)
    ensures j.JStr? ==> Str(j) == j.s
    ensures j == JNull ==> Str(j) == "None"
    ensures j.JBool? ==> Str(j) == (if j.b then "True" else "False")
    ensures j.JNum? && j.n >= 0 ==> Str(j) == NatToString(j.n)
    ensures j.JNum? && j.n < 0 ==> Str(j) == "-" + NatToString(-j.n)
    ensures j.JArr? ==> Str(j)[0] == '[' && Str(j)[|Str(j)| - 1] == ']'
    ensures j.JObj? ==> Str(j)[0] == '{' && Str(j)[|Str(j)| - 1] == '}'
  {
  }
}
