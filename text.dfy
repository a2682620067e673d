/** Strings and the few pieces of Python string behaviour the scripts rely on:
    substring search (`w in s`), ASCII case mapping, decimal digits,
    `sep.join(xs)`, `str.strip()` and `str.isprintable()`. */
module Text {

  datatype Option<T> = None | Some(value: T)

  /** A list comprehension whose element expression may raise: it either maps
      every item, in order, or raises at the first item that fails. */
  function MapOrFail<T, U>(f: T -> Option<U>, items: seq<T>): (r: Option<seq<U>>)
    ensures r.Some? <==> forall i :: 0 <= i < |items| ==> f(items[i]).Some?
    ensures r.Some? ==> |r.value| == |items|
    ensures r.Some? ==> forall i :: 0 <= i < |items| ==> r.value[i] == f(items[i]).value
  {
    if items == [] then Some([])
    else
      match (MapOrFail(f, items[..|items| - 1]), f(items[|items| - 1]))
      case (Some(init), Some(last)) => Some(init + [last])
      case _ => None
  }

  /** Mapping one more item extends the result, or fails with that item. */
  lemma MapOrFailStep<T, U>(f: T -> Option<U>, items: seq<T>, i: nat, done: seq<U>)
    requires i < |items| && MapOrFail(f, items[..i]) == Some(done)
    ensures MapOrFail(f, items[..i + 1]) == if f(items[i]).Some? then Some(done + [f(items[i]).value]) else None
    ensures f(items[i]).None? ==> MapOrFail(f, items).None?
  {
    assert items[..i + 1][..i] == items[..i];
  }

  /** `w` occurs in `s` starting at index `k`. */
  predicate OccursAt(s: string, k: nat, w: string) {
    k + |w| <= |s| && s[k..k + |w|] == w
  }

  /** The index of the first occurrence of `w` in `s` at or after `k`. */
  function FindFrom(s: string, w: string, k: nat): (r: Option<nat>)
    decreases |s| + 1 - k
    ensures r.Some? ==> k <= r.value && OccursAt(s, r.value, w)
    ensures r.Some? ==> forall j :: k <= j < r.value ==> !OccursAt(s, j, w)
    ensures r.None? ==> forall j :: k <= j ==> !OccursAt(s, j, w)
  {
    if k + |w| > |s| then None
    else if OccursAt(s, k, w) then Some(k)
    else FindFrom(s, w, k + 1)
  }

  /** `a + b` occurs at `k` exactly when `a` does and `b` follows it. */
  lemma OccursAtConcat(s: string, k: nat, a: string, b: string)
    ensures OccursAt(s, k, a + b) <==> OccursAt(s, k, a) && OccursAt(s, k + |a|, b)
  {
    if OccursAt(s, k, a + b) {
      assert s[k..k + |a|] == (a + b)[..|a|];
      assert s[k + |a|..k + |a| + |b|] == (a + b)[|a|..];
    }
    if OccursAt(s, k, a) && OccursAt(s, k + |a|, b) {
      assert s[k..k + |a| + |b|] == s[k..k + |a|] + s[k + |a|..k + |a| + |b|];
    }
  }

  /** Python's `w in s` for two strings. */
  predicate Contains(s: string, w: string) {
    FindFrom(s, w, 0).Some?
  }

  lemma ContainsIff(s: string, w: string)
    ensures Contains(s, w) <==> exists j: nat :: OccursAt(s, j, w)
  {
    var r := FindFrom(s, w, 0);
    if r.Some? {
      assert OccursAt(s, r.value, w);
    }
  }

  // ---------------------------------------------------------------------------
  // ASCII case mapping

  function LowerChar(c: char): char {
    if 'A' <= c <= 'Z' then (c as int + 32) as char else c
  }

  function UpperChar(c: char): char {
    if 'a' <= c <= 'z' then (c as int - 32) as char else c
  }

  /** Lower-cases the ASCII letters of `s` and leaves every other character alone. */
  function Lower(s: string): (r: string)
    ensures |r| == |s|
    ensures forall i :: 0 <= i < |s| ==> r[i] == LowerChar(s[i])
  {
    if s == [] then [] else [LowerChar(s[0])] + Lower(s[1..])
  }

  /** Upper-cases the ASCII letters of `s` and leaves every other character alone. */
  function Upper(s: string): (r: string)
    ensures |r| == |s|
    ensures forall i :: 0 <= i < |s| ==> r[i] == UpperChar(s[i])
  {
    if s == [] then [] else [UpperChar(s[0])] + Upper(s[1..])
  }

  // ---------------------------------------------------------------------------
  // Decimal numbers

  predicate IsDigit(c: char) {
    '0' <= c <= '9'
  }

  predicate AllDigits(s: string) {
    forall i :: 0 <= i < |s| ==> IsDigit(s[i])
  }

  function DigitValue(c: char): nat
    requires IsDigit(c)
  {
    c as int - '0' as int
  }

  function DigitChar(d: nat): (c: char)
    requires d < 10
    ensures IsDigit(c) && DigitValue(c) == d
  {
    ('0' as int + d) as char
  }

  /** The length of the longest run of digits in `s` starting at index `k`
      (what a greedy `\d+` or `\d*` consumes). */
  function DigitRun(s: string, k: nat): (n: nat)
    decreases |s| - k
    ensures n > 0 ==> k + n <= |s|
    ensures forall i :: k <= i < k + n ==> IsDigit(s[i])
    ensures k + n < |s| ==> !IsDigit(s[k + n])
  {
    if k >= |s| || !IsDigit(s[k]) then 0 else 1 + DigitRun(s, k + 1)
  }

  /** Python's `int(ds)` for a string of ASCII digits. */
  function DecimalValue(ds: string): nat
    requires AllDigits(ds)
  {
    if ds == [] then 0
    else 10 * DecimalValue(ds[..|ds| - 1]) + DigitValue(ds[|ds| - 1])
  }

  /** Python's `str(n)` for a natural number: its decimal digits, no leading zero. */
  function NatToString(n: nat): (r: string)
    ensures |r| > 0 && AllDigits(r)
    ensures r[0] == '0' ==> n == 0
  {
    if n < 10 then [DigitChar(n)] else NatToString(n / 10) + [DigitChar(n % 10)]
  }

  /** Reading back the digits `str(n)` writes gives `n`. */
  lemma {:induction false} DecimalRoundTrip(n: nat)
    ensures DecimalValue(NatToString(n)) == n
  {
    var r := NatToString(n);
    if n >= 10 {
      DecimalRoundTrip(n / 10);
      assert r[..|r| - 1] == NatToString(n / 10);
    }
  }

  /** Python's `str(i)` for any integer. */
  function IntToString(i: int): string {
    if i < 0 then "-" + NatToString(-i) else NatToString(i)
  }

  // ---------------------------------------------------------------------------
  // sep.join(xs)

  function Join(sep: string, xs: seq<string>): string {
    if xs == [] then ""
    else if |xs| == 1 then xs[0]
    else Join(sep, xs[..|xs| - 1]) + sep + xs[|xs| - 1]
  }

  /** The first piece of a join comes first: `sep.join(xs)` starts with `xs[0]`. */
  lemma {:induction false} JoinStartsWithFirst(sep: string, xs: seq<string>)
    requires |xs| > 0
    ensures xs[0] <= Join(sep, xs)
  {
    if |xs| > 1 {
      JoinStartsWithFirst(sep, xs[..|xs| - 1]);
    }
  }

  /** The length of `sep.join(xs)`: every piece once and one separator between neighbours. */
  function TotalLength(xs: seq<string>): nat {
    if xs == [] then 0 else TotalLength(xs[..|xs| - 1]) + |xs[|xs| - 1]|
  }

  lemma {:induction false} JoinLength(sep: string, xs: seq<string>)
    requires |xs| > 0
    ensures |Join(sep, xs)| == TotalLength(xs) + (|xs| - 1) * |sep|
  {
    if |xs| > 1 {
      JoinLength(sep, xs[..|xs| - 1]);
      var init := xs[..|xs| - 1];
      assert TotalLength(init) == TotalLength(init[..|init| - 1]) + |init[|init| - 1]| by {
        assert |init| > 0;
      }
    } else {
      assert xs[..0] == [];
    }
  }

  /** Piece `i` of `xs` occurs in the join at its offset, after the earlier
      pieces and one separator per earlier piece, and is followed by `sep`
      unless it is the last. */
  predicate Placed(sep: string, xs: seq<string>, i: nat)
    requires i < |xs|
  {
    var off := TotalLength(xs[..i]) + i * |sep|;
    && OccursAt(Join(sep, xs), off, xs[i])
    && (i < |xs| - 1 ==> OccursAt(Join(sep, xs), off + |xs[i]|, sep))
  }

  /** Where each piece sits in `sep.join(xs)`. */
  lemma {:induction false} JoinPlacement(sep: string, xs: seq<string>, i: nat)
    requires i < |xs|
    ensures Placed(sep, xs, i)
    decreases |xs|
  {
    if |xs| == 1 {
      assert xs[..0] == [] && Join(sep, xs)[0..|xs[0]|] == xs[0];
    } else if i < |xs| - 1 {
      JoinPlacement(sep, xs[..|xs| - 1], i);
      PlacedInPrefix(sep, xs, i);
    } else {
      PlacedLast(sep, xs);
    }
  }

  /** The last piece ends the join, after the join of the others and a separator. */
  lemma PlacedLast(sep: string, xs: seq<string>)
    requires |xs| > 1
    ensures Placed(sep, xs, |xs| - 1)
  {
    var init := xs[..|xs| - 1];
    var head := Join(sep, init);
    JoinLength(sep, init);
    assert xs[..|xs| - 1] == init;
    assert (|xs| - 1) * |sep| == (|xs| - 2) * |sep| + |sep|;
    OccursAtEnd(head + sep, xs[|xs| - 1]);
  }

  /** A piece placed in the join of all but the last piece stays placed in the whole join. */
  lemma PlacedInPrefix(sep: string, xs: seq<string>, i: nat)
    requires 1 < |xs| && i < |xs| - 1 && Placed(sep, xs[..|xs| - 1], i)
    ensures Placed(sep, xs, i)
  {
    var init := xs[..|xs| - 1];
    var head, rest := Join(sep, init), sep + xs[|xs| - 1];
    assert Join(sep, xs) == head + rest;
    assert init[..i] == xs[..i] && init[i] == xs[i];
    var off := TotalLength(xs[..i]) + i * |sep|;
    OccursInPrefix(head, rest, off, xs[i]);
    if i < |xs| - 2 {
      OccursInPrefix(head, rest, off + |xs[i]|, sep);
    } else {
      SeparatorAfterHead(sep, xs);
    }
  }

  /** The separator before the last piece follows the second-to-last piece. */
  lemma SeparatorAfterHead(sep: string, xs: seq<string>)
    requires 1 < |xs|
    ensures var i := |xs| - 2;
      OccursAt(Join(sep, xs), TotalLength(xs[..i]) + i * |sep| + |xs[i]|, sep)
  {
    var init := xs[..|xs| - 1];
    var i := |xs| - 2;
    JoinLength(sep, init);
    assert init[..|init| - 1] == xs[..i] && init[|init| - 1] == xs[i];
    assert TotalLength(xs[..i]) + i * |sep| + |xs[i]| == |Join(sep, init)|;
    OccursAtEnd(Join(sep, init), sep + xs[|xs| - 1]);
    OccursAtConcat(Join(sep, xs), |Join(sep, init)|, sep, xs[|xs| - 1]);
  }

  lemma OccursInPrefix(a: string, b: string, k: nat, w: string)
    requires OccursAt(a, k, w)
    ensures OccursAt(a + b, k, w)
  {
    assert (a + b)[k..k + |w|] == a[k..k + |w|];
  }

  lemma OccursAtEnd(a: string, b: string)
    ensures OccursAt(a + b, |a|, b)
  {
    assert (a + b)[|a|..|a| + |b|] == b;
  }



  // ---------------------------------------------------------------------------
  // str.strip() and str.isprintable()

  /** The characters Python's `str.isspace()` accepts (and `str.strip()` removes). */
  predicate IsSpace(c: char) {
    || '\t' <= c <= '\r'
    || '\U{1C}' <= c <= ' '
    || c == '\U{85}' || c == '\U{A0}' || c == '\U{1680}'
    || '\U{2000}' <= c <= '\U{200A}'
    || c == '\U{2028}' || c == '\U{2029}' || c == '\U{202F}' || c == '\U{205F}' || c == '\U{3000}'
  }

  /** Python's `str.isprintable()` for one character: false for the Unicode
      categories "Other" and "Separator" except the ASCII space. Exact below
      U+0100; above it, the separators, the private-use planes and the common
      format characters are excluded and other code points are printable. */
  predicate IsPrintable(c: char) {
    if c < '\U{100}' then
      (' ' <= c <= '~') || ('\U{A1}' <= c && c != '\U{AD}')
    else
      && c != '\U{1680}'
      && !('\U{2000}' <= c <= '\U{200F}')
      && !('\U{2028}' <= c <= '\U{202F}')
      && !('\U{205F}' <= c <= '\U{206F}')
      && c != '\U{3000}'
      && c != '\U{FEFF}'
      && !('\U{E000}' <= c <= '\U{F8FF}')
      && c < '\U{F0000}'
  }

  /** The characters of `s` that satisfy `IsPrintable`, in order. */
  function KeepPrintable(s: string): (r: string)
    ensures |r| <= |s|
    ensures forall i :: 0 <= i < |r| ==> IsPrintable(r[i])
    ensures (forall i :: 0 <= i < |s| ==> IsPrintable(s[i])) ==> r == s
  {
    if s == [] then []
    else if IsPrintable(s[0]) then [s[0]] + KeepPrintable(s[1..])
    else KeepPrintable(s[1..])
  }

  /** The filter works character by character: it keeps a printable character,
      drops any other, and filtering a concatenation filters each part in
      place, so the kept characters stay in their order. */
  lemma {:induction false} KeepPrintableConcat(a: string, b: string)
    ensures KeepPrintable(a + b) == KeepPrintable(a) + KeepPrintable(b)
    ensures |a| == 1 ==> KeepPrintable(a) == (if IsPrintable(a[0]) then a else [])
    decreases |a|
  {
    if a != [] {
      assert (a + b)[0] == a[0] && (a + b)[1..] == a[1..] + b;
      KeepPrintableConcat(a[1..], b);
    } else {
      assert a + b == b;
    }
  }

  /** `s.lstrip()`: the suffix left after removing leading whitespace. */
  function LStrip(s: string): (r: string)
    ensures |r| <= |s| && r == s[|s| - |r|..]
    ensures forall i :: 0 <= i < |s| - |r| ==> IsSpace(s[i])
    ensures r != [] ==> !IsSpace(r[0])
  {
    if s != [] && IsSpace(s[0]) then LStrip(s[1..]) else s
  }

  /** `s.rstrip()`: the prefix left after removing trailing whitespace. */
  function RStrip(s: string): (r: string)
    ensures |r| <= |s| && r == s[..|r|]
    ensures forall i :: |r| <= i < |s| ==> IsSpace(s[i])
    ensures r != [] ==> !IsSpace(r[|r| - 1])
  {
    if s != [] && IsSpace(s[|s| - 1]) then RStrip(s[..|s| - 1]) else s
  }

  /** `s.strip()`. */
  function Strip(s: string): string {
    RStrip(LStrip(s))
  }

  /** What `strip` keeps is a slice of its argument, with no whitespace at
      either end. */
  lemma StripSlice(s: string)
    ensures var r := Strip(s);
      && |r| <= |s|
      && (forall i :: 0 <= i < |r| ==> r[i] == s[|s| - |LStrip(s)| + i])
      && (r != [] ==> !IsSpace(r[0]) && !IsSpace(r[|r| - 1]))
  {
  }

  /** A non-empty sequence is its prefix followed by its last element. */
  lemma SplitLast<T>(s: seq<T>)
    requires s != []
    ensures s == s[..|s| - 1] + [s[|s| - 1]]
  {
  }
}
