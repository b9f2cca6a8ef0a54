/** Option and Result, the two shapes the source's "value or None" and
    "value or raised HTTPException" take in this model. */
module Wrappers {
  datatype Option<+T> = None | Some(value: T) {
    function GetOr(default: T): T {
      match this
      case Some(v) => v
      case None => default
    }
  }

  /** A decoded JSON value. */
  datatype Json =
    | JNull
    | JBool(b: bool)
    | JInt(i: int)
    | JStr(s: string)
    | JArr(items: seq<Json>)
    | JObj(fields: map<string, Json>)

  /** The FastAPI `HTTPException` the source raises: a status code and an optional detail. */
  datatype HttpError = HttpError(status: int, detail: Option<Json>)

  datatype Result<+T> = Ok(value: T) | Err(error: HttpError)

  /** `asyncio.gather` over workers that may raise: every result in argument order,
      or the first error. */
  function AllOk<T>(rs: seq<Result<T>>): (r: Result<seq<T>>)
    ensures r.Ok? <==> forall i :: 0 <= i < |rs| ==> rs[i].Ok?
    ensures r.Ok? ==> |r.value| == |rs| && forall i :: 0 <= i < |rs| ==> rs[i] == Ok(r.value[i])
    ensures r.Err? ==> exists i :: 0 <= i < |rs| && rs[i] == Err(r.error)
  {
    if rs == [] then Ok([])
    else if rs[0].Err? then Err(rs[0].error)
    else
      var rest := AllOk(rs[1..]);
      if rest.Err? then
        assert exists i :: 1 <= i < |rs| && rs[i] == Err(rest.error);
        rest
      else Ok([rs[0].value] + rest.value)
  }

  /** `asyncio.gather` of one worker per input: the worker's results in input order,
      or an error when a worker raises. */
  function Gather<A, B>(xs: seq<A>, worker: A -> Result<B>): (r: Result<seq<B>>)
    ensures r.Ok? <==> forall i :: 0 <= i < |xs| ==> worker(xs[i]).Ok?
    ensures r.Ok? ==> |r.value| == |xs| && forall i :: 0 <= i < |xs| ==> worker(xs[i]) == Ok(r.value[i])
  {
    var rs := seq(|xs|, i requires 0 <= i < |xs| => worker(xs[i]));
    assert forall i :: 0 <= i < |xs| ==> rs[i] == worker(xs[i]);
    AllOk(rs)
  }

  /** One more input adds its worker's result last, or fails the gathering when that
      worker raises. */
  lemma GatherAppend<A, B>(xs: seq<A>, x: A, worker: A -> Result<B>)
    ensures Gather(xs + [x], worker).Ok? <==> Gather(xs, worker).Ok? && worker(x).Ok?
    ensures Gather(xs + [x], worker).Ok? ==> Gather(xs + [x], worker).value == Gather(xs, worker).value + [worker(x).value]
  {
    var ys := xs + [x];
    assert forall i :: 0 <= i < |xs| ==> ys[i] == xs[i];
    assert ys[|xs|] == x;
    if Gather(ys, worker).Ok? {
      assert Gather(ys, worker).value == Gather(xs, worker).value + [worker(x).value];
    }
  }
}

/** String helpers with Python's meaning (`str.strip`, `str.lower` on ASCII,
    `in`, `startswith`, `endswith`, `str(int)`, `sep.join`, `str.replace`, slicing). */
module Text {
  import opened Wrappers

  /** Python truthiness of an optional text: present and non-empty. */
  predicate Truthy(o: Option<string>) {
    o.Some? && o.value != ""
  }

  /** Python's `str.isspace()` set, the characters `str.strip()` removes. */
  predicate IsSpace(c: char) {
    || c == ' ' || '\t' <= c <= '\r' || '\U{1C}' <= c <= '\U{1F}'
    || c == '\U{85}' || c == '\U{A0}' || c == '\U{1680}' || '\U{2000}' <= c <= '\U{200A}'
    || c == '\U{2028}' || c == '\U{2029}' || c == '\U{202F}' || c == '\U{205F}' || c == '\U{3000}'
  }

  function LowerChar(c: char): (r: char)
    ensures 'A' <= c <= 'Z' ==> r as int == c as int + 32
    ensures !('A' <= c <= 'Z') ==> r == c
  {
    if 'A' <= c <= 'Z' then (c as int + 32) as char else c
  }

  /** `str.lower()` restricted to ASCII letters. */
  function Lower(s: string): (r: string)
    ensures |r| == |s|
    ensures forall i :: 0 <= i < |s| ==> r[i] == LowerChar(s[i])
  {
    if s == [] then [] else [LowerChar(s[0])] + Lower(s[1..])
  }

  function UpperChar(c: char): (r: char)
    ensures 'a' <= c <= 'z' ==> r as int == c as int - 32
    ensures !('a' <= c <= 'z') ==> r == c
  {
    if 'a' <= c <= 'z' then (c as int - 32) as char else c
  }

  /** `str.upper()` restricted to ASCII letters. */
  function Upper(s: string): (r: string)
    ensures |r| == |s|
    ensures forall i :: 0 <= i < |s| ==> r[i] == UpperChar(s[i])
  {
    if s == [] then [] else [UpperChar(s[0])] + Upper(s[1..])
  }

  predicate StartsWith(s: string, prefix: string) {
    |prefix| <= |s| && s[..|prefix|] == prefix
  }

  predicate EndsWith(s: string, suffix: string) {
    |suffix| <= |s| && s[|s| - |suffix|..] == suffix
  }

  /** A text ends with whatever was appended to it last. */
  lemma EndsWithAppend(s: string, suffix: string)
    ensures EndsWith(s + suffix, suffix)
  {
    assert (s + suffix)[|s|..] == suffix;
  }

  predicate OccursAt(s: string, sub: string, i: nat) {
    i + |sub| <= |s| && s[i..i + |sub|] == sub
  }

  /** Python's `s.find(sub)`: the leftmost position of `sub` in `s`, if any. */
  function Find(s: string, sub: string, from: nat := 0): (r: Option<nat>)
    requires from <= |s|
    ensures r.Some? ==> from <= r.value && OccursAt(s, sub, r.value)
    ensures r.Some? ==> forall j :: from <= j < r.value ==> !OccursAt(s, sub, j)
    ensures r.None? ==> forall j :: from <= j <= |s| ==> !OccursAt(s, sub, j)
    decreases |s| - from
  {
    if OccursAt(s, sub, from) then Some(from)
    else if from + |sub| >= |s| then None
    else Find(s, sub, from + 1)
  }

  /** Python's `sub in s`. */
  predicate Contains(s: string, sub: string) {
    Find(s, sub).Some?
  }

  lemma ContainsAt(s: string, sub: string, i: nat)
    requires OccursAt(s, sub, i)
    ensures Contains(s, sub)
  {
  }

  /** `str.strip()`: what is left once the leading and trailing spaces are removed. */
  function Strip(s: string): (r: string)
    ensures |r| <= |s|
    ensures r == [] || (!IsSpace(r[0]) && !IsSpace(r[|r| - 1]))
    ensures exists i, j :: 0 <= i <= j <= |s| && r == s[i..j] && AllSpace(s[..i]) && AllSpace(s[j..])
  {
    var l := StripLeft(s);
    var r := StripRight(l);
    StripBoth(s, l, r);
    r
  }

  predicate AllSpace(s: string) {
    forall k :: 0 <= k < |s| ==> IsSpace(s[k])
  }

  lemma AllSpaceAppend(a: string, b: string)
    requires AllSpace(a) && AllSpace(b)
    ensures AllSpace(a + b)
  {
    assert forall k :: 0 <= k < |a + b| ==> (a + b)[k] == if k < |a| then a[k] else b[k - |a|];
  }

  /** Taking a space-led suffix of `s`, then a space-trailed prefix of that, removes a
      run of spaces before and a run after. */
  lemma StripBoth(s: string, l: string, r: string)
    requires |l| <= |s| && l == s[|s| - |l|..] && AllSpace(s[..|s| - |l|])
    requires |r| <= |l| && r == l[..|r|] && AllSpace(l[|r|..])
    ensures exists i, j :: 0 <= i <= j <= |s| && r == s[i..j] && AllSpace(s[..i]) && AllSpace(s[j..])
  {
    var i, j := |s| - |l|, |s| - |l| + |r|;
    assert r == s[i..j];
    assert s[j..] == l[|r|..];
  }

  function StripLeft(s: string): (r: string)
    ensures |r| <= |s| && r == s[|s| - |r|..]
    ensures r == [] || !IsSpace(r[0])
    ensures AllSpace(s[..|s| - |r|])
  {
    if s != [] && IsSpace(s[0]) then
      var r := StripLeft(s[1..]);
      assert AllSpace(s[..|s| - |r|]) by {
        assert s[..|s| - |r|] == [s[0]] + s[1..][..|s| - 1 - |r|];
        AllSpaceAppend([s[0]], s[1..][..|s| - 1 - |r|]);
      }
      r
    else s
  }

  function StripRight(s: string): (r: string)
    ensures |r| <= |s| && r == s[..|r|]
    ensures r == [] || !IsSpace(r[|r| - 1])
    ensures AllSpace(s[|r|..])
  {
    if s != [] && IsSpace(s[|s| - 1]) then
      var r := StripRight(s[..|s| - 1]);
      assert AllSpace(s[|r|..]) by {
        assert s[|r|..] == s[..|s| - 1][|r|..] + [s[|s| - 1]];
        AllSpaceAppend(s[..|s| - 1][|r|..], [s[|s| - 1]]);
      }
      r
    else s
  }

  function DigitChar(d: nat): (c: char)
    requires d < 10
    ensures '0' <= c <= '9'
  {
    ('0' as int + d) as char
  }

  /** `str(n)` for a non-negative integer: its decimal digits, no leading zeros. */
  function NatToString(n: nat): (r: string)
    ensures |r| >= 1
    ensures forall i :: 0 <= i < |r| ==> '0' <= r[i] <= '9'
    ensures |r| > 1 ==> r[0] != '0'
    decreases n
  {
    if n < 10 then [DigitChar(n)] else NatToString(n / 10) + [DigitChar(n % 10)]
  }

  /** `str(n)` for any integer. */
  function IntToString(n: int): (r: string)
    ensures r != []
  {
    if n < 0 then "-" + NatToString(-n) else NatToString(n)
  }

  /** The value of a string of decimal digits, the inverse of `NatToString`. */
  function DigitsValue(s: string): nat
    requires forall i :: 0 <= i < |s| ==> '0' <= s[i] <= '9'
  {
    if s == [] then 0 else DigitsValue(s[..|s| - 1]) * 10 + (s[|s| - 1] as int - '0' as int)
  }

  lemma {:induction false} NatToStringRoundTrip(n: nat)
    ensures DigitsValue(NatToString(n)) == n
    decreases n
  {
    if n >= 10 {
      NatToStringRoundTrip(n / 10);
      var s := NatToString(n);
      assert s[..|s| - 1] == NatToString(n / 10);
    }
  }

  /** `sep.join(parts)`. */
  function Join(sep: string, parts: seq<string>): (r: string)
    ensures parts == [] ==> r == ""
    ensures |parts| == 1 ==> r == parts[0]
  {
    if parts == [] then "" else if |parts| == 1 then parts[0] else parts[0] + sep + Join(sep, parts[1..])
  }

  /** `s.replace(pat, rep)`: every non-overlapping occurrence, left to right. */
  function ReplaceAll(s: string, pat: string, rep: string): (r: string)
    requires pat != []
    ensures Find(s, pat).None? ==> r == s
    decreases |s|
  {
    match Find(s, pat)
    case None => s
    case Some(i) => s[..i] + rep + ReplaceAll(s[i + |pat|..], pat, rep)
  }

  /** Python's `s[a:b]` for non-negative bounds: out-of-range bounds are clamped. */
  function Slice(s: string, a: nat, b: nat): (r: string)
    ensures |r| <= |s|
    ensures a < b <= |s| ==> r == s[a..b]
    ensures b <= a ==> r == ""
    ensures |s| < b ==> r == if a < |s| then s[a..] else ""
  {
    var hi := if b <= |s| then b else |s|;
    var lo := if a <= hi then a else hi;
    s[lo..hi]
  }

  /** `s.split(sep)[1]`: the text between the first and the second `sep`
      (or the end); None where Python raises IndexError. */
  function SplitSecond(s: string, sep: string): (r: Option<string>)
    requires sep != []
    ensures r.None? <==> !Contains(s, sep)
  {
    match Find(s, sep)
    case None => None
    case Some(i) =>
      var rest := s[i + |sep|..];
      match Find(rest, sep)
      case None => Some(rest)
      case Some(j) => Some(rest[..j])
  }

  /** `r` is the text of `s` before its first `c`, or the whole of `s` when it has
      none: a prefix free of `c` that ends where `s` ends or at a `c`. */
  predicate HeadBefore(s: string, c: char, r: string) {
    |r| <= |s| && r == s[..|r|] && (forall i :: 0 <= i < |r| ==> r[i] != c) && (|r| == |s| || s[|r|] == c)
  }

  /** Splitting at a one-character separator keeps the text before its first occurrence. */
  lemma SplitFirstHead(s: string, c: char)
    ensures HeadBefore(s, c, SplitFirst(s, [c]))
  {
    match Find(s, [c])
    case None =>
      forall i | 0 <= i < |s| ensures s[i] != c {
        assert !OccursAt(s, [c], i) && s[i..i + 1] == [s[i]];
      }
    case Some(k) =>
      assert s[k..k + 1] == [c];
      forall i | 0 <= i < k ensures s[i] != c {
        assert !OccursAt(s, [c], i) && s[i..i + 1] == [s[i]];
      }
  }

  /** `s.split(sep)[0]`: the text before the first `sep`, or all of `s`. */
  function SplitFirst(s: string, sep: string): (r: string)
    requires sep != []
    ensures !Contains(s, sep) ==> r == s
    ensures Contains(s, sep) ==> r == s[..Find(s, sep).value] && !Contains(r, sep)
  {
    match Find(s, sep)
    case None => s
    case Some(i) =>
      var r := s[..i];
      assert forall j :: 0 <= j <= |r| ==> (OccursAt(r, sep, j) ==> OccursAt(s, sep, j));
      r
  }
}

/** Python's insertion-ordered `dict`, as a sequence of key/value pairs with
    distinct keys: assigning a present key keeps its position, a new key goes last. */
module PyDict {
  import opened Wrappers

  type Dict<K, V> = seq<(K, V)>

  function Keys<K, V>(d: Dict<K, V>): (r: seq<K>)
    ensures |r| == |d|
    ensures forall i :: 0 <= i < |d| ==> r[i] == d[i].0
  {
    if d == [] then [] else [d[0].0] + Keys(d[1..])
  }

  predicate DistinctKeys<K(==), V>(d: Dict<K, V>) {
    forall i, j :: 0 <= i < j < |d| ==> d[i].0 != d[j].0
  }

  function IndexOf<K(==), V>(d: Dict<K, V>, k: K): (r: Option<nat>)
    ensures r.Some? ==> r.value < |d| && d[r.value].0 == k
    ensures r.Some? ==> forall j :: 0 <= j < r.value ==> d[j].0 != k
    ensures r.None? ==> forall j :: 0 <= j < |d| ==> d[j].0 != k
  {
    if d == [] then None
    else if d[0].0 == k then Some(0)
    else match IndexOf(d[1..], k)
      case None => None
      case Some(i) => Some(i + 1)
  }

  /** `d[k]` if `k in d`. */
  function Get<K(==), V>(d: Dict<K, V>, k: K): (r: Option<V>)
    ensures r.Some? <==> exists i :: 0 <= i < |d| && d[i].0 == k
  {
    match IndexOf(d, k)
    case None => None
    case Some(i) => Some(d[i].1)
  }

  /** `d[k] = v`. */
  function Set<K(==), V>(d: Dict<K, V>, k: K, v: V): (r: Dict<K, V>)
  {
    match IndexOf(d, k)
    case None => d + [(k, v)]
    case Some(i) => d[i := (k, v)]
  }

  lemma SetGetSame<K, V>(d: Dict<K, V>, k: K, v: V)
    ensures Get(Set(d, k, v), k) == Some(v)
  {
    match IndexOf(d, k)
    case None => assert IndexOf(d + [(k, v)], k) == Some(|d|) by { IndexOfAppend(d, k, v, k); }
    case Some(i) => assert IndexOf(d[i := (k, v)], k) == Some(i) by { IndexOfUpdate(d, i, k, v, k); }
  }

  lemma SetGetOther<K, V>(d: Dict<K, V>, k: K, v: V, k': K)
    requires k' != k
    ensures Get(Set(d, k, v), k') == Get(d, k')
  {
    match IndexOf(d, k)
    case None => IndexOfAppend(d, k, v, k');
    case Some(i) => IndexOfUpdate(d, i, k, v, k');
  }

  lemma SetKeys<K, V>(d: Dict<K, V>, k: K, v: V)
    ensures Keys(Set(d, k, v)) == if IndexOf(d, k).Some? then Keys(d) else Keys(d) + [k]
  {
  }

  lemma SetDistinct<K, V>(d: Dict<K, V>, k: K, v: V)
    requires DistinctKeys(d)
    ensures DistinctKeys(Set(d, k, v))
  {
  }

  lemma {:induction false} IndexOfAppend<K, V>(d: Dict<K, V>, k: K, v: V, k': K)
    requires IndexOf(d, k).None?
    ensures IndexOf(d + [(k, v)], k') == if k' == k then Some(|d|) else IndexOf(d, k')
  {
    if d != [] {
      assert (d + [(k, v)])[1..] == d[1..] + [(k, v)];
      IndexOfAppend(d[1..], k, v, k');
    }
  }

  lemma {:induction false} IndexOfUpdate<K, V>(d: Dict<K, V>, i: nat, k: K, v: V, k': K)
    requires IndexOf(d, k) == Some(i)
    ensures IndexOf(d[i := (k, v)], k') == if k' == k then Some(i) else IndexOf(d, k')
  {
    if i > 0 {
      assert d[i := (k, v)][1..] == d[1..][i - 1 := (k, v)];
      IndexOfUpdate(d[1..], i - 1, k, v, k');
    }
  }
}
