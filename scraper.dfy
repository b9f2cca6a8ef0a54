/** The DDL scraper of libs/scraper.py (`ScraperClient`): the quality label of a
    result title, the login and search form payloads, the login outcome recorded on
    the website, and the assembly of a search's results over its pages. Page HTML is
    already reduced to the parsed elements and the navigator's last page. */
module Scraper {
  import opened Wrappers
  import opened Text
  import opened PyDict

  // ---------------------------------------------------------------- quality

  const QualityList: seq<string> := [
    "4320p/8K", "2160p/4K", "1440p/WQHD/QHD", "1080p/FullHD/Full HD", "720p/HDReady/HD Ready",
    "576p", "480p", "360p", "240p", "144p"]

  /** The alternatives of the quality pattern's group, in pattern order; a space
      stands for `\s`. */
  const Tokens: seq<string> := [
    "4320", "8K", "2160", "4K", "1440", "WQHD", "QHD", "1080", "FullHD", "Full HD",
    "720", "HDReady", "HD Ready", "576", "480", "360", "240", "144"]

  const OtherQuality := "11. Altro"

  /** One pattern character against one title character, ignoring case. */
  predicate CharMatches(p: char, c: char) {
    if p == ' ' then IsSpace(c) else LowerChar(p) == LowerChar(c)
  }

  predicate TokenAt(title: string, pos: nat, token: string) {
    pos + |token| <= |title| && forall k :: 0 <= k < |token| ==> CharMatches(token[k], title[pos + k])
  }

  /** Alternative `j` matches at `pos`. */
  predicate Alternative(title: string, pos: nat, j: nat)
    requires j < |Tokens|
  {
    TokenAt(title, pos, Tokens[j])
  }

  /** The first alternative, from index `from`, that matches at `pos`. */
  function FirstTokenAt(title: string, pos: nat, from: nat): (r: Option<nat>)
    requires from <= |Tokens|
    ensures r.Some? ==> from <= r.value < |Tokens| && Alternative(title, pos, r.value)
    ensures r.Some? ==> forall j :: from <= j < r.value ==> !Alternative(title, pos, j)
    ensures r.None? ==> forall j :: from <= j < |Tokens| ==> !Alternative(title, pos, j)
    decreases |Tokens| - from
  {
    if from == |Tokens| then None
    else if Alternative(title, pos, from) then Some(from)
    else FirstTokenAt(title, pos, from + 1)
  }

  /** No alternative matches at `pos`. */
  predicate NoMatchAt(title: string, pos: nat) {
    FirstTokenAt(title, pos, 0).None?
  }

  /** No alternative matches at any position from `from` up to, not including, `stop`. */
  predicate NoMatchBetween(title: string, from: nat, stop: nat)
    decreases stop - from
  {
    from >= stop || (NoMatchAt(title, from) && NoMatchBetween(title, from + 1, stop))
  }

  /** `quality_regex.search(title)` from `pos`: the leftmost position where some
      alternative matches, and the first alternative matching there. */
  function SearchFrom(title: string, pos: nat): (r: Option<(nat, nat)>)
    requires pos <= |title|
    ensures r.Some? ==> pos <= r.value.0 <= |title| && FirstTokenAt(title, r.value.0, 0) == Some(r.value.1)
    ensures r.Some? ==> NoMatchBetween(title, pos, r.value.0)
    ensures r.None? ==> NoMatchBetween(title, pos, |title| + 1)
    decreases |title| - pos
  {
    var f := FirstTokenAt(title, pos, 0);
    if f.Some? then Some((pos, f.value))
    else if pos == |title| then None
    else SearchFrom(title, pos + 1)
  }

  /** `quality_match.group(1)`: the matched text, in the title's own case. */
  function MatchedText(title: string): (r: Option<string>)
    ensures r.Some? ==> exists p, t :: 0 <= p <= |title| && 0 <= t < |Tokens| && Alternative(title, p, t) &&
                                       r.value == title[p..p + |Tokens[t]|]
    ensures r.None? ==> NoMatchBetween(title, 0, |title| + 1)
  {
    match SearchFrom(title, 0)
    case None => None
    case Some((p, t)) => Some(title[p..p + |Tokens[t]|])
  }

  /** The index of the first quality entry containing `m` (case-sensitive). */
  function FirstContaining(m: string, from: nat): (r: Option<nat>)
    requires from <= |QualityList|
    ensures r.Some? ==> from <= r.value < |QualityList| && Contains(QualityList[r.value], m)
    ensures r.Some? ==> forall j :: from <= j < r.value ==> !Contains(QualityList[j], m)
    ensures r.None? ==> forall j :: from <= j < |QualityList| ==> !Contains(QualityList[j], m)
    decreases |QualityList| - from
  {
    if from == |QualityList| then None
    else if Contains(QualityList[from], m) then Some(from)
    else FirstContaining(m, from + 1)
  }

  /** `str(n).zfill(2)`. */
  function ZFill2(n: nat): (r: string)
    ensures |r| >= 2
    ensures n < 10 ==> r == "0" + NatToString(n)
    ensures n >= 10 ==> r == NatToString(n)
  {
    if n < 10 then "0" + NatToString(n) else NatToString(n)
  }

  /** The label of the `i`-th entry (0-based): its 2-digit position and first alias. */
  function Label(i: nat): string
    requires i < |QualityList|
  {
    ZFill2(i + 1) + ". " + SplitFirst(QualityList[i], "/")
  }

  /** `get_quality`. */
  function Quality(title: string): (r: string)
    ensures MatchedText(title).None? ==> r == OtherQuality
    ensures MatchedText(title).Some? && FirstContaining(MatchedText(title).value, 0).Some? ==>
      r == Label(FirstContaining(MatchedText(title).value, 0).value)
    ensures r == OtherQuality <==>
      MatchedText(title).None? ||
      forall j :: 0 <= j < |QualityList| ==> !Contains(QualityList[j], MatchedText(title).value)
  {
    match MatchedText(title)
    case None => OtherQuality
    case Some(m) =>
      match FirstContaining(m, 0)
      case None => OtherQuality
      case Some(i) =>
        LabelIsNotOther(i);
        Label(i)
  }

  lemma LabelIsNotOther(i: nat)
    requires i < |QualityList|
    ensures Label(i) != OtherQuality
  {
    var z := ZFill2(i + 1);
    if i + 1 < 10 {
      assert Label(i)[0] == '0';
    } else {
      assert i + 1 == 10;
      assert NatToString(10) == NatToString(1) + [DigitChar(0)];
      assert Label(i)[1] == '0';
    }
  }

  /** The catch-all label is the entry after the list's ten: `11. Altro`. */
  lemma OtherIsEleven()
    ensures NatToString(|QualityList| + 1) + ". Altro" == OtherQuality
  {
    assert NatToString(11) == NatToString(1) + [DigitChar(1)];
  }

  // ---------------------------------------------------------------- payloads

  /** A form value as configured: text, a number, or null. */
  type Form = Dict<string, Json>

  /** The last value paired with `k`, the value a sequence of assignments leaves. */
  function LastIn(pairs: Form, k: string): (r: Option<Json>)
    ensures r.Some? <==> exists i :: 0 <= i < |pairs| && pairs[i].0 == k
  {
    if pairs == [] then None
    else if pairs[|pairs| - 1].0 == k then Some(pairs[|pairs| - 1].1)
    else LastIn(pairs[..|pairs| - 1], k)
  }

  /** The value of `k` from the last dictionary that has it. */
  function LastOf(dicts: seq<Form>, k: string): Option<Json> {
    if dicts == [] then None
    else match LastIn(dicts[|dicts| - 1], k)
      case Some(v) => Some(v)
      case None => LastOf(dicts[..|dicts| - 1], k)
  }

  /** `extra[key] if not extra[key] is None else ''` when `blankNulls`. */
  function Blank(v: Json, blankNulls: bool): Json {
    if blankNulls && v == JNull then JStr("") else v
  }

  /** `for key in extra: payload[key] = ...` over each dictionary in turn. */
  function ApplyPairs(payload: Form, pairs: Form, blankNulls: bool): Form {
    if pairs == [] then payload
    else
      var last := pairs[|pairs| - 1];
      Set(ApplyPairs(payload, pairs[..|pairs| - 1], blankNulls), last.0, Blank(last.1, blankNulls))
  }

  function ApplyAll(payload: Form, dicts: seq<Form>, blankNulls: bool): Form {
    if dicts == [] then payload
    else ApplyPairs(ApplyAll(payload, dicts[..|dicts| - 1], blankNulls), dicts[|dicts| - 1], blankNulls)
  }

  /** The nested loops writing a list of dictionaries into a payload. */
  method WriteAll(payload: Form, dicts: seq<Form>, blankNulls: bool) returns (r: Form)
    ensures r == ApplyAll(payload, dicts, blankNulls)
  {
    r := payload;
    for i := 0 to |dicts|
      invariant r == ApplyAll(payload, dicts[..i], blankNulls)
    {
      var d := dicts[i];
      ghost var before := r;
      for j := 0 to |d|
        invariant r == ApplyPairs(before, d[..j], blankNulls)
      {
        assert d[..j + 1][..j] == d[..j];
        r := Set(r, d[j].0, Blank(d[j].1, blankNulls));
      }
      assert d[..|d|] == d;
      assert dicts[..i + 1][..i] == dicts[..i];
    }
    assert dicts[..|dicts|] == dicts;
  }

  /** Later writes win: a key takes its value from the last dictionary that has it,
      and keeps its earlier value otherwise. */
  lemma {:induction false} ApplyPairsGet(payload: Form, pairs: Form, blankNulls: bool, k: string)
    ensures Get(ApplyPairs(payload, pairs, blankNulls), k) ==
      match LastIn(pairs, k)
      case Some(v) => Some(Blank(v, blankNulls))
      case None => Get(payload, k)
  {
    if pairs != [] {
      var last := pairs[|pairs| - 1];
      ApplyPairsGet(payload, pairs[..|pairs| - 1], blankNulls, k);
      if last.0 == k {
        SetGetSame(ApplyPairs(payload, pairs[..|pairs| - 1], blankNulls), k, Blank(last.1, blankNulls));
      } else {
        SetGetOther(ApplyPairs(payload, pairs[..|pairs| - 1], blankNulls), last.0, Blank(last.1, blankNulls), k);
      }
    }
  }

  lemma {:induction false} ApplyAllGet(payload: Form, dicts: seq<Form>, blankNulls: bool, k: string)
    ensures Get(ApplyAll(payload, dicts, blankNulls), k) ==
      match LastOf(dicts, k)
      case Some(v) => Some(Blank(v, blankNulls))
      case None => Get(payload, k)
  {
    if dicts != [] {
      ApplyAllGet(payload, dicts[..|dicts| - 1], blankNulls, k);
      ApplyPairsGet(ApplyAll(payload, dicts[..|dicts| - 1], blankNulls), dicts[|dicts| - 1], blankNulls, k);
    }
  }

  /** The keys of a scraper's search form and its extra fields. */
  datatype SearchConfig = SearchConfig(queryKey: string, pageKey: string, resultKey: string, extra: seq<Form>)

  /** The search form: query, page and result keys, then the configured extras (null
      written as ''), then the site's overrides, each write replacing earlier ones. */
  method SearchPayload(config: SearchConfig, overrides: seq<Form>, query: string, page: int, result: int)
    returns (payload: Form)
    ensures payload == ApplyAll(ApplyAll(SearchBase(config, query, page, result), config.extra, true), overrides, false)
  {
    payload := SearchBase(config, query, page, result);
    payload := WriteAll(payload, config.extra, true);
    payload := WriteAll(payload, overrides, false);
  }

  function SearchBase(config: SearchConfig, query: string, page: int, result: int): Form {
    Set(Set(Set([], config.queryKey, JStr(query)), config.pageKey, JInt(page)), config.resultKey, JInt(result))
  }

  /** What each key of the search form holds. */
  lemma SearchPayloadGet(config: SearchConfig, overrides: seq<Form>, query: string, page: int, result: int, k: string)
    ensures Get(ApplyAll(ApplyAll(SearchBase(config, query, page, result), config.extra, true), overrides, false), k) ==
      if LastOf(overrides, k).Some? then LastOf(overrides, k)
      else if LastOf(config.extra, k).Some? then Some(Blank(LastOf(config.extra, k).value, true))
      else if k == config.resultKey then Some(JInt(result))
      else if k == config.pageKey then Some(JInt(page))
      else if k == config.queryKey then Some(JStr(query))
      else None
  {
    var base := SearchBase(config, query, page, result);
    ApplyAllGet(ApplyAll(base, config.extra, true), overrides, false, k);
    ApplyAllGet(base, config.extra, true, k);
    var b1 := Set([], config.queryKey, JStr(query));
    var b2 := Set(b1, config.pageKey, JInt(page));
    if k == config.resultKey {
      SetGetSame(b2, k, JInt(result));
    } else {
      SetGetOther(b2, config.resultKey, JInt(result), k);
      if k == config.pageKey {
        SetGetSame(b1, k, JInt(page));
      } else {
        SetGetOther(b1, config.pageKey, JInt(page), k);
        if k == config.queryKey {
          SetGetSame([], k, JStr(query));
        }
      }
    }
  }

  /** The keys of a scraper's login form and its extra fields. */
  datatype LoginConfig = LoginConfig(usernameKey: string, passwordKey: string, extra: seq<Form>)

  /** `os.getenv(site_var, default = os.getenv(default_var, default = ''))`. */
  function EnvOr(env: map<string, string>, siteVar: string, defaultVar: string): (r: string)
    ensures siteVar in env ==> r == env[siteVar]
    ensures siteVar !in env && defaultVar in env ==> r == env[defaultVar]
    ensures siteVar !in env && defaultVar !in env ==> r == ""
  {
    if siteVar in env then env[siteVar] else if defaultVar in env then env[defaultVar] else ""
  }

  function UserVar(site: string): string { "SCRAPER__SITE_" + Upper(site) + "_USER" }

  function PassVar(site: string): string { "SCRAPER__SITE_" + Upper(site) + "_PASS" }

  function LoginBase(config: LoginConfig, env: map<string, string>, site: string): Form {
    Set(Set([], config.usernameKey, JStr(EnvOr(env, UserVar(site), "SCRAPER__SITE_DEFAULT_USER"))),
        config.passwordKey, JStr(EnvOr(env, PassVar(site), "SCRAPER__SITE_DEFAULT_PASS")))
  }

  /** The login form: the credentials from the site's variables, else the default
      ones, else '', then the configured extras as they are. */
  method LoginPayload(config: LoginConfig, env: map<string, string>, site: string) returns (payload: Form)
    ensures payload == ApplyAll(LoginBase(config, env, site), config.extra, false)
  {
    payload := LoginBase(config, env, site);
    payload := WriteAll(payload, config.extra, false);
  }

  lemma LoginPayloadGet(config: LoginConfig, env: map<string, string>, site: string, k: string)
    requires config.usernameKey != config.passwordKey
    ensures LastOf(config.extra, k).None? && k == config.usernameKey ==>
      Get(ApplyAll(LoginBase(config, env, site), config.extra, false), k) ==
      Some(JStr(EnvOr(env, UserVar(site), "SCRAPER__SITE_DEFAULT_USER")))
    ensures LastOf(config.extra, k).None? && k == config.passwordKey ==>
      Get(ApplyAll(LoginBase(config, env, site), config.extra, false), k) ==
      Some(JStr(EnvOr(env, PassVar(site), "SCRAPER__SITE_DEFAULT_PASS")))
    ensures LastOf(config.extra, k).Some? ==>
      Get(ApplyAll(LoginBase(config, env, site), config.extra, false), k) == LastOf(config.extra, k)
  {
    var b1 := Set([], config.usernameKey, JStr(EnvOr(env, UserVar(site), "SCRAPER__SITE_DEFAULT_USER")));
    var pass := JStr(EnvOr(env, PassVar(site), "SCRAPER__SITE_DEFAULT_PASS"));
    ApplyAllGet(LoginBase(config, env, site), config.extra, false, k);
    if k == config.passwordKey {
      SetGetSame(b1, k, pass);
    } else {
      SetGetOther(b1, config.passwordKey, pass, k);
      if k == config.usernameKey {
        SetGetSame([], k, JStr(EnvOr(env, UserVar(site), "SCRAPER__SITE_DEFAULT_USER")));
      }
    }
  }

  /** `{protocol}://{domain}{path or ''}`. */
  function SiteUrl(useSsl: bool, domain: string, path: Option<string>): (r: string)
    ensures StartsWith(r, if useSsl then "https://" else "http://")
    ensures r == (if useSsl then "https://" else "http://") + domain + path.GetOr("")
  {
    (if useSsl then "https" else "http") + "://" + domain + path.GetOr("")
  }

  // ---------------------------------------------------------------- login outcome

  /** One configured login check: its key and whether the cookie it names is in the
      client's jar (for the site's domain or its registered domain). */
  datatype LoginCheck = LoginCheck(key: string, cookiePresent: bool)

  /** The `enabled` flag after checking the login response. */
  function AfterChecks(prior: Option<bool>, checks: seq<LoginCheck>): Option<bool>
    decreases |checks|
  {
    if checks == [] then prior
    else if Lower(checks[0].key) == "cookie" then
      if checks[0].cookiePresent then AfterChecks(Some(true), checks[1..]) else Some(false)
    else AfterChecks(prior, checks[1..])
  }

  /** The `enabled` flag after a login: `status` is None when the call raised. */
  function LoginEnabled(prior: Option<bool>, status: Option<int>, checks: seq<LoginCheck>): Option<bool> {
    if status.None? || status.value != 200 then Some(false) else AfterChecks(prior, checks)
  }

  predicate IsCookieCheck(c: LoginCheck) { Lower(c.key) == "cookie" }

  /** A login disables the site iff the call fails, the status is not 200 or a cookie
      is missing; it enables it iff it passes and there is a cookie check; otherwise
      the flag is left as it was. */
  lemma {:induction false} AfterChecksSpec(prior: Option<bool>, checks: seq<LoginCheck>)
    ensures (exists i :: 0 <= i < |checks| && IsCookieCheck(checks[i]) && !checks[i].cookiePresent) ==>
      AfterChecks(prior, checks) == Some(false)
    ensures (forall i :: 0 <= i < |checks| && IsCookieCheck(checks[i]) ==> checks[i].cookiePresent) ==>
      AfterChecks(prior, checks) ==
        if exists i :: 0 <= i < |checks| && IsCookieCheck(checks[i]) then Some(true) else prior
    decreases |checks|
  {
    if checks != [] {
      AfterChecksSpec(if IsCookieCheck(checks[0]) then Some(true) else prior, checks[1..]);
      assert forall i :: 1 <= i < |checks| ==> checks[i] == checks[1..][i - 1];
      if !IsCookieCheck(checks[0]) || checks[0].cookiePresent {
        assert (exists i :: 0 <= i < |checks| && IsCookieCheck(checks[i]) && !checks[i].cookiePresent) ==>
               (exists i :: 0 <= i < |checks[1..]| && IsCookieCheck(checks[1..][i]) && !checks[1..][i].cookiePresent);
      }
    }
  }

  /** The site record; only `enabled` changes. */
  class Website {
    const name: string
    var enabled: Option<bool>

    constructor(name: string, enabled: Option<bool>)
      ensures this.name == name && this.enabled == enabled
    {
      this.name := name;
      this.enabled := enabled;
    }

    /** `do_login`, after the request: the status (None when the call raised) and
        the configured checks. */
    method RecordLogin(status: Option<int>, checks: seq<LoginCheck>)
      modifies this
      ensures enabled == LoginEnabled(old(enabled), status, checks)
    {
      if status.None? {
        enabled := Some(false);
        return;
      }
      if status.value != 200 {
        enabled := Some(false);
        return;
      }
      var i := 0;
      while i < |checks|
        invariant 0 <= i <= |checks|
        invariant AfterChecks(old(enabled), checks) == AfterChecks(enabled, checks[i..])
      {
        assert checks[i..][1..] == checks[i + 1..];
        if Lower(checks[i].key) == "cookie" {
          if !checks[i].cookiePresent {
            enabled := Some(false);
            return;
          }
          enabled := Some(true);
        }
        i := i + 1;
      }
    }
  }

  // ---------------------------------------------------------------- results

  /** A parsed result element: the text of its first title tag and the `href` of its
      first link tag, None where the selector found nothing; the parsed date. */
  datatype RawElement = RawElement(title: Option<string>, date: Option<string>, href: Option<string>)

  datatype Item = Item(title: string, quality: string, date: Option<string>, link: string)

  /** A page fetch: a connection error or timeout, or a response with its status, the
      navigator's last page number (if any) and its elements. */
  datatype PageResponse = Unreachable | Response(status: int, lastPage: Option<int>, elements: seq<RawElement>)

  function ItemOf(e: RawElement): Item
    requires e.title.Some? && e.href.Some?
  {
    var t := Strip(e.title.value);
    Item(t, Quality(t), e.date, Strip(e.href.value))
  }

  /** The item of an element that has both a title and a link. */
  function ItemOfElement(e: RawElement): Option<Item> {
    if e.title.Some? && e.href.Some? then Some(ItemOf(e)) else None
  }

  /** The answers `f` gives, in order, skipping the elements it gives None for. */
  function Collect<T, U>(s: seq<T>, f: T -> Option<U>): seq<U> {
    if s == [] then []
    else
      var last := f(s[|s| - 1]);
      Collect(s[..|s| - 1], f) + if last.Some? then [last.value] else []
  }

  /** When `f` answers every element, each gives its answer, in order. */
  lemma {:induction false} CollectAll<T, U>(s: seq<T>, f: T -> Option<U>)
    requires forall i :: 0 <= i < |s| ==> f(s[i]).Some?
    ensures |Collect(s, f)| == |s|
    ensures forall i :: 0 <= i < |s| ==> Collect(s, f)[i] == f(s[i]).value
  {
    if s != [] {
      var init := s[..|s| - 1];
      CollectAll(init, f);
      forall i | 0 <= i < |s|
        ensures Collect(s, f)[i] == f(s[i]).value
      {
        if i < |init| {
          assert s[i] == init[i];
        }
      }
    }
  }

  /** Every answer collected is the answer of some element. */
  lemma {:induction false} CollectFrom<T, U>(s: seq<T>, f: T -> Option<U>)
    ensures |Collect(s, f)| <= |s|
    ensures forall u :: u in Collect(s, f) ==> exists x :: x in s && f(x) == Some(u)
  {
    if s != [] {
      var init := s[..|s| - 1];
      CollectFrom(init, f);
      assert forall x :: x in init ==> x in s;
    }
  }

  /** The items of the elements: those with both a title and a link. */
  function ItemsOf(elements: seq<RawElement>): seq<Item> {
    Collect(elements, ItemOfElement)
  }

  /** The loop over the page's elements. */
  method ParseElements(elements: seq<RawElement>) returns (items: seq<Item>)
    ensures items == ItemsOf(elements)
  {
    items := [];
    for i := 0 to |elements|
      invariant items == ItemsOf(elements[..i])
    {
      assert elements[..i + 1][..i] == elements[..i];
      var e := elements[i];
      if e.title.Some? && e.href.Some? {
        items := items + [ItemOf(e)];
      }
    }
    assert elements[..|elements|] == elements;
  }

  /** Elements lacking a title or a link are skipped; when none lacks them, every
      element gives one item, in element order. */
  lemma ItemsOfComplete(elements: seq<RawElement>)
    requires forall i :: 0 <= i < |elements| ==> elements[i].title.Some? && elements[i].href.Some?
    ensures |ItemsOf(elements)| == |elements|
    ensures forall i :: 0 <= i < |elements| ==> ItemsOf(elements)[i] == ItemOf(elements[i])
  {
    CollectAll(elements, ItemOfElement);
  }

  /** Every item is the stripped title, its quality, the date and the stripped link
      of an element that has both a title and a link. */
  lemma ItemsOfSound(elements: seq<RawElement>)
    ensures |ItemsOf(elements)| <= |elements|
    ensures forall it :: it in ItemsOf(elements) ==>
      exists e :: e in elements && e.title.Some? && e.href.Some? && it == ItemOf(e)
  {
    CollectFrom(elements, ItemOfElement);
    forall it | it in ItemsOf(elements)
      ensures exists e :: e in elements && e.title.Some? && e.href.Some? && it == ItemOf(e)
    {
      var e :| e in elements && ItemOfElement(e) == Some(it);
    }
  }

  /** The items of one page, or none when it could not be fetched or answered non-200. */
  function PageItems(r: PageResponse): seq<Item> {
    if r.Unreachable? || r.status != 200 then [] else ItemsOf(r.elements)
  }

  /** The items of pages `first` .. `last`, in page order. */
  function Pages<T>(items: int -> seq<T>, first: int, last: int): seq<T>
    decreases last - first + 1
  {
    if first > last then [] else items(first) + Pages(items, first + 1, last)
  }

  /** A later page's items: it is requested with result 1. */
  function LaterPage(fetch: (int, int) -> PageResponse): int -> seq<Item> {
    p => PageItems(fetch(p, 1))
  }

  /** `do_search` over the responses `fetch(page, result)`: page 1 is followed by
      pages 2 .. last page when the navigator gives one. */
  function Search(fetch: (int, int) -> PageResponse, page: int, result: int): (r: seq<Item>)
    ensures fetch(page, result).Unreachable? || fetch(page, result).status != 200 ==> r == []
    ensures page != 1 ==> r == PageItems(fetch(page, result))
    ensures |PageItems(fetch(page, result))| <= |r| && r[..|PageItems(fetch(page, result))|] == PageItems(fetch(page, result))
  {
    var response := fetch(page, result);
    if response.Unreachable? || response.status != 200 then []
    else if page == 1 && response.lastPage.Some? then
      ItemsOf(response.elements) + Pages(LaterPage(fetch), 2, response.lastPage.value)
    else ItemsOf(response.elements)
  }

  /** Each later page's items follow those of the pages before it. */
  lemma {:induction false} PagesAppend<T>(items: int -> seq<T>, first: int, last: int)
    requires first <= last + 1
    ensures Pages(items, first, last + 1) == Pages(items, first, last) + items(last + 1)
    decreases last + 1 - first
  {
    if first <= last {
      PagesAppend(items, first + 1, last);
    }
  }

  /** Every later page is one more search of its own that neither falls back nor fans
      out: its items are exactly those of `Search` on that page with result 1. */
  lemma LaterPageIsSearch(fetch: (int, int) -> PageResponse, p: int)
    requires p != 1
    ensures LaterPage(fetch)(p) == Search(fetch, p, 1)
  {
  }

  /** Two page functions that agree on every page of a range list the same items. */
  lemma {:induction false} PagesAgree<T>(f: int -> seq<T>, g: int -> seq<T>, first: int, last: int)
    requires forall p :: first <= p <= last ==> f(p) == g(p)
    ensures Pages(f, first, last) == Pages(g, first, last)
    decreases last - first + 1
  {
    if first <= last {
      PagesAgree(f, g, first + 1, last);
    }
  }

  /** Page 1 fans out: its own items, then the items of the searches of pages 2 ..
      last page, each with result 1, in page order; without a navigator it gives its
      own items alone. */
  lemma PageOneFansOut(fetch: (int, int) -> PageResponse, result: int)
    requires fetch(1, result).Response? && fetch(1, result).status == 200
    ensures var response := fetch(1, result);
      Search(fetch, 1, result) ==
        if response.lastPage.Some?
        then PageItems(response) + Pages(p => Search(fetch, p, 1), 2, response.lastPage.value)
        else PageItems(response)
  {
    var response := fetch(1, result);
    if response.lastPage.Some? {
      forall p | 2 <= p <= response.lastPage.value
        ensures LaterPage(fetch)(p) == Search(fetch, p, 1)
      {
        LaterPageIsSearch(fetch, p);
      }
      PagesAgree(LaterPage(fetch), p => Search(fetch, p, 1), 2, response.lastPage.value);
    }
  }

  /** A string lacking one of `sub`'s characters does not contain `sub`. */
  lemma MissingCharNotContained(s: string, sub: string, m: nat)
    requires m < |sub| && sub[m] !in s
    ensures !Contains(s, sub)
  {
    forall j | 0 <= j <= |s|
      ensures !OccursAt(s, sub, j)
    {
      if j + |sub| <= |s| {
        assert s[j..j + |sub|][m] == s[j + m];
      }
    }
  }

  /** Containment, not equality, decides the entry: a lower-case `4k` is in no
      entry, so it gets the catch-all label. */
  lemma LowerFourKInNoEntry(m: string)
    requires m == "4k"
    ensures FirstContaining(m, 0).None?
  {
    forall j | 0 <= j < |QualityList|
      ensures !Contains(QualityList[j], m)
    {
      NoLowerK(j);
      MissingCharNotContained(QualityList[j], m, 1);
    }
    InNoEntry(m);
  }

  lemma NoLowerK(j: nat)
    requires j < |QualityList|
    ensures 'k' !in QualityList[j]
  {
    if j == 0 { assert QualityList[0] == "4320p/8K"; }
    else if j == 1 { assert QualityList[1] == "2160p/4K"; }
    else if j == 2 { assert QualityList[2] == "1440p/WQHD/QHD"; }
    else if j == 3 { assert QualityList[3] == "1080p/FullHD/Full HD"; }
    else if j == 4 { assert QualityList[4] == "720p/HDReady/HD Ready"; }
    else if j == 5 { assert QualityList[5] == "576p"; }
    else if j == 6 { assert QualityList[6] == "480p"; }
    else if j == 7 { assert QualityList[7] == "360p"; }
    else if j == 8 { assert QualityList[8] == "240p"; }
    else { assert QualityList[9] == "144p"; }
  }

  lemma InNoEntry(m: string)
    requires forall j :: 0 <= j < |QualityList| ==> !Contains(QualityList[j], m)
    ensures FirstContaining(m, 0).None?
  {
  }

  /** `144` is first found inside the 1440p entry, which labels it `03. 1440p`. */
  lemma OneFortyFourIsQhd()
    ensures FirstContaining("144", 0) == Some(2)
    ensures Label(2) == "03. 1440p"
  {
    MissingCharNotContained(QualityList[0], "144", 0);
    var q1 := QualityList[1];
    forall j | 0 <= j <= |q1|
      ensures !OccursAt(q1, "144", j)
    {
      if j + 3 <= |q1| {
        assert q1[j..j + 3][0] == q1[j] && q1[j..j + 3][1] == q1[j + 1];
      }
    }
    var q := QualityList[2];
    assert OccursAt(q, "144", 0);
    ContainsAt(q, "144", 0);
    LabelOfQhd();
  }

  lemma LabelOfQhd()
    ensures Label(2) == "03. 1440p"
  {
    var q := QualityList[2];
    assert OccursAt(q, "/", 5);
    forall j | 0 <= j < 5
      ensures !OccursAt(q, "/", j)
    {
      assert q[j] != '/';
    }
    assert Find(q, "/") == Some(5);
    assert SplitFirst(q, "/") == "1440p";
    assert NatToString(3) == "3";
  }
}
