/** The `/show/missing` handler of routers/plex.py: the Plex inventory is compared
    with the show records fetched for its TVDB shows, index by index, and each season
    is reported either whole or as its missing episodes. In both the fetched and the
    Plex lists, index 0 of the seasons and of the episodes is a placeholder. */
module PlexMissing {
  import opened Wrappers
  import opened Text
  import opened Sorting

  /** A fetched episode entry; None is a falsy entry. */
  datatype EpisodeInfo = EpisodeInfo(translated: bool, title: Option<string>, firstAirDate: Option<string>)

  datatype ShowSeason = ShowSeason(episodes: seq<Option<EpisodeInfo>>)

  /** A show record as fetched for a Plex GUID. */
  datatype ShowUpdate = ShowUpdate(guid: string, title: Option<string>, year: Option<int>, seasons: seq<ShowSeason>)

  /** A Plex season: whether each episode slot holds a (truthy) episode. */
  datatype PlexSeason = PlexSeason(episodes: seq<bool>)

  /** A Plex show; a None season is a falsy slot. */
  datatype PlexShow = PlexShow(guid: string, seasons: seq<Option<PlexSeason>>)

  /** A reported element: one missing episode, or a whole missing season. */
  datatype Element =
    | MissingEpisode(showTitle: Option<string>, showYear: Option<int>, season: nat, number: nat,
                     title: Option<string>, firstAirDate: Option<string>)
    | MissingSeason(showTitle: Option<string>, showYear: Option<int>, season: nat, length: int,
                    lastAirDate: Option<string>)

  /** The GUIDs looked up: those of the Plex shows whose GUID starts with `tvdb`, in
      inventory order. */
  function TvdbGuids(inventory: seq<PlexShow>): (r: seq<string>)
    ensures forall g :: g in r ==> StartsWith(g, "tvdb")
    ensures forall i :: 0 <= i < |inventory| && StartsWith(inventory[i].guid, "tvdb") ==> inventory[i].guid in r
    ensures forall g :: g in r ==> exists i :: 0 <= i < |inventory| && inventory[i].guid == g
  {
    if inventory == [] then []
    else
      var rest := TvdbGuids(inventory[1..]);
      assert forall i :: 1 <= i < |inventory| ==> inventory[i] == inventory[1..][i - 1];
      if StartsWith(inventory[0].guid, "tvdb") then [inventory[0].guid] + rest else rest
  }

  /** `[show for show in inventory if show.guid == guid][0]`, or None when empty. */
  function PlexMatch(inventory: seq<PlexShow>, guid: string): (r: Option<PlexShow>)
    ensures r.None? <==> forall i :: 0 <= i < |inventory| ==> inventory[i].guid != guid
    ensures r.Some? ==> exists i :: 0 <= i < |inventory| && inventory[i] == r.value && r.value.guid == guid &&
                                    forall j :: 0 <= j < i ==> inventory[j].guid != guid
  {
    if inventory == [] then None
    else if inventory[0].guid == guid then Some(inventory[0])
    else
      var r := PlexMatch(inventory[1..], guid);
      assert forall i :: 1 <= i < |inventory| ==> inventory[i] == inventory[1..][i - 1];
      r
  }

  /** Plex holds episode `e` of season `s`: the season slot is truthy and the
      episode slot exists and is truthy. */
  predicate InPlex(plex: PlexShow, s: nat, e: nat) {
    s < |plex.seasons| && plex.seasons[s].Some? &&
    e < |plex.seasons[s].value.episodes| && plex.seasons[s].value.episodes[e]
  }

  /** An entry worth reporting: not a placeholder index, truthy, translated. */
  predicate Wanted(ep: Option<EpisodeInfo>, s: nat, e: nat) {
    s != 0 && e != 0 && ep.Some? && ep.value.translated
  }

  function EpisodeElement(tv: ShowUpdate, s: nat, e: nat, info: EpisodeInfo): Element {
    MissingEpisode(tv.title, tv.year, s, e, info.title, info.firstAirDate)
  }

  /** The missing episodes among the first `n` entries of season `s`. */
  function MissingIn(tv: ShowUpdate, plex: PlexShow, s: nat, n: nat): seq<Element>
    requires s < |tv.seasons| && n <= |tv.seasons[s].episodes|
  {
    if n == 0 then []
    else
      var ep := tv.seasons[s].episodes[n - 1];
      MissingIn(tv, plex, s, n - 1) +
        (if Wanted(ep, s, n - 1) && !InPlex(plex, s, n - 1) then [EpisodeElement(tv, s, n - 1, ep.value)] else [])
  }

  /** The whole-season test, on the number of missing episodes and of entries. */
  predicate WholeSeason(plex: PlexShow, s: nat, missing: nat, entries: nat) {
    (s > |plex.seasons| - 1 && missing > 1) || missing == entries - 1
  }

  /** The last entry's air date when that entry is truthy. */
  function LastAirDate(eps: seq<Option<EpisodeInfo>>): Option<string> {
    if eps != [] && eps[|eps| - 1].Some? then eps[|eps| - 1].value.firstAirDate else None
  }

  /** What season `s` contributes. */
  function SeasonElements(tv: ShowUpdate, plex: PlexShow, s: nat): seq<Element>
    requires s < |tv.seasons|
  {
    if s == 0 then []
    else
      var eps := tv.seasons[s].episodes;
      var missing := MissingIn(tv, plex, s, |eps|);
      if WholeSeason(plex, s, |missing|, |eps|) then
        [MissingSeason(tv.title, tv.year, s, |eps| - 1, LastAirDate(eps))]
      else missing
  }

  /** What the first `n` seasons of a matched show contribute. */
  function ShowElements(tv: ShowUpdate, plex: PlexShow, n: nat): seq<Element>
    requires n <= |tv.seasons|
  {
    if n == 0 then [] else ShowElements(tv, plex, n - 1) + SeasonElements(tv, plex, n - 1)
  }

  /** What the first `n` fetched shows contribute; a show no Plex show matches is skipped. */
  function AllElements(inventory: seq<PlexShow>, updates: seq<ShowUpdate>, n: nat): seq<Element>
    requires n <= |updates|
  {
    if n == 0 then []
    else
      AllElements(inventory, updates, n - 1) + ShowReport(inventory, updates[n - 1])
  }

  /** What one fetched show contributes: nothing without a Plex show of equal GUID. */
  function ShowReport(inventory: seq<PlexShow>, tv: ShowUpdate): seq<Element> {
    match PlexMatch(inventory, tv.guid)
    case None => []
    case Some(plex) => ShowElements(tv, plex, |tv.seasons|)
  }

  /** The handler's report. `fetch(guid)` is the show record fetched for a GUID; the
      records come back in request order. */
  function Missing(inventory: seq<PlexShow>, fetch: string -> ShowUpdate): (r: seq<Element>)
    ensures forall x :: x in r ==> exists g :: (g in TvdbGuids(inventory)
      && PlexMatch(inventory, fetch(g).guid).Some? && x in ShowReport(inventory, fetch(g)))
  {
    FetchedSource(inventory, fetch);
    AllElements(inventory, Map(TvdbGuids(inventory), fetch), |TvdbGuids(inventory)|)
  }

  /** Every element of the report over the fetched records comes from the record of
      a `tvdb` GUID of the inventory that a Plex show matches. */
  lemma FetchedSource(inventory: seq<PlexShow>, fetch: string -> ShowUpdate)
    ensures forall x :: x in AllElements(inventory, Map(TvdbGuids(inventory), fetch), |TvdbGuids(inventory)|) ==>
      exists g :: (g in TvdbGuids(inventory)
        && PlexMatch(inventory, fetch(g).guid).Some? && x in ShowReport(inventory, fetch(g)))
  {
    var guids := TvdbGuids(inventory);
    var updates := Map(guids, fetch);
    AllElementsSource(inventory, updates, |updates|);
    forall x | x in AllElements(inventory, updates, |updates|)
      ensures exists g :: g in guids && PlexMatch(inventory, fetch(g).guid).Some? && x in ShowReport(inventory, fetch(g))
    {
      var i :| 0 <= i < |updates| && x in ShowReport(inventory, updates[i]);
      assert updates[i] == fetch(guids[i]) && guids[i] in guids;
    }
  }

  /** The handler's outer loop, over the fetched shows. */
  method MissingElements(inventory: seq<PlexShow>, updates: seq<ShowUpdate>) returns (elements: seq<Element>)
    ensures elements == AllElements(inventory, updates, |updates|)
  {
    elements := [];
    for i := 0 to |updates|
      invariant elements == AllElements(inventory, updates, i)
    {
      var tv := updates[i];
      var found := PlexMatch(inventory, tv.guid);
      if found.None? {
        assert AllElements(inventory, updates, i + 1) == elements + [];
        continue;
      }
      var shown := ShowMissing(tv, found.value);
      assert AllElements(inventory, updates, i + 1) == elements + shown;
      elements := elements + shown;
    }
  }

  /** The loop over the seasons of one matched show. */
  method ShowMissing(tv: ShowUpdate, plex: PlexShow) returns (elements: seq<Element>)
    ensures elements == ShowElements(tv, plex, |tv.seasons|)
  {
    elements := [];
    for s := 0 to |tv.seasons|
      invariant elements == ShowElements(tv, plex, s)
    {
      if s == 0 {
        assert ShowElements(tv, plex, 1) == elements + [];
        continue;
      }
      var eps := tv.seasons[s].episodes;
      var missing := SeasonMissing(tv, plex, s);
      assert ShowElements(tv, plex, s + 1) == elements + SeasonElements(tv, plex, s);
      if (s > |plex.seasons| - 1 && |missing| > 1) || |missing| == |eps| - 1 {
        elements := elements + [MissingSeason(tv.title, tv.year, s, |eps| - 1, LastAirDate(eps))];
      } else {
        elements := elements + missing;
      }
    }
  }

  /** The loop over the entries of one season. */
  method SeasonMissing(tv: ShowUpdate, plex: PlexShow, s: nat) returns (missing: seq<Element>)
    requires s < |tv.seasons|
    ensures missing == MissingIn(tv, plex, s, |tv.seasons[s].episodes|)
  {
    var eps := tv.seasons[s].episodes;
    missing := [];
    for e := 0 to |eps|
      invariant missing == MissingIn(tv, plex, s, e)
    {
      var ep := eps[e];
      if s == 0 || e == 0 || ep.None? || !ep.value.translated {
        continue;
      }
      if s <= |plex.seasons| - 1 && plex.seasons[s].Some? && plex.seasons[s].value.episodes != []
         && e <= |plex.seasons[s].value.episodes| - 1 && plex.seasons[s].value.episodes[e] {
        continue;
      }
      missing := missing + [EpisodeElement(tv, s, e, ep.value)];
    }
  }

  /** An episode is reported iff it is wanted and Plex lacks it; the reports come in
      ascending episode order. */
  lemma {:induction false} MissingInSpec(tv: ShowUpdate, plex: PlexShow, s: nat, n: nat)
    requires s < |tv.seasons| && n <= |tv.seasons[s].episodes|
    ensures forall x :: x in MissingIn(tv, plex, s, n) ==>
      x.MissingEpisode? && x.season == s && x.number < n &&
      Wanted(tv.seasons[s].episodes[x.number], s, x.number) && !InPlex(plex, s, x.number) &&
      x == EpisodeElement(tv, s, x.number, tv.seasons[s].episodes[x.number].value)
    ensures forall e :: 0 <= e < n && Wanted(tv.seasons[s].episodes[e], s, e) && !InPlex(plex, s, e) ==>
      EpisodeElement(tv, s, e, tv.seasons[s].episodes[e].value) in MissingIn(tv, plex, s, n)
    ensures forall i, j :: 0 <= i < j < |MissingIn(tv, plex, s, n)| ==>
      MissingIn(tv, plex, s, n)[i].number < MissingIn(tv, plex, s, n)[j].number
  {
    if n > 0 {
      MissingInSpec(tv, plex, s, n - 1);
    }
  }

  /** Season 0 and the placeholder entries are never reported; a season is reported
      whole exactly when the whole-season test holds, and then alone. */
  lemma SeasonSpec(tv: ShowUpdate, plex: PlexShow, s: nat)
    requires s < |tv.seasons|
    ensures s == 0 ==> SeasonElements(tv, plex, s) == []
    ensures (exists x :: x in SeasonElements(tv, plex, s) && x.MissingSeason?) <==>
      s != 0 && WholeSeason(plex, s, |MissingIn(tv, plex, s, |tv.seasons[s].episodes|)|, |tv.seasons[s].episodes|)
    ensures forall x :: x in SeasonElements(tv, plex, s) && x.MissingSeason? ==>
      SeasonElements(tv, plex, s) == [x] &&
      x == MissingSeason(tv.title, tv.year, s, |tv.seasons[s].episodes| - 1, LastAirDate(tv.seasons[s].episodes))
    ensures forall x :: x in SeasonElements(tv, plex, s) && x.MissingEpisode? ==>
      x.season == s && x.number != 0 && !InPlex(plex, s, x.number)
  {
    var eps := tv.seasons[s].episodes;
    var m := MissingIn(tv, plex, s, |eps|);
    MissingInSpec(tv, plex, s, |eps|);
    if s != 0 && WholeSeason(plex, s, |m|, |eps|) {
      assert SeasonElements(tv, plex, s)[0] in SeasonElements(tv, plex, s);
    }
  }

  /** A season holding only its placeholder entry is reported whole, with length 0;
      a season with no entry at all is not reported. */
  lemma PlaceholderOnlySeason(tv: ShowUpdate, plex: PlexShow, s: nat)
    requires 0 < s < |tv.seasons|
    ensures |tv.seasons[s].episodes| == 1 ==>
      SeasonElements(tv, plex, s) == [MissingSeason(tv.title, tv.year, s, 0, LastAirDate(tv.seasons[s].episodes))]
    ensures tv.seasons[s].episodes == [] ==> SeasonElements(tv, plex, s) == []
  {
    var eps := tv.seasons[s].episodes;
    if |eps| == 1 {
      assert MissingIn(tv, plex, s, 1) == [];
    }
  }

  predicate Precedes(a: Element, b: Element) {
    a.season < b.season || (a.season == b.season && a.MissingEpisode? && b.MissingEpisode? && a.number < b.number)
  }

  /** A matched show's report is in ascending season order, and within a season in
      ascending episode order. */
  lemma {:induction false} ShowElementsOrdered(tv: ShowUpdate, plex: PlexShow, n: nat)
    requires n <= |tv.seasons|
    ensures SeasonsBelow(ShowElements(tv, plex, n), n)
    ensures Ordered(ShowElements(tv, plex, n))
  {
    if n > 0 {
      ShowElementsOrdered(tv, plex, n - 1);
      ShowStep(tv, plex, n);
    }
  }

  /** Adding season `n - 1` to the report of the seasons below it keeps it in order. */
  lemma ShowStep(tv: ShowUpdate, plex: PlexShow, n: nat)
    requires 0 < n <= |tv.seasons|
    requires SeasonsBelow(ShowElements(tv, plex, n - 1), n - 1) && Ordered(ShowElements(tv, plex, n - 1))
    ensures SeasonsBelow(ShowElements(tv, plex, n), n) && Ordered(ShowElements(tv, plex, n))
  {
    var a, b := ShowElements(tv, plex, n - 1), SeasonElements(tv, plex, n - 1);
    SeasonOrdered(tv, plex, n - 1);
    assert InSeason(b, n - 1) && Ordered(b);
    OrderedConcat(a, b, n - 1);
    assert ShowElements(tv, plex, n) == a + b;
  }

  /** Every element is about season `s`. */
  predicate InSeason(xs: seq<Element>, s: nat) {
    forall x :: x in xs ==> x.season == s
  }

  /** Every element is about a season below `n`. */
  predicate SeasonsBelow(xs: seq<Element>, n: nat) {
    forall x :: x in xs ==> x.season < n
  }

  /** Each element precedes the next. */
  predicate Ordered(xs: seq<Element>) {
    |xs| <= 1 || (Precedes(xs[0], xs[1]) && Ordered(xs[1..]))
  }

  /** Every pair of elements, in report order, precedes each other. */
  predicate PairwiseOrdered(xs: seq<Element>) {
    forall i, j :: 0 <= i < j < |xs| ==> Precedes(xs[i], xs[j])
  }

  /** `Precedes` is transitive, so each element preceding the next orders every pair. */
  lemma {:induction false} OrderedPairwise(xs: seq<Element>)
    ensures Ordered(xs) <==> PairwiseOrdered(xs)
  {
    if |xs| > 1 {
      OrderedPairwise(xs[1..]);
      if Ordered(xs) {
        forall i, j | 0 <= i < j < |xs|
          ensures Precedes(xs[i], xs[j])
        {
          if i > 0 {
            assert xs[i] == xs[1..][i - 1] && xs[j] == xs[1..][j - 1];
          } else if j > 1 {
            assert xs[j] == xs[1..][j - 1] && xs[1] == xs[1..][0];
          }
        }
      }
      if PairwiseOrdered(xs) {
        forall i, j | 0 <= i < j < |xs[1..]|
          ensures Precedes(xs[1..][i], xs[1..][j])
        {
          assert xs[1..][i] == xs[i + 1] && xs[1..][j] == xs[j + 1];
        }
      }
    }
  }

  /** A season's report is about that season alone, in ascending episode order. */
  lemma SeasonOrdered(tv: ShowUpdate, plex: PlexShow, s: nat)
    requires s < |tv.seasons|
    ensures InSeason(SeasonElements(tv, plex, s), s)
    ensures Ordered(SeasonElements(tv, plex, s))
  {
    SeasonSpec(tv, plex, s);
    MissingInSpec(tv, plex, s, |tv.seasons[s].episodes|);
    var b := SeasonElements(tv, plex, s);
    var m := MissingIn(tv, plex, s, |tv.seasons[s].episodes|);
    assert |b| >= 2 ==> b == m;
    assert PairwiseOrdered(b);
    OrderedPairwise(b);
  }

  /** Earlier seasons' reports, then a later season's, keep the order. */
  lemma {:induction false} OrderedConcat(a: seq<Element>, b: seq<Element>, s: nat)
    requires Ordered(a) && Ordered(b)
    requires SeasonsBelow(a, s)
    requires InSeason(b, s)
    ensures SeasonsBelow(a + b, s + 1)
    ensures Ordered(a + b)
  {
    if |a| == 1 && b != [] {
      assert (a + b)[0] == a[0] && (a + b)[1] == b[0] && (a + b)[1..] == b;
      assert a[0] in a && b[0] in b;
    } else if |a| > 1 {
      OrderedConcat(a[1..], b, s);
      assert (a + b)[1..] == a[1..] + b;
      assert (a + b)[0] == a[0] && (a + b)[1] == a[1];
    } else if a == [] {
      assert a + b == b;
    } else {
      assert a + b == a;
    }
  }

  /** The report is the fetched shows' reports in fetch order: every element comes
      from one fetched show, and a show no Plex show matches contributes nothing. */
  lemma {:induction false} AllElementsSource(inventory: seq<PlexShow>, updates: seq<ShowUpdate>, n: nat)
    requires n <= |updates|
    ensures forall x :: x in AllElements(inventory, updates, n) ==>
      exists i :: 0 <= i < n && x in ShowReport(inventory, updates[i])
    ensures forall i :: 0 <= i < n && (forall p :: p in inventory ==> p.guid != updates[i].guid) ==>
      ShowReport(inventory, updates[i]) == []
  {
    if n > 0 {
      AllElementsSource(inventory, updates, n - 1);
      var prev := AllElements(inventory, updates, n - 1);
      forall x | x in AllElements(inventory, updates, n)
        ensures exists i :: 0 <= i < n && x in ShowReport(inventory, updates[i])
      {
        if x !in prev {
          assert x in ShowReport(inventory, updates[n - 1]);
        }
      }
    }
  }
}
