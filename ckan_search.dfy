/**
 * `_search_for_datasets`: the CKAN harvester pages through the remote
 * catalog's `package_search`, 100 rows at a time sorted by id, drops
 * datasets already seen on an earlier page and stops at the first page
 * that has nothing new.
 *
 * The remote is a function from the `start` offset to the response body
 * (the filter query and the base URL are folded into it), together with
 * the decoding `json.loads(...)['result']['results']`. Termination needs the
 * remote's dataset ids to come from a finite `universe`: every round that
 * does not stop adds an id not seen before.
 */
module CkanSearch {
  import opened Text

  /** The `rows` parameter: the page size. */
  const ROWS: nat := 100

  /**
   * A dataset entry of a search page: its remote `id`, its `name` (None when
   * the entry has no `name` key) and its `json.dumps` text.
   */
  datatype Dataset = Dataset(id: string, name: Option<string>, dump: string)

  /** What the harvester makes of one response body. */
  datatype Decoded =
    | NotJson                      // `json.loads` raised ValueError
    | Malformed                    // not a dict, or an entry without `id`: AttributeError or KeyError escapes
    | Listing(page: seq<Dataset>)  // `result.results`

  /** The remote search endpoint: the body for each `start` (None: ContentFetchError), and the decoder. */
  datatype Remote = Remote(content: nat -> Option<string>, decode: string -> Decoded)

  /** The three SearchError messages. */
  datatype SearchFailure = FetchFailed | PagingBroken | ResponseNotJson

  /** The pages appended to `pkg_dicts`, a SearchError, or another exception. */
  datatype SearchResult = Found(pages: seq<seq<Dataset>>) | Failed(failure: SearchFailure) | Unhandled

  function Ids(page: seq<Dataset>): set<string> {
    set i | 0 <= i < |page| :: page[i].id
  }

  /** The listing at offset `start`, if the request succeeds and decodes to one. */
  function ListingAt(remote: Remote, start: nat): Option<seq<Dataset>> {
    if remote.content(start).Some? && remote.decode(remote.content(start).value).Listing? then
      Some(remote.decode(remote.content(start).value).page)
    else None
  }

  /** Every id the remote lists lies in `universe`. */
  ghost predicate Bounded(remote: Remote, universe: set<string>) {
    forall start: nat :: ListingAt(remote, start).Some? ==> Ids(ListingAt(remote, start).value) <= universe
  }

  /** The entries of `page` whose id is not in `seen`, in order. */
  function Unseen(page: seq<Dataset>, seen: set<string>): (r: seq<Dataset>)
    ensures |r| <= |page|
    ensures forall d :: d in r <==> d in page && d.id !in seen
  {
    if page == [] then []
    else if page[|page| - 1].id in seen then Unseen(page[..|page| - 1], seen)
    else Unseen(page[..|page| - 1], seen) + [page[|page| - 1]]
  }

  /** With no id of the page seen before, nothing is dropped (the `if duplicate_ids:` test). */
  lemma {:induction false} UnseenOfFreshPage(page: seq<Dataset>, seen: set<string>)
    requires Ids(page) * seen == {}
    ensures Unseen(page, seen) == page
  {
    if page != [] {
      var init := page[..|page| - 1];
      assert Ids(init) <= Ids(page) by {
        forall x | x in Ids(init) ensures x in Ids(page) {
          var i :| 0 <= i < |init| && init[i].id == x;
          assert page[i] == init[i];
        }
      }
      UnseenOfFreshPage(init, seen);
      var last := page[|page| - 1].id;
      assert last in Ids(page);
      assert last !in Ids(page) * seen;
      assert Unseen(page, seen) == Unseen(init, seen) + [page[|page| - 1]];
      assert init + [page[|page| - 1]] == page;
    }
  }

  lemma IdsOfPrefix(page: seq<Dataset>)
    requires page != []
    ensures Ids(page) == Ids(page[..|page| - 1]) + {page[|page| - 1].id}
  {
    var init := page[..|page| - 1];
    forall x | x in Ids(page) ensures x in Ids(init) + {page[|page| - 1].id} {
      var i :| 0 <= i < |page| && page[i].id == x;
      if i < |page| - 1 {
        assert init[i] == page[i];
      }
    }
    forall x | x in Ids(init) ensures x in Ids(page) {
      var i :| 0 <= i < |init| && init[i].id == x;
      assert page[i] == init[i];
    }
  }

  /** With every id of the page seen before, nothing is left. */
  lemma {:induction false} UnseenOfSeenPage(page: seq<Dataset>, seen: set<string>)
    requires Ids(page) <= seen
    ensures Unseen(page, seen) == []
  {
    if page != [] {
      IdsOfPrefix(page);
      UnseenOfSeenPage(page[..|page| - 1], seen);
    }
  }

  /** A round that finds something new grows `seen` inside `universe`. */
  lemma UnseenGrows(page: seq<Dataset>, seen: set<string>, universe: set<string>)
    requires Ids(page) <= universe && seen <= universe && Unseen(page, seen) != []
    ensures seen + Ids(page) <= universe
    ensures universe - (seen + Ids(page)) < universe - seen
  {
    var d := Unseen(page, seen)[0];
    assert d in page && d.id !in seen;
    var i :| 0 <= i < |page| && page[i] == d;
    assert d.id in Ids(page);
    assert d.id in universe - seen && d.id !in universe - (seen + Ids(page));
  }

  /** A page put in front of the pages found after it. */
  function Prepend(pages: seq<seq<Dataset>>, r: SearchResult): SearchResult {
    if r.Found? then Found(pages + r.pages) else r
  }

  /**
   * The loop of `_search_for_datasets` from offset `start`, with the ids
   * `seen` so far and `previous`, the `previous_content` that each response
   * is compared with ("The paging doesn't seem to work"). `remember` says
   * whether a response becomes the next round's `previous_content`: the code
   * as written never assigns it after `previous_content = None`, so it runs
   * with `remember` false; the corrected loop runs with it true.
   */
  function SearchFrom(remote: Remote, ghost universe: set<string>, start: nat, seen: set<string>,
                      previous: Option<string>, remember: bool): SearchResult
    requires Bounded(remote, universe) && seen <= universe
    decreases universe - seen
  {
    var content := remote.content(start);
    if content.None? then Failed(FetchFailed)
    else if Truthy(previous) && content == previous then Failed(PagingBroken)
    else
      var decoded := remote.decode(content.value);
      if decoded.NotJson? then Failed(ResponseNotJson)
      else if decoded.Malformed? then Unhandled
      else
        var unseen := Unseen(decoded.page, seen);
        if unseen == [] then Found([])
        else
          assert ListingAt(remote, start) == Some(decoded.page);
          UnseenGrows(decoded.page, seen, universe);
          Prepend([unseen], SearchFrom(remote, universe, start + ROWS, seen + Ids(decoded.page),
                                       NextPrevious(content, previous, remember), remember))
  }

  /** The `previous_content` of the next round. */
  function NextPrevious(content: Option<string>, previous: Option<string>, remember: bool): Option<string> {
    if remember then content else previous
  }

  lemma OffsetStep(start: nat, n: nat)
    ensures start + (n + 1) * ROWS == start + ROWS + n * ROWS
  {
  }

  /** The three ways one round of the search can go, each a single unfolding of `SearchFrom`. */
  predicate ReadsListing(remote: Remote, start: nat, previous: Option<string>) {
    remote.content(start).Some? && !(Truthy(previous) && remote.content(start) == previous) &&
    remote.decode(remote.content(start).value).Listing?
  }

  /**
   * A round that does not read a listing ends the search with an error: a
   * failed request, a response equal to a truthy `previous_content`, text
   * that is not JSON or a response without ids. A listing with nothing new
   * ends it with no further page.
   */
  lemma SearchFromStops(remote: Remote, universe: set<string>, start: nat, seen: set<string>,
                        previous: Option<string>, remember: bool)
    requires Bounded(remote, universe) && seen <= universe
    ensures !ReadsListing(remote, start, previous) ==> !SearchFrom(remote, universe, start, seen, previous, remember).Found?
    ensures ReadsListing(remote, start, previous) && Unseen(ListingAt(remote, start).value, seen) == [] ==>
      SearchFrom(remote, universe, start, seen, previous, remember) == Found([])
  {
  }

  /**
   * A listing with something new contributes its unseen entries as a page,
   * and the search goes on `ROWS` further with its ids added to `seen`.
   */
  lemma SearchFromContinues(remote: Remote, universe: set<string>, start: nat, seen: set<string>,
                            previous: Option<string>, remember: bool)
    requires Bounded(remote, universe) && seen <= universe
    requires ReadsListing(remote, start, previous) && Unseen(ListingAt(remote, start).value, seen) != []
    ensures var page := ListingAt(remote, start).value;
      && seen + Ids(page) <= universe
      && universe - (seen + Ids(page)) < universe - seen
      && SearchFrom(remote, universe, start, seen, previous, remember) ==
         Prepend([Unseen(page, seen)], SearchFrom(remote, universe, start + ROWS, seen + Ids(page),
                                                  NextPrevious(remote.content(start), previous, remember), remember))
  {
    UnseenGrows(ListingAt(remote, start).value, seen, universe);
  }

  /**
   * Every page is non-empty, lies within the listing fetched at its own
   * offset, `ROWS` past the previous page's, and holds no id of `seen`.
   */
  ghost predicate PagesFromListings(remote: Remote, start: nat, seen: set<string>, pages: seq<seq<Dataset>>) {
    forall k :: 0 <= k < |pages| ==>
      && pages[k] != []
      && ListingAt(remote, start + k * ROWS).Some?
      && forall x :: 0 <= x < |pages[k]| ==>
           pages[k][x] in ListingAt(remote, start + k * ROWS).value && pages[k][x].id !in seen
  }

  /** No id appears on two different pages (within one page, duplicates are kept). */
  predicate PagesDisjoint(pages: seq<seq<Dataset>>) {
    forall k, l, x, y :: 0 <= k < l < |pages| && 0 <= x < |pages[k]| && 0 <= y < |pages[l]| ==>
      pages[k][x].id != pages[l][y].id
  }

  lemma PrependFromListings(remote: Remote, start: nat, seen: set<string>, page: seq<Dataset>,
                            rest: seq<seq<Dataset>>)
    requires ListingAt(remote, start) == Some(page) && Unseen(page, seen) != []
    requires PagesFromListings(remote, start + ROWS, seen + Ids(page), rest)
    ensures PagesFromListings(remote, start, seen, [Unseen(page, seen)] + rest)
  {
    var pages: seq<seq<Dataset>> := [Unseen(page, seen)] + rest;
    forall k | 0 <= k < |pages|
      ensures pages[k] != [] && ListingAt(remote, start + k * ROWS).Some?
      ensures forall x :: 0 <= x < |pages[k]| ==>
        pages[k][x] in ListingAt(remote, start + k * ROWS).value && pages[k][x].id !in seen
    {
      if k > 0 {
        assert pages[k] == rest[k - 1];
        OffsetStep(start, k - 1);
      }
    }
  }

  lemma PrependDisjoint(page: seq<Dataset>, seen: set<string>, rest: seq<seq<Dataset>>)
    requires PagesDisjoint(rest)
    requires forall k, y :: 0 <= k < |rest| && 0 <= y < |rest[k]| ==> rest[k][y].id !in seen + Ids(page)
    ensures PagesDisjoint([Unseen(page, seen)] + rest)
  {
    var pages: seq<seq<Dataset>> := [Unseen(page, seen)] + rest;
    forall k, l, x, y | 0 <= k < l < |pages| && 0 <= x < |pages[k]| && 0 <= y < |pages[l]|
      ensures pages[k][x].id != pages[l][y].id
    {
      assert pages[l] == rest[l - 1];
      if k == 0 {
        assert pages[k][x] in page;
        var i :| 0 <= i < |page| && page[i] == pages[k][x];
        assert pages[k][x].id in Ids(page);
      } else {
        assert pages[k] == rest[k - 1];
      }
    }
  }

  /**
   * Where a search's pages come from, with or without the repeated-response
   * test: each from the listing at its own offset, none empty, none with an
   * id seen before.
   */
  lemma {:induction false} SearchFromListings(remote: Remote, universe: set<string>, start: nat, seen: set<string>,
                                              previous: Option<string>, remember: bool)
    requires Bounded(remote, universe) && seen <= universe
    ensures var r := SearchFrom(remote, universe, start, seen, previous, remember);
      r.Found? ==> PagesFromListings(remote, start, seen, r.pages)
    decreases universe - seen
  {
    var r := SearchFrom(remote, universe, start, seen, previous, remember);
    SearchFromStops(remote, universe, start, seen, previous, remember);
    if ReadsListing(remote, start, previous) && Unseen(ListingAt(remote, start).value, seen) != [] {
      var page := ListingAt(remote, start).value;
      var next := NextPrevious(remote.content(start), previous, remember);
      SearchFromContinues(remote, universe, start, seen, previous, remember);
      var rest := SearchFrom(remote, universe, start + ROWS, seen + Ids(page), next, remember);
      SearchFromListings(remote, universe, start + ROWS, seen + Ids(page), next, remember);
      if rest.Found? {
        assert r.pages == [Unseen(page, seen)] + rest.pages;
        PrependFromListings(remote, start, seen, page, rest.pages);
      }
    }
  }

  /** The round after the last page, at offset `start + |pages| * ROWS`, read a listing. */
  ghost predicate EndsOnListing(remote: Remote, start: nat, pages: seq<seq<Dataset>>) {
    ListingAt(remote, start + |pages| * ROWS).Some?
  }

  lemma PrependEndsOnListing(remote: Remote, start: nat, page: seq<Dataset>, rest: seq<seq<Dataset>>)
    requires EndsOnListing(remote, start + ROWS, rest)
    ensures EndsOnListing(remote, start, [page] + rest)
  {
    OffsetStep(start, |rest|);
  }

  /** The round that ends a successful search reads a listing, at the offset after the last page's. */
  lemma {:induction false} SearchFromEndsOnListing(remote: Remote, universe: set<string>, start: nat,
                                                   seen: set<string>, previous: Option<string>, remember: bool)
    requires Bounded(remote, universe) && seen <= universe
    ensures var r := SearchFrom(remote, universe, start, seen, previous, remember);
      r.Found? ==> EndsOnListing(remote, start, r.pages)
    decreases universe - seen
  {
    var r := SearchFrom(remote, universe, start, seen, previous, remember);
    SearchFromStops(remote, universe, start, seen, previous, remember);
    if ReadsListing(remote, start, previous) && Unseen(ListingAt(remote, start).value, seen) != [] {
      var page := ListingAt(remote, start).value;
      var next := NextPrevious(remote.content(start), previous, remember);
      SearchFromContinues(remote, universe, start, seen, previous, remember);
      var rest := SearchFrom(remote, universe, start + ROWS, seen + Ids(page), next, remember);
      SearchFromEndsOnListing(remote, universe, start + ROWS, seen + Ids(page), next, remember);
      if rest.Found? {
        PrependEndsOnListing(remote, start, Unseen(page, seen), rest.pages);
      }
    } else if ReadsListing(remote, start, previous) {
      assert r == Found([]);
      assert EndsOnListing(remote, start, []);
    }
  }

  /** No id is found on two pages: the ids on different pages differ. */
  lemma {:induction false} SearchFromDisjoint(remote: Remote, universe: set<string>, start: nat, seen: set<string>,
                                              previous: Option<string>, remember: bool)
    requires Bounded(remote, universe) && seen <= universe
    ensures var r := SearchFrom(remote, universe, start, seen, previous, remember);
      r.Found? ==> PagesDisjoint(r.pages)
    decreases universe - seen
  {
    var r := SearchFrom(remote, universe, start, seen, previous, remember);
    SearchFromStops(remote, universe, start, seen, previous, remember);
    if ReadsListing(remote, start, previous) && Unseen(ListingAt(remote, start).value, seen) != [] {
      var page := ListingAt(remote, start).value;
      var next := NextPrevious(remote.content(start), previous, remember);
      SearchFromContinues(remote, universe, start, seen, previous, remember);
      var seen' := seen + Ids(page);
      var rest := SearchFrom(remote, universe, start + ROWS, seen', next, remember);
      SearchFromDisjoint(remote, universe, start + ROWS, seen', next, remember);
      SearchFromListings(remote, universe, start + ROWS, seen', next, remember);
      if rest.Found? {
        assert r.pages == [Unseen(page, seen)] + rest.pages;
        PrependDisjoint(page, seen, rest.pages);
      }
    }
  }

  /**
   * The corrected loop rejects a remote that ignores `start`: when the
   * response at `start + ROWS` repeats a non-empty response that had
   * something new, the search fails with PagingBroken.
   */
  lemma RepeatedPageRejected(remote: Remote, universe: set<string>, start: nat, seen: set<string>,
                             previous: Option<string>, c: string)
    requires Bounded(remote, universe) && seen <= universe
    requires remote.content(start) == Some(c) && remote.content(start + ROWS) == Some(c) && c != ""
    requires remote.decode(c).Listing? && Unseen(remote.decode(c).page, seen) != []
    ensures SearchFrom(remote, universe, start, seen, previous, true) == Failed(PagingBroken)
  {
    if !(Truthy(previous) && Some(c) == previous) {
      var page := remote.decode(c).page;
      assert ListingAt(remote, start) == Some(page);
      UnseenGrows(page, seen, universe);
    }
  }

  /** As written, the repeated-response test never fires. */
  lemma {:induction false} AsWrittenNeverReportsBrokenPaging(remote: Remote, universe: set<string>, start: nat,
                                                             seen: set<string>)
    requires Bounded(remote, universe) && seen <= universe
    ensures SearchFrom(remote, universe, start, seen, None, false) != Failed(PagingBroken)
    decreases universe - seen
  {
    var content := remote.content(start);
    if content.Some? && remote.decode(content.value).Listing? {
      var page := remote.decode(content.value).page;
      assert ListingAt(remote, start) == Some(page);
      if Unseen(page, seen) != [] {
        UnseenGrows(page, seen, universe);
        AsWrittenNeverReportsBrokenPaging(remote, universe, start + ROWS, seen + Ids(page));
      }
    }
  }

  /**
   * As written, a remote that ignores `start` and repeats its first response
   * ends the search after one page: the repeat is filtered down to nothing
   * and taken for the end of the catalog.
   */
  lemma RepeatedPageAcceptedAsWritten(remote: Remote, universe: set<string>, start: nat, seen: set<string>, c: string)
    requires Bounded(remote, universe) && seen <= universe
    requires remote.content(start) == Some(c) && remote.content(start + ROWS) == Some(c)
    requires remote.decode(c).Listing? && Unseen(remote.decode(c).page, seen) != []
    ensures SearchFrom(remote, universe, start, seen, None, false) == Found([Unseen(remote.decode(c).page, seen)])
  {
    var page := remote.decode(c).page;
    assert ListingAt(remote, start) == Some(page);
    UnseenGrows(page, seen, universe);
    var seen' := seen + Ids(page);
    UnseenOfSeenPage(page, seen');
  }

  /** A remote that answers every request with the same one-dataset page. */
  function StuckRemote(): Remote {
    Remote((start: nat) => Some("p"), (body: string) => Listing([Dataset("a", Some("a"), "{}")]))
  }

  /**
   * The stuck remote, searched from the start: as written the search returns
   * the one dataset as if it were the whole catalog; corrected, it reports
   * that paging does not work.
   */
  lemma StuckRemoteSearch()
    ensures Bounded(StuckRemote(), {"a"})
    ensures SearchFrom(StuckRemote(), {"a"}, 0, {}, None, false) == Found([[Dataset("a", Some("a"), "{}")]])
    ensures SearchFrom(StuckRemote(), {"a"}, 0, {}, None, true) == Failed(PagingBroken)
  {
    var remote := StuckRemote();
    var page := [Dataset("a", Some("a"), "{}")];
    assert Ids(page) == {"a"} by {
      assert page[0].id == "a";
    }
    assert Bounded(remote, {"a"}) by {
      forall start: nat | ListingAt(remote, start).Some?
        ensures Ids(ListingAt(remote, start).value) <= {"a"}
      {
        assert ListingAt(remote, start).value == page;
      }
    }
    assert Unseen(page, {}) == page by {
      UnseenOfFreshPage(page, {});
    }
    RepeatedPageAcceptedAsWritten(remote, {"a"}, 0, {}, "p");
    RepeatedPageRejected(remote, {"a"}, 0, {}, None, "p");
  }

  /**
   * `_search_for_datasets(remote_ckan_base_url, fq_terms)` as written: the
   * pages it appends to `pkg_dicts`, or the error it raises. Its
   * `previous_content` stays None throughout.
   */
  method SearchForDatasets(remote: Remote, ghost universe: set<string>) returns (r: SearchResult)
    requires Bounded(remote, universe)
    ensures r == SearchFrom(remote, universe, 0, {}, None, false)
  {
    var pages: seq<seq<Dataset>> := [];
    var seen: set<string> := {};
    var previous: Option<string> := None;
    var start: nat := 0;
    while true
      invariant seen <= universe && previous == None
      invariant SearchFrom(remote, universe, 0, {}, None, false) ==
        Prepend(pages, SearchFrom(remote, universe, start, seen, previous, false))
      decreases universe - seen
    {
      SearchFromStops(remote, universe, start, seen, previous, false);
      var content := remote.content(start);
      if content.None? {
        return Failed(FetchFailed);
      }
      if Truthy(previous) && content == previous {
        return Failed(PagingBroken);
      }
      var decoded := remote.decode(content.value);
      if decoded.NotJson? {
        return Failed(ResponseNotJson);
      }
      if decoded.Malformed? {
        return Unhandled;
      }
      var page := decoded.page;
      var idsInPage := Ids(page);
      var unseen := page;
      if idsInPage * seen != {} {
        unseen := Unseen(page, seen);
      } else {
        UnseenOfFreshPage(page, seen);
      }
      if |unseen| == 0 {
        return Found(pages);
      }
      assert ListingAt(remote, start) == Some(page);
      SearchFromContinues(remote, universe, start, seen, previous, false);
      ghost var rest := SearchFrom(remote, universe, start + ROWS, seen + idsInPage, previous, false);
      assert rest.Found? ==> pages + ([unseen] + rest.pages) == (pages + [unseen]) + rest.pages;
      seen := seen + idsInPage;
      pages := pages + [unseen];
      start := start + ROWS;
    }
  }

  /** All the datasets of the pages, in order: the list `_search_for_datasets` returns. */
  function Flatten(pages: seq<seq<Dataset>>): (r: seq<Dataset>)
    ensures forall d :: d in r <==> exists k :: 0 <= k < |pages| && d in pages[k]
  {
    if pages == [] then [] else Flatten(pages[..|pages| - 1]) + pages[|pages| - 1]
  }
}
