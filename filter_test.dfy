/**
 * The listing use cases: the page each request is expected to produce, built
 * the way the functional test's `createUseCase` builds it, and the proof that
 * the listing produces it on the fifty fixture games.
 */
module FilterTest {
  import opened Wrappers
  import opened Listing
  import F = VideoGameFixtures

  /** What a use case expects: the request, the summary numbers, the bar and the titles. */
  datatype UseCase = UseCase(
    query: Query,
    count: nat,
    offsetFrom: int,
    offsetTo: int,
    total: nat,
    page: Option<int>,
    links: seq<Label>,
    titles: seq<string>)

  const NoFilter := Filter(None, {})
  const DefaultQuery := Query(None, None, None, None, NoFilter)

  /** The page numbers a use case expects when it names none: '1' to '4'. */
  const DefaultNumbers := [Number(1), Number(2), Number(3), Number(4)]

  /** The listing's catalogue: the fifty fixture games in load order. */
  predicate FixtureCatalogue(cat: seq<Entry>) {
    |cat| == F.GameCount && forall i :: 0 <= i < |cat| ==> cat[i].title == F.Title(i)
  }

  /** `sprintf('Jeu vidéo %d', i)` for any integer. */
  function IndexTitle(i: int): string {
    if i >= 0 then F.Title(i) else "Jeu vidéo -" + F.NatToString(-i)
  }

  /** The titles of `count` consecutive games from index `start`. */
  function DefaultTitles(start: int, count: nat): seq<string> {
    seq(count, k requires 0 <= k < count => IndexTitle(start + k))
  }

  // ---------- createUseCase ----------

  /**
   * The labels expected on page `page`: "Première page" and "Précédent" past
   * the first page, the given page numbers ('1' to '4' by default), then
   * "Suivant" and "Dernière page" before the last of `ceil(total / perPage)`
   * pages.
   */
  function LinksFor(page: int, given: Option<seq<Label>>, total: nat, perPage: nat): seq<Label>
    requires perPage >= 1
  {
    (if page > 1 then [FirstPage, Previous] else [])
    + (if given.Some? then given.value else DefaultNumbers)
    + (if page < TotalPages(total, perPage) then [Next, LastPage] else [])
  }

  /** A page comes before the last one exactly when the pages up to it do not hold everything. */
  lemma BeforeLastPage(page: int, total: nat, perPage: nat)
    requires perPage >= 1
    ensures page < TotalPages(total, perPage) <==> page * perPage < total
  {
    var r := TotalPages(total, perPage);
    if page >= r {
      MulMonotone(r, page, perPage);
    } else if page >= 1 {
      MulMonotone(page, r - 1, perPage);
    } else {
      assert page * perPage <= 0;
    }
  }

  /**
   * `createUseCase`, as written: fills in the defaults and, when a page is
   * expected, wraps the page numbers in the navigation labels, counting the
   * pages as `ceil(total / count)` from the number of cards on the page.
   */
  method CreateUseCase(
    query: Query, count: nat, offsetFrom: int, offsetTo: int, total: nat,
    page: Option<int>, givenLinks: Option<seq<Label>>, givenTitles: Option<seq<string>>)
    returns (uc: UseCase)
    requires page.Some? ==> count >= 1
    ensures uc.query == query && uc.count == count && uc.total == total && uc.page == page
    ensures uc.offsetFrom == offsetFrom && uc.offsetTo == offsetTo
    ensures page.None? ==> uc.links == if givenLinks.Some? then givenLinks.value else []
    ensures page.Some? ==> uc.links == LinksFor(page.value, givenLinks, total, count)
    ensures page.Some? ==>
      |uc.links| == |if givenLinks.Some? then givenLinks.value else DefaultNumbers|
        + (if page.value > 1 then 2 else 0)
        + (if page.value * count < total then 2 else 0)
    ensures givenTitles.Some? ==> uc.titles == givenTitles.value
    ensures givenTitles.None? ==>
      |uc.titles| == count && forall k :: 0 <= k < count ==> uc.titles[k] == IndexTitle(offsetFrom - 1 + k)
  {
    var links := givenLinks;
    if page.Some? {
      var labels := if givenLinks.Some? then givenLinks.value else DefaultNumbers;
      if page.value > 1 {
        labels := [FirstPage, Previous] + labels;
      }
      if page.value < TotalPages(total, count) {
        labels := labels + [Next, LastPage];
      }
      BeforeLastPage(page.value, total, count);
      links := Some(labels);
    }
    var titles := if givenTitles.Some? then givenTitles.value else DefaultTitles(offsetFrom - 1, count);
    uc := UseCase(query, count, offsetFrom, offsetTo, total, page,
      if links.Some? then links.value else [], titles);
  }

  /**
   * The use case as `createUseCase` evidently means it: the pages are counted
   * with the request's limit, `ceil(total / limit)`, as the listing counts them.
   */
  function ExpectedUseCase(
    query: Query, count: nat, offsetFrom: int, offsetTo: int, total: nat,
    page: Option<int>, givenLinks: Option<seq<Label>>, givenTitles: Option<seq<string>>): UseCase
    requires page.Some? ==> LimitOf(query) >= 1
  {
    UseCase(query, count, offsetFrom, offsetTo, total, page,
      if page.Some? then LinksFor(page.value, givenLinks, total, LimitOf(query))
      else if givenLinks.Some? then givenLinks.value else [],
      if givenTitles.Some? then givenTitles.value else DefaultTitles(offsetFrom - 1, count))
  }

  lemma SignOfProduct(m: int, x: int)
    requires m >= 1
    ensures m * x < 0 <==> x < 0
  {
    if x < 0 {
      assert m * x <= x;
    } else {
      assert m * x >= 0;
    }
  }

  /**
   * As written, `createUseCase` misreads the last page of a listing whose last
   * page is partial: counting pages by the cards on that page, it expects
   * "Suivant" and "Dernière page" there exactly when the last page is not full,
   * while the listing never offers them on its last page.
   */
  lemma LastPageAsWritten(total: nat, limit: nat)
    requires limit >= 1 && TotalPages(total, limit) >= 2
    ensures var pages := TotalPages(total, limit);
      var shown := total - (pages - 1) * limit;
      && 1 <= shown <= limit
      && (Next in LinksFor(pages, Some(Window(pages, pages)), total, shown) <==> total < pages * limit)
      && Next !in PaginationLinks(pages, pages)
  {
    var pages := TotalPages(total, limit);
    var m, shown := pages - 1, total - (pages - 1) * limit;
    assert pages * limit == m * limit + limit;
    BeforeLastPage(pages, total, shown);
    assert pages * shown - total == m * (total - pages * limit) by {
      assert pages * shown == pages * total - pages * (m * limit);
      assert pages * (m * limit) == m * (pages * limit);
      assert m * (total - pages * limit) == m * total - m * (pages * limit);
    }
    SignOfProduct(m, total - pages * limit);
  }

  /** Counted with the limit, the expected labels are exactly the listing's pagination bar. */
  lemma ExpectedLinksMatchListing(page: nat, total: nat, limit: nat)
    requires limit >= 1 && page >= 1 && TotalPages(total, limit) > 1
    ensures var pages := TotalPages(total, limit);
      LinksFor(page, Some(Window(page, pages)), total, limit) == PaginationLinks(page, pages)
  {
  }

  // ---------- What the test checks ----------

  /**
   * The summary part of `testShouldShowVideoGamesByUseCase`: the page has
   * `count` cards, the from/to/total of the summary, and either no pagination
   * bar (no page expected) or the active page with exactly the expected labels.
   */
  predicate SummaryMatches(p: Page, uc: UseCase) {
    && |p.items| == uc.count
    && p.offsetFrom == uc.offsetFrom && p.offsetTo == uc.offsetTo
    && p.total == uc.total
    && (uc.page.None? ==> p.links == [])
    && (uc.page.Some? ==>
          && p.page == uc.page.value && Number(p.page) in p.links
          && |p.links| == |uc.links|
          && forall l :: l in uc.links ==> l in p.links)
  }

  /** The titles part: the cards carry the expected titles, in order. */
  predicate TitlesMatch(p: Page, uc: UseCase) {
    && |uc.titles| <= |p.items|
    && forall k :: 0 <= k < |uc.titles| ==> p.items[k].title == uc.titles[k]
  }

  /** The request of `uc` is answered with a page whose summary is the expected one. */
  predicate ShowsSummary(cat: seq<Entry>, uc: UseCase) {
    var r := List(cat, uc.query);
    r.Ok? && SummaryMatches(r.value, uc)
  }

  predicate ShowsTitles(cat: seq<Entry>, uc: UseCase) {
    var r := List(cat, uc.query);
    r.Ok? && TitlesMatch(r.value, uc)
  }

  predicate Shows(cat: seq<Entry>, uc: UseCase) {
    ShowsSummary(cat, uc) && ShowsTitles(cat, uc)
  }

  // ---------- The unfiltered catalogue ----------

  /**
   * Without a filter, every page up to the last shows the summary of its
   * slice of the fifty games, and the bar the corrected use case expects.
   */
  lemma UnfilteredSummary(cat: seq<Entry>, q: Query, titles: Option<seq<string>>)
    requires |cat| == F.GameCount && q.filter == NoFilter
    requires LimitOf(q) >= 1 && 1 <= PageOf(q) <= TotalPages(F.GameCount, LimitOf(q))
    ensures var page, limit := PageOf(q), LimitOf(q);
      var pages := TotalPages(F.GameCount, limit);
      var from, to := OffsetFrom(page, limit), OffsetTo(page, limit, F.GameCount);
      && from <= to
      && ShowsSummary(cat, ExpectedUseCase(q, to - from + 1, from, to, F.GameCount,
           if pages > 1 then Some(page) else None,
           if pages > 1 then Some(Window(page, pages)) else None, titles))
  {
    var page, limit := PageOf(q), LimitOf(q);
    FilterNothing(cat);
    var p := Build(cat, NoFilter, page, limit, SortingOf(q), DirectionOf(q));
    assert List(cat, q) == Ok(p);
    BuildContract(cat, NoFilter, page, limit, SortingOf(q), DirectionOf(q));
    var pages := p.totalPages;
    var from, to := p.offsetFrom, p.offsetTo;
    PageWindow(cat, page, limit);
    assert page <= pages && from <= to;
    var uc := ExpectedUseCase(q, to - from + 1, from, to, F.GameCount,
      if pages > 1 then Some(page) else None,
      if pages > 1 then Some(Window(page, pages)) else None, titles);
    assert |p.items| == uc.count;
    if pages > 1 {
      ExpectedLinksMatchListing(page, F.GameCount, limit);
      assert uc.links == p.links;
      assert Number(page) in p.links;
    } else {
      assert p.links == [];
    }
    assert ShowsSummary(cat, uc);
  }

  /** Without a filter the cards are a page of the whole catalogue, in the requested order. */
  lemma UnfilteredItems(cat: seq<Entry>, q: Query)
    requires q.filter == NoFilter && PageOf(q) >= 1 && LimitOf(q) >= 1
    ensures List(cat, q).Ok?
    ensures List(cat, q).value.items == PageSlice(Arrange(cat, SortingOf(q), DirectionOf(q)), PageOf(q), LimitOf(q))
  {
    FilterNothing(cat);
  }

  /** A page of the fixture games in catalogue order holds games `from - 1` onwards. */
  lemma CatalogueSliceTitles(cat: seq<Entry>, page: nat, limit: nat)
    requires FixtureCatalogue(cat) && page >= 1 && limit >= 1 && page <= TotalPages(F.GameCount, limit)
    ensures var from, to := OffsetFrom(page, limit), OffsetTo(page, limit, F.GameCount);
      var items := PageSlice(cat, page, limit);
      && from <= to && |items| == to - from + 1
      && forall k :: 0 <= k < |items| ==> items[k].title == IndexTitle(from - 1 + k)
  {
    var from := OffsetFrom(page, limit);
    var items := PageSlice(cat, page, limit);
    PageWindow(cat, page, limit);
    forall k | 0 <= k < |items|
      ensures items[k].title == IndexTitle(from - 1 + k)
    {
      var i := from - 1 + k;
      assert 0 <= i < |cat| && items[k] == cat[i];
    }
  }

  lemma CatalogueOrderTitles(cat: seq<Entry>, q: Query, uc: UseCase)
    requires FixtureCatalogue(cat) && q.filter == NoFilter && SortingOf(q) == Default
    requires LimitOf(q) >= 1 && 1 <= PageOf(q) <= TotalPages(F.GameCount, LimitOf(q))
    requires uc.query == q
    requires uc.titles == DefaultTitles(OffsetFrom(PageOf(q), LimitOf(q)) - 1, |PageSlice(cat, PageOf(q), LimitOf(q))|)
    ensures ShowsTitles(cat, uc)
  {
    UnfilteredItems(cat, q);
    CatalogueSliceTitles(cat, PageOf(q), LimitOf(q));
  }

  /**
   * In catalogue order, each page up to the last shows what the corrected
   * use case expects from its offsets: the summary, the bar, and the titles
   * "Jeu vidéo from-1", "Jeu vidéo from", ...
   */
  lemma CatalogueOrderPage(cat: seq<Entry>, q: Query, count: nat, from: int, to: int,
                           page: Option<int>, numbers: Option<seq<Label>>)
    requires FixtureCatalogue(cat) && q.filter == NoFilter && SortingOf(q) == Default
    requires LimitOf(q) >= 1 && 1 <= PageOf(q) <= TotalPages(F.GameCount, LimitOf(q))
    requires from == OffsetFrom(PageOf(q), LimitOf(q)) && to == OffsetTo(PageOf(q), LimitOf(q), F.GameCount)
    requires count == to - from + 1
    requires var pages := TotalPages(F.GameCount, LimitOf(q));
      && page == (if pages > 1 then Some(PageOf(q)) else None)
      && numbers == (if pages > 1 then Some(Window(PageOf(q), pages)) else None)
    ensures Shows(cat, ExpectedUseCase(q, count, from, to, F.GameCount, page, numbers, None))
  {
    var uc := ExpectedUseCase(q, count, from, to, F.GameCount, page, numbers, None);
    PageWindow(cat, PageOf(q), LimitOf(q));
    assert uc.titles == DefaultTitles(from - 1, count);
    CatalogueOrderTitles(cat, q, uc);
    UnfilteredSummary(cat, q, None);
  }

  /** The numbers `lo` to `hi` the listing lays out, written out. */
  lemma {:induction false} NumbersFrom(lo: nat, hi: nat, labels: seq<Label>)
    requires 1 <= lo && hi < lo + |labels|
    requires |labels| == hi - lo + 1 && forall k :: 0 <= k < |labels| ==> labels[k] == Number(lo + k)
    ensures Numbers(lo, hi) == labels
    decreases hi - lo
  {
    if lo < hi {
      NumbersFrom(lo + 1, hi, labels[1..]);
    }
  }

  /** "First page": ten cards, games 0 to 9, pages 1 to 4 and the forward labels. */
  lemma FirstPageCase(cat: seq<Entry>)
    requires FixtureCatalogue(cat)
    ensures Shows(cat, ExpectedUseCase(DefaultQuery, 10, 1, 10, 50, Some(1), None, None))
  {
    NumbersFrom(1, 4, DefaultNumbers);
    CatalogueOrderPage(cat, DefaultQuery, 10, 1, 10, Some(1), Some(Window(1, 5)));
  }

  /** "Page #2": games 10 to 19, every page number, and labels both ways. */
  lemma SecondPageCase(cat: seq<Entry>)
    requires FixtureCatalogue(cat)
    ensures var numbers := [Number(1), Number(2), Number(3), Number(4), Number(5)];
      Shows(cat, ExpectedUseCase(Query(Some(2), None, None, None, NoFilter), 10, 11, 20, 50, Some(2), Some(numbers), None))
  {
    var q := Query(Some(2), None, None, None, NoFilter);
    NumbersFrom(1, 5, [Number(1), Number(2), Number(3), Number(4), Number(5)]);
    CatalogueOrderPage(cat, q, 10, 11, 20, Some(2), Some(Window(2, 5)));
  }

  /** "Last page": games 40 to 49, pages 2 to 5, and only the backward labels. */
  lemma LastPageCase(cat: seq<Entry>)
    requires FixtureCatalogue(cat)
    ensures var numbers := [Number(2), Number(3), Number(4), Number(5)];
      Shows(cat, ExpectedUseCase(Query(Some(5), None, None, None, NoFilter), 10, 41, 50, 50, Some(5), Some(numbers), None))
  {
    var q := Query(Some(5), None, None, None, NoFilter);
    NumbersFrom(2, 5, [Number(2), Number(3), Number(4), Number(5)]);
    CatalogueOrderPage(cat, q, 10, 41, 50, Some(5), Some(Window(5, 5)));
  }

  /** "First page, limit at 25": twenty-five cards, pages 1 and 2. */
  lemma LimitTwentyFiveCase(cat: seq<Entry>)
    requires FixtureCatalogue(cat)
    ensures Shows(cat, ExpectedUseCase(Query(None, Some(25), None, None, NoFilter), 25, 1, 25, 50, Some(1),
      Some([Number(1), Number(2)]), None))
  {
    var q := Query(None, Some(25), None, None, NoFilter);
    NumbersFrom(1, 2, [Number(1), Number(2)]);
    CatalogueOrderPage(cat, q, 25, 1, 25, Some(1), Some(Window(1, 2)));
  }

  /** "First page, limit at 50": all fifty cards and no pagination bar. */
  lemma LimitFiftyCase(cat: seq<Entry>)
    requires FixtureCatalogue(cat)
    ensures Shows(cat, ExpectedUseCase(Query(None, Some(50), None, None, NoFilter), 50, 1, 50, 50, None, None, None))
  {
    CatalogueOrderPage(cat, Query(None, Some(50), None, None, NoFilter), 50, 1, 50, None, None);
  }

  // ---------- Title order on the fixture titles ----------

  /**
   * Where game `i`'s title falls in character-code order, for `i < 100`: a
   * one-digit title sits just before the two-digit titles it prefixes, so
   * "Jeu vidéo 4" comes after "Jeu vidéo 39" and before "Jeu vidéo 40".
   */
  function TitleRank(i: nat): nat {
    if i < 10 then 20 * i else 2 * i + 1
  }

  lemma DigitCharOrder(x: nat, y: nat)
    requires x < 10 && y < 10
    ensures F.DigitChar(x) < F.DigitChar(y) <==> x < y
    ensures F.DigitChar(x) == F.DigitChar(y) <==> x == y
  {
  }

  lemma DigitsOrder(a: nat, b: nat)
    requires a < 100 && b < 100
    ensures LexLe(F.NatToString(a), F.NatToString(b)) <==> TitleRank(a) <= TitleRank(b)
  {
    var x, y := F.NatToString(a), F.NatToString(b);
    var a1, a0 := if a < 10 then a else a / 10, a % 10;
    var b1, b0 := if b < 10 then b else b / 10, b % 10;
    if a >= 10 {
      assert F.NatToString(a1) == [F.DigitChar(a1)];
    }
    if b >= 10 {
      assert F.NatToString(b1) == [F.DigitChar(b1)];
    }
    assert x == if a < 10 then [F.DigitChar(a)] else [F.DigitChar(a1), F.DigitChar(a0)];
    assert y == if b < 10 then [F.DigitChar(b)] else [F.DigitChar(b1), F.DigitChar(b0)];
    DigitCharOrder(a1, b1);
    DigitCharOrder(a0, b0);
    assert x[0] == F.DigitChar(a1) && y[0] == F.DigitChar(b1);
    if a1 != b1 {
      assert LexLe(x, y) <==> a1 < b1;
    } else if a < 10 && b < 10 {
      assert LexLe(x, y);
    } else if a < 10 {
      assert x[1..] == [];
      assert LexLe(x, y);
    } else if b < 10 {
      assert x[1..] == [F.DigitChar(a0)] && y[1..] == [];
      assert !LexLe(x, y);
    } else {
      var x', y' := x[1..], y[1..];
      assert x' == [F.DigitChar(a0)] && y' == [F.DigitChar(b0)];
      assert x'[1..] == [] && y'[1..] == [];
      assert LexLe(x, y) == LexLe(x', y');
      assert LexLe(x', y') <==> a0 <= b0;
    }
  }

  /** For the fixture titles, character-code order is the order of their ranks. */
  lemma TitleOrderByRank(a: nat, b: nat)
    requires a < 100 && b < 100
    ensures LexLe(F.Title(a), F.Title(b)) <==> TitleRank(a) <= TitleRank(b)
  {
    LexLeCommonPrefix("Jeu vidéo ", F.NatToString(a), F.NatToString(b));
    DigitsOrder(a, b);
  }

  lemma {:induction false} DistinctAtMostOnce(s: seq<Entry>, x: Entry)
    requires forall i, j :: 0 <= i < j < |s| ==> s[i] != s[j]
    ensures multiset(s)[x] <= 1
  {
    if s != [] {
      var init := s[..|s| - 1];
      assert s == init + [s[|s| - 1]];
      DistinctAtMostOnce(init, x);
      if x == s[|s| - 1] {
        assert x !in init;
      }
    }
  }

  /** No two fixture games share a title. */
  lemma CatalogueTitlesDistinct(cat: seq<Entry>)
    requires FixtureCatalogue(cat)
    ensures forall i, j :: 0 <= i < |cat| && 0 <= j < |cat| && cat[i].title == cat[j].title ==> i == j
  {
    forall i, j | 0 <= i < |cat| && 0 <= j < |cat| && cat[i].title == cat[j].title
      ensures i == j
    {
      F.TitleInjective(i, j);
    }
  }

  /** Any reordering of the fixture games still has one game per title. */
  lemma ReorderedUniqueTitles(cat: seq<Entry>, s: seq<Entry>)
    requires FixtureCatalogue(cat) && multiset(s) == multiset(cat)
    ensures UniqueTitles(s)
  {
    CatalogueTitlesDistinct(cat);
    forall i, j | 0 <= i < |s| && 0 <= j < |s| && s[i].title == s[j].title
      ensures s[i] == s[j]
    {
      assert s[i] in multiset(cat) && s[j] in multiset(cat);
      var a :| 0 <= a < |cat| && cat[a] == s[i];
      var b :| 0 <= b < |cat| && cat[b] == s[j];
    }
  }

  lemma ListedNotRepeated(cat: seq<Entry>, idx: seq<nat>, k: nat)
    requires FixtureCatalogue(cat)
    requires forall k :: 0 <= k < |idx| ==> idx[k] < F.GameCount && idx[k] !in idx[..k]
    requires k < |idx|
    ensures Listed(cat, idx)[k] !in Listed(cat, idx)[..k]
  {
    var front := Listed(cat, idx);
    forall j | 0 <= j < k
      ensures front[j] != front[k]
    {
      assert idx[..k][j] == idx[j];
      F.TitlesDiffer(idx[j], idx[k]);
    }
  }

  lemma NotInPrefix(front: seq<Entry>, k: nat, x: Entry, m: multiset<Entry>)
    requires k <= |front| && x in m - multiset(front[..k]) && m[x] <= 1
    ensures x !in front[..k]
  {
  }

  /** The side condition of `SortedFront` at position `k` of the listed games. */
  lemma FrontStep(cat: seq<Entry>, s: seq<Entry>, dir: Direction, idx: seq<nat>, k: nat)
    requires FixtureCatalogue(cat) && multiset(s) == multiset(cat)
    requires forall k :: 0 <= k < |idx| ==> idx[k] < F.GameCount && idx[k] !in idx[..k]
    requires forall k, i :: 0 <= k < |idx| && 0 <= i < F.GameCount && i !in idx[..k] ==>
      if dir == Descending then TitleRank(i) <= TitleRank(idx[k]) else TitleRank(idx[k]) <= TitleRank(i)
    requires k < |idx|
    ensures var front := Listed(cat, idx);
      && front[k] in multiset(s) - multiset(front[..k])
      && forall x :: x in multiset(s) - multiset(front[..k]) ==> InOrder(front[k], x, dir)
  {
    var front := Listed(cat, idx);
    ListedNotRepeated(cat, idx, k);
    assert front[k] in cat;
    forall x | x in multiset(s) - multiset(front[..k])
      ensures InOrder(front[k], x, dir)
    {
      assert x in multiset(cat);
      var i :| 0 <= i < |cat| && cat[i] == x;
      CatalogueTitlesDistinct(cat);
      DistinctAtMostOnce(cat, x);
      NotInPrefix(front, k, x, multiset(s));
      forall j | 0 <= j < k
        ensures idx[..k][j] != i
      {
        assert front[..k][j] == cat[idx[j]];
      }
      assert i !in idx[..k];
      TitleOrderByRank(i, idx[k]);
      TitleOrderByRank(idx[k], i);
    }
  }

  /** Where game `i` stands in the title order `dir`: smaller keys come first. */
  function Key(i: nat, dir: Direction): int {
    var rank: int := TitleRank(i);
    if dir == Descending then -rank else rank
  }

  /**
   * `idx` lists fixture games in strictly increasing key order, and every game
   * whose key is not past the last listed one is listed.
   */
  predicate LeadsByKey(idx: seq<nat>, dir: Direction) {
    && |idx| > 0
    && (forall k :: 0 <= k < |idx| ==> idx[k] < F.GameCount)
    && (forall k :: 0 < k < |idx| ==> Key(idx[k - 1], dir) < Key(idx[k], dir))
    && (forall i: nat :: i < F.GameCount && Key(i, dir) <= Key(idx[|idx| - 1], dir) ==> i in idx)
  }

  lemma {:induction false} KeysIncrease(idx: seq<nat>, dir: Direction, j: nat, k: nat)
    requires forall k :: 0 < k < |idx| ==> Key(idx[k - 1], dir) < Key(idx[k], dir)
    requires j < k < |idx|
    ensures Key(idx[j], dir) < Key(idx[k], dir)
  {
    if j < k - 1 {
      KeysIncrease(idx, dir, j, k - 1);
    }
  }

  /** `LeadsByKey` gives the side conditions `FrontStep` works from. */
  lemma LeadsStep(idx: seq<nat>, dir: Direction)
    requires LeadsByKey(idx, dir)
    ensures forall k :: 0 <= k < |idx| ==> idx[k] < F.GameCount && idx[k] !in idx[..k]
    ensures forall k, i :: 0 <= k < |idx| && 0 <= i < F.GameCount && i !in idx[..k] ==>
      if dir == Descending then TitleRank(i) <= TitleRank(idx[k]) else TitleRank(idx[k]) <= TitleRank(i)
  {
    forall k | 0 <= k < |idx|
      ensures idx[k] !in idx[..k]
    {
      forall j | 0 <= j < k
        ensures idx[..k][j] != idx[k]
      {
        KeysIncrease(idx, dir, j, k);
      }
    }
    forall k, i | 0 <= k < |idx| && 0 <= i < F.GameCount && i !in idx[..k]
      ensures Key(idx[k], dir) <= Key(i, dir)
    {
      var last := |idx| - 1;
      if k < last {
        KeysIncrease(idx, dir, k, last);
      }
      forall j | 0 <= j < k
        ensures idx[j] != i
      {
        assert idx[..k][j] == idx[j];
      }
      if i in idx {
        var j :| 0 <= j < |idx| && idx[j] == i;
        if j > k {
          KeysIncrease(idx, dir, k, j);
        }
      }
    }
  }

  /**
   * Sorted by title, the fixture games start with the games `idx` lists when
   * the listed games lead the title order `dir`.
   */
  lemma TitleSortedFront(cat: seq<Entry>, dir: Direction, idx: seq<nat>)
    requires FixtureCatalogue(cat) && LeadsByKey(idx, dir)
    ensures |idx| <= F.GameCount
    ensures SortEntries(cat, dir)[..|idx|] == Listed(cat, idx)
  {
    var s := SortEntries(cat, dir);
    var front := Listed(cat, idx);
    ReorderedUniqueTitles(cat, s);
    LeadsStep(idx, dir);
    forall k | 0 <= k < |front|
      ensures front[k] in multiset(s) - multiset(front[..k])
      ensures forall x :: x in multiset(s) - multiset(front[..k]) ==> InOrder(front[k], x, dir)
    {
      FrontStep(cat, s, dir, idx, k);
    }
    SortedFront(s, dir, front);
    assert |s| == |multiset(s)| == |cat|;
  }

  /** The query of the two title-order use cases: a descending sort leaves the direction out. */
  function TitleQuery(dir: Direction): Query {
    Query(None, None, Some(Title), if dir == Descending then None else Some(Ascending), NoFilter)
  }

  lemma TitleOrderTitles(cat: seq<Entry>, dir: Direction, idx: seq<nat>, uc: UseCase)
    requires FixtureCatalogue(cat) && LeadsByKey(idx, dir) && |idx| == 10
    requires uc.query == TitleQuery(dir)
    requires uc.titles == seq(10, k requires 0 <= k < 10 => F.Title(idx[k]))
    ensures ShowsTitles(cat, uc)
  {
    var q := TitleQuery(dir);
    var sorted := SortEntries(cat, dir);
    UnfilteredItems(cat, q);
    assert |sorted| == F.GameCount by {
      assert |sorted| == |multiset(sorted)| == |multiset(cat)| == |cat|;
    }
    assert PageSlice(sorted, 1, 10) == sorted[..10];
    TitleSortedFront(cat, dir, idx);
  }

  /**
   * The first page in title order, for a listing `idx` that leads that order:
   * the default summary and bar, and the titles of the listed games.
   */
  lemma TitleOrderFirstPage(cat: seq<Entry>, dir: Direction, idx: seq<nat>, titles: seq<string>)
    requires FixtureCatalogue(cat) && LeadsByKey(idx, dir) && |idx| == 10
    requires titles == seq(10, k requires 0 <= k < 10 => F.Title(idx[k]))
    ensures Shows(cat, ExpectedUseCase(TitleQuery(dir), 10, 1, 10, 50, Some(1), None, Some(titles)))
  {
    var q := TitleQuery(dir);
    var uc := ExpectedUseCase(q, 10, 1, 10, 50, Some(1), None, Some(titles));
    assert uc == ExpectedUseCase(q, 10, 1, 10, 50, Some(1), Some(DefaultNumbers), Some(titles)) by {
      assert TotalPages(50, 10) == 5;
    }
    assert Window(1, 5) == DefaultNumbers;
    UnfilteredSummary(cat, q, Some(titles));
    TitleOrderTitles(cat, dir, idx, uc);
  }

  /** The games on the first page of the descending title order, by index. */
  const DescendingLead: seq<nat> := [9, 8, 7, 6, 5, 49, 48, 47, 46, 45]

  /** The games on the first page of the ascending title order, by index. */
  const AscendingLead: seq<nat> := [0, 1, 10, 11, 12, 13, 14, 15, 16, 17]

  lemma DescendingLeads()
    ensures LeadsByKey(DescendingLead, Descending)
  {
    var idx := DescendingLead;
    assert forall k :: 0 < k < |idx| ==> Key(idx[k - 1], Descending) < Key(idx[k], Descending);
    assert Key(idx[|idx| - 1], Descending) == -91;
    forall i: nat | i < F.GameCount && Key(i, Descending) <= -91
      ensures i in idx
    {
      if i < 10 {
        assert 5 <= i;
        assert idx[9 - i] == i;
      } else {
        assert 45 <= i;
        assert idx[54 - i] == i;
      }
    }
  }

  lemma AscendingLeads()
    ensures LeadsByKey(AscendingLead, Ascending)
  {
    var idx := AscendingLead;
    assert forall k :: 0 < k < |idx| ==> Key(idx[k - 1], Ascending) < Key(idx[k], Ascending);
    assert Key(idx[|idx| - 1], Ascending) == 35;
    forall i: nat | i < F.GameCount && Key(i, Ascending) <= 35
      ensures i in idx
    {
      if i < 10 {
        assert i <= 1;
        assert idx[i] == i;
      } else {
        assert i <= 17;
        assert idx[i - 8] == i;
      }
    }
  }

  /** "First page, sorting by title": descending character-code order starts 9, 8, 7, 6, 5, 49, ..., 45. */
  lemma TitleDescendingCase(cat: seq<Entry>)
    requires FixtureCatalogue(cat)
    ensures Shows(cat, ExpectedUseCase(Query(None, None, Some(Title), None, NoFilter), 10, 1, 10, 50, Some(1), None,
      Some(["Jeu vidéo 9", "Jeu vidéo 8", "Jeu vidéo 7", "Jeu vidéo 6", "Jeu vidéo 5",
            "Jeu vidéo 49", "Jeu vidéo 48", "Jeu vidéo 47", "Jeu vidéo 46", "Jeu vidéo 45"])))
  {
    var titles := ["Jeu vidéo 9", "Jeu vidéo 8", "Jeu vidéo 7", "Jeu vidéo 6", "Jeu vidéo 5",
                   "Jeu vidéo 49", "Jeu vidéo 48", "Jeu vidéo 47", "Jeu vidéo 46", "Jeu vidéo 45"];
    assert F.Title(9) == "Jeu vidéo 9";
    assert F.Title(8) == "Jeu vidéo 8";
    assert F.Title(7) == "Jeu vidéo 7";
    assert F.Title(6) == "Jeu vidéo 6";
    assert F.Title(5) == "Jeu vidéo 5";
    assert F.Title(49) == "Jeu vidéo 49";
    assert F.Title(48) == "Jeu vidéo 48";
    assert F.Title(47) == "Jeu vidéo 47";
    assert F.Title(46) == "Jeu vidéo 46";
    assert F.Title(45) == "Jeu vidéo 45";
    assert titles == seq(10, k requires 0 <= k < 10 => F.Title(DescendingLead[k]));
    DescendingLeads();
    TitleOrderFirstPage(cat, Descending, DescendingLead, titles);
  }

  /** "... direction on ascending": ascending order starts 0, 1, 10, 11, ..., 17. */
  lemma TitleAscendingCase(cat: seq<Entry>)
    requires FixtureCatalogue(cat)
    ensures Shows(cat, ExpectedUseCase(Query(None, None, Some(Title), Some(Ascending), NoFilter), 10, 1, 10, 50, Some(1), None,
      Some(["Jeu vidéo 0", "Jeu vidéo 1", "Jeu vidéo 10", "Jeu vidéo 11", "Jeu vidéo 12",
            "Jeu vidéo 13", "Jeu vidéo 14", "Jeu vidéo 15", "Jeu vidéo 16", "Jeu vidéo 17"])))
  {
    var titles := ["Jeu vidéo 0", "Jeu vidéo 1", "Jeu vidéo 10", "Jeu vidéo 11", "Jeu vidéo 12",
                   "Jeu vidéo 13", "Jeu vidéo 14", "Jeu vidéo 15", "Jeu vidéo 16", "Jeu vidéo 17"];
    assert F.Title(0) == "Jeu vidéo 0";
    assert F.Title(1) == "Jeu vidéo 1";
    assert F.Title(10) == "Jeu vidéo 10";
    assert F.Title(11) == "Jeu vidéo 11";
    assert F.Title(12) == "Jeu vidéo 12";
    assert F.Title(13) == "Jeu vidéo 13";
    assert F.Title(14) == "Jeu vidéo 14";
    assert F.Title(15) == "Jeu vidéo 15";
    assert F.Title(16) == "Jeu vidéo 16";
    assert F.Title(17) == "Jeu vidéo 17";
    assert titles == seq(10, k requires 0 <= k < 10 => F.Title(AscendingLead[k]));
    AscendingLeads();
    TitleOrderFirstPage(cat, Ascending, AscendingLead, titles);
  }

  /** A two-digit fixture title occurs in no other fixture title. */
  lemma OtherTitlesMiss(i: nat, j: nat)
    requires i < 100 && 10 <= j < 100 && i != j
    ensures !Contains(F.Title(i), F.Title(j))
  {
    var hay, needle := F.Title(i), F.Title(j);
    F.NatToStringLength(i);
    F.NatToStringLength(j);
    forall p | OccursAt(hay, needle, p)
      ensures false
    {
      assert p == 0 && hay[p..p + |needle|] == hay;
      F.TitlesDiffer(i, j);
    }
  }

  /** Among the fixture games only game `j` matches the search for its own title. */
  lemma SearchMatchesOnlyItself(cat: seq<Entry>, j: nat)
    requires FixtureCatalogue(cat) && 10 <= j < F.GameCount
    ensures FilterEntries(cat, Filter(Some(F.Title(j)), {})) == Listed(cat, [j])
  {
    var f := Filter(Some(F.Title(j)), {});
    forall i | 0 <= i < |cat|
      ensures Matches(cat[i], f) <==> i in [j]
    {
      if i == j {
        assert OccursAt(cat[j].title, F.Title(j), 0);
      } else {
        OtherTitlesMiss(i, j);
      }
    }
    FilterPositions(cat, f, [j]);
  }

  // ---------- Listings that fit on one page ----------

  lemma SliceOfFew(items: seq<Entry>)
    requires |items| <= 10
    ensures PageSlice(items, 1, 10) == items
  {
  }

  /** A query with no page, limit or sorting lists page 1 of 10 in catalogue order. */
  lemma DefaultPaging(cat: seq<Entry>, f: Filter)
    ensures List(cat, Query(None, None, None, None, f)) == Ok(Build(cat, f, 1, 10, Default, Descending))
  {
  }

  lemma FewMatchesItems(cat: seq<Entry>, f: Filter, idx: seq<nat>)
    requires forall k :: 0 <= k < |idx| ==> idx[k] < |cat|
    requires FilterEntries(cat, f) == Listed(cat, idx) && |idx| <= 10
    ensures var p := Build(cat, f, 1, 10, Default, Descending);
      p.items == Listed(cat, idx) && p.total == |idx|
  {
    SliceOfFew(Listed(cat, idx));
  }

  lemma FewMatchesNoBar(cat: seq<Entry>, f: Filter, idx: seq<nat>)
    requires forall k :: 0 <= k < |idx| ==> idx[k] < |cat|
    requires FilterEntries(cat, f) == Listed(cat, idx) && |idx| <= 10
    ensures var p := Build(cat, f, 1, 10, Default, Descending);
      p.links == [] && p.offsetTo == |idx|
  {
    NoPaginationOnSinglePage(cat, f, 1, 10, Default, Descending);
  }

  /** The page of a filter matching at most ten entries holds them all, with no pagination bar. */
  lemma FewMatchesBuild(cat: seq<Entry>, f: Filter, idx: seq<nat>)
    requires forall k :: 0 <= k < |idx| ==> idx[k] < |cat|
    requires FilterEntries(cat, f) == Listed(cat, idx) && |idx| <= 10
    ensures Build(cat, f, 1, 10, Default, Descending)
         == Page(Listed(cat, idx), |idx|, 1, 10, 1, |idx|, TotalPages(|idx|, 10), [])
  {
    FewMatchesItems(cat, f, idx);
    FewMatchesNoBar(cat, f, idx);
  }

  lemma FewMatchesList(cat: seq<Entry>, f: Filter, idx: seq<nat>)
    requires forall k :: 0 <= k < |idx| ==> idx[k] < |cat|
    requires FilterEntries(cat, f) == Listed(cat, idx) && |idx| <= 10
    ensures List(cat, Query(None, None, None, None, f))
         == Ok(Page(Listed(cat, idx), |idx|, 1, 10, 1, |idx|, TotalPages(|idx|, 10), []))
  {
    DefaultPaging(cat, f);
    FewMatchesBuild(cat, f, idx);
  }

  /** Such a page is what a use case of `|items|` cards, all matches, no bar and the given titles expects. */
  lemma FewCardsMatch(f: Filter, items: seq<Entry>, titles: seq<string>)
    requires |items| <= 10 && titles == seq(|items|, k requires 0 <= k < |items| => items[k].title)
    ensures var n := |items|;
      var uc := ExpectedUseCase(Query(None, None, None, None, f), n, 1, n, n, None, None, Some(titles));
      var p := Page(items, n, 1, 10, 1, n, TotalPages(n, 10), []);
      SummaryMatches(p, uc) && TitlesMatch(p, uc)
  {
  }

  /**
   * A filter whose matches are the at most ten entries `idx` lists shows as a
   * use case with that many cards, no pagination bar and their titles in order.
   */
  lemma FewMatchesPage(cat: seq<Entry>, f: Filter, idx: seq<nat>, titles: seq<string>)
    requires forall k :: 0 <= k < |idx| ==> idx[k] < |cat|
    requires FilterEntries(cat, f) == Listed(cat, idx) && |idx| <= 10
    requires titles == seq(|idx|, k requires 0 <= k < |idx| => cat[idx[k]].title)
    ensures var n := |idx|;
      Shows(cat, ExpectedUseCase(Query(None, None, None, None, f), n, 1, n, n, None, None, Some(titles)))
  {
    FewMatchesList(cat, f, idx);
    FewCardsMatch(f, Listed(cat, idx), titles);
  }

  /** "First page, filter by search": searching "Jeu vidéo 49" lists that game alone, with no pagination bar. */
  lemma SearchCase(cat: seq<Entry>)
    requires FixtureCatalogue(cat)
    ensures Shows(cat, ExpectedUseCase(Query(None, None, None, None, Filter(Some("Jeu vidéo 49"), {})),
      1, 1, 1, 1, None, None, Some(["Jeu vidéo 49"])))
  {
    var f := Filter(Some("Jeu vidéo 49"), {});
    SearchMatchesOnlyItself(cat, 49);
    assert F.Title(49) == "Jeu vidéo 49";
    FewMatchesPage(cat, f, [49], ["Jeu vidéo 49"]);
  }

  // ---------- The provider, as written ----------

  /** Titles that are the default run from `start` are `DefaultTitles(start, count)`. */
  lemma DefaultTitlesAgree(titles: seq<string>, start: int, count: nat)
    requires |titles| == count && forall k :: 0 <= k < count ==> titles[k] == IndexTitle(start + k)
    ensures titles == DefaultTitles(start, count)
  {
  }

  /**
   * The five unfiltered entries of `provideUseCases` (first page, page 2, last
   * page, limit 25, limit 50) built with `createUseCase` as written. Each paged
   * entry shows a full page (count == limit), so counting pages by the cards
   * gives the same labels, and each is exactly the corrected use case its
   * lemma above proves the listing shows.
   */
  method PagedProviderAsWritten() returns (ucs: seq<UseCase>)
    ensures |ucs| == 5
    ensures ucs[0] == ExpectedUseCase(DefaultQuery, 10, 1, 10, 50, Some(1), None, None)
    ensures ucs[1] == ExpectedUseCase(Query(Some(2), None, None, None, NoFilter), 10, 11, 20, 50, Some(2),
      Some([Number(1), Number(2), Number(3), Number(4), Number(5)]), None)
    ensures ucs[2] == ExpectedUseCase(Query(Some(5), None, None, None, NoFilter), 10, 41, 50, 50, Some(5),
      Some([Number(2), Number(3), Number(4), Number(5)]), None)
    ensures ucs[3] == ExpectedUseCase(Query(None, Some(25), None, None, NoFilter), 25, 1, 25, 50, Some(1),
      Some([Number(1), Number(2)]), None)
    ensures ucs[4] == ExpectedUseCase(Query(None, Some(50), None, None, NoFilter), 50, 1, 50, 50, None, None, None)
  {
    var first := CreateUseCase(DefaultQuery, 10, 1, 10, 50, Some(1), None, None);
    DefaultTitlesAgree(first.titles, 0, 10);

    var second := CreateUseCase(Query(Some(2), None, None, None, NoFilter), 10, 11, 20, 50, Some(2),
      Some([Number(1), Number(2), Number(3), Number(4), Number(5)]), None);
    DefaultTitlesAgree(second.titles, 10, 10);

    var last := CreateUseCase(Query(Some(5), None, None, None, NoFilter), 10, 41, 50, 50, Some(5),
      Some([Number(2), Number(3), Number(4), Number(5)]), None);
    DefaultTitlesAgree(last.titles, 40, 10);

    var limit25 := CreateUseCase(Query(None, Some(25), None, None, NoFilter), 25, 1, 25, 50, Some(1),
      Some([Number(1), Number(2)]), None);
    DefaultTitlesAgree(limit25.titles, 0, 25);

    var limit50 := CreateUseCase(Query(None, Some(50), None, None, NoFilter), 50, 1, 50, 50, None, None, None);
    DefaultTitlesAgree(limit50.titles, 0, 50);

    ucs := [first, second, last, limit25, limit50];
  }

  /**
   * The two title-order entries of `provideUseCases`, as written: full first
   * pages with the given titles, equal to the corrected use cases of
   * `TitleDescendingCase` and `TitleAscendingCase`.
   */
  method TitleProviderAsWritten() returns (ucs: seq<UseCase>)
    ensures |ucs| == 2
    ensures ucs[0] == ExpectedUseCase(Query(None, None, Some(Title), None, NoFilter), 10, 1, 10, 50, Some(1), None,
      Some(["Jeu vidéo 9", "Jeu vidéo 8", "Jeu vidéo 7", "Jeu vidéo 6", "Jeu vidéo 5",
            "Jeu vidéo 49", "Jeu vidéo 48", "Jeu vidéo 47", "Jeu vidéo 46", "Jeu vidéo 45"]))
    ensures ucs[1] == ExpectedUseCase(Query(None, None, Some(Title), Some(Ascending), NoFilter), 10, 1, 10, 50, Some(1), None,
      Some(["Jeu vidéo 0", "Jeu vidéo 1", "Jeu vidéo 10", "Jeu vidéo 11", "Jeu vidéo 12",
            "Jeu vidéo 13", "Jeu vidéo 14", "Jeu vidéo 15", "Jeu vidéo 16", "Jeu vidéo 17"]))
  {
    var descending := CreateUseCase(Query(None, None, Some(Title), None, NoFilter), 10, 1, 10, 50, Some(1), None,
      Some(["Jeu vidéo 9", "Jeu vidéo 8", "Jeu vidéo 7", "Jeu vidéo 6", "Jeu vidéo 5",
            "Jeu vidéo 49", "Jeu vidéo 48", "Jeu vidéo 47", "Jeu vidéo 46", "Jeu vidéo 45"]));
    var ascending := CreateUseCase(Query(None, None, Some(Title), Some(Ascending), NoFilter), 10, 1, 10, 50, Some(1), None,
      Some(["Jeu vidéo 0", "Jeu vidéo 1", "Jeu vidéo 10", "Jeu vidéo 11", "Jeu vidéo 12",
            "Jeu vidéo 13", "Jeu vidéo 14", "Jeu vidéo 15", "Jeu vidéo 16", "Jeu vidéo 17"]));
    ucs := [descending, ascending];
  }

  /** The search entry of `provideUseCases`, as written: no page, so no labels; the use case of `SearchCase`. */
  method SearchProviderAsWritten() returns (uc: UseCase)
    ensures uc == ExpectedUseCase(Query(None, None, None, None, Filter(Some("Jeu vidéo 49"), {})),
      1, 1, 1, 1, None, None, Some(["Jeu vidéo 49"]))
  {
    uc := CreateUseCase(Query(None, None, None, None, Filter(Some("Jeu vidéo 49"), {})),
      1, 1, 1, 1, None, None, Some(["Jeu vidéo 49"]));
  }
}
