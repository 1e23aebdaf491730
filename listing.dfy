/**
 * The catalogue listing: a case-sensitive title search and an AND tag filter,
 * then catalogue or title order, then one page of the result together with
 * the summary offsets and the pagination labels.
 */
module Listing {
  import opened Wrappers

  /** What the listing sees of a game: its title and the ids of its tags. */
  datatype Entry = Entry(title: string, tags: set<nat>)

  datatype Sorting = Default | Title
  datatype Direction = Ascending | Descending

  /** `filter[search]` (absent: no text filter) and `filter[tags][]` (empty: no tag filter). */
  datatype Filter = Filter(search: Option<string>, tags: set<nat>)

  /** The request's query parameters; an absent one takes its default. */
  datatype Query = Query(
    page: Option<int>,
    limit: Option<int>,
    sorting: Option<Sorting>,
    direction: Option<Direction>,
    filter: Filter)

  /** A pagination item: "Première page", "Précédent", a page number, "Suivant", "Dernière page". */
  datatype Label = FirstPage | Previous | Number(n: nat) | Next | LastPage

  datatype Page = Page(
    items: seq<Entry>,
    total: nat,
    page: nat,
    limit: nat,
    offsetFrom: nat,
    offsetTo: nat,
    totalPages: nat,
    links: seq<Label>)

  datatype ListError = InvalidPage | InvalidLimit

  const DefaultPage := 1
  const DefaultLimit := 10
  const DefaultDirection := Descending

  function Min(a: int, b: int): int {
    if a <= b then a else b
  }

  function Max(a: int, b: int): int {
    if a <= b then b else a
  }

  // ---------- Search ----------

  /** `needle` occurs in `hay` starting at position `i`. */
  predicate OccursAt(hay: string, needle: string, i: int) {
    0 <= i && i + |needle| <= |hay| && hay[i..i + |needle|] == needle
  }

  lemma OccursAtShift(hay: string, needle: string, i: int)
    requires hay != [] && 0 <= i
    ensures OccursAt(hay[1..], needle, i) <==> OccursAt(hay, needle, i + 1)
  {
    if i + 1 + |needle| <= |hay| {
      assert hay[1..][i..i + |needle|] == hay[i + 1..i + 1 + |needle|];
    }
  }

  /** Case-sensitive substring test, scanning the title from the left. */
  function Contains(hay: string, needle: string): (b: bool)
    ensures b <==> exists i :: OccursAt(hay, needle, i)
    decreases |hay|
  {
    if |needle| > |hay| then
      false
    else if hay[..|needle|] == needle then
      assert OccursAt(hay, needle, 0);
      true
    else
      var rest := Contains(hay[1..], needle);
      assert rest ==> exists i :: OccursAt(hay, needle, i) by {
        if rest {
          var i :| OccursAt(hay[1..], needle, i);
          OccursAtShift(hay, needle, i);
        }
      }
      assert (exists i :: OccursAt(hay, needle, i)) ==> rest by {
        if exists i :: OccursAt(hay, needle, i) {
          var i :| OccursAt(hay, needle, i);
          assert i != 0;
          OccursAtShift(hay, needle, i - 1);
        }
      }
      rest
  }

  // ---------- Filter ----------

  /** The search and the tag filter, AND-combined; every requested tag must be on the game. */
  predicate Matches(e: Entry, f: Filter) {
    (f.search.None? || Contains(e.title, f.search.value)) && f.tags <= e.tags
  }

  /** The matching entries, in catalogue order. */
  function FilterEntries(cat: seq<Entry>, f: Filter): (r: seq<Entry>)
    ensures |r| <= |cat|
    ensures forall e :: e in r <==> e in cat && Matches(e, f)
  {
    if cat == [] then []
    else
      var rest, e := FilterEntries(cat[..|cat| - 1], f), cat[|cat| - 1];
      assert cat == cat[..|cat| - 1] + [e];
      if Matches(e, f) then rest + [e] else rest
  }

  /** Filtering keeps catalogue order: it distributes over concatenation. */
  lemma {:induction false} FilterAppend(a: seq<Entry>, b: seq<Entry>, f: Filter)
    ensures FilterEntries(a + b, f) == FilterEntries(a, f) + FilterEntries(b, f)
  {
    if b == [] {
      assert a + b == a;
    } else {
      var c, b' := a + b, b[..|b| - 1];
      assert c[..|c| - 1] == a + b' && c[|c| - 1] == b[|b| - 1];
      FilterAppend(a, b', f);
    }
  }

  /** With neither a search nor a tag the whole catalogue is listed. */
  lemma {:induction false} FilterNothing(cat: seq<Entry>)
    ensures FilterEntries(cat, Filter(None, {})) == cat
  {
    if cat != [] {
      FilterNothing(cat[..|cat| - 1]);
    }
  }

  /** The entries at positions `idx`, in that order. */
  function Listed(cat: seq<Entry>, idx: seq<nat>): (front: seq<Entry>)
    requires forall k :: 0 <= k < |idx| ==> idx[k] < |cat|
  {
    seq(|idx|, k requires 0 <= k < |idx| => cat[idx[k]])
  }

  /** The positions `idx` lists are below `bound`, in increasing order. */
  predicate Increasing(idx: seq<nat>, bound: nat) {
    && (forall k :: 0 <= k < |idx| ==> idx[k] < bound)
    && (forall j, k :: 0 <= j < k < |idx| ==> idx[j] < idx[k])
  }

  /** `idx` lists exactly the positions of `cat` whose entry matches `f`. */
  predicate MatchPositions(cat: seq<Entry>, f: Filter, idx: seq<nat>) {
    forall i :: 0 <= i < |cat| ==> (Matches(cat[i], f) <==> i in idx)
  }

  /** A matching last entry is the last position listed; the others are listed before it. */
  lemma LastMatchListedLast(cat: seq<Entry>, f: Filter, idx: seq<nat>)
    requires cat != [] && Increasing(idx, |cat|) && MatchPositions(cat, f, idx)
    requires Matches(cat[|cat| - 1], f)
    ensures |idx| > 0 && idx[|idx| - 1] == |cat| - 1
    ensures Increasing(idx[..|idx| - 1], |cat| - 1)
    ensures MatchPositions(cat[..|cat| - 1], f, idx[..|idx| - 1])
  {
    var m, last := |cat| - 1, |idx| - 1;
    var j :| 0 <= j < |idx| && idx[j] == m;
    assert idx[last] < |cat|;
    assert j == last;
    var idx' := idx[..last];
    forall k | 0 <= k < |idx'|
      ensures idx'[k] < m
    {
      assert idx[k] < idx[last];
    }
    forall i | 0 <= i < m
      ensures Matches(cat[..m][i], f) <==> i in idx'
    {
      if i in idx {
        var k :| 0 <= k < |idx| && idx[k] == i;
        assert k != last && idx'[k] == i;
      }
    }
  }

  /** A last entry that does not match is not listed: every listed position is before it. */
  lemma LastMissUnlisted(cat: seq<Entry>, f: Filter, idx: seq<nat>)
    requires cat != [] && Increasing(idx, |cat|) && MatchPositions(cat, f, idx)
    requires !Matches(cat[|cat| - 1], f)
    ensures Increasing(idx, |cat| - 1)
    ensures MatchPositions(cat[..|cat| - 1], f, idx)
  {
    forall k | 0 <= k < |idx|
      ensures idx[k] < |cat| - 1
    {
      assert idx[k] != |cat| - 1;
    }
  }

  /**
   * When the matching positions are exactly those `idx` lists in increasing
   * order, the filter lists those entries in that order.
   */
  lemma {:induction false} FilterPositions(cat: seq<Entry>, f: Filter, idx: seq<nat>)
    requires Increasing(idx, |cat|) && MatchPositions(cat, f, idx)
    ensures FilterEntries(cat, f) == Listed(cat, idx)
  {
    if cat != [] {
      var m := |cat| - 1;
      var init := cat[..m];
      if Matches(cat[m], f) {
        LastMatchListedLast(cat, f, idx);
        var idx' := idx[..|idx| - 1];
        FilterPositions(init, f, idx');
        assert Listed(cat, idx) == Listed(init, idx') + [cat[m]];
      } else {
        LastMissUnlisted(cat, f, idx);
        FilterPositions(init, f, idx);
        assert Listed(cat, idx) == Listed(init, idx);
      }
    } else {
      assert |idx| == 0;
    }
  }

  /**
   * The tag filter is an AND: requesting more tags filters the previous
   * result further, so the result only shrinks and keeps its order.
   */
  lemma {:induction false} MoreTagsNarrow(cat: seq<Entry>, search: Option<string>, tags: set<nat>, more: set<nat>)
    requires tags <= more
    ensures FilterEntries(cat, Filter(search, more))
         == FilterEntries(FilterEntries(cat, Filter(search, tags)), Filter(search, more))
    ensures |FilterEntries(cat, Filter(search, more))| <= |FilterEntries(cat, Filter(search, tags))|
  {
    if cat != [] {
      var init, e := cat[..|cat| - 1], cat[|cat| - 1];
      MoreTagsNarrow(init, search, tags, more);
      var narrow := FilterEntries(init, Filter(search, tags));
      FilterAppend(narrow, [e], Filter(search, more));
      assert [e][..0] == [];
    }
  }

  // ---------- Title order ----------

  /** Plain lexicographic order on character codes (not numeric-aware). */
  predicate LexLe(a: string, b: string)
    decreases |a|
  {
    if a == [] then true
    else if b == [] then false
    else if a[0] != b[0] then a[0] < b[0]
    else LexLe(a[1..], b[1..])
  }

  lemma {:induction false} LexLeTotal(a: string, b: string)
    ensures LexLe(a, b) || LexLe(b, a)
    decreases |a|
  {
    if a != [] && b != [] && a[0] == b[0] {
      LexLeTotal(a[1..], b[1..]);
    }
  }

  lemma {:induction false} LexLeTransitive(a: string, b: string, c: string)
    requires LexLe(a, b) && LexLe(b, c)
    ensures LexLe(a, c)
    decreases |a|
  {
    if a != [] && b != [] && c != [] && a[0] == b[0] && b[0] == c[0] {
      LexLeTransitive(a[1..], b[1..], c[1..]);
    }
  }

  lemma {:induction false} LexLeAntisymmetric(a: string, b: string)
    requires LexLe(a, b) && LexLe(b, a)
    ensures a == b
    decreases |a|
  {
    if a != [] {
      LexLeAntisymmetric(a[1..], b[1..]);
      assert a == [a[0]] + a[1..] && b == [b[0]] + b[1..];
    }
  }

  /** A proper prefix comes first: "Jeu vidéo 1" before "Jeu vidéo 10". */
  lemma {:induction false} LexLePrefix(a: string, b: string)
    ensures LexLe(a, a + b)
    decreases |a|
  {
    if a != [] {
      assert (a + b)[1..] == a[1..] + b;
      LexLePrefix(a[1..], b);
    }
  }

  /** A common prefix does not decide the order. */
  lemma {:induction false} LexLeCommonPrefix(p: string, a: string, b: string)
    ensures LexLe(p + a, p + b) == LexLe(a, b)
    decreases |p|
  {
    if p != [] {
      assert (p + a)[1..] == p[1..] + a && (p + b)[1..] == p[1..] + b;
      LexLeCommonPrefix(p[1..], a, b);
    } else {
      assert p + a == a && p + b == b;
    }
  }

  /** `a` may be listed before `b` in the given direction of title order. */
  predicate InOrder(a: Entry, b: Entry, dir: Direction) {
    if dir == Ascending then LexLe(a.title, b.title) else LexLe(b.title, a.title)
  }

  lemma InOrderTotal(a: Entry, b: Entry, dir: Direction)
    ensures InOrder(a, b, dir) || InOrder(b, a, dir)
  {
    LexLeTotal(a.title, b.title);
  }

  /** Each entry may precede the next one. */
  predicate Sorted(s: seq<Entry>, dir: Direction) {
    forall i :: 0 < i < |s| ==> InOrder(s[i - 1], s[i], dir)
  }

  /** Inserts `e` before the first entry it may precede (so before equal titles). */
  function Insert(e: Entry, s: seq<Entry>, dir: Direction): (r: seq<Entry>)
    requires Sorted(s, dir)
    ensures Sorted(r, dir)
    ensures multiset(r) == multiset(s) + multiset{e}
    ensures |r| == |s| + 1 && (r[0] == e || (s != [] && r[0] == s[0]))
  {
    if s == [] then [e]
    else if InOrder(e, s[0], dir) then [e] + s
    else
      InOrderTotal(e, s[0], dir);
      var rest := Insert(e, s[1..], dir);
      assert s == [s[0]] + s[1..];
      [s[0]] + rest
  }

  /** Title order in the given direction: sorted, and a permutation of the input. */
  function SortEntries(s: seq<Entry>, dir: Direction): (r: seq<Entry>)
    ensures Sorted(r, dir)
    ensures multiset(r) == multiset(s)
  {
    if s == [] then []
    else
      assert s == [s[0]] + s[1..];
      Insert(s[0], SortEntries(s[1..], dir), dir)
  }

  /** Sortedness of neighbours extends to every pair. */
  lemma {:induction false} SortedPairwise(s: seq<Entry>, dir: Direction, i: nat, j: nat)
    requires Sorted(s, dir) && i < j < |s|
    ensures InOrder(s[i], s[j], dir)
    decreases j - i
  {
    if i + 1 < j {
      SortedPairwise(s, dir, i + 1, j);
      if dir == Ascending {
        LexLeTransitive(s[i].title, s[i + 1].title, s[j].title);
      } else {
        LexLeTransitive(s[j].title, s[i + 1].title, s[i].title);
      }
    }
  }

  /** Entries with the same title are the same entry. */
  predicate UniqueTitles(s: seq<Entry>) {
    forall i, j :: 0 <= i < |s| && 0 <= j < |s| && s[i].title == s[j].title ==> s[i] == s[j]
  }

  /** An entry that may precede every entry of a sorted list is its first. */
  lemma SortedHead(s: seq<Entry>, dir: Direction, e: Entry)
    requires Sorted(s, dir) && UniqueTitles(s) && e in s
    requires forall x :: x in s ==> InOrder(e, x, dir)
    ensures s[0] == e
  {
    var j :| 0 <= j < |s| && s[j] == e;
    assert InOrder(e, s[0], dir) by {
      assert s[0] in s;
    }
    if j > 0 {
      SortedPairwise(s, dir, 0, j);
    }
    if dir == Ascending {
      LexLeAntisymmetric(s[0].title, e.title);
    } else {
      LexLeAntisymmetric(e.title, s[0].title);
    }
  }

  lemma TakeFirst(s: seq<Entry>, front: seq<Entry>, k: nat)
    requires s != [] && front != [] && s[0] == front[0] && k < |front|
    ensures multiset(s[1..]) - multiset(front[1..][..k]) == multiset(s) - multiset(front[..k + 1])
  {
    assert s == [s[0]] + s[1..];
    assert front[..k + 1] == [s[0]] + front[1..][..k];
  }

  /**
   * The front of a sorted list is fixed by the order alone: when each
   * `front[k]` may precede everything left once `front[..k]` is taken out,
   * the list starts with `front`.
   */
  lemma {:induction false} SortedFront(s: seq<Entry>, dir: Direction, front: seq<Entry>)
    requires Sorted(s, dir) && UniqueTitles(s)
    requires forall k :: 0 <= k < |front| ==> front[k] in multiset(s) - multiset(front[..k])
    requires forall k, x :: 0 <= k < |front| && x in multiset(s) - multiset(front[..k]) ==> InOrder(front[k], x, dir)
    ensures |front| <= |s| && s[..|front|] == front
  {
    if front != [] {
      assert front[..0] == [];
      SortedHead(s, dir, front[0]);
      var s', front' := s[1..], front[1..];
      forall k | 0 <= k < |front'|
        ensures multiset(s') - multiset(front'[..k]) == multiset(s) - multiset(front[..k + 1])
      {
        TakeFirst(s, front, k);
      }
      SortedFront(s', dir, front');
      ConsPrefix(s, front);
    }
  }
  lemma ConsPrefix(s: seq<Entry>, front: seq<Entry>)
    requires s != [] && front != [] && s[0] == front[0]
    requires |front| - 1 <= |s| - 1 && s[1..][..|front| - 1] == front[1..]
    ensures |front| <= |s| && s[..|front|] == front
  {
    assert s[..|front|] == [s[0]] + s[1..][..|front| - 1];
    assert front == [front[0]] + front[1..];
  }

  /** The requested order: catalogue order by default, title order otherwise. */
  function Arrange(s: seq<Entry>, sorting: Sorting, dir: Direction): (r: seq<Entry>)
    ensures multiset(r) == multiset(s)
  {
    match sorting
    case Default => s
    case Title => SortEntries(s, dir)
  }

  // ---------- Page window ----------

  /** Number of pages: the least count of `limit`-sized pages holding `total` entries. */
  function TotalPages(total: nat, limit: nat): (r: nat)
    requires limit >= 1
    ensures total <= r * limit
    ensures r == 0 || (r - 1) * limit < total
  {
    var q := (total + limit - 1) / limit;
    assert q * limit <= total + limit - 1 < q * limit + limit;
    assert (q - 1) * limit == q * limit - limit;
    q
  }

  /** One-based position of the page's first entry in the summary. */
  function OffsetFrom(page: nat, limit: nat): nat
    requires page >= 1
  {
    (page - 1) * limit + 1
  }

  /** One-based position of the page's last entry in the summary. */
  function OffsetTo(page: nat, limit: nat, total: nat): nat {
    Min(page * limit, total)
  }

  /** The page's slice `[(page-1)*limit, page*limit)`, clamped to the list. */
  function PageSlice(items: seq<Entry>, page: nat, limit: nat): (r: seq<Entry>)
    requires page >= 1
  {
    items[Min((page - 1) * limit, |items|)..Min(page * limit, |items|)]
  }

  lemma MulMonotone(a: nat, b: nat, m: nat)
    requires a <= b
    ensures a * m <= b * m
  {
    assert b * m - a * m == (b - a) * m;
  }

  /**
   * A page within range shows entries `offsetFrom` to `offsetTo` (one-based,
   * inclusive); a page past the last one is empty.
   */
  lemma PageWindow(items: seq<Entry>, page: nat, limit: nat)
    requires page >= 1 && limit >= 1
    ensures var r, pages := PageSlice(items, page, limit), TotalPages(|items|, limit);
      var from, to := OffsetFrom(page, limit), OffsetTo(page, limit, |items|);
      && (page <= pages ==>
            && 1 <= from <= to <= |items|
            && |r| == to - from + 1
            && forall k :: 0 <= k < |r| ==> r[k] == items[from - 1 + k])
      && (page > pages ==> r == [])
  {
    var pages := TotalPages(|items|, limit);
    var lo, hi := (page - 1) * limit, page * limit;
    assert hi == lo + limit;
    if page <= pages {
      MulMonotone(page - 1, pages - 1, limit);
      assert lo < |items|;
    } else {
      MulMonotone(pages, page - 1, limit);
      assert lo >= |items|;
    }
  }

  /** Pages 1..k laid end to end. */
  function Pages(items: seq<Entry>, limit: nat, k: nat): seq<Entry> {
    if k == 0 then [] else Pages(items, limit, k - 1) + PageSlice(items, k, limit)
  }

  lemma {:induction false} PagesPrefix(items: seq<Entry>, limit: nat, k: nat)
    ensures Pages(items, limit, k) == items[..Min(k * limit, |items|)]
  {
    if k > 0 {
      PagesPrefix(items, limit, k - 1);
      assert k * limit == (k - 1) * limit + limit;
      var a, b := Min((k - 1) * limit, |items|), Min(k * limit, |items|);
      assert items[..b] == items[..a] + items[a..b];
    }
  }

  /** The pages partition the listing: together they hold every entry once, in order. */
  lemma PagesCoverAll(items: seq<Entry>, limit: nat)
    requires limit >= 1
    ensures Pages(items, limit, TotalPages(|items|, limit)) == items
  {
    PagesPrefix(items, limit, TotalPages(|items|, limit));
  }

  // ---------- Pagination labels ----------

  /** The page numbers from `lo` to `hi`, ascending. */
  function Numbers(lo: int, hi: int): (r: seq<Label>)
    requires lo >= 1
    ensures forall n: nat :: Number(n) in r <==> lo <= n <= hi
    ensures forall l :: l in r ==> l.Number?
    ensures |r| == if lo <= hi then hi - lo + 1 else 0
    decreases hi - lo
  {
    if lo > hi then [] else [Number(lo)] + Numbers(lo + 1, hi)
  }

  /** The page numbers within three of the current page, clamped to 1..pages. */
  function Window(page: nat, pages: nat): (r: seq<Label>)
    requires page >= 1
    ensures forall n: nat :: Number(n) in r <==> 1 <= n <= pages && page - 3 <= n <= page + 3
  {
    Numbers(Max(1, page - 3), Min(pages, page + 3))
  }

  /**
   * The pagination bar: nothing when everything fits on one page; otherwise
   * the page numbers within three of the current page, preceded by
   * "Première page"/"Précédent" past the first page and followed by
   * "Suivant"/"Dernière page" before the last one.
   */
  function PaginationLinks(page: nat, pages: nat): (r: seq<Label>)
    requires page >= 1
    ensures r == [] <==> pages <= 1
    ensures pages > 1 ==> (FirstPage in r <==> page > 1) && (Previous in r <==> page > 1)
    ensures pages > 1 ==> (Next in r <==> page < pages) && (LastPage in r <==> page < pages)
    ensures forall n: nat :: Number(n) in r <==> pages > 1 && 1 <= n <= pages && page - 3 <= n <= page + 3
    ensures page <= pages && pages > 1 ==> Number(page) in r
  {
    if pages <= 1 then []
    else
      (if page > 1 then [FirstPage, Previous] else [])
      + Window(page, pages)
      + (if page < pages then [Next, LastPage] else [])
  }

  // ---------- The listing ----------

  /** The page a valid request produces: filter, count, order, cut out the page. */
  function Build(cat: seq<Entry>, f: Filter, page: nat, limit: nat, sorting: Sorting, dir: Direction): Page
    requires page >= 1 && limit >= 1
  {
    var matching := FilterEntries(cat, f);
    var total := |matching|;
    var pages := TotalPages(total, limit);
    Page(
      PageSlice(Arrange(matching, sorting, dir), page, limit),
      total, page, limit,
      OffsetFrom(page, limit), OffsetTo(page, limit, total),
      pages, PaginationLinks(page, pages))
  }

  /**
   * `list`: applies the defaults (page 1, limit 10, catalogue order, title
   * order descending), rejects a page or a limit below 1, then builds the page.
   */
  function List(cat: seq<Entry>, q: Query): (r: Result<Page, ListError>)
    ensures r.Err? <==> PageOf(q) < 1 || LimitOf(q) < 1
    ensures r.Ok? ==> r.value == Build(cat, q.filter, PageOf(q), LimitOf(q), SortingOf(q), DirectionOf(q))
  {
    var page, limit := PageOf(q), LimitOf(q);
    if page < 1 then Err(InvalidPage)
    else if limit < 1 then Err(InvalidLimit)
    else Ok(Build(cat, q.filter, page, limit, SortingOf(q), DirectionOf(q)))
  }

  function PageOf(q: Query): int {
    if q.page.Some? then q.page.value else DefaultPage
  }

  function LimitOf(q: Query): int {
    if q.limit.Some? then q.limit.value else DefaultLimit
  }

  function SortingOf(q: Query): Sorting {
    if q.sorting.Some? then q.sorting.value else Default
  }

  function DirectionOf(q: Query): Direction {
    if q.direction.Some? then q.direction.value else DefaultDirection
  }

  lemma ItemsComeFromMatching(cat: seq<Entry>, f: Filter, page: nat, limit: nat, sorting: Sorting, dir: Direction)
    requires page >= 1 && limit >= 1
    ensures forall e :: e in Build(cat, f, page, limit, sorting, dir).items ==> e in cat && Matches(e, f)
  {
    var ordered := Arrange(FilterEntries(cat, f), sorting, dir);
    forall e | e in Build(cat, f, page, limit, sorting, dir).items
      ensures e in cat && Matches(e, f)
    {
      assert e in multiset(ordered);
    }
  }

  lemma PageOfSortedIsSorted(s: seq<Entry>, dir: Direction, page: nat, limit: nat)
    requires page >= 1 && Sorted(s, dir)
    ensures Sorted(PageSlice(s, page, limit), dir)
  {
    var lo := Min((page - 1) * limit, |s|);
    var r := PageSlice(s, page, limit);
    forall i | 0 < i < |r|
      ensures InOrder(r[i - 1], r[i], dir)
    {
      assert r[i - 1] == s[lo + i - 1] && r[i] == s[lo + i];
    }
  }

  /**
   * What a listing promises: `total` counts the matching games, every item
   * shown matches, the page holds `offsetTo - offsetFrom + 1` items (none
   * past the last page), title order is respected, the default order keeps
   * the catalogue's, and the bar is absent exactly when one page suffices.
   */
  lemma BuildContract(cat: seq<Entry>, f: Filter, page: nat, limit: nat, sorting: Sorting, dir: Direction)
    requires page >= 1 && limit >= 1
    ensures var p, matching := Build(cat, f, page, limit, sorting, dir), FilterEntries(cat, f);
      && p.total == |matching|
      && (forall e :: e in p.items ==> e in cat && Matches(e, f))
      && (page <= p.totalPages ==> |p.items| == p.offsetTo - p.offsetFrom + 1)
      && (page > p.totalPages ==> p.items == [])
      && (sorting == Title ==> Sorted(p.items, dir))
      && (sorting == Default ==> p.items == PageSlice(matching, page, limit))
      && (p.links == [] <==> p.totalPages <= 1)
  {
    var matching := FilterEntries(cat, f);
    var ordered := Arrange(matching, sorting, dir);
    assert |ordered| == |multiset(ordered)| == |multiset(matching)| == |matching|;
    PageWindow(ordered, page, limit);
    ItemsComeFromMatching(cat, f, page, limit, sorting, dir);
    if sorting == Title {
      PageOfSortedIsSorted(ordered, dir, page, limit);
    }
  }

  lemma TotalPagesAtMostOne(total: nat, limit: nat)
    requires 1 <= limit && total <= limit
    ensures TotalPages(total, limit) <= 1
  {
    var r := TotalPages(total, limit);
    if r > 1 {
      MulMonotone(1, r - 1, limit);
    }
  }

  /** A listing that fits on one page shows no pagination bar at all. */
  lemma NoPaginationOnSinglePage(cat: seq<Entry>, f: Filter, page: nat, limit: nat, sorting: Sorting, dir: Direction)
    requires page >= 1 && limit >= 1
    requires |FilterEntries(cat, f)| <= limit
    ensures Build(cat, f, page, limit, sorting, dir).links == []
  {
    TotalPagesAtMostOne(|FilterEntries(cat, f)|, limit);
  }
}
