/**
 * The read side of `IDBManager`: search, filtering, sorting, statistics and
 * pagination over a snapshot of the stores (what `getAll()` returned).
 */
module StoryQuery {
  import opened Wrappers
  import opened KeyOrder
  import opened Text
  import opened Seqs
  import opened Records
  import IdbManager

  // ---------------------------------------------------------------- search

  /** Newest first: `new Date(b.createdAt) - new Date(a.createdAt)`. */
  function NewestFirst(a: Story, b: Story): int {
    b.createdAt - a.createdAt
  }

  lemma NewestFirstConsistent()
    ensures Consistent(NewestFirst)
  {
  }

  /** `query.toLowerCase().trim()`. */
  function SearchTerm(query: string): string {
    Trim(ToLower(query))
  }

  /** The lower-cased name or description contains the term. */
  predicate Matches(s: Story, term: string) {
    Contains(ToLower(s.name), term) || Contains(ToLower(s.description), term)
  }

  function MatchTest(term: string): Story -> bool {
    s => Matches(s, term)
  }

  /**
   * `searchStories(query)`: an empty or blank query yields every story,
   * otherwise the matching ones; either way newest first.
   */
  function Search(stories: seq<Story>, query: string): (r: seq<Story>)
    ensures Trim(query) == "" ==> multiset(r) == multiset(stories)
    ensures Trim(query) != "" ==> multiset(r) == multiset(Filter(stories, MatchTest(SearchTerm(query))))
    ensures forall i, j :: 0 <= i < j < |r| ==> r[i].createdAt >= r[j].createdAt
  {
    var pool := if Trim(query) == "" then stories else Filter(stories, MatchTest(SearchTerm(query)));
    NewestFirstConsistent();
    SortPermutes(pool, NewestFirst);
    SortSorted(pool, NewestFirst);
    Sort(pool, NewestFirst)
  }

  /** What the search keeps: exactly the stored stories the query selects. */
  lemma SearchMembers(stories: seq<Story>, query: string, x: Story)
    ensures x in Search(stories, query) <==>
      x in stories && (Trim(query) == "" || Matches(x, SearchTerm(query)))
  {
    var pool := if Trim(query) == "" then stories else Filter(stories, MatchTest(SearchTerm(query)));
    MultisetMembers(Search(stories, query), pool, x);
    FilterMembers(stories, MatchTest(SearchTerm(query)), x);
  }

  // ---------------------------------------------------------------- filter

  datatype DateRange = DateRange(start: int, end: int)

  /** The argument of `filterStories`; an absent option is `false` / `None`. */
  datatype Filters = Filters(hasLocation: bool, dateRange: Option<DateRange>, favoritesOnly: bool)

  predicate InRange(s: Story, d: DateRange) {
    d.start <= s.createdAt <= d.end
  }

  /** `favorites.map(fav => fav.storyId)`. */
  function FavoriteIds(favorites: seq<Favorite>): (r: seq<string>)
    ensures |r| == |favorites|
    ensures forall i :: 0 <= i < |r| ==> r[i] == favorites[i].storyId
  {
    if favorites == [] then [] else [favorites[0].storyId] + FavoriteIds(favorites[1..])
  }

  function DateTest(d: DateRange): Story -> bool {
    s => InRange(s, d)
  }

  /** `favoriteIds.includes(story.id)`. */
  function FavoriteTest(favorites: seq<Favorite>): Story -> bool {
    (s: Story) => s.id in FavoriteIds(favorites)
  }

  /** `filterStories(filters)`: location, then date range, then favorites, each only when asked. */
  function FilterStories(stories: seq<Story>, favorites: seq<Favorite>, f: Filters): (r: seq<Story>)
    ensures |r| <= |stories|
    ensures forall i :: 0 <= i < |r| ==> r[i] in stories
    ensures !f.hasLocation && f.dateRange.None? && !f.favoritesOnly ==> r == stories
  {
    var a := if f.hasLocation then Filter(stories, HasCoordinates) else stories;
    var b := if f.dateRange.Some? then Filter(a, DateTest(f.dateRange.value)) else a;
    if f.favoritesOnly then Filter(b, FavoriteTest(favorites)) else b
  }

  /** The conjunction of the requested tests. */
  predicate Selected(f: Filters, favorites: seq<Favorite>, s: Story) {
    && (f.hasLocation ==> HasCoordinates(s))
    && (f.dateRange.Some? ==> InRange(s, f.dateRange.value))
    && (f.favoritesOnly ==> s.id in FavoriteIds(favorites))
  }

  /** The three tests of `filterStories`, each switched off when not requested, as one conjunction. */
  function Requested(f: Filters, favorites: seq<Favorite>): Story -> bool {
    var d := if f.dateRange.Some? then f.dateRange.value else DateRange(0, 0);
    Both(Both(When(f.hasLocation, HasCoordinates), When(f.dateRange.Some?, DateTest(d))),
      When(f.favoritesOnly, FavoriteTest(favorites)))
  }

  lemma FilterStoriesChain(stories: seq<Story>, favorites: seq<Favorite>, f: Filters)
    ensures FilterStories(stories, favorites, f) == Filter(stories, Requested(f, favorites))
  {
    var d := if f.dateRange.Some? then f.dateRange.value else DateRange(0, 0);
    var p1 := When(f.hasLocation, HasCoordinates);
    var p2 := When(f.dateRange.Some?, DateTest(d));
    var p3 := When(f.favoritesOnly, FavoriteTest(favorites));
    var a := if f.hasLocation then Filter(stories, HasCoordinates) else stories;
    var b := if f.dateRange.Some? then Filter(a, DateTest(d)) else a;
    FilterWhen(stories, f.hasLocation, HasCoordinates);
    FilterWhen(a, f.dateRange.Some?, DateTest(d));
    FilterWhen(b, f.favoritesOnly, FavoriteTest(favorites));
    FilterFilter(stories, p1, p2);
    FilterFilter(stories, Both(p1, p2), p3);
  }

  lemma RequestedIsSelected(f: Filters, favorites: seq<Favorite>, s: Story)
    ensures Requested(f, favorites)(s) == Selected(f, favorites, s)
  {
  }

  /** The filters apply conjunctively, and what is left keeps the store order. */
  lemma FilterStoriesConjunctive(stories: seq<Story>, favorites: seq<Favorite>, f: Filters)
    ensures FilterStories(stories, favorites, f) == Filter(stories, s => Selected(f, favorites, s))
    ensures IsSubsequence(FilterStories(stories, favorites, f), stories)
  {
    FilterStoriesChain(stories, favorites, f);
    forall i | 0 <= i < |stories|
      ensures Requested(f, favorites)(stories[i]) == Selected(f, favorites, stories[i])
    {
      RequestedIsSelected(f, favorites, stories[i]);
    }
    FilterExt(stories, Requested(f, favorites), s => Selected(f, favorites, s));
    FilterIsSubsequence(stories, s => Selected(f, favorites, s));
  }

  // ---------------------------------------------------------------- sort

  /** The story fields `sortStories` can order by. */
  datatype Field = Id | Name | Description | PhotoUrl | CreatedAt

  /** A field as a comparable value; `createdAt` compares as a date, the others as strings. */
  function FieldValue(s: Story, f: Field): Key {
    match f
    case Id => Str(s.id)
    case Name => Str(s.name)
    case Description => Str(s.description)
    case PhotoUrl => Str(s.photoUrl)
    case CreatedAt => Num(s.createdAt)
  }

  /** `a < b ? -1 : a > b ? 1 : 0`. */
  function Compare3(a: Key, b: Key): (r: int)
    ensures r == -1 || r == 0 || r == 1
    ensures r < 0 <==> KeyLess(a, b)
    ensures r > 0 <==> KeyLess(b, a)
    ensures r == 0 <==> a == b
  {
    KeyLessTotal(a, b);
    if KeyLess(a, b) then (KeyLessAsym(a, b); -1) else if KeyLess(b, a) then 1 else KeyLessIrreflexive(a); 0
  }

  lemma KeyLessAsym(a: Key, b: Key)
    requires KeyLess(a, b)
    ensures !KeyLess(b, a)
  {
    if KeyLess(b, a) {
      KeyLessTransitive(a, b, a);
      KeyLessIrreflexive(a);
    }
  }

  /** Ordered by `f`, reversed when `order` is `"desc"`. */
  function Directed(a: Story, b: Story, f: Field, order: string): int {
    var c := Compare3(FieldValue(a, f), FieldValue(b, f));
    if order == "desc" then -c else c
  }

  datatype SecondarySort = SecondarySort(field: Field, order: string)

  /** The comparator of `sortStories(sortBy, order, secondarySort)`. */
  function SortComparator(sortBy: Field, order: string, secondary: Option<SecondarySort>): (r: (Story, Story) -> int)
    ensures forall a, b :: -1 <= r(a, b) <= 1
    ensures forall a :: r(a, a) == 0
  {
    (a: Story, b: Story) =>
      var p := Directed(a, b, sortBy, order);
      if p == 0 && secondary.Some? then Directed(a, b, secondary.value.field, secondary.value.order) else p
  }

  /** `"desc"` negates only the primary comparison; a primary tie falls to the secondary order. */
  lemma DescNegatesPrimaryOnly(a: Story, b: Story, sortBy: Field, secondary: Option<SecondarySort>)
    ensures var p := Compare3(FieldValue(a, sortBy), FieldValue(b, sortBy));
      p != 0 ==> SortComparator(sortBy, "desc", secondary)(a, b) == -SortComparator(sortBy, "asc", secondary)(a, b)
    ensures var p := Compare3(FieldValue(a, sortBy), FieldValue(b, sortBy));
      p == 0 ==> SortComparator(sortBy, "desc", secondary)(a, b) == SortComparator(sortBy, "asc", secondary)(a, b)
  {
  }

  lemma DirectedFlip(a: Story, b: Story, f: Field, order: string)
    ensures Directed(b, a, f, order) == -Directed(a, b, f, order)
  {
  }

  /** A tie or an agreement in `Directed` chains along three stories. */
  lemma DirectedTransitive(a: Story, b: Story, c: Story, f: Field, order: string)
    requires Directed(a, b, f, order) <= 0 && Directed(b, c, f, order) <= 0
    ensures Directed(a, c, f, order) <= 0
    ensures Directed(a, c, f, order) == 0 ==> Directed(a, b, f, order) == 0 && Directed(b, c, f, order) == 0
  {
    var x, y, z := FieldValue(a, f), FieldValue(b, f), FieldValue(c, f);
    if order == "desc" {
      if KeyLess(y, x) && KeyLess(z, y) { KeyLessTransitive(z, y, x); }
      if x == z && x != y { KeyLessAsym(y, x); }
    } else {
      if KeyLess(x, y) && KeyLess(y, z) { KeyLessTransitive(x, y, z); }
      if x == z && x != y { KeyLessAsym(x, y); }
    }
  }

  /** Every comparator `sortStories` builds is one `sort` can use consistently. */
  lemma SortComparatorConsistent(sortBy: Field, order: string, secondary: Option<SecondarySort>)
    ensures Consistent(SortComparator(sortBy, order, secondary))
  {
    var cmp := SortComparator(sortBy, order, secondary);
    forall a, b | cmp(a, b) >= 0 ensures cmp(b, a) <= 0 {
      DirectedFlip(a, b, sortBy, order);
      if secondary.Some? { DirectedFlip(a, b, secondary.value.field, secondary.value.order); }
    }
    forall a, b, c | cmp(a, b) <= 0 && cmp(b, c) <= 0 ensures cmp(a, c) <= 0 {
      DirectedTransitive(a, b, c, sortBy, order);
      if secondary.Some? && Directed(a, c, sortBy, order) == 0 {
        DirectedTransitive(a, b, c, secondary.value.field, secondary.value.order);
      }
    }
  }

  /** `sortStories`: a reordering of the stories, ordered by the comparator. */
  function SortStories(stories: seq<Story>, sortBy: Field, order: string, secondary: Option<SecondarySort>): (r: seq<Story>)
    ensures multiset(r) == multiset(stories)
    ensures forall i, j :: 0 <= i < j < |r| ==> SortComparator(sortBy, order, secondary)(r[i], r[j]) <= 0
  {
    var cmp := SortComparator(sortBy, order, secondary);
    SortComparatorConsistent(sortBy, order, secondary);
    SortPermutes(stories, cmp);
    SortSorted(stories, cmp);
    Sort(stories, cmp)
  }

  /** By `createdAt`: `"desc"` puts newer stories first, any other order older ones first. */
  lemma SortByDate(stories: seq<Story>, order: string, i: int, j: int)
    requires 0 <= i < j < |stories|
    ensures var r := SortStories(stories, CreatedAt, order, None);
      if order == "desc" then r[i].createdAt >= r[j].createdAt else r[i].createdAt <= r[j].createdAt
  {
    var r := SortStories(stories, CreatedAt, order, None);
    assert SortComparator(CreatedAt, order, None)(r[i], r[j]) <= 0;
  }

  // ---------------------------------------------------------------- stats

  datatype Stats = Stats(totalStories: nat, storiesWithLocation: nat, offlineStories: nat,
                         unsyncedStories: nat, favorites: nat)

  /** `getStats`. */
  function GetStats(stories: seq<Story>, offline: seq<OfflineStory>, favorites: seq<Favorite>): (r: Stats)
    ensures r.totalStories == |stories| && r.offlineStories == |offline| && r.favorites == |favorites|
    ensures r.storiesWithLocation == |Filter(stories, HasCoordinates)| && r.storiesWithLocation <= r.totalStories
    ensures r.unsyncedStories == |IdbManager.Unsynced(offline)| && r.unsyncedStories <= r.offlineStories
  {
    forall i | 0 <= i < |offline| ensures NotSynced(offline[i]) == IsUnsynced(offline[i]) {
      UnsyncedTestsAgree(offline[i]);
    }
    FilterExt(offline, NotSynced, IsUnsynced);
    Stats(|stories|, |Filter(stories, HasCoordinates)|, |offline|, |Filter(offline, NotSynced)|, |favorites|)
  }

  /** Stories with and without coordinates add up to the total. */
  lemma StatsLocationSplit(stories: seq<Story>)
    ensures |Filter(stories, HasCoordinates)| + |Filter(stories, Not(HasCoordinates))| == |stories|
  {
    FilterPartition(stories, HasCoordinates);
  }

  // ---------------------------------------------------------------- pagination

  /** `totalPages`; `None` when the division is not finite (`pageSize` 0). */
  datatype Page = Page(stories: seq<Story>, total: nat, page: int, pageSize: int, totalPages: Option<int>)

  lemma MulMonotone(a: int, b: int, d: int)
    requires a <= b && d >= 0
    ensures a * d <= b * d
  {
    assert b * d - a * d == (b - a) * d;
  }

  lemma MulNonNegative(a: int, b: int)
    ensures a >= 0 && b >= 0 ==> a * b >= 0
  {
    if a >= 0 && b >= 0 { MulMonotone(0, a, b); }
  }

  lemma CeilDivBounds(n: nat, d: int)
    requires d > 0
    ensures ((n + d - 1) / d - 1) * d < n <= ((n + d - 1) / d) * d
  {
    var q := (n + d - 1) / d;
    var rr := (n + d - 1) % d;
    assert n + d - 1 == q * d + rr && 0 <= rr < d;
    assert (q - 1) * d == q * d - d;
  }

  /** `Math.ceil(n / d)`. */
  function CeilDiv(n: nat, d: int): (r: Option<int>)
    ensures d > 0 ==> r.Some? && (r.value - 1) * d < n <= r.value * d
    ensures d == 0 <==> r.None?
  {
    if d > 0 then CeilDivBounds(n, d); Some((n + d - 1) / d)
    else if d < 0 then Some(-(n / -d))
    else None
  }

  /** `(page - 1) * pageSize`. */
  function PageStart(page: int, pageSize: int): int {
    (page - 1) * pageSize
  }

  /** `r` holds the stories from `start` on, as many as fit in `size` and exist. */
  predicate IsWindow(r: seq<Story>, stories: seq<Story>, start: int, size: int) {
    && |r| <= size
    && (forall k :: 0 <= k < |r| ==> 0 <= start + k < |stories| && r[k] == stories[start + k])
    && (|r| == size || start + |r| >= |stories|)
  }

  lemma SliceWindow(stories: seq<Story>, start: int, size: int)
    ensures start >= 0 && size >= 1 ==> IsWindow(Slice(stories, start, start + size), stories, start, size)
  {
  }

  /**
   * `getStoriesPaginated(page, pageSize)`: for a page from 1 on and a
   * positive size, the stories from the page's start on, as many as fit and
   * exist.
   */
  function Paginate(stories: seq<Story>, page: int, pageSize: int): (r: Page)
    ensures r.total == |stories| && r.page == page && r.pageSize == pageSize
    ensures r.totalPages == CeilDiv(|stories|, pageSize)
    ensures page >= 1 && pageSize >= 1 ==> IsWindow(r.stories, stories, PageStart(page, pageSize), pageSize)
  {
    var start := PageStart(page, pageSize);
    MulNonNegative(page - 1, pageSize);
    SliceWindow(stories, start, pageSize);
    Page(Slice(stories, start, start + pageSize), |stories|, page, pageSize, CeilDiv(|stories|, pageSize))
  }

  /** Story `i` appears on page `i / pageSize + 1`, at position `i % pageSize`, within `totalPages`. */
  lemma PaginateCovers(stories: seq<Story>, pageSize: int, i: int)
    requires pageSize >= 1 && 0 <= i < |stories|
    ensures var p := Paginate(stories, i / pageSize + 1, pageSize);
      i % pageSize < |p.stories| && p.stories[i % pageSize] == stories[i]
    ensures i / pageSize + 1 <= Paginate(stories, 1, pageSize).totalPages.value
  {
    var q := i / pageSize;
    assert i == q * pageSize + i % pageSize;
    assert PageStart(q + 1, pageSize) == q * pageSize;
    MulMonotone(0, q, pageSize);
    var t := CeilDiv(|stories|, pageSize).value;
    if q + 1 > t {
      MulMonotone(t, q, pageSize);
    }
  }
}
