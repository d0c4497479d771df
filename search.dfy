/**
 * src/SearchScreen/Search.ts: filtering a list of items by a text query and
 * by a flat list of togglable filters. Active filters are combined with OR;
 * an empty query with no active filter shows nothing.
 */
module Search {
  import opened Base

  /** A filter as a screen declares it; `active` is optional. */
  datatype FilterDefinition<!T> = FilterDefinition(name: string, filter: T -> bool, active: Option<bool>)

  /**
   * A filter of a screen. Filters are objects: the screen finds the one to
   * toggle by reference, and toggling replaces it by a new object. Their
   * fields never change after creation.
   */
  class Filter<T> {
    const name: string
    const filter: T -> bool
    const active: bool

    constructor (name: string, filter: T -> bool, active: bool)
      ensures this.name == name && this.filter == filter && this.active == active
    {
      this.name := name;
      this.filter := filter;
      this.active := active;
    }
  }

  /** Filters absent, or none of them active (`!filters || filters.every(f => !f.active)`). */
  predicate NoActiveFilter<T>(filters: Option<seq<Filter<T>>>) {
    filters.None? || forall j :: 0 <= j < |filters.value| ==> !filters.value[j].active
  }

  /** Some active filter of `fs` accepts `item`. */
  ghost predicate AcceptedByActive<T>(fs: seq<Filter<T>>, item: T) {
    exists j :: 0 <= j < |fs| && fs[j].active && fs[j].filter(item)
  }

  /** `areQueryAndFiltersEmpty`: the query is empty and no filter is active, so there is nothing to show. */
  predicate AreQueryAndFiltersEmpty<T>(query: string, filters: Option<seq<Filter<T>>>): (r: bool)
    ensures r <==> query == "" && (filters.None? || ActiveFilters(filters.value) == [])
  {
    |query| == 0 && NoActiveFilter(filters)
  }

  function ActiveFilters<T>(fs: seq<Filter<T>>): seq<Filter<T>> {
    Base.Filter(fs, (f: Filter<T>) => f.active)
  }

  /** The `for...of` loop of `filterItems`: does one of `active` accept `item`? */
  predicate AnyAccepts<T>(active: seq<Filter<T>>, item: T) {
    |active| > 0 && (active[0].filter(item) || AnyAccepts(active[1..], item))
  }

  /** The loop over the active filters finds one that accepts exactly when one exists. */
  lemma {:induction false} AnyAcceptsIsOr<T>(fs: seq<Filter<T>>, item: T)
    ensures AnyAccepts(ActiveFilters(fs), item) <==> AcceptedByActive(fs, item)
  {
    if |fs| > 0 {
      AnyAcceptsIsOr(fs[1..], item);
      if fs[0].active {
        assert ActiveFilters(fs)[1..] == ActiveFilters(fs[1..]);
      }
      if AcceptedByActive(fs[1..], item) {
        var j :| 0 <= j < |fs[1..]| && fs[1..][j].active && fs[1..][j].filter(item);
        assert fs[j + 1] == fs[1..][j];
      }
      if AcceptedByActive(fs, item) && !(fs[0].active && fs[0].filter(item)) {
        var j :| 0 <= j < |fs| && fs[j].active && fs[j].filter(item);
        assert j > 0 && fs[1..][j - 1] == fs[j];
      }
    }
  }

  /** The predicate `filterItems` hands to `items.filter`. */
  function Accepts<T>(filters: seq<Filter<T>>): T -> bool {
    var active := ActiveFilters(filters);
    (i: T) => AnyAccepts(active, i)
  }

  /** The test an item passes when some active filter of `fs` accepts it. */
  ghost function AcceptedByActiveTest<T>(fs: seq<Filter<T>>): T -> bool {
    (x: T) => AcceptedByActive(fs, x)
  }

  /**
   * `filterItems`: `items` itself when no filter is active, otherwise the
   * items some active filter accepts, in their order and with every copy
   * kept.
   */
  function FilterItems<T(==)>(items: seq<T>, filters: Option<seq<Filter<T>>>): (r: seq<T>)
    ensures NoActiveFilter(filters) ==> r == items
    ensures !NoActiveFilter(filters) ==> r == Base.Filter(items, AcceptedByActiveTest(filters.value))
    ensures IsSubsequence(r, items)
    ensures !NoActiveFilter(filters) ==> forall i :: 0 <= i < |items| && items[i] in r ==> AcceptedByActive(filters.value, items[i])
    ensures !NoActiveFilter(filters) ==> forall i :: 0 <= i < |items| && AcceptedByActive(filters.value, items[i]) ==> items[i] in r
  {
    if NoActiveFilter(filters) then
      SubsequenceRefl(items);
      items
    else
      var r := Base.Filter(items, Accepts(filters.value));
      forall i | 0 <= i < |items| ensures Accepts(filters.value)(items[i]) == AcceptedByActiveTest(filters.value)(items[i]) {
        AnyAcceptsIsOr(filters.value, items[i]);
      }
      FilterCongruent(items, Accepts(filters.value), AcceptedByActiveTest(filters.value));
      r
  }

  /**
   * `String.prototype.toLowerCase`, restricted to the ASCII letters: `A`-`Z`
   * become `a`-`z`, every other character is kept.
   */
  function ToLowerCase(s: string): (r: string)
    ensures |r| == |s|
    ensures forall i :: 0 <= i < |s| ==> r[i] == if 'A' <= s[i] <= 'Z' then s[i] - 'A' + 'a' else s[i]
  {
    if |s| == 0 then []
    else [if 'A' <= s[0] <= 'Z' then s[0] - 'A' + 'a' else s[0]] + ToLowerCase(s[1..])
  }

  /** The predicate the query step hands to `filtered.filter`. */
  function MatchesQuery<T>(filterByQuery: (T, string) -> bool, q: string): T -> bool {
    (i: T) => filterByQuery(i, q)
  }

  /**
   * `search`. The result keeps the order of `items`; an empty query with no active filter
   * yields nothing; an empty query with an active filter yields exactly the
   * filtered items; every item returned for a query matches the lower-cased
   * query.
   */
  function Search<T(==)>(query: string, items: seq<T>, filters: Option<seq<Filter<T>>>,
                         filterByQuery: (T, string) -> bool): (r: seq<T>)
    ensures |query| == 0 && NoActiveFilter(filters) ==> r == []
    ensures IsSubsequence(r, items)
    ensures |query| == 0 && !NoActiveFilter(filters) ==> r == FilterItems(items, filters)
    ensures |query| > 0 ==> forall i :: 0 <= i < |r| ==> filterByQuery(r[i], ToLowerCase(query))
  {
    if AreQueryAndFiltersEmpty(query, filters) then []
    else
      var queryLowerCase := ToLowerCase(query);
      var filtered := FilterItems(items, filters);
      if |queryLowerCase| > 0 then
        var visibleItems := Base.Filter(filtered, MatchesQuery(filterByQuery, queryLowerCase));
        SubsequenceTrans(visibleItems, filtered, items);
        visibleItems
      else filtered
  }

  /**
   * Membership in the result of `search` when the query or an active filter
   * is present: an item is shown exactly when an active filter accepts it
   * (or none is active) and it matches the lower-cased query (or that is
   * empty).
   */
  lemma SearchMembership<T>(query: string, items: seq<T>, filters: Option<seq<Filter<T>>>,
                                filterByQuery: (T, string) -> bool, i: nat)
    requires !AreQueryAndFiltersEmpty(query, filters)
    requires i < |items|
    ensures items[i] in Search(query, items, filters, filterByQuery) <==>
      (NoActiveFilter(filters) || AcceptedByActive(filters.value, items[i])) &&
      (|query| == 0 || filterByQuery(items[i], ToLowerCase(query)))
  {
    var q := ToLowerCase(query);
    var filtered := FilterItems(items, filters);
    if |q| > 0 && items[i] in filtered {
      var k :| 0 <= k < |filtered| && filtered[k] == items[i];
      assert MatchesQuery(filterByQuery, q)(filtered[k]) == filterByQuery(items[i], q);
    }
  }

  /**
   * What `search` shows when the query or an active filter is present: the
   * items that an active filter accepts (or all, when none is active) and
   * that match the lower-cased query (or all, when it is empty), in their
   * order and with every copy kept.
   */
  ghost function ShownTest<T>(query: string, filters: Option<seq<Filter<T>>>, filterByQuery: (T, string) -> bool): T -> bool {
    (x: T) => (NoActiveFilter(filters) || AcceptedByActive(filters.value, x)) &&
              (|query| == 0 || filterByQuery(x, ToLowerCase(query)))
  }

  /** `search` is a single `filter` of the items by `ShownTest`. */
  lemma SearchIsOneFilter<T>(query: string, items: seq<T>, filters: Option<seq<Filter<T>>>,
                             filterByQuery: (T, string) -> bool)
    requires !AreQueryAndFiltersEmpty(query, filters)
    ensures Search(query, items, filters, filterByQuery) == Base.Filter(items, ShownTest(query, filters, filterByQuery))
  {
    var q := ToLowerCase(query);
    var shown := (x: T) => NoActiveFilter(filters) || AcceptedByActive(filters.value, x);
    var filtered := FilterItems(items, filters);
    if NoActiveFilter(filters) {
      FilterAll(items, shown);
    } else {
      FilterCongruent(items, AcceptedByActiveTest(filters.value), shown);
    }
    assert filtered == Base.Filter(items, shown);
    if |q| > 0 {
      FilterFilter(items, shown, MatchesQuery(filterByQuery, q), ShownTest(query, filters, filterByQuery));
    } else {
      var always := (x: T) => true;
      FilterAll(filtered, always);
      FilterFilter(items, shown, always, ShownTest(query, filters, filterByQuery));
    }
  }
}
