/**
 * src/SearchScreen/SearchScreen.ts: the update map of a search screen. The
 * screen keeps a query, the items, the visible items and an optional array
 * of filters; toggling a filter replaces it in that array in place.
 */
module SearchScreen {
  import opened Base
  import opened Elmish
  import opened Search

  datatype Message<T> =
    | QueryChanged(query: string)
    | ToggleFilter(filter: Filter<T>)
    | RefreshSearch

  /** The screen's model. `filters` is the array the screen mutates in place. */
  datatype Model<T> = Model(query: string, items: seq<T>, visibleItems: seq<T>, filters: Option<array<Filter<T>>>)

  /** A partial model as a handler returns it; `None` leaves the field out. */
  datatype Update<T> = Update(query: Option<string>, visibleItems: Option<seq<T>>, filters: Option<array<Filter<T>>>)

  type SearchCmd<T> = Cmd<Message<T>, ()>

  datatype Options<!T> = Options(filterByQuery: (T, string) -> bool, filters: Option<seq<FilterDefinition<T>>>)

  function NoUpdate<T>(): Update<T> {
    Update(None, None, None)
  }

  /** How the host merges a partial model into the model (`{...model, ...update}`). */
  function Apply<T>(m: Model<T>, u: Update<T>): Model<T> {
    Model(
      if u.query.Some? then u.query.value else m.query,
      m.items,
      if u.visibleItems.Some? then u.visibleItems.value else m.visibleItems,
      if u.filters.Some? then Some(u.filters.value) else m.filters)
  }

  /** The objects whose contents `refreshSearch` reads. */
  function FilterFrame<T>(filters: Option<array<Filter<T>>>): set<object> {
    if filters.Some? then {filters.value} else {}
  }

  function FilterList<T>(filters: Option<array<Filter<T>>>): Option<seq<Filter<T>>>
    reads FilterFrame(filters)
  {
    if filters.Some? then Some(filters.value[..]) else None
  }

  /**
   * `init`: an empty query, no items, and one new filter per definition, in
   * the definitions' order, every one inactive whatever its definition says.
   */
  method Init<T>(options: Options<T>) returns (m: Model<T>)
    ensures m.query == "" && m.items == [] && m.visibleItems == []
    ensures options.filters.None? <==> m.filters.None?
    ensures options.filters.Some? ==> fresh(m.filters.value) && m.filters.value.Length == |options.filters.value|
    ensures options.filters.Some? ==> forall i :: 0 <= i < |options.filters.value| ==>
      var f, d := m.filters.value[i], options.filters.value[i];
      fresh(f) && f.name == d.name && f.filter == d.filter && !f.active
    ensures options.filters.Some? ==> forall i, j :: 0 <= i < j < m.filters.value.Length ==> m.filters.value[i] != m.filters.value[j]
  {
    if options.filters.None? {
      return Model("", [], [], None);
    }
    var defs := options.filters.value;
    var created: seq<Filter<T>> := [];
    var i := 0;
    while i < |defs|
      invariant 0 <= i <= |defs| && |created| == i
      invariant forall j :: 0 <= j < i ==>
        fresh(created[j]) && created[j].name == defs[j].name && created[j].filter == defs[j].filter && !created[j].active
      invariant forall j, k :: 0 <= j < k < i ==> created[j] != created[k]
    {
      var f := new Filter(defs[i].name, defs[i].filter, false);
      created := created + [f];
      i := i + 1;
    }
    var a := new Filter<T>[|created|](j requires 0 <= j < |created| => created[j]);
    m := Model("", [], [], Some(a));
  }

  /** `queryChanged`: only the query changes, and the search is refreshed. */
  function QueryChangedHandler<T>(query: string, m: Model<T>): (r: (Update<T>, SearchCmd<T>))
    ensures Apply(m, r.0) == m.(query := query)
    ensures r.1 == OfMsg(RefreshSearch)
  {
    (Update(Some(query), None, None), OfMsg(RefreshSearch))
  }

  /**
   * `refreshSearch`: only the visible items change, to the result of `search`
   * over the model's query, items and current filters; no command.
   */
  function RefreshSearchHandler<T(==)>(options: Options<T>, m: Model<T>): (r: (Update<T>, SearchCmd<T>))
    reads FilterFrame(m.filters)
    ensures Apply(m, r.0) == m.(visibleItems := Search.Search(m.query, m.items, FilterList(m.filters), options.filterByQuery))
    ensures IsSubsequence(Apply(m, r.0).visibleItems, m.items)
    ensures r.1 == NoCmd
  {
    var visibleItems := Search.Search(m.query, m.items, FilterList(m.filters), options.filterByQuery);
    (Update(None, Some(visibleItems), None), NoCmd)
  }

  /** Position of the first entry of `s` that is the object `f` (`indexOf`). */
  function IndexOf<T>(s: seq<Filter<T>>, f: Filter<T>): (r: Option<nat>)
    ensures r.None? <==> f !in s
    ensures r.Some? ==> r.value < |s| && s[r.value] == f && f !in s[..r.value]
  {
    FindFirst(s, (g: Filter<T>) => g == f)
  }

  /**
   * `handleToggleFilter` (the `toggleFilter` handler). Without filters, or
   * when `filter` is not an entry of the array, nothing happens. Otherwise
   * the first entry that is `filter` is replaced by a new filter with the
   * same name and predicate and the opposite `active`; no other entry
   * changes; the update carries a new copy of the array, and the search is
   * refreshed.
   */
  method HandleToggleFilter<T>(filters: Option<array<Filter<T>>>, filter: Filter<T>) returns (u: Update<T>, c: SearchCmd<T>)
    modifies FilterFrame(filters)
    ensures filters.None? ==> u == NoUpdate() && c == NoCmd
    ensures filters.Some? && IndexOf(old(filters.value[..]), filter).None? ==>
      filters.value[..] == old(filters.value[..]) && u == NoUpdate() && c == NoCmd
    ensures filters.Some? && IndexOf(old(filters.value[..]), filter).Some? ==>
      var a, k := filters.value, IndexOf(old(filters.value[..]), filter).value;
      && a[..] == old(a[..])[k := a[k]]
      && fresh(a[k]) && a[k].name == filter.name && a[k].filter == filter.filter && a[k].active == !filter.active
      && u.query.None? && u.visibleItems.None? && u.filters.Some?
      && fresh(u.filters.value) && u.filters.value[..] == a[..]
      && c == OfMsg(RefreshSearch)
  {
    if filters.None? {
      return NoUpdate(), NoCmd;
    }
    var a := filters.value;
    var filterIndex := IndexOf(a[..], filter);
    if filterIndex.None? {
      return NoUpdate(), NoCmd;
    }
    var k := filterIndex.value;
    var toggled := new Filter(filter.name, filter.filter, !filter.active);
    a[k] := toggled;
    var copy := new Filter<T>[a.Length](j reads a requires 0 <= j < a.Length => a[j]);
    u, c := Update(None, None, Some(copy)), OfMsg(RefreshSearch);
  }
}
