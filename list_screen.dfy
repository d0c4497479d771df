/**
 * src/ListScreen/ListScreen.ts: the update map of a list screen that shows
 * items sorted by the current sorter, in the current direction. The items
 * are an array that `refresh` sorts in place.
 *
 * The caller's hooks `onSorterChanged` and `onUpdateSorting` return
 * nothing, so only whether they are given matters; a call of one is
 * recorded as an `Effect`. Comparators return an `int`; `Array.prototype.sort`
 * is modelled by an insertion sort, which orders the items whenever the
 * comparator is a total preorder and permutes them in any case.
 */
module ListScreen {
  import opened Base
  import opened Elmish

  datatype SortDirection = Asc | Desc

  datatype Sorter<!T> = Sorter(key: string, name: string, sorter: (T, T) -> int)

  /** The `sorter` option: absent, one comparison function, or an array of sorters. */
  datatype SorterOption<!T> = NoSorter | SortFunction(f: (T, T) -> int) | Sorters(sorters: seq<Sorter<T>>)

  datatype Options<!T> = Options(sorter: SorterOption<T>, hasOnUpdateSorting: bool, hasOnSorterChanged: bool)

  /** `currentSorterKey` is `None` for `null`. */
  datatype Model<T> = Model(items: array<T>, currentSorterKey: Option<string>, sortDirection: SortDirection)

  /** A partial model as a handler returns it; `None` leaves the field out. */
  datatype Partial<T> = Partial(items: Option<array<T>>, currentSorterKey: Option<Option<string>>, sortDirection: Option<SortDirection>)

  datatype Message<T> =
    | DataLoaded(data: array<T>)
    | Refresh
    | SetSorter(key: string, toggleDirection: bool)
    | SetSortDirection(direction: SortDirection)
    | ToggleSortDirection
    | SetSorting(key: string, direction: SortDirection)

  /** A call of `onSorterChanged(sorter, direction)` or of `onUpdateSorting(model, props, {key, direction})`. */
  datatype Effect<!T, P> =
    | SorterChanged(sorter: Sorter<T>, direction: SortDirection)
    | UpdateSorting(model: Model<T>, props: P, key: string, direction: SortDirection)

  type ListCmd<T> = Cmd<Message<T>, ()>

  datatype Step<!T, P> = Step(update: Partial<T>, cmd: ListCmd<T>, effects: seq<Effect<T, P>>)

  function NoChange<T>(): Partial<T> {
    Partial(None, None, None)
  }

  /** How the host merges a partial model into the model. */
  function Apply<T>(m: Model<T>, p: Partial<T>): Model<T> {
    Model(
      if p.items.Some? then p.items.value else m.items,
      if p.currentSorterKey.Some? then p.currentSorterKey.value else m.currentSorterKey,
      if p.sortDirection.Some? then p.sortDirection.value else m.sortDirection)
  }

  /** JavaScript truthiness of a `string | null`. */
  predicate TruthyKey(key: Option<string>) {
    key.Some? && key.value != ""
  }

  // ---------------------------------------------------------------------------
  // Comparators and sortedness

  /** Any two items compare one way or the other. */
  ghost predicate Total<T(!new)>(cmp: (T, T) -> int) {
    forall x, y :: cmp(x, y) <= 0 || cmp(y, x) <= 0
  }

  ghost predicate Transitive<T(!new)>(cmp: (T, T) -> int) {
    forall x, y, z :: cmp(x, y) <= 0 && cmp(y, z) <= 0 ==> cmp(x, z) <= 0
  }

  /** The comparators for which a sort's result is ordered. */
  ghost predicate TotalPreorder<T(!new)>(cmp: (T, T) -> int) {
    Total(cmp) && Transitive(cmp)
  }

  /** Every item compares at most equal to every later one. */
  ghost predicate SortedBy<T>(s: seq<T>, cmp: (T, T) -> int) {
    forall i, j :: 0 <= i < j < |s| ==> cmp(s[i], s[j]) <= 0
  }

  /** Neighbours in `s[lo..hi]` are in order. */
  ghost predicate AdjacentSorted<T>(s: seq<T>, cmp: (T, T) -> int, lo: int, hi: int)
    requires 0 <= lo && hi <= |s|
  {
    forall k :: lo < k < hi ==> cmp(s[k - 1], s[k]) <= 0
  }

  /** The comparator `sortDescending` hands to `sort`: the arguments swapped. */
  function Swapped<T>(cmp: (T, T) -> int): (T, T) -> int {
    (x: T, y: T) => cmp(y, x)
  }

  lemma {:induction false} AdjacentToSorted<T(!new)>(s: seq<T>, cmp: (T, T) -> int)
    requires Transitive(cmp)
    requires AdjacentSorted(s, cmp, 0, |s|)
    ensures SortedBy(s, cmp)
  {
    forall i, j | 0 <= i < j < |s| ensures cmp(s[i], s[j]) <= 0 {
      var k := i + 1;
      while k < j
        invariant i < k <= j
        invariant cmp(s[i], s[k]) <= 0
      {
        assert cmp(s[k], s[k + 1]) <= 0;
        k := k + 1;
      }
    }
  }

  /** Swapping the arguments keeps a total preorder one. */
  lemma SwappedTotalPreorder<T(!new)>(cmp: (T, T) -> int)
    requires TotalPreorder(cmp)
    ensures TotalPreorder(Swapped(cmp))
  {
    forall x, y, z | Swapped(cmp)(x, y) <= 0 && Swapped(cmp)(y, z) <= 0 ensures Swapped(cmp)(x, z) <= 0 {
      assert cmp(y, x) <= 0 && cmp(z, y) <= 0;
    }
  }

  /**
   * While `s[j]` is moved down into the sorted prefix `s[..i]`: the items
   * before it are in order, it and the items after it up to `i` are in
   * order, and the items around it are in order with each other.
   */
  ghost predicate Inserting<T>(s: seq<T>, cmp: (T, T) -> int, j: int, i: int)
    requires 0 <= j <= i < |s|
  {
    && AdjacentSorted(s, cmp, 0, j)
    && AdjacentSorted(s, cmp, j, i + 1)
    && (0 < j < i ==> cmp(s[j - 1], s[j + 1]) <= 0)
  }

  /** Swapping the moved item with a greater neighbour keeps the items in place and moves the hole down. */
  lemma SwapDown<T(!new)>(s: seq<T>, cmp: (T, T) -> int, j: int, i: int)
    requires Total(cmp)
    requires 0 < j <= i < |s| && Inserting(s, cmp, j, i) && cmp(s[j - 1], s[j]) > 0
    ensures Inserting(s[j - 1 := s[j]][j := s[j - 1]], cmp, j - 1, i)
    ensures multiset(s[j - 1 := s[j]][j := s[j - 1]]) == multiset(s)
  {
    var t := s[j - 1 := s[j]][j := s[j - 1]];
    assert cmp(t[j - 1], t[j]) <= 0;
    forall k | j - 1 < k < i + 1 ensures cmp(t[k - 1], t[k]) <= 0 {
      if k == j + 1 {
        assert t[k - 1] == s[j - 1] && t[k] == s[j + 1];
      } else if k > j + 1 {
        assert t[k - 1] == s[k - 1] && t[k] == s[k];
      }
    }
  }

  /** Once the moved item is not less than its predecessor, the prefix up to `i` is in order. */
  lemma InsertionDone<T>(s: seq<T>, cmp: (T, T) -> int, j: int, i: int)
    requires 0 <= j <= i < |s| && Inserting(s, cmp, j, i) && (j == 0 || cmp(s[j - 1], s[j]) <= 0)
    ensures AdjacentSorted(s, cmp, 0, i + 1)
  {
    forall k | 0 < k < i + 1 ensures cmp(s[k - 1], s[k]) <= 0 {
      if k < j {
      } else if k == j {
      } else {
        assert j < k;
      }
    }
  }

  /** One pass of the insertion sort: moves `a[i]` down into the prefix `a[..i]`. */
  method InsertDown<T(!new)>(a: array<T>, cmp: (T, T) -> int, i: int)
    requires 0 <= i < a.Length
    modifies a
    ensures multiset(a[..]) == multiset(old(a[..]))
    ensures Total(cmp) && AdjacentSorted(old(a[..]), cmp, 0, i) ==> AdjacentSorted(a[..], cmp, 0, i + 1)
  {
    ghost var sorted := Total(cmp) && AdjacentSorted(a[..], cmp, 0, i);
    var j := i;
    while j > 0 && cmp(a[j - 1], a[j]) > 0
      invariant 0 <= j <= i
      invariant multiset(a[..]) == multiset(old(a[..]))
      invariant sorted ==> Inserting(a[..], cmp, j, i)
    {
      ghost var before := a[..];
      a[j - 1], a[j] := a[j], a[j - 1];
      assert a[..] == before[j - 1 := before[j]][j := before[j - 1]];
      if sorted {
        SwapDown(before, cmp, j, i);
      } else {
        SwapDownPermutes(before, j);
      }
      j := j - 1;
    }
    if sorted {
      InsertionDone(a[..], cmp, j, i);
    }
  }

  lemma SwapDownPermutes<T>(s: seq<T>, j: int)
    requires 0 < j < |s|
    ensures multiset(s[j - 1 := s[j]][j := s[j - 1]]) == multiset(s)
  {
  }

  /**
   * `array.sort(cmp)`: reorders `a` in place. The result is always a
   * permutation of the old contents, and ordered by `cmp` when `cmp` is a
   * total preorder.
   */
  method Sort<T(!new)>(a: array<T>, cmp: (T, T) -> int)
    modifies a
    ensures multiset(a[..]) == multiset(old(a[..]))
    ensures TotalPreorder(cmp) ==> SortedBy(a[..], cmp)
  {
    var i := 0;
    while i < a.Length
      invariant 0 <= i <= a.Length
      invariant multiset(a[..]) == multiset(old(a[..]))
      invariant Total(cmp) ==> AdjacentSorted(a[..], cmp, 0, i)
    {
      InsertDown(a, cmp, i);
      i := i + 1;
    }
    if TotalPreorder(cmp) {
      AdjacentToSorted(a[..], cmp);
    }
  }

  /**
   * `sortDescending` with a comparator: sorts by the swapped comparator, so
   * that every item compares at least equal to every later one.
   */
  method SortDescending<T(!new)>(a: array<T>, cmp: (T, T) -> int)
    modifies a
    ensures multiset(a[..]) == multiset(old(a[..]))
    ensures TotalPreorder(cmp) ==> forall i, j :: 0 <= i < j < a.Length ==> cmp(a[j], a[i]) <= 0
  {
    if TotalPreorder(cmp) {
      SwappedTotalPreorder(cmp);
    }
    Sort(a, Swapped(cmp));
    if TotalPreorder(cmp) {
      forall i, j | 0 <= i < j < a.Length ensures cmp(a[j], a[i]) <= 0 {
        assert Swapped(cmp)(a[..][i], a[..][j]) <= 0;
      }
    }
  }

  // ---------------------------------------------------------------------------
  // Sorter lookup

  /** The first sorter with `key`, among the sorters of an array option. */
  predicate FirstSorterWithKey<T>(sorters: seq<Sorter<T>>, key: string, i: nat) {
    i < |sorters| && sorters[i].key == key && forall j :: 0 <= j < i ==> sorters[j].key != key
  }

  /**
   * `getSorterByKey`: nothing for a `null` or empty key or when `sorters` is
   * not an array; otherwise the first sorter with the key, if there is one.
   */
  function GetSorterByKey<T>(key: Option<string>, sorters: SorterOption<T>): (r: Option<Sorter<T>>)
    ensures !TruthyKey(key) || !sorters.Sorters? ==> r.None?
    ensures TruthyKey(key) && sorters.Sorters? ==>
      (r.None? <==> forall i :: 0 <= i < |sorters.sorters| ==> sorters.sorters[i].key != key.value)
    ensures r.Some? ==> exists i: nat :: FirstSorterWithKey(sorters.sorters, key.value, i) && sorters.sorters[i] == r.value
  {
    if TruthyKey(key) && sorters.Sorters? then
      var found := FindFirst(sorters.sorters, (s: Sorter<T>) => key.value == s.key);
      if found.Some? then
        assert FirstSorterWithKey(sorters.sorters, key.value, found.value);
        Some(sorters.sorters[found.value])
      else None
    else None
  }

  /**
   * The comparator `refresh` sorts with: a plain function whatever the key;
   * for an array, the comparator of the sorter the current key names (none
   * for a `null`, empty or unknown key); none without a `sorter` option.
   */
  function CurrentComparator<T>(options: Options<T>, key: Option<string>): (r: Option<(T, T) -> int>)
    ensures options.sorter.SortFunction? ==> r == Some(options.sorter.f)
    ensures options.sorter.NoSorter? ==> r.None?
    ensures options.sorter.Sorters? ==>
      r == if GetSorterByKey(key, options.sorter).Some? then Some(GetSorterByKey(key, options.sorter).value.sorter) else None
  {
    if TruthyKey(key) && options.sorter.Sorters? then
      var found := FindFirst(options.sorter.sorters, (s: Sorter<T>) => s.key == key.value);
      if found.Some? then Some(options.sorter.sorters[found.value].sorter) else None
    else if options.sorter.SortFunction? then Some(options.sorter.f)
    else None
  }

  // ---------------------------------------------------------------------------
  // The update map

  /** `init`: no items, ascending, and the first sorter's key when `sorter` is a non-empty array (otherwise `null`). */
  method Init<T>(options: Options<T>) returns (m: Model<T>)
    ensures fresh(m.items) && m.items.Length == 0 && m.sortDirection == Asc
    ensures m.currentSorterKey ==
      if options.sorter.Sorters? && |options.sorter.sorters| > 0 then Some(options.sorter.sorters[0].key) else None
  {
    var currentSorterKey: Option<string> := None;
    if options.sorter.Sorters? && |options.sorter.sorters| > 0 {
      currentSorterKey := Some(options.sorter.sorters[0].key);
    }
    var items := new T[0];
    m := Model(items, currentSorterKey, Asc);
  }

  /** `dataLoaded`: the items become the loaded array itself, and the list is refreshed. */
  function DataLoadedHandler<T, P>(data: array<T>, m: Model<T>): (r: Step<T, P>)
    ensures Apply(m, r.update) == m.(items := data) && r.cmd == OfMsg(Refresh) && r.effects == []
  {
    Step(Partial(Some(data), None, None), OfMsg(Refresh), [])
  }

  /**
   * `refresh`. Without a comparator nothing changes. With one, the items
   * array is sorted in place and handed back as the new items: a permutation
   * of the old items, ordered by the comparator when ascending and by the
   * swapped comparator when descending (for a total preorder). No command.
   */
  method RefreshHandler<T(!new)>(options: Options<T>, m: Model<T>) returns (u: Partial<T>, c: ListCmd<T>)
    modifies m.items
    ensures c == NoCmd
    ensures CurrentComparator(options, m.currentSorterKey).None? ==> u == NoChange() && m.items[..] == old(m.items[..])
    ensures CurrentComparator(options, m.currentSorterKey).Some? ==>
      var cmp := CurrentComparator(options, m.currentSorterKey).value;
      && u == Partial(Some(m.items), None, None)
      && multiset(m.items[..]) == multiset(old(m.items[..]))
      && (TotalPreorder(cmp) && m.sortDirection == Asc ==> SortedBy(m.items[..], cmp))
      && (TotalPreorder(cmp) && m.sortDirection == Desc ==> SortedBy(m.items[..], Swapped(cmp)))
  {
    var currentSorter := CurrentComparator(options, m.currentSorterKey);
    if currentSorter.None? {
      return NoChange(), NoCmd;
    }
    var cmp := currentSorter.value;
    if m.sortDirection == Asc {
      Sort(m.items, cmp);
    } else {
      SortDescending(m.items, cmp);
    }
    u, c := Partial(Some(m.items), None, None), NoCmd;
  }

  /** The hook calls of a change of sorter or direction. */
  function SortingEffects<T, P>(options: Options<T>, sorter: Option<Sorter<T>>, m: Model<T>, props: P, key: string, direction: SortDirection): seq<Effect<T, P>> {
    (if sorter.Some? && options.hasOnSorterChanged then [SorterChanged(sorter.value, direction)] else []) +
    (if options.hasOnUpdateSorting then [UpdateSorting(m, props, key, direction)] else [])
  }

  /** `currentSorterKey ?? ""`. */
  function KeyOrEmpty(key: Option<string>): string {
    if key.Some? then key.value else ""
  }

  /**
   * `setSorter`. The current key changes nothing and calls no hook, and
   * toggles the direction exactly when asked to. Another key becomes the
   * current key whether or not a sorter has it; `onSorterChanged` is called
   * only for the sorter it names, `onUpdateSorting` with the key and the
   * unchanged direction; the list is refreshed.
   */
  function SetSorterHandler<T, P>(options: Options<T>, key: string, toggleDirection: bool, m: Model<T>, props: P): (r: Step<T, P>)
    ensures Some(key) == m.currentSorterKey ==>
      Apply(m, r.update) == m && r.effects == [] && r.cmd == if toggleDirection then OfMsg(ToggleSortDirection) else NoCmd
    ensures Some(key) != m.currentSorterKey ==>
      && Apply(m, r.update) == m.(currentSorterKey := Some(key)) && r.cmd == OfMsg(Refresh)
      && r.effects == SortingEffects(options, GetSorterByKey(Some(key), options.sorter), m, props, key, m.sortDirection)
  {
    if Some(key) == m.currentSorterKey then
      if toggleDirection then Step(NoChange(), OfMsg(ToggleSortDirection), []) else Step(NoChange(), NoCmd, [])
    else
      var sorter := GetSorterByKey(Some(key), options.sorter);
      Step(Partial(None, Some(Some(key)), None), OfMsg(Refresh),
        SortingEffects(options, sorter, m, props, key, m.sortDirection))
  }

  /** A sorter passed to `onSorterChanged` by `setSorter` is the first sorter with the new key. */
  lemma SetSorterReportsNamedSorter<T, P>(options: Options<T>, key: string, toggleDirection: bool, m: Model<T>, props: P, e: Effect<T, P>)
    requires e in SetSorterHandler(options, key, toggleDirection, m, props).effects && e.SorterChanged?
    ensures options.sorter.Sorters? && key != "" && Some(key) != m.currentSorterKey
    ensures exists i: nat :: FirstSorterWithKey(options.sorter.sorters, key, i) && options.sorter.sorters[i] == e.sorter
    ensures e.direction == m.sortDirection
  {
  }

  /** `setSortDirection`: only the direction changes; `onUpdateSorting` gets the new direction; the list is refreshed. */
  function SetSortDirectionHandler<T, P>(options: Options<T>, direction: SortDirection, m: Model<T>, props: P): (r: Step<T, P>)
    ensures Apply(m, r.update) == m.(sortDirection := direction) && r.cmd == OfMsg(Refresh)
    ensures r.effects == if options.hasOnUpdateSorting then [UpdateSorting(m, props, KeyOrEmpty(m.currentSorterKey), direction)] else []
  {
    var effects: seq<Effect<T, P>> :=
      if options.hasOnUpdateSorting then [UpdateSorting(m, props, KeyOrEmpty(m.currentSorterKey), direction)] else [];
    Step(Partial(None, None, Some(direction)), OfMsg(Refresh), effects)
  }

  /** The other direction. */
  function Flip(d: SortDirection): (r: SortDirection)
    ensures r != d
  {
    if d == Asc then Desc else Asc
  }

  lemma FlipInvolution(d: SortDirection)
    ensures Flip(Flip(d)) == d
  {
  }

  /**
   * `toggleSortDirection`: only the direction changes, to the other one; the
   * hooks get the new direction (`onSorterChanged` only when the current key
   * names a sorter); the list is refreshed.
   */
  function ToggleSortDirectionHandler<T, P>(options: Options<T>, m: Model<T>, props: P): (r: Step<T, P>)
    ensures Apply(m, r.update) == m.(sortDirection := Flip(m.sortDirection)) && r.cmd == OfMsg(Refresh)
    ensures r.effects == SortingEffects(options, GetSorterByKey(m.currentSorterKey, options.sorter), m, props,
      KeyOrEmpty(m.currentSorterKey), Flip(m.sortDirection))
  {
    var sorter := GetSorterByKey(m.currentSorterKey, options.sorter);
    var sortDirection := if m.sortDirection == Asc then Desc else Asc;
    Step(Partial(None, None, Some(sortDirection)), OfMsg(Refresh),
      SortingEffects(options, sorter, m, props, KeyOrEmpty(m.currentSorterKey), sortDirection))
  }

  /** Toggling twice gives back the model toggled from. */
  lemma ToggleTwiceRestores<T, P>(options: Options<T>, m: Model<T>, props: P)
    ensures var once := Apply(m, ToggleSortDirectionHandler<T, P>(options, m, props).update);
      Apply(once, ToggleSortDirectionHandler<T, P>(options, once, props).update) == m
  {
    FlipInvolution(m.sortDirection);
  }

  /** `setSorting`: exactly the key and the direction change, and the list is refreshed; no hook is called. */
  function SetSortingHandler<T, P>(key: string, direction: SortDirection, m: Model<T>): (r: Step<T, P>)
    ensures Apply(m, r.update) == m.(currentSorterKey := Some(key), sortDirection := direction)
    ensures r.cmd == OfMsg(Refresh) && r.effects == []
  {
    Step(Partial(None, Some(Some(key)), Some(direction)), OfMsg(Refresh), [])
  }
}
