/** The home page's search bar, components/search-filters.tsx: the filter
    state read from the URL, and the query parameters written back when the
    filters change. */
module SearchFilters {
  import opened Common
  import opened Seqs
  import Categories
  import opened Database
  import opened Gatherings

  /** A query string as its list of name/value pairs, in order. */
  type QueryList = seq<(string, string)>

  /** `URLSearchParams.get`: the value of the first pair with that name, or null. */
  function Get(entries: QueryList, name: string): (r: Option<string>)
    ensures r.None? <==> forall e :: e in entries ==> e.0 != name
    ensures r.Some? ==> (name, r.value) in entries
  {
    if entries == [] then None
    else if entries[0].0 == name then Some(entries[0].1)
    else
      assert forall e :: e in entries <==> e == entries[0] || e in entries[1..];
      Get(entries[1..], name)
  }

  /** `URLSearchParams.set`: the first pair with that name takes the value and
      later pairs with it are dropped; without one, the pair goes at the end. */
  function SetEntry(entries: QueryList, name: string, value: string): (r: QueryList)
  {
    if entries == [] then [(name, value)]
    else if entries[0].0 == name then [(name, value)] + Filter(entries[1..], (e: (string, string)) => e.0 != name)
    else [entries[0]] + SetEntry(entries[1..], name, value)
  }

  /** After a set, reading the name gives the value and every other name reads as before. */
  lemma {:induction false} GetAfterSet(entries: QueryList, name: string, value: string, other: string)
    ensures Get(SetEntry(entries, name, value), name) == Some(value)
    ensures other != name ==> Get(SetEntry(entries, name, value), other) == Get(entries, other)
  {
    if entries != [] && entries[0].0 != name {
      GetAfterSet(entries[1..], name, value, other);
    } else if entries != [] && other != name {
      var rest := Filter(entries[1..], (e: (string, string)) => e.0 != name);
      GetThroughFilter(entries[1..], name, other);
    }
  }

  /** Dropping the pairs of one name does not change how another name reads. */
  lemma {:induction false} GetThroughFilter(entries: QueryList, name: string, other: string)
    requires other != name
    ensures Get(Filter(entries, (e: (string, string)) => e.0 != name), other) == Get(entries, other)
  {
    if entries != [] {
      GetThroughFilter(entries[1..], name, other);
    }
  }

  /** A set adds no pair other than the one it writes. */
  lemma {:induction false} SetAddsOnlyItsPair(entries: QueryList, name: string, value: string)
    ensures forall e :: e in SetEntry(entries, name, value) ==> e in entries || e == (name, value)
  {
    if entries != [] && entries[0].0 != name {
      SetAddsOnlyItsPair(entries[1..], name, value);
    }
  }

  /** Every pair carries one of the three names the bar writes. */
  predicate OnlyFilterNames(params: QueryList) {
    forall e :: e in params ==> e.0 == "category" || e.0 == "query" || e.0 == "status"
  }

  /** The `new URLSearchParams()` buffer the effect fills. */
  class SearchParams {
    var entries: QueryList

    constructor ()
      ensures entries == []
    {
      entries := [];
    }

    method Set(name: string, value: string)
      modifies this
      ensures entries == SetEntry(old(entries), name, value)
    {
      entries := SetEntry(entries, name, value);
    }
  }

  /** The three filters of the bar. */
  datatype FilterState = FilterState(category: string, query: string, isOpenOnly: bool)

  /** The state the bar starts in: the URL's category, else `all`; its query,
      else empty; open-only exactly when `status` is `open`. An empty value
      counts as missing, as `||` has it. */
  function InitialState(url: QueryList): (s: FilterState)
    ensures s.category == (if Get(url, "category").Some? && Get(url, "category").value != "" then Get(url, "category").value else "all")
    ensures s.query == (if Get(url, "query").Some? then Get(url, "query").value else "")
    ensures s.isOpenOnly <==> Get(url, "status") == Some("open")
  {
    var category := Get(url, "category");
    var query := Get(url, "query");
    FilterState(
      if category.Some? && category.value != "" then category.value else "all",
      if query.Some? then query.value else "",
      Get(url, "status") == Some("open"))
  }

  /** The category never starts out empty. */
  lemma InitialCategoryNonEmpty(url: QueryList)
    ensures InitialState(url).category != ""
  {
  }

  /** What the parameters written for a state say about each name. */
  predicate Encodes(params: QueryList, category: string, query: string, isOpenOnly: bool) {
    && Get(params, "category") == (if category != "" && category != "all" then Some(category) else None)
    && Get(params, "query") == (if query != "" then Some(query) else None)
    && Get(params, "status") == (if isOpenOnly then Some("open") else None)
    && OnlyFilterNames(params)
  }

  /** Reading back what was written restores the state, for any non-empty
      category (an empty one comes back as `all`). */
  lemma RoundTrip(params: QueryList, s: FilterState)
    requires Encodes(params, s.category, s.query, s.isOpenOnly)
    requires s.category != ""
    ensures InitialState(params) == s
  {
  }

  /** An empty category is not written, so it reads back as `all`. */
  lemma EmptyCategoryReadsAsAll(params: QueryList, query: string, isOpenOnly: bool)
    requires Encodes(params, "", query, isOpenOnly)
    ensures InitialState(params) == FilterState("all", query, isOpenOnly)
  {
  }

  class SearchFilters {
    var category: string
    var query: string
    var isOpenOnly: bool

    constructor (url: QueryList)
      ensures State() == InitialState(url)
    {
      var s := InitialState(url);
      category, query, isOpenOnly := s.category, s.query, s.isOpenOnly;
    }

    function State(): FilterState
      reads this
    {
      FilterState(category, query, isOpenOnly)
    }

    /** The open-only button. */
    method ToggleOpenOnly()
      modifies this`isOpenOnly
      ensures isOpenOnly == !old(isOpenOnly)
    {
      isOpenOnly := !isOpenOnly;
    }

    /** Choosing a value in the select (`onValueChange={setCategory}`). */
    method SetCategory(value: string)
      requires value in CategoryOptions
      modifies this`category
      ensures category == value
      ensures category != ""
    {
      OptionsNonEmpty();
      category := value;
    }

    method SetQuery(value: string)
      modifies this`query
      ensures query == value
    {
      query := value;
    }

    /** The effect run when a filter changes: the parameters pushed as the new
        URL, built by successive sets on a fresh buffer. `debouncedQuery` is
        the query as it stood when the debounce last settled. */
    method BuildParams(debouncedQuery: string) returns (params: QueryList)
      ensures Encodes(params, category, debouncedQuery, isOpenOnly)
    {
      var buffer := new SearchParams();
      if category != "" && category != "all" {
        buffer.Set("category", category);
        GetAfterSet([], "category", category, "query");
        GetAfterSet([], "category", category, "status");
      }
      ghost var afterCategory := buffer.entries;
      if debouncedQuery != "" {
        buffer.Set("query", debouncedQuery);
        GetAfterSet(afterCategory, "query", debouncedQuery, "category");
        GetAfterSet(afterCategory, "query", debouncedQuery, "status");
        SetAddsOnlyItsPair(afterCategory, "query", debouncedQuery);
      }
      ghost var afterQuery := buffer.entries;
      if isOpenOnly {
        buffer.Set("status", "open");
        GetAfterSet(afterQuery, "status", "open", "category");
        GetAfterSet(afterQuery, "status", "open", "query");
        SetAddsOnlyItsPair(afterQuery, "status", "open");
      }
      params := buffer.entries;
    }
  }

  // ---------------------------------------------------------------------
  // The category choices of the select
  // ---------------------------------------------------------------------

  /** The category values the select offers, as written: the first is `all`,
      the others are display names. */
  const CategoryOptions: seq<string> :=
    ["all", "문화/예술", "운동/액티비티", "푸드/드링크", "취미", "여행", "성장/자기계발", "동네/친목"]

  /** No offered value is empty, so a chosen category survives the round trip. */
  lemma OptionsNonEmpty()
    ensures forall o :: o in CategoryOptions ==> o != ""
  {
  }

  /** The filter `getGatherings` receives when only a category is chosen. */
  function CategoryOnly(category: string): GatheringFilters {
    GatheringFilters(Some(category), None, None)
  }

  /** A gathering filed under one of the catalogue's category ids. */
  predicate Catalogued(g: Gathering) {
    g.category.Some? && exists c :: c in Categories.Categories && c.id == g.category.value
  }

  /** No offered value other than `all` equals a catalogue id: every one of
      them starts with a Hangul syllable, every id with a Latin letter. */
  lemma OptionsAreNotCategoryIds()
    ensures forall o, c :: o in CategoryOptions && o != "all" && c in Categories.Categories ==> o != c.id
  {
    var heads := seq(|CategoryOptions|, k requires 0 <= k < |CategoryOptions| => Head(CategoryOptions[k]));
    assert heads == [0x61, 0xbb38, 0xc6b4, 0xd478, 0xcde8, 0xc5ec, 0xc131, 0xb3d9];
    var tags := seq(|Categories.Categories|, k requires 0 <= k < |Categories.Categories| => Categories.IdTag(Categories.Categories[k].id));
    assert tags == [0x6e65, 0x6c75, 0x6d65, 0x7374, 0x776f, 0x6375, 0x686f, 0x7472, 0x6761, 0x6368];
    forall o, c | o in CategoryOptions && o != "all" && c in Categories.Categories ensures o != c.id {
      var k :| 0 <= k < |CategoryOptions| && CategoryOptions[k] == o;
      var m :| 0 <= m < |Categories.Categories| && Categories.Categories[m] == c;
      assert k != 0;
      assert Head(o) >= 0xAC00;
      assert Categories.IdTag(c.id) < 0x8000;
    }
  }

  /** The first character of a string as a number, 0 for the empty string. */
  function Head(s: string): int {
    if s == [] then 0 else s[0] as int
  }

  /** As written, choosing any category other than `all` lists no gathering
      filed under a catalogue id, which is what the creation form stores. */
  lemma OfferedCategoryListsNoCataloguedGathering(option: string, now: int, g: Gathering)
    requires option in CategoryOptions && option != "all"
    requires Catalogued(g)
    ensures !Selected(Some(CategoryOnly(option)), now, g)
  {
    OptionsAreNotCategoryIds();
  }

  /** The choices the filter evidently means to offer: `all`, then the
      catalogue's own ids in catalogue order. */
  const CorrectedCategoryOptions: seq<string> :=
    ["all"] + seq(|Categories.Categories|, i requires 0 <= i < |Categories.Categories| => Categories.Categories[i].id)

  /** No corrected choice is empty, so every choice survives the round trip. */
  lemma CorrectedOptionsNonEmpty()
    ensures forall o :: o in CorrectedCategoryOptions ==> o != ""
  {
    Categories.CategoryIdsDistinct();
    forall o | o in CorrectedCategoryOptions ensures o != "" {
      var k :| 0 <= k < |CorrectedCategoryOptions| && CorrectedCategoryOptions[k] == o;
      if k > 0 {
        assert o == Categories.Categories[k - 1].id;
        assert Categories.Categories[k - 1] in Categories.Categories;
      }
    }
  }

  /** With the corrected choices, every catalogue category can be chosen, and
      choosing it lists exactly the gatherings filed under it. */
  lemma CorrectedOptionSelectsItsCategory(i: nat, now: int, g: Gathering)
    requires i < |Categories.Categories|
    ensures Categories.Categories[i].id in CorrectedCategoryOptions
    ensures Selected(Some(CategoryOnly(Categories.Categories[i].id)), now, g) <==> g.category == Some(Categories.Categories[i].id)
  {
    var id := Categories.Categories[i].id;
    assert CorrectedCategoryOptions[i + 1] == id;
    Categories.CategoryTags();
    assert Categories.Categories[i] in Categories.Categories;
    assert Categories.IdTag("all") == 0x616c;
    assert id != "" && id != "all";
  }
}
