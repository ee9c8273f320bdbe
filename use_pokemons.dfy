/**
 * The `usePokemons` hook of src/hooks/usePokemons.tsx: a paged local list, a
 * lazily loaded full catalog for search, and the query that chooses between
 * them. Each handler runs to completion before the next one starts, and the
 * listing endpoint it fetches from is passed in.
 */
module UsePokemons {
  import opened Wrappers
  import opened Text
  import opened Service

  /** `defaultStepSize`, the default of both `stepSize` and `limit`. */
  const DefaultStepSize: nat := 21

  function Min(a: int, b: int): int {
    if a <= b then a else b
  }

  // ---------------------------------------------------------------------
  // The search filter of `getPokemons`

  /** The lower-cased name contains the lower-cased search text. */
  predicate NameMatches(e: Entry, search: string) {
    Includes(LowerString(e.name), LowerString(search))
  }

  /** The entries whose name matches the search text, in catalog order. */
  function Matching(entries: seq<Entry>, search: string): (r: seq<Entry>)
    ensures |r| <= |entries|
  {
    if |entries| == 0 then [] else Keep(entries[0], search) + Matching(entries[1..], search)
  }

  /** The one-entry filter: `[e]` if it matches, `[]` otherwise. */
  function Keep(e: Entry, search: string): seq<Entry> {
    if NameMatches(e, search) then [e] else []
  }

  /** The filter keeps exactly the catalog entries that match. */
  lemma {:induction false} MatchingMembers(entries: seq<Entry>, search: string)
    ensures forall x :: x in Matching(entries, search) <==> x in entries && NameMatches(x, search)
    decreases |entries|
  {
    if |entries| > 0 {
      MatchingMembers(entries[1..], search);
      assert entries == [entries[0]] + entries[1..];
    }
  }

  /** Filtering keeps catalog order: it distributes over concatenation. */
  lemma {:induction false} MatchingAppend(a: seq<Entry>, b: seq<Entry>, search: string)
    ensures Matching(a + b, search) == Matching(a, search) + Matching(b, search)
    decreases |a|
  {
    if |a| == 0 {
      assert a + b == b;
    } else {
      var ab := a + b;
      assert ab[0] == a[0] && ab[1..] == a[1..] + b;
      MatchingAppend(a[1..], b, search);
      var head := Keep(a[0], search);
      calc {
        Matching(ab, search);
        head + Matching(a[1..] + b, search);
        head + (Matching(a[1..], search) + Matching(b, search));
        (head + Matching(a[1..], search)) + Matching(b, search);
      }
    }
  }

  /** The matches of a non-empty prefix: the head if it matches, then the matches of the tail's prefix. */
  lemma MatchingOfPrefixUnfold(s: seq<Entry>, search: string, j: nat)
    requires j < |s|
    ensures Matching(s[..j + 1], search) == Keep(s[0], search) + Matching(s[1..][..j], search)
  {
    assert s[..j + 1][0] == s[0];
    assert s[..j + 1][1..] == s[1..][..j];
  }

  /**
   * The first `n` matches are exactly the matches among some prefix of the
   * catalog: the search result never skips a match to take a later one.
   */
  lemma {:induction false} FirstMatchesArePrefixMatches(s: seq<Entry>, search: string, n: nat)
    requires n <= |Matching(s, search)|
    ensures exists j :: 0 <= j <= |s| && Matching(s[..j], search) == Matching(s, search)[..n]
    decreases |s|
  {
    if n == 0 {
      assert Matching(s[..0], search) == [];
    } else {
      var head := Keep(s[0], search);
      var rest := Matching(s[1..], search);
      assert Matching(s, search) == head + rest;
      var m := n - |head|;
      FirstMatchesArePrefixMatches(s[1..], search, m);
      var j :| 0 <= j <= |s[1..]| && Matching(s[1..][..j], search) == rest[..m];
      MatchingOfPrefixUnfold(s, search, j);
      assert (head + rest)[..n] == head + rest[..m];
    }
  }

  /** Search is case-insensitive, so the capitalisation done at ingestion does not matter. */
  lemma MatchingIgnoresCapitalization(id: string, name: string, url: string, search: string)
    ensures NameMatches(Entry(id, Capitalize(name), url), search) == Includes(LowerString(name), LowerString(search))
  {
    LowerOfCapitalize(name);
  }

  /** The entries of the page history, in the order they were fetched. */
  function Concat(pages: seq<seq<Entry>>): seq<Entry> {
    if |pages| == 0 then [] else Concat(pages[..|pages| - 1]) + pages[|pages| - 1]
  }

  /** `n` full pages of `size` entries hold `n * size` entries. */
  lemma {:induction false} ConcatOfFullPages(pages: seq<seq<Entry>>, size: nat)
    requires forall i :: 0 <= i < |pages| ==> |pages[i]| == size
    ensures |Concat(pages)| == |pages| * size
  {
    if |pages| > 0 {
      ConcatOfFullPages(pages[..|pages| - 1], size);
      assert (|pages| - 1) * size + size == |pages| * size;
    }
  }

  // ---------------------------------------------------------------------
  // The hook's state and handlers

  class PokemonList {
    const stepSize: nat
    const limit: int
    var page: nat
    var localPokemons: seq<Entry>
    var globalPokemons: seq<Entry>
    /** The shared search text; this hook only reads it, the handler below takes its changes. */
    var searchInput: string
    /** The responses of the successful next-page fetches, oldest first. */
    ghost var pages: seq<seq<Entry>>

    /** `page` is one more than the number of pages fetched, and `localPokemons` is all of them. */
    ghost predicate Valid()
      reads this
    {
      page == |pages| + 1 && localPokemons == Concat(pages)
    }

    /** The `useState` initial values. */
    constructor (stepSize: nat, limit: int, searchInput: string)
      ensures Valid()
      ensures this.stepSize == stepSize && this.limit == limit && this.searchInput == searchInput
      ensures page == 1 && localPokemons == [] && globalPokemons == [] && pages == []
    {
      this.stepSize := stepSize;
      this.limit := limit;
      this.searchInput := searchInput;
      page := 1;
      localPokemons := [];
      globalPokemons := [];
      pages := [];
    }

    /**
     * `getNextPage`: requests `offset = page * stepSize` with `limit`; a
     * response appends to the local list and advances the page, a null
     * response or a thrown error changes nothing.
     */
    method GetNextPage(endpoint: ListingEndpoint)
      requires Valid()
      modifies this`page, this`localPokemons, this`pages
      ensures Valid()
      ensures var response := FetchPokemons(old(page) * stepSize, limit, endpoint);
              if response.Success? && response.value.Some? then
                && localPokemons == old(localPokemons) + response.value.value
                && page == old(page) + 1
                && pages == old(pages) + [response.value.value]
              else
                && localPokemons == old(localPokemons)
                && page == old(page)
                && pages == old(pages)
      ensures old(localPokemons) <= localPokemons
    {
      var response := FetchPokemons(page * stepSize, limit, endpoint);
      if response.Success? && response.value.Some? {
        localPokemons := localPokemons + response.value.value;
        page := page + 1;
        pages := pages + [response.value.value];
      }
    }

    /** `getAllPokemons`: the full catalog (`offset = 0`, `limit = -1`) replaces the global list on success. */
    method GetAllPokemons(endpoint: ListingEndpoint)
      modifies this`globalPokemons
      ensures var response := FetchPokemons(0, -1, endpoint);
              globalPokemons == if response.Success? && response.value.Some? then response.value.value else old(globalPokemons)
    {
      var response := FetchPokemons(0, -1, endpoint);
      if response.Success? && response.value.Some? {
        globalPokemons := response.value.value;
      }
    }

    /** The condition under which the search effect loads the full catalog. */
    predicate ShouldLoadCatalog()
      reads this
    {
      !(|globalPokemons| > 0 || Utf16Length(searchInput) == 0)
    }

    /**
     * The search effect: it runs when the search text changes, and loads the
     * full catalog only while the global list is empty and the text is not.
     */
    method SearchInputChanged(newInput: string, endpoint: ListingEndpoint)
      modifies this`searchInput, this`globalPokemons
      ensures searchInput == newInput
      ensures var response := FetchPokemons(0, -1, endpoint);
              var loads := old(searchInput) != newInput && |old(globalPokemons)| == 0 && Utf16Length(newInput) > 0;
              globalPokemons == if loads && response.Success? && response.value.Some? then response.value.value else old(globalPokemons)
      ensures |old(globalPokemons)| > 0 ==> globalPokemons == old(globalPokemons)
    {
      if newInput != searchInput {
        searchInput := newInput;
        if ShouldLoadCatalog() {
          GetAllPokemons(endpoint);
        }
      }
    }

    /** The two effects that run on mount: the first page, then the search effect on the initial text. */
    method Mount(endpoint: ListingEndpoint)
      requires Valid()
      modifies this`page, this`localPokemons, this`pages, this`globalPokemons
      ensures Valid()
      ensures var response := FetchPokemons(old(page) * stepSize, limit, endpoint);
              && localPokemons == (if response.Success? && response.value.Some? then old(localPokemons) + response.value.value else old(localPokemons))
              && page == (if response.Success? && response.value.Some? then old(page) + 1 else old(page))
      ensures var all := FetchPokemons(0, -1, endpoint);
              var loads := |old(globalPokemons)| == 0 && Utf16Length(searchInput) > 0;
              globalPokemons == if loads && all.Success? && all.value.Some? then all.value.value else old(globalPokemons)
    {
      GetNextPage(endpoint);
      if ShouldLoadCatalog() {
        GetAllPokemons(endpoint);
      }
    }

    /**
     * `getPokemons`: with a loaded catalog and a search text longer than one
     * UTF-16 code unit, the first `stepSize` matching catalog entries in catalog
     * order; otherwise the local list unchanged.
     */
    function GetPokemons(): (r: seq<Entry>)
      reads this
      ensures !(|globalPokemons| > 0 && Utf16Length(searchInput) > 1) ==> r == localPokemons
      ensures |globalPokemons| > 0 && Utf16Length(searchInput) > 1 ==>
        && |r| <= stepSize
        && |r| == Min(stepSize, |Matching(globalPokemons, searchInput)|)
        && r <= Matching(globalPokemons, searchInput)
        && (forall i :: 0 <= i < |r| ==> NameMatches(r[i], searchInput) && r[i] in globalPokemons)
        && exists j :: 0 <= j <= |globalPokemons| && r == Matching(globalPokemons[..j], searchInput)
    {
      if |globalPokemons| > 0 && Utf16Length(searchInput) > 1 then
        var matches := Matching(globalPokemons, searchInput);
        var n := Min(stepSize, |matches|);
        MatchingMembers(globalPokemons, searchInput);
        FirstMatchesArePrefixMatches(globalPokemons, searchInput, n);
        matches[..n]
      else
        localPokemons
    }
  }

  /**
   * After `n` successful next-page fetches of `size` entries each, `page` is
   * `n + 1` and the local list holds `n * size` entries.
   */
  lemma LocalHoldsFullPages(list: PokemonList, size: nat)
    requires list.Valid()
    requires forall i :: 0 <= i < |list.pages| ==> |list.pages[i]| == size
    ensures list.page == |list.pages| + 1
    ensures |list.localPokemons| == (list.page - 1) * size
  {
    ConcatOfFullPages(list.pages, size);
  }

  /** From the initial state the first request asks for offset `stepSize`, not 0. */
  method FirstPageFromInitialState(stepSize: nat, limit: int, endpoint: ListingEndpoint) returns (list: PokemonList)
    ensures fresh(list) && list.Valid() && list.globalPokemons == []
    ensures list.stepSize == stepSize && list.limit == limit
    ensures var response := FetchPokemons(stepSize, limit, endpoint);
            && list.localPokemons == (if response.Success? && response.value.Some? then response.value.value else [])
            && list.page == (if response.Success? && response.value.Some? then 2 else 1)
  {
    list := new PokemonList(stepSize, limit, "");
    list.GetNextPage(endpoint);
  }

  /** A hook created with the default options asks first for 21 entries at offset 21. */
  method FirstPageWithDefaults(endpoint: ListingEndpoint) returns (list: PokemonList)
    ensures fresh(list) && list.Valid() && list.globalPokemons == []
    ensures list.stepSize == DefaultStepSize == 21 && list.limit == DefaultStepSize
    ensures var response := FetchPokemons(21, 21, endpoint);
            && list.localPokemons == (if response.Success? && response.value.Some? then response.value.value else [])
            && list.page == (if response.Success? && response.value.Some? then 2 else 1)
  {
    list := FirstPageFromInitialState(DefaultStepSize, DefaultStepSize, endpoint);
  }
}
