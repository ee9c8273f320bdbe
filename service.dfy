/**
 * The catalog client of src/service/index.ts: turning the raw results of the
 * listing endpoint into entries, and merging a pokemon resource with its
 * species resource into one detail record. The HTTP requests are given as
 * endpoint functions; `None` is a response whose `ok` flag is false.
 */
module Service {
  import opened Wrappers
  import opened Text

  /** What `fetchPokemons` and `fetchPokemonDetails` throw. */
  datatype Error =
    | UrlRequired      // `fetchPokemonDetails` called with an empty url
    | UrlWithoutId     // `url.match(...)` returned null, so `[1]` throws
    | NoEnglishEntry   // `find(...)` returned undefined, so the field access throws

  /** One element of `results` in the listing response. */
  datatype RawResult = RawResult(name: string, url: string)

  /** A listing entry, `PokemonBasic` in the source. */
  datatype Entry = Entry(id: string, name: string, url: string)

  /** The listing endpoint `GET /pokemon?offset=..&limit=..`; `None` when not ok. */
  type ListingEndpoint = (int, int) -> Option<seq<RawResult>>

  /** A resource endpoint `GET url`; `None` when not ok. */
  type ResourceEndpoint<T> = string -> Option<T>

  // ---------------------------------------------------------------------
  // The id of an entry: the digits the url regular expression captures

  /**
   * The url ends in `/<digits>/` where the digit run starts at index `k`:
   * the text the regular expression captures is `url[k..|url| - 1]`.
   */
  ghost predicate IdSegmentAt(url: string, k: int) {
    && 0 < k < |url| - 1
    && url[k - 1] == '/'
    && url[|url| - 1] == '/'
    && forall i :: k <= i < |url| - 1 ==> IsDigit(url[i])
  }

  /** The start of the longest run of digits ending just before index `end`. */
  function DigitRunStart(s: string, end: nat): (k: nat)
    requires end <= |s|
    ensures k <= end
    ensures forall i :: k <= i < end ==> IsDigit(s[i])
    ensures k == 0 || !IsDigit(s[k - 1])
    decreases end
  {
    if end == 0 || !IsDigit(s[end - 1]) then end else DigitRunStart(s, end - 1)
  }

  /** The digits between the last two slashes of a url ending in a slash, or `None` when there are none. */
  function ExtractId(url: string): (r: Option<string>)
    ensures r.Some? <==> exists k :: IdSegmentAt(url, k)
    ensures forall k :: IdSegmentAt(url, k) ==> r == Some(url[k..|url| - 1])
  {
    if |url| < 3 || url[|url| - 1] != '/' then None
    else
      var k := DigitRunStart(url, |url| - 1);
      if 0 < k < |url| - 1 && url[k - 1] == '/' then
        assert IdSegmentAt(url, k);
        Some(url[k..|url| - 1])
      else
        None
  }

  /** An id that is a non-empty digit string is recovered from a url ending in `/<id>/`. */
  lemma ExtractIdOfResourceUrl(prefix: string, id: string)
    requires |id| > 0 && forall i :: 0 <= i < |id| ==> IsDigit(id[i])
    ensures ExtractId(prefix + "/" + id + "/") == Some(id)
  {
    var url := prefix + "/" + id + "/";
    var k := |prefix| + 1;
    assert url[k - 1] == '/';
    assert forall i :: k <= i < |url| - 1 ==> url[i] == id[i - k];
    assert IdSegmentAt(url, k);
    assert url[k..|url| - 1] == id;
  }

  /** The captured id is a non-empty digit string. */
  lemma ExtractIdIsDigits(url: string)
    requires ExtractId(url).Some?
    ensures |ExtractId(url).value| > 0
    ensures forall i :: 0 <= i < |ExtractId(url).value| ==> IsDigit(ExtractId(url).value[i])
  {
  }

  // ---------------------------------------------------------------------
  // The name of an entry: its first character upper-cased, the rest kept

  function Capitalize(name: string): (r: string)
    ensures |r| == |name|
    ensures |name| > 0 ==> r[0] == UpperChar(name[0])
    ensures forall i :: 1 <= i < |name| ==> r[i] == name[i]
  {
    if |name| == 0 then "" else [UpperChar(name[0])] + name[1..]
  }

  /** Capitalising does not change the lower-cased name that search compares. */
  lemma LowerOfCapitalize(name: string)
    ensures LowerString(Capitalize(name)) == LowerString(name)
  {
  }

  // ---------------------------------------------------------------------
  // The per-result mapping of `fetchPokemons`

  /** The mapping applied to each listing result; `None` where it throws. */
  function ToEntry(raw: RawResult): (r: Option<Entry>)
    ensures r.Some? <==> ExtractId(raw.url).Some?
    ensures r.Some? ==> r.value.id == ExtractId(raw.url).value
    ensures r.Some? ==> r.value.name == Capitalize(raw.name) && r.value.url == raw.url
  {
    match ExtractId(raw.url)
    case None => None
    case Some(id) => Some(Entry(id, Capitalize(raw.name), raw.url))
  }

  /** The mapping over all listing results: `None` if it throws on any element. */
  function ToEntries(results: seq<RawResult>): (r: Option<seq<Entry>>)
    ensures r.Some? <==> forall i :: 0 <= i < |results| ==> ExtractId(results[i].url).Some?
    ensures r.Some? ==> |r.value| == |results|
    ensures r.Some? ==> forall i :: 0 <= i < |results| ==> Some(r.value[i]) == ToEntry(results[i])
  {
    if |results| == 0 then Some([])
    else
      match ToEntry(results[0])
      case None => None
      case Some(e) =>
        match ToEntries(results[1..])
        case None => None
        case Some(es) => Some([e] + es)
  }

  /**
   * `fetchPokemons(offset, limit)` against the listing endpoint: `null` when the
   * response is not ok, the mapped results when it is, and a thrown error when
   * some result's url carries no id.
   */
  function FetchPokemons(offset: int, limit: int, endpoint: ListingEndpoint): (r: Result<Option<seq<Entry>>, Error>)
    ensures endpoint(offset, limit).None? <==> r == Success(None)
    ensures r.Failure? ==> r.error == UrlWithoutId
    ensures r.Success? && r.value.Some? ==>
      endpoint(offset, limit).Some? && ToEntries(endpoint(offset, limit).value) == r.value
    ensures endpoint(offset, limit).Some? ==>
      (r.Failure? <==> exists i :: 0 <= i < |endpoint(offset, limit).value| &&
                                   ExtractId(endpoint(offset, limit).value[i].url).None?)
  {
    match endpoint(offset, limit)
    case None => Success(None)
    case Some(results) =>
      match ToEntries(results)
      case None => Failure(UrlWithoutId)
      case Some(entries) => Success(Some(entries))
  }

  /**
   * Every entry of a successful listing fetch comes from the result at the
   * same position: its id is the digit segment of the url, its name the
   * capitalised name and its url the same url.
   */
  lemma FetchedEntriesFollowResults(offset: int, limit: int, endpoint: ListingEndpoint,
                                    entries: seq<Entry>, i: int)
    requires FetchPokemons(offset, limit, endpoint) == Success(Some(entries))
    requires 0 <= i < |entries|
    ensures endpoint(offset, limit).Some? && |endpoint(offset, limit).value| == |entries|
    ensures var raw := endpoint(offset, limit).value[i];
            && entries[i].url == raw.url
            && entries[i].name == Capitalize(raw.name)
            && Some(entries[i].id) == ExtractId(raw.url)
            && |entries[i].id| > 0
  {
  }

  /** The first listing result: `bulbasaur` at `.../pokemon/1/`. */
  lemma BulbasaurEntry()
    ensures ToEntry(RawResult("bulbasaur", "https://pokeapi.co/api/v2/pokemon/1/"))
         == Some(Entry("1", "Bulbasaur", "https://pokeapi.co/api/v2/pokemon/1/"))
  {
    ExtractIdOfResourceUrl("https://pokeapi.co/api/v2/pokemon", "1");
    assert "https://pokeapi.co/api/v2/pokemon" + "/" + "1" + "/" == "https://pokeapi.co/api/v2/pokemon/1/";
    assert UpperChar('b') == 'B';
    assert Capitalize("bulbasaur") == "Bulbasaur";
  }

  // ---------------------------------------------------------------------
  // `fetchPokemonDetails`

  /** A JSON payload the source passes through without looking inside (`types`, `stats`). */
  datatype Json = Json(raw: string)

  /** The `species` link of a pokemon resource. */
  datatype SpeciesLink = SpeciesLink(url: string)

  /** The fields `fetchPokemonDetails` destructures from the pokemon resource. */
  datatype PokemonResource = PokemonResource(
    height: int, weight: int, types: seq<Json>, stats: Json, species: SpeciesLink)

  /** One element of `flavor_text_entries` or `genera`: a language name and its text. */
  datatype Localized = Localized(language: string, text: string)

  /** The fields `fetchPokemonDetails` reads from the species resource. */
  datatype SpeciesResource = SpeciesResource(
    evolvesFromSpecies: Option<string>,   // `evolves_from_species?.name`
    flavorTextEntries: seq<Localized>,
    generation: string,
    color: string,
    genera: seq<Localized>)

  /** `PokemonDetails`; `evolvesFrom` is the optional field. */
  datatype PokemonDetails = PokemonDetails(
    height: int, weight: int, types: seq<Json>, stats: Json, species: SpeciesLink,
    evolvesFrom: Option<string>, flavorText: string, generation: string, color: string, genus: string)

  /** Entry `i` is the first whose language is English. */
  ghost predicate FirstEnglishAt(entries: seq<Localized>, i: int) {
    && 0 <= i < |entries|
    && entries[i].language == "en"
    && forall j :: 0 <= j < i ==> entries[j].language != "en"
  }

  /** The index of the first entry whose language name is "en". */
  function FindEnglishIndex(entries: seq<Localized>): (r: Option<nat>)
    ensures r.None? <==> forall i :: 0 <= i < |entries| ==> entries[i].language != "en"
    ensures r.Some? ==> FirstEnglishAt(entries, r.value)
  {
    if |entries| == 0 then None
    else if entries[0].language == "en" then Some(0)
    else
      match FindEnglishIndex(entries[1..])
      case None => None
      case Some(i) => Some(i + 1)
  }

  /** The text of the first entry whose language name is "en". */
  function FindEnglish(entries: seq<Localized>): (r: Option<string>)
    ensures r.None? <==> forall i :: 0 <= i < |entries| ==> entries[i].language != "en"
    ensures r.Some? ==> exists i :: FirstEnglishAt(entries, i) && r.value == entries[i].text
  {
    match FindEnglishIndex(entries)
    case None => None
    case Some(i) => Some(entries[i].text)
  }

  /** The first English entry is unique, so `FindEnglish` picks a determined one. */
  lemma FirstEnglishUnique(entries: seq<Localized>, i: int, j: int)
    requires FirstEnglishAt(entries, i) && FirstEnglishAt(entries, j)
    ensures i == j
  {
  }

  /** The record literal at the end of `fetchPokemonDetails`. */
  function Merge(pokemon: PokemonResource, species: SpeciesResource): (r: Result<PokemonDetails, Error>)
    ensures r.Failure? <==> FindEnglish(species.flavorTextEntries).None? || FindEnglish(species.genera).None?
    ensures r.Failure? ==> r.error == NoEnglishEntry
    ensures r.Success? ==>
      var d := r.value;
      && d.height == pokemon.height && d.weight == pokemon.weight
      && d.types == pokemon.types && d.stats == pokemon.stats && d.species == pokemon.species
      && d.evolvesFrom == species.evolvesFromSpecies
      && Some(d.flavorText) == FindEnglish(species.flavorTextEntries)
      && Some(d.genus) == FindEnglish(species.genera)
      && d.generation == species.generation && d.color == species.color
  {
    match FindEnglish(species.flavorTextEntries)
    case None => Failure(NoEnglishEntry)
    case Some(flavorText) =>
      match FindEnglish(species.genera)
      case None => Failure(NoEnglishEntry)
      case Some(genus) =>
        Success(PokemonDetails(
          pokemon.height, pokemon.weight, pokemon.types, pokemon.stats, pokemon.species,
          species.evolvesFromSpecies, flavorText, species.generation, species.color, genus))
  }

  /**
   * `fetchPokemonDetails(url)`: an empty url throws; a response that is not ok,
   * of either the pokemon or its species, gives `null`; otherwise the merge.
   */
  function FetchDetails(url: string, pokemons: ResourceEndpoint<PokemonResource>,
                        species: ResourceEndpoint<SpeciesResource>): (r: Result<Option<PokemonDetails>, Error>)
    ensures url == "" ==> r == Failure(UrlRequired)
    ensures url != "" && pokemons(url).None? ==> r == Success(None)
    ensures url != "" && pokemons(url).Some? && species(pokemons(url).value.species.url).None? ==>
      r == Success(None)
    ensures url != "" && pokemons(url).Some? && species(pokemons(url).value.species.url).Some? ==>
      var m := Merge(pokemons(url).value, species(pokemons(url).value.species.url).value);
      r == if m.Success? then Success(Some(m.value)) else Failure(m.error)
    ensures r.Success? && r.value.Some? ==>
      && url != ""
      && pokemons(url).Some?
      && species(pokemons(url).value.species.url).Some?
      && Merge(pokemons(url).value, species(pokemons(url).value.species.url).value) == Success(r.value.value)
  {
    if url == "" then Failure(UrlRequired)
    else
      match pokemons(url)
      case None => Success(None)
      case Some(pokemon) =>
        match species(pokemon.species.url)
        case None => Success(None)
        case Some(speciesData) =>
          match Merge(pokemon, speciesData)
          case Failure(e) => Failure(e)
          case Success(details) => Success(Some(details))
  }

  /**
   * No partial record: a details fetch either throws, gives `null`, or gives a
   * record whose every field comes from the two responses; a species response
   * without an English text always throws.
   */
  lemma DetailsAllOrNothing(url: string, pokemons: ResourceEndpoint<PokemonResource>,
                                               species: ResourceEndpoint<SpeciesResource>)
    requires url != "" && pokemons(url).Some? && species(pokemons(url).value.species.url).Some?
    ensures var s := species(pokemons(url).value.species.url).value;
            var r := FetchDetails(url, pokemons, species);
            && (r.Failure? <==>
                  || (forall i :: 0 <= i < |s.flavorTextEntries| ==> s.flavorTextEntries[i].language != "en")
                  || (forall i :: 0 <= i < |s.genera| ==> s.genera[i].language != "en"))
            && (r.Success? ==> r.value.Some? && r.value.value.evolvesFrom == s.evolvesFromSpecies)
  {
  }
}
