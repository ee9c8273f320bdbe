# pokemon-react: catalog client and listing hook

A Dafny model of the logic of a small browser front-end that lists pokémon
from PokeAPI. Two pieces are modelled:

- the catalog client of `src/service/index.ts`: each raw listing result
  `{name, url}` becomes an entry `{id, name, url}` (the id is the digit
  segment at the end of the url, the name is capitalised), a listing
  response that is not ok yields `null`, and `fetchPokemonDetails` merges a
  pokemon resource with its species resource, taking the English flavour
  text and genus;
- the `usePokemons` hook of `src/hooks/usePokemons.tsx`: a class holding
  `page`, `localPokemons`, `globalPokemons` and the search text, with the
  handlers `getNextPage`, `getAllPokemons`, the search effect and the mount
  effects as methods, and the `getPokemons` query as a function.

Files: `wrappers.dfy` (Option, Result), `text.dfy` (ASCII case mapping,
`String.prototype.includes`, the `\d` class, and `Utf16Length`, the model of `length`), `service.dfy`,
`use_pokemons.dfy`.

Strings are sequences of Unicode scalar values. Where the source compares
`searchInput.length`, the model counts UTF-16 code units with
`Text.Utf16Length`, so a one-character search text outside the Basic
Multilingual Plane has length 2 and filters, as in the source.

Network access is a parameter. The listing endpoint is a function from
`(offset, limit)` to `Option<seq<RawResult>>`, and a resource endpoint is a
function from a url to `Option<T>`; `None` is a response whose `ok` flag is
false. JavaScript's `null` is `Option.None`. An exception the source throws
is `Result.Failure`: an empty details url, a listing url without an id, or a
missing English entry. So a listing fetch either gives entries, gives
`null` (distinct from an empty list), or throws.

The handlers test the awaited result with `if (response)`
(src/hooks/usePokemons.tsx:49-50 and 59-60). Their contracts state this test
directly over `FetchPokemons`: the state changes only on
`Success(Some(entries))`. A thrown fetch rejects the async handler before
any setter runs, so the state stays unchanged, exactly as for `null`. An empty list is
truthy in JavaScript, so an empty page still advances `page`. The offset of
`getNextPage` is `page * stepSize` with `page` starting at 1. The first
request therefore asks for offset `stepSize`, not 0. The model keeps this
as written.

A ghost history `pages` records the responses of the successful next-page
fetches. The invariant `Valid()` says that `page` is one more than the
number of those fetches and that `localPokemons` is their concatenation.

## Model

| member | source | states |
|---|---|---|
| Text.UpperChar | src/service/index.ts:24 | `toUpperCase` on one character: lower-case ASCII letters move to upper case, everything else is unchanged, and the result is never a lower-case letter |
| Text.LowerChar | src/hooks/usePokemons.tsx:75 | `toLowerCase` on one character: upper-case ASCII letters move to lower case, everything else is unchanged |
| Text.LowerString | src/hooks/usePokemons.tsx:75 | `toLowerCase` on a string: same length, each character lower-cased |
| Text.IncludesIffOccurs | src/hooks/usePokemons.tsx:75 | `Text.Includes`, the model of `includes(t)`, holds exactly when `t` occurs at some index of the string |
| Text.Utf16Length | src/hooks/usePokemons.tsx:39 | `length` counts UTF-16 code units: at least the number of characters and at most twice it, zero exactly for the empty string, and equal to the number of characters when none lies outside the BMP |
| Text.Utf16LengthAboveOne | src/hooks/usePokemons.tsx:72 | a text is longer than one code unit exactly when it has two or more characters, or one character outside the BMP |
| Service.ExtractId | src/service/index.ts:23 | the capture of `/\/(\d+)\/$/`: present exactly when the url ends in `/<one or more digits>/`, and then equal to those digits |
| Service.ExtractIdOfResourceUrl | src/service/index.ts:23 | for any prefix and non-empty digit string `d`, the id of `prefix + "/" + d + "/"` is `d` |
| Service.ExtractIdIsDigits | src/service/index.ts:23 | an extracted id is a non-empty string of digits |
| Service.Capitalize | src/service/index.ts:24 | same length as the name, first character upper-cased, every other character unchanged, empty for an empty name |
| Service.LowerOfCapitalize | src/service/index.ts:24 | the lower-cased capitalised name equals the lower-cased name |
| Service.ToEntry | src/service/index.ts:22-26 | the map callback: fails exactly when the url has no id; otherwise id from the url, capitalised name, url unchanged |
| Service.ToEntries | src/service/index.ts:22-26 | `results.map(...)`: succeeds exactly when every url has an id, then has the same length and entry `i` comes from result `i` |
| Service.FetchPokemons | src/service/index.ts:13-31 | `null` exactly when the response is not ok; throws exactly when some result url has no id; otherwise the mapped results |
| Service.FetchedEntriesFollowResults | src/service/index.ts:22-25 | every entry of a successful listing fetch matches the result at its position: same url, capitalised name, non-empty digit id from the url |
| Service.BulbasaurEntry | src/service/index.ts:22-26 | `bulbasaur` at `.../pokemon/1/` becomes `{id: "1", name: "Bulbasaur", url}` |
| Service.FindEnglishIndex | src/service/index.ts:80-85 | `find` on the language name: absent exactly when no entry is English, otherwise the index of the first English entry |
| Service.FindEnglish | src/service/index.ts:80-85 | the text of the first English entry; absent exactly when there is none |
| Service.FirstEnglishUnique | src/service/index.ts:80-85 | the first English entry is unique |
| Service.Merge | src/service/index.ts:73-86 | throws exactly when the flavour texts or the genera have no English entry; otherwise every field comes from the two resources, and `evolvesFrom` is absent exactly when the species has no predecessor |
| Service.FetchDetails | src/service/index.ts:55-87 | an empty url throws; a not-ok pokemon or species response gives `null`; the species is fetched at the pokemon's species url; with both responses present the result is their merge, or the merge's error; a record is returned only in that case |
| Service.DetailsAllOrNothing | src/service/index.ts:62-86 | with both responses present the result throws exactly when an English entry is missing, and otherwise is a full record with `evolvesFrom` from the species |
| UsePokemons.Matching | src/hooks/usePokemons.tsx:73-76 | the filter, testing each entry with `UsePokemons.NameMatches` (the lower-cased name includes the lower-cased search text): no longer than the catalog |
| UsePokemons.MatchingMembers | src/hooks/usePokemons.tsx:73-76 | an entry is in the filter's result exactly when it is in the catalog and its name matches |
| UsePokemons.MatchingAppend | src/hooks/usePokemons.tsx:73-76 | the filter keeps catalog order: it distributes over concatenation |
| UsePokemons.FirstMatchesArePrefixMatches | src/hooks/usePokemons.tsx:73-77 | the first `n` matches are exactly the matches among some prefix of the catalog |
| UsePokemons.MatchingIgnoresCapitalization | src/hooks/usePokemons.tsx:75 | whether an entry matches does not depend on the capitalisation done at ingestion |
| UsePokemons.ConcatOfFullPages | src/hooks/usePokemons.tsx:61 | `n` pages of `size` entries concatenate to `n * size` entries |
| UsePokemons.PokemonList.constructor | src/hooks/usePokemons.tsx:22-31 | initially `page = 1` and both lists are empty |
| UsePokemons.PokemonList.GetNextPage | src/hooks/usePokemons.tsx:58-64 | requests offset `page * stepSize` with `limit`; on a response appends it to the local list (the old list is a prefix) and increments `page`; otherwise nothing changes; the global list is never touched |
| UsePokemons.PokemonList.GetAllPokemons | src/hooks/usePokemons.tsx:48-53 | requests offset 0 and limit -1 and replaces the global list only on a response, which may be empty |
| UsePokemons.PokemonList.SearchInputChanged | src/hooks/usePokemons.tsx:38-41 | on a change of search text, loads the full catalog only if the trigger `UsePokemons.PokemonList.ShouldLoadCatalog` holds: the global list is empty and the new text is not; a non-empty global list is never replaced |
| UsePokemons.PokemonList.Mount | src/hooks/usePokemons.tsx:34-41 | the mount effects: one next-page fetch, then the search effect on the initial text |
| UsePokemons.PokemonList.GetPokemons | src/hooks/usePokemons.tsx:71-80 | the local list unchanged unless the global list is non-empty and the search text is longer than one UTF-16 code unit; otherwise at most `stepSize` matching catalog entries, exactly `min(stepSize, #matches)` of them, a prefix of all matches, and the matches of a catalog prefix |
| UsePokemons.LocalHoldsFullPages | src/hooks/usePokemons.tsx:26-27 | after `n` successful fetches of `size` entries, `page = n + 1` and the local list holds `n * size` entries |
| UsePokemons.FirstPageFromInitialState | src/hooks/usePokemons.tsx:26-35 | from the initial state the first next-page request uses offset `stepSize`; on a response the local list is that response and `page = 2` |
| UsePokemons.FirstPageWithDefaults | src/hooks/usePokemons.tsx:12-26 | with the default options `stepSize = limit = 21`, the first request asks for 21 entries at offset 21 |

## Left out

- The `fetch` calls, `URLSearchParams` and `response.json()` are network I/O. They are endpoint parameters that return decoded data or `None`.
- A `fetch` that rejects (a network failure) or a body that `response.json()` cannot parse also throws in the source. The endpoint functions cannot express either. For the hook the resulting state is the same as for `null`; `fetchPokemonDetails` would throw where the model returns a value or `null`.
- `console.log` output is not modelled.
- A listing or species response that is ok but lacks the fields the source reads (`results`, `species.url`, `generation.name`, ...) is out of scope. The decoded data always carries them.
- The `pokemonIcons` table is static configuration. It is not modelled.
- The React effect scheduling and the Recoil atom are framework wiring. The search effect is the `SearchInputChanged` handler and the mount effects are `Mount`.
- Handlers that interleave, and stale closures over `page` and `localPokemons`, are concurrency. Each handler is atomic in the model and reads the current state.
- Strings are sequences of Unicode scalar values, so an unpaired UTF-16 surrogate cannot be represented. Only `length` is converted to UTF-16 code units. `includes` agrees with its code-unit form on well-formed strings. `charAt(0)` and `slice(1)` do not: for a name that starts with a character outside the Basic Multilingual Plane they split it into its two surrogates, and `toUpperCase` leaves the lone high surrogate unchanged, so line 24 of `src/service/index.ts` returns such a name unchanged. `Service.Capitalize` agrees with that whole expression, because `Text.UpperChar` changes only ASCII letters, but not with its two parts separately.
- Case mapping covers ASCII letters only. Full Unicode `toUpperCase` and `toLowerCase`, which can change a string's length, are not modelled.
- `types` and `stats` are carried as uninterpreted JSON text. `src/types` is not part of this model.
- `src/index.tsx` is DOM bootstrap and rendering. It is not modelled.
- JavaScript numbers are modelled as unbounded integers. `stepSize` is a natural number, so a negative `slice` bound is out of scope.
