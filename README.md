# Countries directory: model of the country page logic

This project models the logic of the `CountriesApp` page of a browser-based country directory:

- the one-time **normalization** of the bundled raw dataset into `Country` records;
- the **filter** of the list, by a case-insensitive name substring and an exact region;
- the **resolution of border codes** to country names;
- the **page state** and the handlers that change it: country selection, going back, border-country navigation and the dark-mode toggle.

Modules, by file:

| file | module | models |
|---|---|---|
| `wrappers.dfy` | `Wrappers` | `Option`, standing in for `undefined`/`null` |
| `strings.dfy` | `Strings` | `toLowerCase` (ASCII), `includes`, `join` |
| `seqs.dfy` | `Seqs` | `Array.prototype.filter` and `find`; `FindIndex` is the helper behind `Find`, since the page never calls `findIndex` |
| `types.dfy` | `Types` | the `Country` interface of `src/types/Types.ts` |
| `normalizer.dfy` | `Normalizer` | the raw record and the `countryData.map(...)` callback |
| `query.dfy` | `Query` | both filter steps, the single-pass reference filter `Visible`, border resolution |
| `page.dfy` | `CountriesPage` | class `CountriesApp`: the state variables, the two effects and the handlers |

The React state lives in the fields of class `CountriesApp`. Each setter becomes an assignment, and each method's `modifies` clause names exactly the fields its handler sets. The mount effect is the method `Init(data)`. It runs while the page shows only its loading message, so no search term, region or selection is set yet. The filter effect is the method `Refilter()`. In the program it reruns whenever `countries`, `searchTerm` or `selectedRegion` changes. Callers therefore run it after each setter. After `Init` its result is the list `Init` already set, which `Init`'s contract states. The dataset is a parameter of `Init`.

JavaScript truthiness is written out. For `a || b` on an optional string (`nativeName`, `flags?.svg`, `topLevelDomain?.[0]`), an absent value and `""` both fall back to `b` (`Normalizer.Or`). For `list ? … : 'N/A'`, any present array is truthy, even an empty one.

Two behaviours of the code are easy to misread, and the model keeps the code's version:

- An empty currency or language list does not give `"N/A"`. At `src/pages/CountriesApp.tsx:28-29` an empty array is truthy, so the label is `""`. `Normalizer.Label` states this in its contract.
- `handleCountryClick` does not check that the country it selects belongs to the collection. `CountriesApp.Valid()` states that property, and each handler's contract says when it is kept.

## Model

| member | source | states |
|---|---|---|
| `Strings.Lower` | src/pages/CountriesApp.tsx:44 | lower-casing keeps the length, leaves no upper-case letter, maps each ASCII capital to its lower-case letter and keeps every other character |
| `Strings.Contains` | src/pages/CountriesApp.tsx:44 | `includes`: when it holds, the searched string is no longer than the string searched; `ContainsIffOccurs` gives its meaning |
| `Strings.ContainsIffOccurs` | src/pages/CountriesApp.tsx:44 | the recursive `includes` holds exactly when `sub` occurs at some offset of `s` |
| `Strings.ContainsEmpty` | src/pages/CountriesApp.tsx:44 | every string includes the empty string |
| `Strings.Join` | src/pages/CountriesApp.tsx:28-29 | `join`: an empty list gives `""` and a one-element list gives that element; `JoinAppend` places the separators |
| `Strings.JoinAppend` | src/pages/CountriesApp.tsx:28-29 | appending an element to a non-empty list appends the separator and then the element to the joined string |
| `Strings.JoinExample` | src/pages/CountriesApp.tsx:28-29 | `["a", "b", "c"]` joined with `", "` is `"a, b, c"` |
| `Strings.JoinContainsEach` | src/pages/CountriesApp.tsx:28-29 | every element of a joined list can be found in the result of `join` |
| `Seqs.Keep` | src/pages/CountriesApp.tsx:43-49 | the result of `filter` is no longer than its input, and each element it keeps is from the input and passes the test |
| `Seqs.KeepIsStableSubsequence` | src/pages/CountriesApp.tsx:43-49 | `filter` returns the input's elements at strictly increasing positions, and takes a position exactly when its element passes the test |
| `Seqs.KeepComplete` | src/pages/CountriesApp.tsx:43-49 | every element of the input that passes the test is kept |
| `Seqs.KeepAll` | src/pages/CountriesApp.tsx:43-49 | filtering a list whose elements all pass returns the list unchanged |
| `Seqs.KeepCongruent` | src/pages/CountriesApp.tsx:43-49 | two tests that agree on every element give the same filter result |
| `Seqs.KeepKeep` | src/pages/CountriesApp.tsx:40-52 | two filters in sequence equal one filter by the conjunction of their tests |
| `Seqs.KeepCommutes` | src/pages/CountriesApp.tsx:40-52 | two filters give the same result in either order |
| `Seqs.FindIndex` | src/pages/CountriesApp.tsx:61 | the helper behind `find` (the page never calls `findIndex`): the index is the first position whose element passes the test; none means no element passes |
| `Seqs.Find` | src/pages/CountriesApp.tsx:61 | `find` returns nothing exactly when no element passes, and otherwise the element at the first passing position |
| `Normalizer.Normalize` | src/pages/CountriesApp.tsx:19-32 | copied fields are copied; `nativeName` is the source value when present and non-empty, otherwise `name`, and is non-empty when `name` is; `flag` is `flags.svg` when present and non-empty, otherwise the flat `flag`; `tld` is always present and is the first domain, or `""` when there is none; `borders` is the source list or `[]` |
| `Normalizer.Or` | src/pages/CountriesApp.tsx:21-30 | the `or` fallback of JavaScript: the result is `b` or the present, non-empty `a`; it is `a` whenever `a` is present and non-empty; it is non-empty when `b` is |
| `Normalizer.FlagSvg` | src/pages/CountriesApp.tsx:26 | `flags?.svg`: absent when `flags` is absent, otherwise the nested `svg` |
| `Normalizer.FirstTld` | src/pages/CountriesApp.tsx:27 | `topLevelDomain?.[0]`: present exactly when the list is present and non-empty, and then is its first entry |
| `Normalizer.Label` | src/pages/CountriesApp.tsx:28-29 | an absent list gives `"N/A"`; a present empty list gives `""`; `LabelCases` and `LabelAppend` give the non-empty cases |
| `Normalizer.LabelCases` | src/pages/CountriesApp.tsx:28-29 | a one-entry list gives that entry's name; every entry's name appears in the label |
| `Normalizer.LabelAppend` | src/pages/CountriesApp.tsx:28-29 | one more entry in a non-empty list appends `", "` and its name to the label, so the names appear in list order with `", "` between neighbours |
| `Normalizer.NormalizeAll` | src/pages/CountriesApp.tsx:19-32 | one output record per input record; record i is the normalization of input record i |
| `Normalizer.NormalizeAllAppend` | src/pages/CountriesApp.tsx:19 | normalizing a concatenation is concatenating the normalized parts |
| `Query.SearchStep` | src/pages/CountriesApp.tsx:43-45 | keeps exactly the countries whose lower-cased name includes the lower-cased term: every kept country matches, and every matching country is kept; `SearchStepIsVisible` and `EmptySearchKeepsAll` relate it to the listing |
| `Query.RegionStep` | src/pages/CountriesApp.tsx:49 | keeps exactly the countries whose region equals the selected one: every kept country matches, and every matching country is kept |
| `Query.VisibleIsStableSubsequence` | src/pages/CountriesApp.tsx:39-53 | the listed countries are the collection's elements at increasing positions, and a position is listed exactly when (the term is empty or the lower-cased name includes the lower-cased term) and (the region is empty or equals the country's region) |
| `Query.VisibleUnfiltered` | src/pages/CountriesApp.tsx:40-52 | with an empty term and no region the whole collection is listed, in order |
| `Query.SearchStepIsVisible` | src/pages/CountriesApp.tsx:42-46 | for a non-empty term, the search step alone gives the listing for that term with no region |
| `Query.RegionStepCompletes` | src/pages/CountriesApp.tsx:48-50 | the region step applied to the term's listing gives the listing for both criteria |
| `Query.EmptySearchKeepsAll` | src/pages/CountriesApp.tsx:42-46 | an empty term would keep every country, so the `if (searchTerm)` guard does not change the result |
| `Query.StepsCommute` | src/pages/CountriesApp.tsx:40-52 | region then search gives the same list as search then region |
| `Query.SearchIgnoresCase` | src/pages/CountriesApp.tsx:44 | a term and its lower-cased form match the same countries |
| `Query.SearchExample` | src/pages/CountriesApp.tsx:42-46 | the term "fra" over France and Germany lists France alone |
| `Query.FindByName` | src/pages/CountriesApp.tsx:75 | finds nothing exactly when no country has the name; otherwise finds the first country with that name |
| `Query.FindByCode` | src/pages/CountriesApp.tsx:61 | finds nothing exactly when no country has the code; otherwise finds the first country with that code |
| `Query.BorderName` | src/pages/CountriesApp.tsx:60-63 | the display name of one code is the first matching country's name, or the code itself when no country has it |
| `Query.BorderNames` | src/pages/CountriesApp.tsx:59-64 | one name per border code, in order; entry i is the name of the first country whose `cca3` is code i, or code i itself when no country has it |
| `Query.BorderNameLeadsBack` | src/pages/CountriesApp.tsx:59-79 | when names are unique, looking up a resolved border name by name finds the country its code resolved to |
| `Query.BorderNamesExample` | src/pages/CountriesApp.tsx:59-64 | `["DEU", "XXX"]` resolves to `["Germany", "XXX"]` when "DEU" is Germany's code and "XXX" is nobody's |
| `CountriesPage.CountriesApp.constructor` | src/pages/CountriesApp.tsx:8-14 | the initial state: empty lists, empty term and region, no selection, light theme, loading |
| `CountriesPage.CountriesApp.Init` | src/pages/CountriesApp.tsx:18-37 | from the mount state (loading, no term, region or selection), the collection becomes the normalized dataset. The listing becomes the whole collection, which is also what the filter effect gives for it. Loading is over, the state is valid, and nothing else changes |
| `CountriesPage.CountriesApp.SetSearchTerm` | src/pages/CountriesApp.tsx:183 | sets the search term and nothing else, and keeps the state valid |
| `CountriesPage.CountriesApp.SetSelectedRegion` | src/pages/CountriesApp.tsx:192 | sets the region and nothing else, and keeps the state valid |
| `CountriesPage.CountriesApp.Refilter` | src/pages/CountriesApp.tsx:39-53 | the two-step filter sets the listing to the single-pass `Visible` of the collection, term and region, and keeps the listing inside the collection |
| `CountriesPage.CountriesApp.BorderCountryNames` | src/pages/CountriesApp.tsx:59-64 | against the current collection, entry i is the first matching country's name or the code itself |
| `CountriesPage.CountriesApp.HandleCountryClick` | src/pages/CountriesApp.tsx:66-68 | selects the given country and changes nothing else |
| `CountriesPage.CountriesApp.HandleBackClick` | src/pages/CountriesApp.tsx:70-72 | clears the selection and changes nothing else |
| `CountriesPage.CountriesApp.HandleBorderCountryClick` | src/pages/CountriesApp.tsx:74-79 | selects the first country with exactly that name; leaves the selection as it was when no country has the name; changes nothing else |
| `CountriesPage.CountriesApp.ToggleDarkMode` | src/pages/CountriesApp.tsx:81-83 | flips the theme flag and changes nothing else |
| `CountriesPage.SelectThenGoBack` | src/pages/CountriesApp.tsx:66-72 | selecting and then going back returns to the list view with term, region, theme and lists as before |
| `CountriesPage.ToggleTwice` | src/pages/CountriesApp.tsx:81-83 | toggling twice restores the theme, and the selection and filters stay unchanged |
| `CountriesPage.UnresolvedBorderIsInert` | src/pages/CountriesApp.tsx:59-79 | clicking a border entry whose code matches no country's code or name changes no selection |

## Left out

- Rendering, the theme class strings and the region option list (`src/pages/CountriesApp.tsx:16`, `85-231`): presentation only, with no contract. The two `onChange` setters in that range (`183`, `192`) are still modelled, as the state changes `SetSearchTerm` and `SetSelectedRegion`.
- `formatPopulation` (`src/pages/CountriesApp.tsx:55-57`): its output depends on the host's locale.
- Loading `data.json`: the dataset is the parameter of `Init`. React's scheduling of renders and effects is also left out: callers run `Init` and `Refilter` explicitly, in sequence.
- Strings.Lower: does not model full Unicode case mapping, because that belongs to the host's string library. Only the ASCII letters `A`-`Z` are lower-cased.
- Normalizer.Normalize: a raw record is assumed to carry `name`, `population`, `region`, `subregion`, the flat `flag` and `alpha3Code`. The model has no case for a missing one, which the code would copy through as `undefined`.
- `population` is an unbounded integer; JavaScript numbers are floating point.
- A `currencies` or `languages` entry without a `name` is not modelled: `join` would print it as empty.
- `src/components/CountryList.tsx`, `src/components/Header.tsx` and `src/App.tsx` are not part of this model: they hold presentation and route wiring only.
