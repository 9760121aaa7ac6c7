# Movie recommender: the recommendation pipeline in Dafny

This project models the `POST /api/recommend` handler of a small movie
recommender, together with the pure helpers of the client form that builds its
requests.

The handler first normalises a loosely typed JSON body. It then runs a
three-stage cascade over a fixed catalog:

1. A strict filter on provider, genre, minimum year and minimum rating, keeping the nine best-rated matches.
2. A provider-only fallback, keeping the six best-rated entries.
3. A global top-six fallback.

Finally it asks an optional text generator for an explanation, falling back to a
fixed text whenever the generator is disabled or fails.

Modules, one file each:

- `wrappers.dfy` (`Wrappers`): `Option` and `Result`.
- `js.dfy` (`Js`): the JavaScript semantics the code relies on: JSON values, truthiness, `trim` and `join`.
- `ranking.dfy` (`Ranking`): catalog entries and the stable sort by rating.
  - `SortByRating` is the specification, an insertion sort over sequences.
  - `SortByRatingInPlace` is the in-place array sort that the handler applies to freshly filtered arrays and to the shared catalog.
  - `TopRated` is "sort, then `slice(0, k)`".
- `route.dfy` (`Route`): the handler.
  - Normalisation, the filter criteria, and the stages as functions.
  - `Recommend`, `Answer` and `Post` as methods over the shared catalog array and the generator.
  - The provider display names.
  - The explanation gate, with a scripted stand-in for the generator.
- `recommender.dfy` (`Recommender`): the client form.
  - Its state as a class with setters.
  - The `toggleProvider` updater.
  - The request built on submit, and the provider badges.

Points where the code's behaviour may surprise a reader:

- **The catalog is mutated.** The global fallback sorts the shared, module-level
  catalog in place (`route.ts:52`). Every other stage works on a fresh filtered
  copy. The model keeps the mutation. `Recommend` states the new catalog
  contents, and `SortedCatalogSameItems` proves that the mutation never changes
  the items of a later request.
- **A non-string mood throws.** Every other field is read without throwing: a
  non-array `providers` becomes `[]` (an array is kept whatever its elements),
  a non-number year or rating becomes 0, a falsy genre or "Any" becomes no
  genre, and a truthy genre of any other type is kept and then matches no film.
  But a `mood` that is neither nullish nor a string makes
  `body.mood?.trim()` throw a `TypeError` before any filtering happens.
  `MoodOf` and `Normalize` return `Failure(MoodNotString)` in that case.
- **The explanation can be empty.** A successful generator call is used as-is,
  even when its text is empty. The default text appears only when the generator
  is disabled or its call fails.

## Model

| member | source | states |
|---|---|---|
| `Js.TrimStart` | app/api/recommend/route.ts:31 | the result is the suffix of the input starting at its first non-whitespace character; everything dropped is whitespace |
| `Js.TrimEnd` | app/api/recommend/route.ts:31 | the result is the prefix ending at the last non-whitespace character; everything dropped is whitespace |
| `Js.Trim` | app/api/recommend/route.ts:31 | the trimmed string is no longer than the input and neither starts nor ends with whitespace |
| `Js.Truthy` | app/api/recommend/route.ts:28 | exactly `undefined`, `null`, `false`, `0` and `""` are falsy |
| `Js.Nullish` | app/api/recommend/route.ts:31 | the values on which `?.` short-circuits are all falsy |
| `Js.TrimSlice` | app/api/recommend/route.ts:31 | `trim` yields a contiguous slice with no whitespace at either end; all that is cut away is whitespace |
| `Js.TrimIdempotent` | app/api/recommend/route.ts:31 | trimming twice equals trimming once |
| `Js.Join` | app/api/recommend/route.ts:65-69 | `join` of a non-empty list starts with its first part, of one part is that part, and of nothing is "" |
| `Js.JoinSnoc` | app/api/recommend/route.ts:65-69 | joining one part more appends the separator and that part, so the parts appear in order, separated |
| `Route.ProvidersOf` | app/api/recommend/route.ts:27 | a non-array `providers` becomes `[]`; an array is kept as is |
| `Route.GenreOf` | app/api/recommend/route.ts:28 | no genre exactly when the value is falsy or "Any"; otherwise the value itself |
| `Route.NumberOr0` | app/api/recommend/route.ts:29-30 | a non-number becomes 0; a number is kept |
| `Route.MoodOf` | app/api/recommend/route.ts:31 | a nullish mood becomes ""; a string is trimmed; anything else throws; the result is always trimmed |
| `Route.Normalize` | app/api/recommend/route.ts:27-31 | fails exactly when the mood cannot be trimmed; every normalised request has a truthy, non-"Any" genre or none, and a trimmed mood |
| `Route.NormalizeEncode` | app/api/recommend/route.ts:27-31 | sending a normalised request again reads back exactly that request |
| `Route.NormalizeIdempotent` | app/api/recommend/route.ts:27-31 | normalising is idempotent |
| `Route.SharesProvider` | app/api/recommend/route.ts:35 | an entry shares a provider only if both the request and the entry list some provider |
| `Route.MatchesStrict` | app/api/recommend/route.ts:35-38 | every strict match is also a candidate of the provider-only fallback; a genre that is not a string matches nothing |
| `Route.Select` | app/api/recommend/route.ts:34-38 | the filter keeps exactly the catalog entries the criterion accepts |
| `Ranking.Insert` | app/api/recommend/route.ts:39 | inserting one entry keeps the length count, the members and sortedness |
| `Ranking.SortByRating` | app/api/recommend/route.ts:39 | the sort returns the same entries, ratings non-increasing |
| `Ranking.SortPermutes` | app/api/recommend/route.ts:39 | the sort is a permutation (same multiset) of its input |
| `Ranking.SortIsStable` | app/api/recommend/route.ts:39 | stability: for every rating, the entries with that rating keep their input order |
| `Ranking.SortedUnique` | app/api/recommend/route.ts:39 | two sorted lists that agree rating by rating are equal, so the stable sort is the only stable rearrangement |
| `Ranking.SortOfSorted` | app/api/recommend/route.ts:52 | sorting an already sorted catalog changes nothing |
| `Ranking.Take` | app/api/recommend/route.ts:40 | `slice(0, k)` keeps the first min(k, n) entries, position by position |
| `Ranking.TopRated` | app/api/recommend/route.ts:39-40 | sort then `slice(0, k)` returns min(k, n) entries of the input, sorted by rating |
| `Ranking.TopRatedKeepsBest` | app/api/recommend/route.ts:39-40 | the entries left out, together with those kept, make up the input, and none of them outranks a kept entry |
| `Ranking.PrefixOutranksRest` | app/api/recommend/route.ts:40 | in a sorted list everything before a cut is rated at least as high as everything after it |
| `Ranking.SortByRatingInPlace` | app/api/recommend/route.ts:52 | the in-place array sort leaves exactly the stable sort of the old contents |
| `Ranking.InsertIntoPrefix` | app/api/recommend/route.ts:39 | one insertion-sort step: the first i+1 cells become the insertion of cell i into the sorted prefix, and the rest is untouched |
| `Ranking.InsertAt` | app/api/recommend/route.ts:39 | the insertion point is just after the last entry rated at least as high |
| `Route.SortedCopy` | app/api/recommend/route.ts:39 | sorting the fresh array a filter yields gives the stable sort of the filtered list |
| `Route.Stage1` | app/api/recommend/route.ts:34-40 | at most 9 catalog entries, sorted by rating, each sharing a requested provider (when any), having the genre (when set) and meeting both minimums |
| `Route.Stage1KeepsBest` | app/api/recommend/route.ts:34-40 | a strict match left out by the cap is rated no higher than any entry kept |
| `Route.Stage2` | app/api/recommend/route.ts:43-48 | at most 6 catalog entries, sorted by rating, each on a requested provider |
| `Route.Stage3` | app/api/recommend/route.ts:51-53 | at most 6 entries, sorted; empty only for an empty catalog |
| `Route.FiringStage` | app/api/recommend/route.ts:42-53 | the strict stage answers iff it finds something; the provider fallback answers iff the strict stage is empty, providers were given and it finds something |
| `Route.Items` | app/api/recommend/route.ts:34-53 | the answer has at most 9 entries, is sorted by rating, is drawn from the catalog, and is empty iff the catalog is |
| `Route.CascadeOrder` | app/api/recommend/route.ts:42-53 | which stage's list is returned in each case; the fallbacks return at most 6 entries and stage 3 is the catalog's top six |
| `Route.SelectMonotone` | app/api/recommend/route.ts:34-38 | a stricter criterion selects no more entries |
| `Route.SelectSameKeeps` | app/api/recommend/route.ts:34-38 | criteria accepting the same entries select the same list |
| `Route.MinRatingMonotone` | app/api/recommend/route.ts:38 | raising `minRating` never increases the stage-1 count |
| `Route.MinYearMonotone` | app/api/recommend/route.ts:37 | raising `minYear` never increases the stage-1 count |
| `Route.MoodIrrelevant` | app/api/recommend/route.ts:31-53 | the mood never changes the items |
| `Route.SelectWithRating` | app/api/recommend/route.ts:34-38 | filtering commutes with picking the entries of one rating |
| `Route.SelectAppend` | app/api/recommend/route.ts:34-38 | filtering acts piecewise on a concatenation |
| `Route.SortSelectSort` | app/api/recommend/route.ts:34-52 | filtering then sorting a pre-sorted catalog gives the same list as filtering and sorting the original |
| `Route.SortedCatalogSameItems` | app/api/recommend/route.ts:52 | after the in-place sort of the catalog, every request gets the items it would have got before |
| `Route.Recommend` | app/api/recommend/route.ts:34-53 | the items are the cascade's answer for the old catalog; the catalog is sorted exactly when the global fallback fires and stays a permutation of itself |
| `Route.RepeatedRequestAgrees` | app/api/recommend/route.ts:34-53 | the same request answered twice against the shared catalog gives identical items |
| `Route.DisplayName` | app/api/recommend/route.ts:66-68 | "prime-video" maps to "Amazon Prime Video", "hotstar" to "Disney+ Hotstar", anything else to "Netflix" |
| `Route.PlatformNames` | app/api/recommend/route.ts:62-69 | when providers were requested, the platforms text starts with the first provider's display name, and is exactly that name for a single provider |
| `Route.PlatformNamesSnoc` | app/api/recommend/route.ts:65-69 | each further requested provider adds ", " and its display name, in request order |
| `Route.AnyPlatformOnlyWhenEmpty` | app/api/recommend/route.ts:62-69 | the platforms text is "any platform" iff no provider was requested |
| `Route.BuildPrompt` | app/api/recommend/route.ts:62-94 | the call uses model "openai/gpt-5-mini", 300 output tokens and temperature 0.5; the prompt embeds the mood or "not specified", the genre or "Any", the platforms text and the final items |
| `Route.Generator.Generate` | app/api/recommend/route.ts:76-94 | one generator call: consumes one scripted outcome and records the prompt |
| `Route.Explain` | app/api/recommend/route.ts:55-99 | the flag must be exactly "1" for the generator to be called, and then exactly once: one prompt is recorded and one scripted outcome used up; the default text is returned unless that call succeeds, and then its text is returned |
| `Route.Answer` | app/api/recommend/route.ts:34-101 | after normalisation: the cascade's items for the old catalog, the catalog's new contents, and the gated explanation with the generator's new state |
| `Route.Post` | app/api/recommend/route.ts:24-102 | throws only on an untrimmable mood and then touches nothing; otherwise returns the cascade's items and the gated explanation, and states the new catalog and generator state; the catalog stays a permutation of itself |
| `Route.ExampleCascade` | app/api/recommend/route.ts:34-53 | on a two-film catalog, a Netflix request gets the strict match and a Hotstar request falls through to the whole catalog, best first |
| `Route.ExampleStrictMatch` | app/api/recommend/route.ts:34-40 | on the two-film catalog, a Netflix-only request from 2000 on is answered by the strict stage with the Netflix film alone |
| `Route.ExampleTopRatedFallback` | app/api/recommend/route.ts:42-53 | on the two-film catalog, a Hotstar-only request fires the global fallback and gets both films, best first |
| `Route.HotstarSelectsNothing` | app/api/recommend/route.ts:35-45 | neither film of the two-film catalog is on Hotstar, so both filtered stages select nothing |
| `Recommender.Dedup` | components/movie-recommender.tsx:98 | `Array.from(new Set(...))` has no duplicates and the same members |
| `Recommender.FirstIndex` | components/movie-recommender.tsx:98 | the first position holding a value |
| `Recommender.DedupFirstOccurrenceOrder` | components/movie-recommender.tsx:98 | deduplicated values appear in the order of their first occurrences |
| `Recommender.DedupOfDistinct` | components/movie-recommender.tsx:98 | a duplicate-free list is its own deduplication |
| `Recommender.Remove` | components/movie-recommender.tsx:98 | unchecking leaves no occurrence of the id and keeps every other member |
| `Recommender.RemoveAppend` | components/movie-recommender.tsx:98 | removal keeps the order of what remains, acting piecewise on a concatenation |
| `Recommender.RemoveKeepsCounts` | components/movie-recommender.tsx:98 | every other value keeps its number of occurrences |
| `Recommender.RemoveAbsent` | components/movie-recommender.tsx:98 | removing an absent id changes nothing |
| `Recommender.RemoveKeepsDistinct` | components/movie-recommender.tsx:98 | filtering out an id never introduces a duplicate |
| `Recommender.Toggled` | components/movie-recommender.tsx:97-99 | checking gives a duplicate-free list of the previous ids plus the id; unchecking leaves no occurrence of the id and keeps every other id; a duplicate-free selection stays duplicate-free |
| `Recommender.CheckAdds` | components/movie-recommender.tsx:97-99 | checking gives the previous providers plus the id, each exactly once; on a duplicate-free list it appends the id if it was missing |
| `Recommender.CheckIdempotent` | components/movie-recommender.tsx:97-99 | checking twice equals checking once |
| `Recommender.UncheckRemoves` | components/movie-recommender.tsx:97-99 | unchecking removes every occurrence of the id and keeps the counts of all other ids |
| `Recommender.CheckThenUncheck` | components/movie-recommender.tsx:97-99 | checking then unchecking an unselected id restores a duplicate-free list |
| `Recommender.RecommenderForm.ToggleProvider` | components/movie-recommender.tsx:97-99 | the selection becomes the toggled list according to the checkbox's truthiness, and stays duplicate-free if it was; the other fields are unchanged |
| `Recommender.BadgeLabel` | components/movie-recommender.tsx:211 | "prime-video" shows as "Prime Video", "hotstar" as "Hotstar", anything else as "Netflix" |
| `Recommender.BadgeAgreesWithDisplayName` | components/movie-recommender.tsx:211 | each badge is the tail of the handler's display name for the same id, and both fall back to Netflix on the same ids |
| `Recommender.OptionLabelsAreDisplayNames` | components/movie-recommender.tsx:51-55 | the checkbox labels are the handler's display names for the same ids |
| `Recommender.BuildRequest` | components/movie-recommender.tsx:88-94 | "Any" becomes no genre and other genres pass through; empty year, rating and mood become null, and non-empty ones are parsed or passed through |
| `Recommender.Strs` | components/movie-recommender.tsx:89 | the provider ids as JSON strings, position by position |
| `Recommender.ToBody` | components/movie-recommender.tsx:42 | the handler never throws on a body the form posts |
| `Recommender.SubmittedRequestNormalizes` | components/movie-recommender.tsx:88-94 | the handler never throws on a submitted form; it sees the selected providers, no genre for "Any" or "", 0 for empty numbers, and the trimmed mood |
| `Recommender.RecommenderForm.constructor` | components/movie-recommender.tsx:75-79 | initially all three providers are selected, none twice, with genre "Any", year "2010", rating "7.0" and an empty mood |
| `Recommender.RecommenderForm.SetGenre` | components/movie-recommender.tsx:123 | sets the genre and nothing else |
| `Recommender.RecommenderForm.SetMinYear` | components/movie-recommender.tsx:145 | sets the year text and nothing else |
| `Recommender.RecommenderForm.SetMinRating` | components/movie-recommender.tsx:157 | sets the rating text and nothing else |
| `Recommender.RecommenderForm.SetMood` | components/movie-recommender.tsx:169 | sets the mood text and nothing else |
| `Recommender.RecommenderForm.Submit` | components/movie-recommender.tsx:86-95 | submits the request built from the current state |
| `Recommender.InitialRequest` | components/movie-recommender.tsx:75-95 | a freshly constructed form, submitted as is, asks for three distinct providers, no genre, the parsed 2010 and 7.0, and no mood |

## Left out

- Parsing of the request body (`req.json()`) and building the HTTP response (`Response.json`) are not modelled. The body arrives already decoded as a `Body` of JSON values. A body that is not an object is not modelled.
- The client's `fetcher` and the SWR mutation are not modelled: they are network plumbing. `ToBody` stands for `JSON.stringify` on the client and decoding on the server.
- The text generator is an external, nondeterministic service. `Generator` replays a script of outcomes, where `None` is a call that throws. The lazy `import("ai")` is not modelled separately; its failure would be caught by the same `catch`, which is equivalent to a failed call.
- Route.Explain: a throw while the prompt is built, before the generator is called, is not modelled. An example is a genre object whose own `toString` is not callable (`{"toString": 1}`), which throws when line 84 turns it into text. The source then returns the default text without calling the generator; the model records the prompt and uses one scripted outcome.
- Route.Answer: inherits the gap above from `Explain`.
- Route.Post: inherits the gap above from `Explain`, through `Answer`.
- The prompt's fixed wording and the textual listing of items (line 72, which uses number formatting) are not modelled. `Prompt` carries the data they embed and the model settings.
- `process.env.ENABLE_AI_EXPLANATION` is a parameter (`flag`).
- The `maxDuration` timeout is a platform setting: it limits wall-clock time, which is not modelled.
- The contents of the catalog file are not modelled. The catalog is an input array.
- `Number(...)` string parsing is the parameter `number`. NaN is not modelled anywhere, and neither is `JSON.stringify` turning NaN into `null`.
- `toFixed(1)` display formatting is not modelled.
- The JSX rendering, the marketing sections and the page layout are not modelled: they are static markup.
- JavaScript numbers are modelled as reals. Movie years are integers compared against a real minimum.
- The model does not capture concurrency between requests sharing the catalog. The in-place sort is synchronous in a single-threaded runtime.
