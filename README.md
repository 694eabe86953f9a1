# Comandato product catalogue: classifier, feed decoder, retry loop and queries

A model of the core of a small web service. The service fetches the Comandato product feed, which is an Atom XML document. It turns every `<entry>` into a product with a title, a summary, a link and a category. The category comes from an ordered chain of keyword rules over the lower-cased title. The service then answers five queries over that list: list all, search by term, get by index, list the categories, and filter by category.

The project has four modules for the components of `main.py` and two support modules, `Http` and `Text`:

- `Http` (`http.dfy`): the `Result` type and the status codes the service raises: 504, 503, 500 and 404.
- `Text` (`text.dfy`): `str.lower()` on the ASCII and Latin-1 capitals; Python's `in` on strings, with a recursive definition proved equal to "occurs at some position"; and Python's string order `<`, proved irreflexive, transitive and total. Two strictly sorted lists with the same elements are proved equal.
- `Classifier` (`classifier.dfy`): `categorize_product`, written as a table of 24 `Rule`s in source order. The stove rule is the only one with an exclusion list, `["microonda"]`. `FirstMatch` finds the first rule that fires, and `Categorize` falls back to `"Otros"`. What these two compute is stated by the lemmas listed below.
- `Feed` (`feed.dfy`): the entry normalisation inside `fetch_products`. The XML-to-dict library is not modelled. Its output is the input here: `Entries = Absent | Single(entry) | Many(entries)`, and each field is a `Value = Str(text) | Dict(fields)`. `DecodeEntries` is the imperative `for` loop that appends one product per entry. It is proved equal to the recursive `DecodeAll`. The title classifier is a parameter `classify` of the decoder. `Fetcher` passes `Classifier.Categorize`, as `fetch_products` calls `categorize_product`, so the decoder's proofs hold for any classifier.
- `Fetcher` (`fetcher.dfy`): the `while retry_count < max_retries` loop. Each network attempt is an `Outcome` supplied by the caller: `ReadTimeout`, `HttpError`, `OtherError` or `Received(tree)`. The method returns the result, the sleeps it asked for and the number of attempts. Three scenario methods show what callers can derive from its contract.
- `Queries` (`queries.dfy`): the five query operations over a product list. The two list comprehensions are one `Filter`, whose result is proved to be the order-preserving subsequence that keeps each matching occurrence.

Three behaviours of `main.py` worth stating:
- A missing `feed` or `entry` key gives an empty list, not a decode error (main.py:114).
- A decode failure is reported with status 500, like any other unexpected exception (main.py:146-148).
- A missing `title` defaults to `""` (main.py:121).

## Model

| member | source | states |
|---|---|---|
| Text.LowerChar | main.py:44 | an ASCII capital lands in `a`-`z`; a character outside the modelled capitals is unchanged |
| Text.LowerCharAscii | main.py:44 | each ASCII capital becomes the small letter at the same position of the alphabet |
| Text.LowerCharLatin1 | main.py:44 | each Latin-1 capital U+00C0-U+00DE other than U+00D7 becomes its small letter; in particular `Á`, `É`, `Í`, `Ó`, `Ú`, `Ñ` become `á`, `é`, `í`, `ó`, `ú`, `ñ` |
| Text.Lower | main.py:44 | `s.lower()` keeps the length and lower-cases each character; see `LowerChar`, `LowerIdempotent` |
| Text.LowerIdempotent | main.py:44 | lower-casing twice equals lower-casing once |
| Text.Contains | main.py:46 | `w in s` holds exactly when `w` occurs in `s` at some position |
| Text.ContainsAny | main.py:46 | `any(keyword in s for keyword in ws)` holds exactly when some keyword of the list is contained in `s` |
| Text.Less | main.py:228 | Python's string `<`: see `LessIrreflexive`, `LessTransitive`, `LessTotal` |
| Text.ContainsEmpty | main.py:189-191 | the empty string is contained in every string, and no non-empty string is contained in `""` |
| Text.LessTotal | main.py:228 | two distinct strings are ordered one way or the other by Python's string `<` |
| Text.LessTransitive | main.py:228 | Python's string `<` is transitive |
| Text.LessIrreflexive | main.py:228 | no string is below itself |
| Text.StrictlySortedUnique | main.py:228 | two strictly sorted lists with the same elements are the same list, so `sorted(set(...))` has exactly one answer |
| Classifier.FirstMatch | main.py:46-93 | the rule scan returns at most the table length; what it returns is stated by `FirstMatchSpec` |
| Classifier.Categorize | main.py:43-95 | `categorize_product`: see `CategorizeIsFirstFiring`, `OtrosIffNoKeyword`, `CategorizeTotal`, `CategorizeIgnoresCase` |
| Classifier.FirstMatchSpec | main.py:46-93 | the rule scan returns the index of a rule that fires, with no earlier rule firing, or the table length when no rule fires |
| Classifier.CategorizeTotal | main.py:43-95 | the category is always one of the 24 rule labels or `"Otros"`, and never `""` |
| Classifier.LabelsDistinct | main.py:46-95 | no two rules share a label, and no rule uses `"Otros"` |
| Classifier.KeywordsNonEmpty | main.py:46-93 | every keyword in the table is non-empty |
| Classifier.CategorizeIsFirstFiring | main.py:46-93 | a title gets rule k's label if and only if rule k fires and none of rules 1..k-1 fires |
| Classifier.TvKeywordWins | main.py:46-47 | a title containing any TV keyword, in any case, is `"Televisores"` whatever else it contains |
| Classifier.MicrowaveIsNeverStove | main.py:56-57 | a lower-cased title containing `"microonda"` is never `"Cocina a gas"` |
| Classifier.StoveKeywordWithoutMicrowave | main.py:56-57 | a stove keyword without `"microonda"`, and no keyword of rules 1-5, gives `"Cocina a gas"` |
| Classifier.MicrowaveReachesItsRule | main.py:78-79 | a title with `"microonda"` and no keyword of rules 1-5 or 7-16 is `"Horno Microondas"` |
| Classifier.OnlyStoveExcludes | main.py:56 | every rule except the stove rule has an empty exclusion list |
| Classifier.KeywordMakesSomeRuleFire | main.py:46-93 | if a title holds a keyword of any rule, some rule fires; a stove keyword held back by `"microonda"` lets the microwave rule fire |
| Classifier.OtrosIffNoKeyword | main.py:94-95 | the result is `"Otros"` if and only if the lower-cased title contains no keyword of any rule |
| Classifier.EmptyTitleIsOtros | main.py:94-95 | the empty title is `"Otros"` |
| Classifier.CategorizeIgnoresCase | main.py:44 | classifying the lower-cased title gives the same category as classifying the title |
| Feed.Normalize | main.py:114-118 | a missing `entry` list is `[]`, a single entry is wrapped in a one-element list, a list is kept |
| Feed.TextField | main.py:121-122 | a missing field reads as `""`, a text field as its text, and a dictionary in its place gives status 500 |
| Feed.LinkField | main.py:123-127 | a missing link is `""`, a text link is its text, and a dictionary link is its `@href`, or `""` without one |
| Feed.DecodeEntry | main.py:121-132 | one entry gives a product exactly when its title and summary are strings or absent, and status 500 otherwise; the product's fields are the entry's fields with `""` for missing ones, and its category is the title's category |
| Feed.DecodeAll | main.py:120-134 | success exactly when every entry decodes; then there is one product per entry, in entry order; otherwise status 500 |
| Feed.Decode | main.py:114-134 | decoding of the parsed feed: see `DecodeFeed`, `AbsentIsEmpty`, `SingleIsOneElementList`, `DecodedAreClassified` |
| Feed.DecodeEntries | main.py:120-134 | the appending loop returns what `DecodeAll` returns for the entry list |
| Feed.DecodeAllAppend | main.py:120-132 | decoding one more entry appends its product to the decoded list, or fails with that entry's status |
| Feed.DecodeAllPrefixFails | main.py:120-134 | once some entry fails to decode, the whole list fails with status 500 |
| Feed.DecodeFeed | main.py:114-134 | wrapping a single entry and defaulting a missing one to `[]`, then looping, yields `Decode(tree)` |
| Feed.DecodedAreClassified | main.py:130 | every decoded product's category is the classifier applied to its own title |
| Feed.AbsentIsEmpty | main.py:114 | a missing `feed` or `entry` key decodes to an empty list, not an error |
| Feed.SingleIsOneElementList | main.py:117-118 | a single entry decodes to the same products as a one-element list of it |
| Feed.LinkShapes | main.py:123-127 | a plain link and a dictionary link with the same `@href` decode alike; a dictionary without `@href` and a missing link both give `""` |
| Fetcher.FetchProducts | main.py:99-148 | at most 3 attempts; every attempt before the last was a read timeout; the sleeps are 2, 4, ... one after each retried timeout; the last attempt decides the result: a third read timeout gives 504, any other HTTP error gives 503 at once, any other failure gives 500 at once, a received feed gives its decoding with `Categorize` as classifier; later outcomes are never consumed |
| Fetcher.TimeoutsExhaustRetries | main.py:136-142 | three read timeouts give 504 after sleeps of 2 then 4 seconds |
| Fetcher.HttpErrorIsNotRetried | main.py:143-145 | an HTTP error on the first attempt gives 503 with no sleep |
| Fetcher.SecondAttemptSucceeds | main.py:103-142 | a timeout followed by a received feed gives that feed's decoding after one 2-second sleep |
| Queries.Filter | main.py:189-191 | the result is a subsequence of the input that holds every occurrence of each kept element and nothing else |
| Queries.FilterKeepAll | main.py:189-191 | filtering with a test that every element passes returns the list unchanged |
| Queries.FilterCongruent | main.py:189-191 | two tests that agree on the list select the same products |
| Queries.ListAll | main.py:172 | listing all products returns the fetched list unchanged |
| Queries.Matches | main.py:190-191 | the search test: the lower-cased term is in the lower-cased title or summary; see `Search`, `SearchEmptyTerm`, `SearchIgnoresTermCase` |
| Queries.Search | main.py:189-191 | exactly the products whose lower-cased title or summary contains the lower-cased term, in feed order, with their multiplicities |
| Queries.SearchEmptyTerm | main.py:189-191 | searching for `""` returns every product |
| Queries.SearchIgnoresTermCase | main.py:189-191 | searching for the lower-cased term gives the same products as searching for the term |
| Queries.ProductAt | main.py:208-210 | the product at `index` if and only if `0 <= index < len`; status 404 otherwise, negative indices included |
| Queries.Insert | main.py:228 | inserting into a strictly sorted list keeps it strictly sorted and adds exactly the new element |
| Queries.Categories | main.py:227-228 | a strictly sorted list, so without duplicates, whose elements are exactly the categories present |
| Queries.CategoriesUnique | main.py:227-228 | any strictly sorted list of exactly the present categories equals the category list |
| Queries.CategoriesOfDecoded | main.py:227-228 | every category listed for a decoded feed is one of the 24 rule labels or `"Otros"` |
| Queries.CategoriesDeduplicateAndSort | main.py:227-228 | categories `"Otros"`, `"Laptops"`, `"Otros"` are listed as `["Laptops", "Otros"]` |
| Queries.InCategory | main.py:245 | the category test: equal once both are lower-cased; see `ByCategory`, `ByCategoryIgnoresCase` |
| Queries.ByCategory | main.py:245-250 | the products whose lower-cased category equals the lower-cased name, in feed order, with their multiplicities; status 404 exactly when there is none |
| Queries.ByCategoryIgnoresCase | main.py:245 | a product of category `"Laptops"` is found with the name `"laptops"` |

## Left out

- The web application: routing, CORS, server start-up, logging and the root endpoint (main.py:1-37, 151-163, 260-262).
- The translation of failures at each endpoint (main.py:173-177, 192-196, 211-217, 229-233, 251-257). Listing, search and the category list answer a JSON 503 for any failure, including a 504 or 500 from the fetch. Lookup by index and filter by category re-raise the fetch's status and their own 404. This is web-boundary behaviour.
- The HTTP client and its timeouts of 30 s for connect, write and pool, and 60 s for reads (main.py:101, 105-107). Each attempt is an `Outcome`. `FetchProducts` requires one outcome for each of the 3 possible attempts, because the network always answers an attempt somehow.
- `asyncio.sleep` (main.py:142). The requested delays are recorded in `sleeps`. Time is not modelled.
- `xmltodict.parse` (main.py:111). Its output is the `Entries`/`Value` datatype. A parse failure is the `OtherError` outcome.
- Shapes of the dictionary tree outside the datatype. xmltodict gives `None` for an empty element such as `<title/>`. A title of `None` makes `lower()` raise. An entry may be plain text, or several `<link>` elements may form a list. Each of these ends in status 500 in the source, and none can be written in this model.
- An empty `<summary/>`, which xmltodict also gives as `None`. Unlike the shapes above, it does not end in status 500 during the fetch. The product's `Optional[str]` summary accepts `None`, and the product is built. A later search raises on `product.summary.lower()` whenever the title does not match the term (main.py:189-191). The model has no `None` summary, so this failure is not captured.
- Pydantic validation of `Product` (main.py:17-21, 132). Only one effect is modelled: a dictionary in place of the summary is rejected with status 500.
- Unicode lower-casing. `LowerChar` maps the ASCII capitals and the Latin-1 capitals U+00C0-U+00DE, except U+00D7. Other characters are left unchanged, although Python lower-cases many more, and some of them into two characters. Two of those produce keyword letters. U+212A KELVIN SIGN lower-cases to `k`, and U+0130 to `i` followed by U+0307. A title containing either can be classified differently here. For example, "4K" written with U+212A is "Televisores" in the source and "Otros" in the model. "CORE İ5" is "Laptops" in the source, through "core i", but it does not reach that rule in the model.
- Asynchrony and concurrency. Every endpoint fetches again, and each query here takes the fetched list as a parameter.
- The titles "Cocina a gas Indurama" and "Microonda con función de cocina" fit the cases of `StoveKeywordWithoutMicrowave` and `MicrowaveReachesItsRule`. For those literal strings, the lemmas' hypotheses that certain keywords are absent are not proved, so their categories are not established here.
