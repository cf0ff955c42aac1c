# Kaspi product parser — a Dafny model

This project models the core of a scraper for product pages of the Kaspi.kz marketplace.
Given a product URL, the scraper returns a dictionary with these parts:

- the product name;
- the image URLs, without their query strings;
- the specification attributes, grouped by `h3` heading, with a flat `dl` fallback;
- the rating code and review count, read from a rendered page in a bounded attempt loop;
- the seller offers, fetched page by page from a JSON endpoint with retries and exponential backoff;
- the minimum and maximum offer price;
- the breadcrumb category path, fetched with its own retry loop;
- the attributes again after a deduplication pass, which drops a group entry when its text repeats three or more individual attributes.

The modules follow the program's structure:

- `Utils` (`utils.dfy`) covers the helpers in `src/utils.py`:
  - `remove_general_if_duplicate` and `_key_found_in_text`;
  - `parse_price`;
  - the two URL id extractors.
- `KaspiOffers` (`kaspi_offers.dfy`) covers `fetch_offers`:
  - the cookie step;
  - the page walk and the retry loop of each page;
  - offer normalisation.
- `KaspiRating` (`kaspi_rating.dfy`) covers the attempt loop of `parse_kaspi_rating_playwright`.
- `KaspiCategory` (`kaspi_category.dfy`) covers the retry loop of `get_category_path`.
- `KaspiProduct` (`kaspi_product.dfy`) covers `parse_kaspi_product_with_bs`:
  - image deduplication;
  - attribute assembly;
  - price bounds;
  - the composition of the whole parser.
- `Text` (`text.dfy`) and `Wrappers` (`wrappers.dfy`) hold string helpers and the `Option` and `Result` types.

The model takes the outside world as inputs:

- **Parsed page:** the HTML elements the parser selects. This is a `ProductPage`, or a list of selector matches for the category page.
- **Rendered-page states:** what the browser shows at each rating attempt.
- **Server outcomes:** one outcome per HTTP request, in the order the requests are made.
- **Time:** each sleep is recorded as a duration in milliseconds instead of being taken, and the fetch timestamp is a parameter.

Each loop of the source is a `method` with a `while` loop. Its postcondition ties the result to a recursive specification function. Lemmas then prove what the source promises about that function:

- the attempt and request bounds;
- doubling backoff;
- first-success semantics;
- in-order pagination;
- idempotent deduplication;
- the error cases.

## Model

| member | source | states |
|---|---|---|
| Utils.KeyFoundInText | src/utils.py:96-127 | a key is only ever found when both the key and the text are non-empty |
| Utils.KeyFoundExactly | src/utils.py:96-127 | a key is found exactly when key and text are non-empty and either the lowered key occurs in the lowered text, or the lowered key does not split into exactly one word and its whitespace-collapsed form occurs |
| Utils.KeyFoundIffOccurs | src/utils.py:96-127 | a key with no whitespace at either end is found exactly when it, or its whitespace-collapsed form, occurs in the text, ignoring case |
| Utils.SingleWordBranchNeverFires | src/utils.py:113-123 | once the substring test has failed, the single-word test `key in text.split()` cannot succeed |
| Utils.PaddedKeyMissed | src/utils.py:96-127 | a key with a trailing space is not found, even though its collapsed form occurs in the text |
| Utils.KeyFoundIgnoresCase | src/utils.py:96-127 | the search is case-insensitive: lower-casing key and text first does not change the answer |
| Utils.Deduplicated | src/utils.py:11-93 | the cleaned dictionary is a sub-dictionary of the input, and a key is dropped exactly when it is a redundant group (a text over 100 characters naming at least three individual keys) or contains "общ" in any case |
| Utils.RemoveGeneralIfDuplicate | src/utils.py:11-93 | the classification loop, the group scan and the pop loop compute the cleaned dictionary |
| Utils.ClassifyEntries | src/utils.py:36-45 | group keys are exactly the entries whose value is a string of more than 100 characters; individual keys are the other entries' keys, a key ending in `:` having its colons and spaces stripped |
| Utils.FindKeysInGroup | src/utils.py:57-69 | the found keys are exactly the non-empty individual keys other than the group's own key whose cleaned form is found in the group's text |
| Utils.FindRedundantGroups | src/utils.py:50-74 | the keys marked for removal are exactly the group keys with at least three individual keys found in their text |
| Utils.PopKeys | src/utils.py:85-87 | the result is the input without the marked keys |
| Utils.DeduplicatedIdempotent | src/utils.py:11-93 | deduplicating twice gives the same as deduplicating once |
| Utils.IndividualEntriesSurvive | src/utils.py:36-87 | an entry that is neither a group nor a general key is never removed, and keeps its value |
| Utils.RedundantGroupRemoved | src/utils.py:50-87 | a group whose text mentions three distinct plain individual keys is removed, and those three entries stay unless they contain "общ" |
| Utils.ColonKeyStripped | src/utils.py:40-42 | a key `name:` contributes the individual key `name`, which is looked up as `name` |
| Utils.MentionedKeyMatched | src/utils.py:57-69 | a plain individual key that occurs in the group text, ignoring case, is among the found keys |
| Utils.PriceMatch | src/utils.py:8 | none exactly when the text has no digit or whitespace; otherwise a non-empty part of the text made only of digits and whitespace |
| Utils.PriceMatchAt | src/utils.py:8 | the match is leftmost and maximal: no digit or whitespace before it, and the next character, if any, is neither |
| Utils.ParsePrice | src/utils.py:130-140 | no text or empty text gives none; a price is found only when the regex matches, after NBSP replacement and stripping, a run that holds a digit |
| Utils.ParsePriceOfRun | src/utils.py:130-140 | when the cleaned text is a prefix with no digit or whitespace, a run of them and then something else, the price is that run's value with spaces removed |
| Utils.ParsePriceGrouped | src/utils.py:130-140 | a digit-grouped price such as `12 990` followed by a currency suffix parses to the value of its digits |
| Utils.ParsePriceOfNumber | src/utils.py:130-140 | the decimal rendering of any `n` followed by ` ₸` parses back to `n` |
| Utils.ParsePriceExample | src/utils.py:130-140 | `12 990 ₸` parses to 12990 |
| Utils.ExtractProductId | src/utils.py:142-146 | a digit string, none (the source raises) exactly when `/p/[^/]+-(\d+)` matches nowhere, and otherwise the id of the leftmost match |
| Utils.ProductIdOfUrl | src/utils.py:142-146 | a URL `…/p/<slug>-<id>…` with no earlier product path yields `id` |
| Utils.ExtractCityId | src/utils.py:148-151 | none (the source raises) exactly when no `?c=` or `&c=` followed by a digit occurs; otherwise the digit run after the leftmost marker |
| Utils.CityIdOfUrl | src/utils.py:148-151 | `<base>?c=<id><rest>` with no marker in the base yields `id` |
| KaspiOffers.MerchantName | src/services/kaspi_parser.py:259-271 | a missing merchant name becomes "Unknown", a null one stays null, a string is kept |
| KaspiOffers.OfferPrice | src/services/kaspi_parser.py:259-271 | the price is the object's `amount` when the price is an object, the number itself otherwise, none when missing or null |
| KaspiOffers.Normalize | src/services/kaspi_parser.py:250-271 | one normalised offer per raw offer, in server order |
| KaspiOffers.AppendOffers | src/services/kaspi_parser.py:259-271 | the accumulated list grows by the page's normalised offers |
| KaspiOffers.FailureDelay | src/services/kaspi_parser.py:223-238 | every non-200 response schedules exactly one sleep; a transport error schedules one sleep exactly when it is not the last attempt (the lengths of the sleeps are stated by the three lemmas beside `RetryBackoff`) |
| KaspiOffers.RetryPost | src/services/kaspi_parser.py:222-242 | a page's retry loop makes between 1 and `max_retries` POSTs, none when `max_retries <= 0`, and a body only comes from a POST that was made |
| KaspiOffers.PostWithRetry | src/services/kaspi_parser.py:222-242 | the retry loop computes `RetryPost` from attempt 0 |
| KaspiOffers.RetryPostOutcome | src/services/kaspi_parser.py:222-242 | the loop stops at the first 200 response, whose body it returns; it fails only after `max_retries` non-200 attempts |
| KaspiOffers.RetryBackoff | src/services/kaspi_parser.py:223-231 | under nothing but 429 responses the page fails after one sleep per attempt, of `2 ** attempt` seconds |
| KaspiOffers.RetryOneSecond | src/services/kaspi_parser.py:223-238 | when no POST answers 429, every sleep the retry loop schedules is 1000 ms |
| KaspiOffers.RetryOtherStatus | src/services/kaspi_parser.py:223-234 | under nothing but statuses other than 200 and 429 the page fails after every attempt, with one sleep per attempt |
| KaspiOffers.RetryTransportErrors | src/services/kaspi_parser.py:223-238 | under nothing but transport errors the page fails after every attempt, with a sleep after each attempt but the last |
| KaspiOffers.FinalPage | src/services/kaspi_parser.py:240-276 | a page that does not continue ends the walk: a failed retry loop, bad JSON and an empty page keep no page; a short page is kept and ends the walk |
| KaspiOffers.WalkFrom | src/services/kaspi_parser.py:213-281 | a walk from a page never ends with the cookie failure |
| KaspiOffers.WalkFromStep | src/services/kaspi_parser.py:213-281 | one iteration of the page loop: the last page, or one kept full page followed by the walk from the next page |
| KaspiOffers.WalkPages | src/services/kaspi_parser.py:213-281 | the `while True` page loop computes `WalkFrom` from page 0 |
| KaspiOffers.FetchOffersSpec | src/services/kaspi_parser.py:178-284 | a URL without a product id or without a city id raises, each error exactly in its case; a failed cookie GET returns no offers without any POST; otherwise the page walk runs |
| KaspiOffers.FetchOffers | src/services/kaspi_parser.py:178-284 | the method computes `FetchOffersSpec` |
| KaspiOffers.WalkPagesFull | src/services/kaspi_parser.py:274-278 | every kept page except possibly the last has at least 50 offers |
| KaspiOffers.WalkStopsShort | src/services/kaspi_parser.py:274-276 | the last kept page has fewer than 50 offers exactly when the walk stopped at a short page |
| KaspiOffers.WalkOffersInOrder | src/services/kaspi_parser.py:250-271 | the returned offers are the kept pages' offers, normalised, in page order and server order |
| KaspiOffers.WalkRequestOrder | src/services/kaspi_parser.py:213-281 | the POSTs ask for the product and city ids, start at the first page and never skip or go back a page |
| KaspiOffers.WalkAttemptsPerPage | src/services/kaspi_parser.py:222-238 | no page is POSTed more than `max_retries` times |
| KaspiOffers.WalkMakesRequests | src/services/kaspi_parser.py:213-238 | with at least one attempt allowed the walk makes at least one POST |
| KaspiOffers.NoRetriesNoRequests | src/services/kaspi_parser.py:222-242 | with `max_retries <= 0` there is no POST and the walk ends as a page failure |
| KaspiOffers.SingleAttemptPerPage | src/services/kaspi_parser.py:222-281 | with `max_retries == 1` the i-th POST asks for page i |
| KaspiOffers.RateLimitedThenShortPage | src/services/kaspi_parser.py:222-281 | two 429 responses then a page of 10 offers: three POSTs for page 0, sleeps of 1 s and 2 s, the 10 offers, a short-page stop |
| KaspiRating.FirstNumber | src/services/kaspi_parser.py:352-364 | the review count is none exactly when the link text has no digit |
| KaspiRating.FirstNumberOf | src/services/kaspi_parser.py:352-364 | `str(n)` after text with no digit and before a non-digit is read as `n` |
| KaspiRating.UnderscoreNumber | src/services/kaspi_parser.py:337-349 | the rating code is none exactly when no `_` is followed by a digit |
| KaspiRating.UnderscoreNumberOf | src/services/kaspi_parser.py:337-349 | `_` and `str(n)`, after text where no `_` is followed by a digit and before a non-digit, is read as `n` |
| KaspiRating.ClosedFrom | src/services/kaspi_parser.py:303-381 | once the browser is closed, nothing is returned and every remaining attempt is made, each failing on the closed browser |
| KaspiRating.RatingFrom | src/services/kaspi_parser.py:303-385 | a review count is only reported with a rating; at least one and at most `max_retries` attempts are made |
| KaspiRating.ParseRating | src/services/kaspi_parser.py:287-385 | the attempt loop, with its `continue`s, its `break` and its early return, computes `RatingSpec` |
| KaspiRating.RatingIffYield | src/services/kaspi_parser.py:303-385 | a rating comes back exactly when some attempt yields a code with no only-reviews attempt before it |
| KaspiRating.RatingIsFirstYield | src/services/kaspi_parser.py:303-385 | when the first attempt that yields or closes the browser yields, the result is its code and review count, after that many attempts |
| KaspiRating.OnlyReviewsFirst | src/services/kaspi_parser.py:303-385 | when the first attempt that yields or closes the browser only found a review count, the result is `{None, None}` after all `max_retries` attempts |
| KaspiRating.OnlyReviewsClosesBrowser | src/services/kaspi_parser.py:367-385 | a block with a review count but no rating code closes the browser before the division raises `TypeError`. The remaining attempts all fail, so the result is `{None, None}` after all `max_retries` attempts, with a two-second pause between consecutive attempts |
| KaspiRating.OnlyReviewsThenRatingExample | src/services/kaspi_parser.py:303-385 | an only-reviews first attempt hides a rating shown at the second attempt: `{None, None}` after three attempts and two pauses |
| KaspiRating.RatingAttemptsBound | src/services/kaspi_parser.py:303-382 | between one and `max_retries` attempts (none when `max_retries <= 0`), and exactly one pause of two seconds between consecutive attempts |
| KaspiRating.RatingExample | src/services/kaspi_parser.py:337-375 | a span with classes `rating _45` and a link "(12 отзывов)" give code 45 and 12 reviews on the first attempt |
| KaspiCategory.FirstMatches | src/services/kaspi_parser.py:417-432 | non-empty breadcrumbs are the texts of some selector; they are empty exactly when no selector matches |
| KaspiCategory.FirstMatchesIsFirst | src/services/kaspi_parser.py:417-432 | non-empty breadcrumbs are the texts of a selector before which every selector matched nothing |
| KaspiCategory.CategoryItems | src/services/kaspi_parser.py:445-449 | filtering never adds labels |
| KaspiCategory.CategoryItemsMembers | src/services/kaspi_parser.py:445-449 | a label is kept exactly when it is non-empty and, lower-cased, is not "главная", "home" or "kaspi.kz" |
| KaspiCategory.CategoryItemsConcat | src/services/kaspi_parser.py:445-449 | filtering distributes over concatenation, so it keeps the order of the labels |
| KaspiCategory.AttemptStep | src/services/kaspi_parser.py:404-505 | one attempt either returns, with a non-empty path when it finds one, or sleeps and goes on to the next attempt |
| KaspiCategory.Attempt | src/services/kaspi_parser.py:404-505 | the body of one attempt (status checks, selectors, filtering, joining, the exception handlers) computes `AttemptStep` |
| KaspiCategory.FindBreadcrumbs | src/services/kaspi_parser.py:417-432 | the selector loop computes the first non-empty match |
| KaspiCategory.FilterLabels | src/services/kaspi_parser.py:445-449 | the filtering loop computes `CategoryItems` |
| KaspiCategory.CategoryFrom | src/services/kaspi_parser.py:404-508 | at most `max_retries` GETs, and a returned path is never empty |
| KaspiCategory.GetCategoryPath | src/services/kaspi_parser.py:388-508 | the retry loop computes `CategoryFrom` from attempt 0 |
| KaspiCategory.PathIffYield | src/services/kaspi_parser.py:404-508 | a path comes back exactly when some attempt within `max_retries` gets a 200 page with a category label among its breadcrumbs |
| KaspiCategory.PathIsFirstYield | src/services/kaspi_parser.py:404-508 | the path is the joined labels of the first such attempt, after that many GETs |
| KaspiCategory.RateLimitedThroughout | src/services/kaspi_parser.py:462-466 | under nothing but 429 responses there is no path, all `max_retries` GETs are made, and the i-th sleep is `2 ** i` seconds |
| KaspiCategory.BreadcrumbExample | src/services/kaspi_parser.py:445-454 | "Главная", "Электроника", "Смартфоны" give "Электроника > Смартфоны" |
| KaspiProduct.ImageSource | src/services/kaspi_parser.py:89-94 | a non-empty `src` wins, else a non-empty `data-src`, else `data-lazy`; any non-empty source comes from one of the three |
| KaspiProduct.BeforeQuery | src/services/kaspi_parser.py:92-93 | the URL before its first `?`; a URL without `?` is unchanged |
| KaspiProduct.CollectImages | src/services/kaspi_parser.py:89-94 | the image loop computes the set of `http` sources cut at their query |
| KaspiProduct.ImagesAreBareHttp | src/services/kaspi_parser.py:89-94 | every collected image starts with `http`, has no query, and is the cut source of some `img` |
| KaspiProduct.QueryVariantsCollapse | src/services/kaspi_parser.py:89-94 | two `img`s that differ only in the query give one image |
| KaspiProduct.QueryAfterBase | src/services/kaspi_parser.py:92-93 | cutting `base?q` at the query gives `base` |
| KaspiProduct.PairsUpToSpec | src/services/kaspi_parser.py:107-111 | the pairs of a group have exactly its non-empty keys among the first `min(len(dt), len(dd))`, each with the value of its last occurrence |
| KaspiProduct.CollectPairs | src/services/kaspi_parser.py:107-111 | the `zip` loop computes the pairs |
| KaspiProduct.PairsKeys | src/services/kaspi_parser.py:107-111 | a key is in the pairs exactly when it is non-empty and has a value beside it |
| KaspiProduct.PairsIgnoreExtraKeys | src/services/kaspi_parser.py:107-111 | `dt` elements beyond the last `dd` are ignored |
| KaspiProduct.ParsedGroupsFrom | src/services/kaspi_parser.py:100-116 | each parsed group is the name and pairs of a page group that has at least one pair |
| KaspiProduct.ParsedGroupsComplete | src/services/kaspi_parser.py:100-116 | every page group with at least one pair is parsed |
| KaspiProduct.ParsedGroupsAppend | src/services/kaspi_parser.py:100-116 | a group added at the end of the page adds its name and pairs at the end when it has pairs, and nothing otherwise (page order) |
| KaspiProduct.ParseGroups | src/services/kaspi_parser.py:100-116 | the group loop computes the parsed groups |
| KaspiProduct.RetainedOrigin | src/services/kaspi_parser.py:127-131 | each retained name is a non-general parsed name, its value the nested pairs of a parsed group of that name |
| KaspiProduct.RetainedLastWins | src/services/kaspi_parser.py:127-131 | every non-general group is retained, with the pairs of the last group of that name |
| KaspiProduct.RetainGroups | src/services/kaspi_parser.py:127-131 | the retaining loop computes `Retained` |
| KaspiProduct.ExistingKeys | src/services/kaspi_parser.py:134-137 | the existing keys are the keys inside the group entries plus the fallback keys |
| KaspiProduct.AddOthers | src/services/kaspi_parser.py:140-146 | without missing keys nothing changes; entries other than "Другие" are never touched |
| KaspiProduct.AddOtherPairs | src/services/kaspi_parser.py:140-146 | the loop over the fallback pairs computes `AddOthers` |
| KaspiProduct.Flat | src/services/kaspi_parser.py:119-124 | the fallback dictionary as flat string attributes, same keys and values |
| KaspiProduct.AssembleAttributes | src/services/kaspi_parser.py:96-148 | the assembly steps compute `AssembledAttributes` |
| KaspiProduct.OthersNeverAdded | src/services/kaspi_parser.py:119-146 | the "Другие" section never appears: the attributes are the retained groups, or the flat fallback when no group is retained and a fallback exists |
| KaspiProduct.GeneralNameIsGeneral | src/services/kaspi_parser.py:104-131 | the default name "Общие" counts as general |
| KaspiProduct.RetainedGroupsHaveHeadings | src/services/kaspi_parser.py:100-131 | a retained group comes from a page group with an `h3` of that name, so a group without an `h3` is never retained |
| KaspiProduct.Prices | src/services/kaspi_parser.py:157-158 | the non-null prices of the offers, empty exactly when every price is null |
| KaspiProduct.MinOf | src/services/kaspi_parser.py:159 | the minimum: a member no larger than any member |
| KaspiProduct.MaxOf | src/services/kaspi_parser.py:160 | the maximum: a member no smaller than any member |
| KaspiProduct.PriceBounds | src/services/kaspi_parser.py:156-162 | no offers give no bounds; offers that all lack a price raise the `min()` error; otherwise the bounds are attained prices bounding every price, and the amount is the number of offers |
| KaspiProduct.FinalAttributes | src/services/kaspi_parser.py:169-172 | the final attributes are a sub-dictionary of the assembled ones, empty only when those are; when some key survives deduplication they are exactly the surviving keys, otherwise the assembled attributes unchanged |
| KaspiProduct.ParseProduct | src/services/kaspi_parser.py:24-174 | the parser's steps compute `ParseProductSpec` |
| KaspiProduct.ProductFailure | src/services/kaspi_parser.py:150-174 | the parser fails exactly when `fetch_offers` raises, or offers come back and none has a price |

## Left out

- **I/O:** the HTTP session, the Playwright browser and the BeautifulSoup tree. Each is replaced by the values the code reads from it, and sleeps are recorded as millisecond durations.
- **Logging:** every logger call.
- **Clock:** `fetched_at` is a parameter instead of a reading of the clock.
- **A missing page:** the main product page failing to load has no model. The parser starts from a parsed `ProductPage`.
- **Other entry points:**
  - `is_valid_kaspi_url`, the persistence layer, the API routers, the scheduler and the command-line script are not part of this model;
  - the product name is the `h1` text as given.
- **Floating point:**
  - the rating's division by ten is modelled by its integer operand, the rating code. The only-reviews case keeps the source's behaviour: the division raises after the browser is closed;
  - `parse_price` returns a `float` in the source but only ever converts digit strings, so the model returns a `nat`.
- **Prices:**
  - offer prices are integers in the model;
  - a non-numeric price value in the JSON, which could make `min()` raise, is not modelled;
  - `price_candidates` is computed by the source but never used, so it is not modelled.
- **Responses:**
  - only a JSON object with an `offers` list is modelled, with a missing or null `offers` read as an empty list;
  - a JSON array body, or offers that are not objects, raise outside the `try` in the source and are not modelled.
- **Scripts past their end:**
  - a POST beyond the given outcomes counts as a transport error;
  - a category GET beyond them counts as a timeout;
  - a rating attempt beyond the given snapshots sees an empty page.
- **Text:**
  - `Text.Lower` folds ASCII, Latin-1 and the basic Cyrillic range only, not all of Unicode;
  - whitespace (`\s`, `split()`, `strip()`) follows `str.isspace()` exactly;
  - `\d` is limited to ASCII digits, so the other Unicode decimal digits, which both `\d` and `float()` accept, are not modelled.
- **Closing twice:** after an only-reviews attempt the loop ends with a second `browser.close()`. The model assumes that call does not raise.
- **Images:** they form a set, because the source's order after its set conversion is unspecified.
- **Dictionary order:** Python dicts (`attributes`, each group's pairs, the flat fallback) are modelled as `map`. The insertion order of their keys, which the returned dictionary exposes, is not modelled.
- **Dedup input:** `remove_general_if_duplicate` on a value that is not a dictionary, which the source returns unchanged, is not modelled. The model's argument is always a dictionary.
- **Default retries:** `ParseProduct` uses the default `max_retries` of each helper, as the source calls them.
- KaspiOffers.WalkPagesFull: states that kept pages before the last have at least 50 offers, not exactly 50. The code continues on any page of 50 or more.
- Utils.KeyFoundIffOccurs: the substring characterisation holds only for keys without whitespace at either end. `Utils.PaddedKeyMissed` shows that a padded key is missed.
- KaspiProduct.AddOthers: the "Другие" step is modelled as written, but `KaspiProduct.OthersNeverAdded` proves that it never adds anything.
