# Steam review retrieval, modelled in Dafny

`GetSteamReviews.py` downloads the user reviews of one Steam application
from the store's `appreviews` endpoint, turns each review into a row,
optionally translates the non-English rows with DeepL, and writes the rows
to a CSV file. It is a single top-level script with no functions. This
project models its logic, with the HTTP, JSON, DeepL and CSV calls
abstracted away:

- `languages.dfy` (module `Languages`): the `lang_long`/`lang_short` tables,
  `language_dict = dict(zip(lang_short, lang_long))` with Python's `zip` and
  `dict` semantics, and the normalisation of the `--language` value.
- `query.dfy` (module `Query`): the filter, review-type and purchase-type
  choices, the parameter list appended to the base URL in its fixed order
  (both as the script writes it and with the day range corrected), the
  URL text, the initial cursor `&cursor=*` and the quoted follow-up cursor.
- `decimal.dfy` (module `Decimal`): `str(int)` as the URL writes integers,
  with a reader that parses that text back.
- `retrieval.dfy` (module `Retrieval`): the retrieval loop. The server is a
  finite sequence of pages, one per request in request order, and `quote`
  (`urllib.parse.quote`) is a function parameter. `Retrieve` takes the
  parsed options, builds the URL from them and picks the branch from the
  same options' filter, as the script does; its cursor-following loop `FollowCursors` and
  its single request `FetchOnce` are proved equal to the specification
  functions `CursorModeResult` and `BoundedResult`, so `Retrieve` equals
  `Expected`.
  The lemmas about `Expected` state the stopping rule, delivery order,
  the running total and the request sequence.
- `rows.dfy` (module `Rows`): the projection of raw reviews to rows, the
  non-English count and character total, and the in-place translation loop
  over an `array<Row>` (the script mutates the row dictionaries in place).
  The translator is a function parameter taking the API key and the text.
- `wrappers.dfy`: an `Option` type.

Where the modelled server runs out of pages before a page reporting
`num_reviews == 0`, the result says `OutOfPages`. The script itself would
keep requesting, so termination is only relative to the finite server.

## Model

| member | source | states |
|---|---|---|
| `Languages.Zip` | GetSteamReviews.py:15 | `zip` pairs elements position by position and is as long as the shorter list |
| `Languages.DictOfKeys` | GetSteamReviews.py:15 | the keys of `dict(pairs)` are exactly the first components of the pairs |
| `Languages.DictOfLookup` | GetSteamReviews.py:15 | with distinct keys, `dict(pairs)` maps each key to the value paired with it |
| `Languages.DictOf` | GetSteamReviews.py:15 | `dict(pairs)` inserts the pairs in order, so the last pair wins for its key |
| `Languages.LanguageDict` | GetSteamReviews.py:15 | `language_dict` is `dict(zip(lang_short, lang_long))`; its keys and values are stated by `LanguageDictKeys` and `LanguageDictAt` |
| `Languages.ShortCodesDistinct` | GetSteamReviews.py:12-15 | no short code repeats, so no zipped entry is overwritten |
| `Languages.LanguageDictKeys` | GetSteamReviews.py:10-15 | the dictionary's keys are exactly the 29 short codes, so the 30th long name "all" is paired with nothing |
| `Languages.LanguageDictAt` | GetSteamReviews.py:10-15 | the short code at index i maps to the long name at index i |
| `Languages.Normalise` | GetSteamReviews.py:63-67 | a short code at index i becomes `lang_long[i]`; any value not in `lang_short` passes through unchanged |
| `Languages.AcceptedLanguageIsLong` | GetSteamReviews.py:44-67 | every value the `--language` option accepts normalises to one of the long names |
| `Decimal.NatToString` | GetSteamReviews.py:85 | a non-negative integer is written as a non-empty run of digits with no leading zero, more than one digit exactly from 10 up |
| `Decimal.IntToString` | GetSteamReviews.py:85 | an integer is written as a non-empty string that starts with `-` exactly when it is negative, and is all digits otherwise |
| `Decimal.NatToStringRoundTrip` | GetSteamReviews.py:85 | the digits written for a non-negative integer read back as that integer |
| `Decimal.IntToStringRoundTrip` | GetSteamReviews.py:85 | every integer written into the URL, negative ones included, parses back to itself |
| `Query.Filter.FollowsCursor` | GetSteamReviews.py:91 | cursor mode is chosen exactly when the filter's name is "recent" or "updated" |
| `Query.NextCursor` | GetSteamReviews.py:106-107 | every later cursor parameter is `&cursor=` followed by exactly the quoted token |
| `Query.LookupAbsent` | GetSteamReviews.py:72-85 | a parameter is found in the query exactly when it was written |
| `Query.Params` | GetSteamReviews.py:72-85 | the parameter list of the URL with the corrected day range; its order is stated by `ParamOrder` and its values by `ParamValues` |
| `Query.ParamsAsWritten` | GetSteamReviews.py:72-85 | the parameter list as the script writes it, with `[d]` for the day range; stated by `ParamOrder` and `ParamValuesAsWritten` |
| `Query.ParamOrder` | GetSteamReviews.py:72-85 | the parameters are filter, language, day_range (only when given), review_type, purchase_type and num_per_page, in that order, both as written and corrected |
| `Query.RequestUrl` | GetSteamReviews.py:70-85 | the request URL with the corrected day range; its text is stated by `RequestUrlText` |
| `Query.RequestUrlAsWritten` | GetSteamReviews.py:70-85 | the request URL as the script builds it; its text is stated by `RequestUrlText` |
| `Query.RequestUrlText` | GetSteamReviews.py:70-85 | the URL is the base, the app id, `?json=1`, then `&filter=`, `&language=` (long name), `&day_range=` only when given (`[d]` as written, `d` corrected), `&review_type=`, `&purchase_type=` and `&num_per_page=` with their values |
| `Query.ParamValuesAsWritten` | GetSteamReviews.py:72-85 | as written, every parameter other than day_range reads back as in the corrected list; day_range is present iff given, its value is `[d]`, and it does not parse as an integer |
| `Query.ParamValues` | GetSteamReviews.py:72-85 | each parameter reads back as its option's value: the normalised language, day_range present iff given and parsing to the day count, num_per_page parsing to the page size |
| `Query.LanguageParamIsLong` | GetSteamReviews.py:63-76 | for every accepted `--language` value the URL carries one of the long names |
| `Query.DefaultParams` | GetSteamReviews.py:42-55 | for any app id, with the command-line defaults the parameters are filter=all, language=all, review_type=all, purchase_type=steam, num_per_page=20, with no day_range |
| `Query.DayRangeParamAsWritten` | GetSteamReviews.py:78-79 | as written, the day_range value is the repr of a one-element list and is not an integer |
| `Query.DayRangeAsWrittenDiffers` | GetSteamReviews.py:78-79 | the as-written day_range parameter differs from the intended one for every day count; for 7 it is `[7]` |
| `Query.DayRangeParam` | GetSteamReviews.py:78-79 | corrected: the day_range value parses back to the requested number of days |
| `Retrieval.StopIndex` | GetSteamReviews.py:101-102 | the stopping index is either a page reporting zero reviews or the end of the pages |
| `Retrieval.BeforeStop` | GetSteamReviews.py:101-102 | every page before the stopping page reports some reviews, so the stopping page is the first zero page |
| `Retrieval.FetchStep` | GetSteamReviews.py:95-107 | one more fetched page stops the loop iff it reports zero reviews, and adds its reviews, its count and its request to those so far |
| `Retrieval.CursorModeResult` | GetSteamReviews.py:91-107 | reference result of cursor mode: the reviews before the stopping page, one request per fetched page, the summed counts, and whether a zero page was reached; its properties are the `CursorMode…` lemmas |
| `Retrieval.BoundedResult` | GetSteamReviews.py:108-116 | reference result of the single request: that page's reviews and count, one `&cursor=*` request |
| `Retrieval.Expected` | GetSteamReviews.py:87-116 | reference result of the retrieval section: cursor mode exactly for "recent" and "updated", otherwise the single request |
| `Retrieval.AppendAll` | GetSteamReviews.py:104-105 | appending a page's reviews one by one leaves the accumulator followed by those reviews in order |
| `Retrieval.Retrieve` | GetSteamReviews.py:70-116 | the result for the URL built from the options equals `Expected` with those options' filter; with filter "all" exactly one request with `&cursor=*` is made and its page's reviews are the result, whatever `num_reviews` says |
| `Retrieval.FollowCursors` | GetSteamReviews.py:91-107 | the cursor-mode loop yields exactly `CursorModeResult`: the reviews before the stopping page, one request per fetched page, and the summed counts |
| `Retrieval.FetchOnce` | GetSteamReviews.py:108-116 | the single-request branch yields exactly `BoundedResult`: one request with `&cursor=*` and that page's reviews and count |
| `Retrieval.RequestChain` | GetSteamReviews.py:87-107 | in cursor mode the first request carries `&cursor=*` and request k+1 carries `&cursor=` plus the quoted cursor of page k |
| `Retrieval.ConcatAt` | GetSteamReviews.py:104-105 | accumulating pages keeps every review: the length is the sum of the pages' lengths and review j of page k sits after all reviews of earlier pages |
| `Retrieval.CursorModeOrder` | GetSteamReviews.py:94-107 | in cursor mode the result is exactly the reviews of the pages before the stopping page, in delivery order, none dropped or repeated |
| `Retrieval.CursorModeStopsOnlyAtZero` | GetSteamReviews.py:94-107 | cursor mode finishes iff some page reports zero reviews, after exactly one request per page up to that one and without that page's reviews |
| `Retrieval.UnreadPagesIgnored` | GetSteamReviews.py:101-102 | nothing after the stopping page is requested: replacing every later page leaves the result unchanged |
| `Retrieval.StopIndexPrefix` | GetSteamReviews.py:101-102 | the stopping page depends only on the pages up to and including it |
| `Retrieval.CursorModeRunningTotal` | GetSteamReviews.py:93-98 | `number_of_reviews` is the sum of `num_reviews` over the fetched pages, the final zero page adding nothing, and is at least the number of pages before it |
| `Retrieval.NonAdvancingCursorIsFollowed` | GetSteamReviews.py:94-107 | with no cursor guard, pages that all report reviews and repeat one cursor are all requested with the same URL and all their reviews kept |
| `Rows.PlaytimeHours` | GetSteamReviews.py:122 | hours times 60 is the playtime in minutes (120 minutes is 2.0 hours, 90 is 1.5) |
| `Rows.Project` | GetSteamReviews.py:122-131 | one review becomes a row with the playtime in hours (times 60 gives the minutes), its language, body, formatted time, recommendation and score |
| `Rows.ProjectAll` | GetSteamReviews.py:118-131 | one row per raw review, in order, with its playtime in hours, language, body, formatted time, recommendation and score |
| `Rows.NonEnglishCount` | GetSteamReviews.py:142 | `non_english` counts the rows whose language is not "english", and is at most the number of rows |
| `Rows.NonEnglishChars` | GetSteamReviews.py:144-145 | `total_characters` sums the body lengths of the non-English rows; `NonEnglishCountZero` relates it to the count |
| `Rows.TranslateRow` | GetSteamReviews.py:152-159 | a row keeps every field but the body; an English row is unchanged, a non-English row's body becomes the translator's output |
| `Rows.TranslateAll` | GetSteamReviews.py:151-159 | translating the rows keeps their number; the rows themselves are stated by `TranslateAllAt` |
| `Rows.NonEnglishCountZero` | GetSteamReviews.py:142-145 | `non_english` is zero iff every row is English, then `total_characters` is zero too, and it never exceeds the number of rows |
| `Rows.TranslateAllAt` | GetSteamReviews.py:151-159 | translation keeps every row in place, leaves English rows unchanged and changes only the body of a non-English row, to the translator's output |
| `Rows.TranslateAllKeepsCount` | GetSteamReviews.py:151-159 | translation changes no language, so the non-English rows are the same afterwards |
| `Rows.TranslateReviews` | GetSteamReviews.py:133-159 | without `--translate` or without an API key the rows stay as they are; otherwise the rows become their translation and the counters `count`/`characters` end at `non_english`/`total_characters` |

## Findings

| source | as written | input that shows it | evidently intended | confidence | as-written member | corrected member |
|---|---|---|---|---|---|---|
| GetSteamReviews.py:78-79 | `--day_range` is declared with `nargs=1`, so the option is a one-element list and the f-string writes the list's repr | `-d 7` gives `&day_range=[7]` | `&day_range=7` | not executed; high that the text is bracketed, how the server reacts is unknown | `Query.DayRangeParamAsWritten` (with `Query.DayRangeAsWrittenDiffers`) | `Query.DayRangeParam` |

`Query.Params` (through `Query.DayParams`), and so `Query.RequestUrl` and `Retrieval.Retrieve`, use the corrected `Query.DayRangeParam`. `Query.ParamsAsWritten` and `Query.RequestUrlAsWritten` keep the script's bracketed form, and `Query.ParamValuesAsWritten` states what a server reads from it.

## Behaviour kept as the script has it

- No cursor-equality guard: the script has none, and
  `Retrieval.NonAdvancingCursorIsFollowed` states what it does instead.
- The `all` filter reads a single page. Any `--day_range` is written into
  the URL whatever the filter; the script does not reject it outside `all`.
- With zero rows the script still opens (and so creates or truncates) the
  output file before `review_list[0]` fails, so an empty file is left
  behind. This is not modelled (see below).
- The long name for Ukrainian is spelled "ukranian" in the table; the model
  keeps the script's spelling.

## Left out

- Argument parsing (GetSteamReviews.py:20-61) is library configuration. Its constraints appear as a type (`Query.PageSize`, 0..100) and as enumerations. `--batches` is parsed but never used, so it is absent.
- HTTP requests, JSON decoding and the progress `print`s (GetSteamReviews.py:95-99, 109-113) are replaced by the sequence of pages. Malformed responses, missing fields and a missing `cursor` (which would make `quote` fail) are not modelled.
- `urllib.parse.quote` is a function parameter; percent-encoding itself is not modelled.
- Retrieval.Retrieve: the server is a fixed sequence of pages answered in request order, so a response does not depend on the URL sent. When the pages run out before a zero page, the result is `OutOfPages` where the script would keep asking.
- Rows.PlaytimeHours: exact real division stands for Python's floating-point `/ 60`, so rounding is not modelled.
- `datetime.fromtimestamp` formatting (GetSteamReviews.py:125) depends on the local time zone and is a function parameter of `Rows.ProjectAll`.
- The DeepL client (GetSteamReviews.py:135, 139, 157-159) is a function parameter of `Rows.TranslateReviews`. DeepL failures and the `deepl` import are not modelled (the translator is total); the `exit()` on a missing key (GetSteamReviews.py:136-138) becomes `MissingApiKey`, after which the script writes no CSV.
- Query.ParamValues / Query.Params: the URL used by `Query.RequestUrl` and `Retrieval.Retrieve` carries the corrected `&day_range=<d>`, not the `&day_range=[d]` that GetSteamReviews.py:79 writes; the as-written form is `Query.ParamsAsWritten` / `Query.RequestUrlAsWritten` (see Findings).
- CSV writing (GetSteamReviews.py:162-166) is file I/O and is not modelled.
