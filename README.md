# Luxury appraisal pipeline — a verified model of its local logic

The appraisal service takes a photo of a luxury item, asks a hosted model to
identify it, asks a second, web-searching model for comparable listings, and
returns a price estimate with the listings found. Almost all of the work
happens in those hosted models. This project models the logic that runs
locally and proves properties of it:

- **Price-text parser** (`parse_price_any`, module `Price`): six currency
  patterns, tried in priority order USD, EUR, GBP, CAD, AUD, JPY. Each one is
  matched by a hand-written matcher over `seq<char>`. The matcher follows
  Python's `re.search` with `IGNORECASE`: the leftmost match wins, marker
  alternatives are tried in their written order, `\s` is Python's whitespace
  set, and the quantifiers are greedy. Amounts are integer hundredths, not
  floats. `ParsePriceAny` is the loop with its early return, and it is proved
  equal to the function `ParsePrice`.
- **Base64 and data URLs** (`bytes_to_data_url`, modules `Base64` and
  `DataUrl`): base64 as in section 4 of RFC 4648, inside a `data:` URL as in
  RFC 2397.
  - Encoding and a canonical decoding are inverse in both directions.
  - A URL parser recovers the media type and the bytes from any URL the
    builder produces, even when the media type contains commas.
- **Identification request, query list, listing annotation, degraded record
  and run sequencing** (module `Pipeline`).
  - The two hosted-model calls are parameters (function values). Each maps
    the request to what the decoded reply was, or to the exception raised.
  - Building the identification request and annotating the results in place
    are loops, written as methods. Each is proved equal to a specification
    function.
- **The `/predict` endpoint** (module `Api`): the content-type check, the
  choice of media type, and the reshaping of the pipeline output into the
  response.

Modules: `Wrappers` (Option and Result), `Text` (whitespace, `strip`, decimal
numerals), `Price`, `PriceExamples` (worked inputs), `Base64`, `DataUrl`,
`Pipeline` and `Api`.

Two consequences of the code are easy to miss. First, continental
notation such as `€2.000,00` is read as 2.00 euros: the amount pattern
takes `2` and then the optional `.00`, which completes the amount.
`PriceExamples.ContinentalEuroNotation` proves this result.

Second, having an alias does not
guarantee the alias fallback query. The final `[:10]` cuts it off when all
eight kept suggestions are non-empty, because 8 + 3 > 10.
`Pipeline.QueriesShape` states the exact condition.

## Model

| member | source | states |
|---|---|---|
| Text.Strip | api/pipeline.py:157-159 | `str.strip()`: the result is the slice left after removing leading and trailing Python whitespace; it neither starts nor ends with whitespace; it is empty exactly when the text is all whitespace |
| Text.NatToStringValue | api/main.py:53 | the numeral `str(i)` reads back as `i` |
| Text.NatToStringInjective | api/main.py:53 | different indices give different numerals |
| Price.Rank | api/pipeline.py:19-26 | each currency has exactly the pattern at its priority rank |
| Price.MarkerEnds | api/pipeline.py:20-25 | the places where a marker alternative can end lie after its start and within the text |
| Price.SkipSpaces | api/pipeline.py:20 | `\s*` is greedy: it skips exactly the maximal run of whitespace |
| Price.SkipDigitsCommas | api/pipeline.py:20 | `[0-9,]*` is greedy: it skips exactly the maximal run of digits and commas |
| Price.AmountAt | api/pipeline.py:20-25 | a captured amount starts with a digit, then holds only digits and commas, then possibly `.` and exactly two digits, and the fraction only where the pattern allows one |
| Price.FirstAmount | api/pipeline.py:20-25 | the amount captured after the first marker ending that leads to a match has the captured-amount shape |
| Price.MarkersAtIsCapture | api/pipeline.py:20-25 | every amount a pattern captures has the captured-amount shape; for JPY it has no fraction |
| Price.FirstHitLeftmost | api/pipeline.py:28 | the scan of `re.search`: the hit matches where it is reported, no earlier position matches, and there is no hit exactly when no position matches |
| Price.SearchFinds | api/pipeline.py:28 | a match at some position with none before it is exactly the hit the search reports |
| Price.SearchLeftmost | api/pipeline.py:28 | the same three facts for the search of one pattern over the whole text: the leftmost occurrence is used |
| Price.RemoveCommas | api/pipeline.py:30 | `.replace(",", "")`: no comma remains, the text does not grow, and every other character occurs exactly as often as before |
| Price.RemoveCommasAppend | api/pipeline.py:30 | removing commas distributes over concatenation, so the kept characters stay in their order |
| Price.RemoveCommasFree | api/pipeline.py:30 | text without commas is left unchanged |
| Price.RemoveOneComma | api/pipeline.py:30 | the single comma between two comma-free parts is dropped and the parts are joined |
| Price.ParsePriceAny | api/pipeline.py:16-35 | the loop over the patterns with its early return gives exactly `ParsePrice` |
| Price.FirstMatchIs | api/pipeline.py:27-29 | when pattern i matches and no earlier pattern does, the result is pattern i's match |
| Price.FirstMatchWinner | api/pipeline.py:27-29 | every result comes from some pattern that matches, with no earlier pattern matching |
| Price.FirstMatchNone | api/pipeline.py:27-35 | no result exactly when no pattern matches |
| Price.ParsePricePriority | api/pipeline.py:19-29 | the first currency in priority order whose pattern matches anywhere wins, wherever the others appear |
| Price.ParsePriceWinner | api/pipeline.py:19-29 | conversely, the result's currency matches and every currency of higher priority does not |
| Price.ParsePriceNone | api/pipeline.py:16-35 | no result exactly when the text is empty or no pattern matches |
| Price.DollarMeansUsd | api/pipeline.py:20 | any `$` followed by an amount makes the result USD, whatever else the text holds |
| Price.CanadianOrAustralianMeansNoDollarAmount | api/pipeline.py:20-24 | a CAD or AUD result implies that no `$` in the text is followed by an amount, so `C$` and `A$` win only when the bare `$` of USD cannot match |
| Price.CaptureIsNumeral | api/pipeline.py:30-34 | once commas are removed, a captured amount is always a valid numeral, and a JPY amount is a whole number |
| Price.ParsedAmountIsNumber | api/pipeline.py:30-34 | every parsed amount is a number, so the `ValueError` branch cannot be reached; a JPY amount is a whole number of yen |
| Price.SkipSpacesIgnoresCase | api/pipeline.py:28 | skipping whitespace is the same on two texts equal up to case |
| Price.SearchIgnoresCase | api/pipeline.py:28 | searching is the same on two texts equal up to case |
| Price.ParsePriceIgnoresCase | api/pipeline.py:28 | `IGNORECASE`: two texts equal up to case parse to the same result |
| Price.SearchNeedsStart | api/pipeline.py:28 | a pattern none of whose markers can begin anywhere in the text finds nothing |
| Price.NoMarkerNoPrice | api/pipeline.py:19-35 | a text without any character that can begin a marker has no price |
| Price.MatchAtStart | api/pipeline.py:27-32 | a match at position 0 of pattern k, with no earlier pattern matching, is the result, with commas removed from its amount |
| PriceExamples.DollarsWithCommaAndCents | api/pipeline.py:20 | `$1,234.56` is USD 123456 hundredths |
| PriceExamples.YenSign | api/pipeline.py:25 | `¥` followed by any digit string is that many yen |
| PriceExamples.Yen5000 | api/pipeline.py:25 | `¥5000` is JPY 5000 |
| PriceExamples.DollarBeatsEarlierEuro | api/pipeline.py:27-29 | in `€9 / $10` the dollar wins though the euro comes first |
| PriceExamples.CanadianSign | api/pipeline.py:20 | `C$` followed by any digit string (such as `C$100`) is that many US dollars, through the bare `$` |
| PriceExamples.CadWord | api/pipeline.py:23 | `CAD`, then any run of whitespace (possibly none), then any digit string is that many Canadian dollars |
| PriceExamples.LeftmostAmount | api/pipeline.py:28 | `$5 or $10` is USD 5 |
| PriceExamples.UsdSpellings | api/pipeline.py:20 | `usd 50`, `USD 50` and `us$50` are all USD 50 |
| PriceExamples.ContinentalEuroNotation | api/pipeline.py:21 | `€2.000,00` is EUR 2.00 |
| PriceExamples.NoPrice | api/pipeline.py:17-18 | the empty text and `1000` have no price |
| Base64.CharOf | api/pipeline.py:12 | each six-bit value is written as a character of the base64 alphabet |
| Base64.IndexOf | api/pipeline.py:12 | each alphabet character stands for the value it is written for |
| Base64.Encode | api/pipeline.py:12 | the encoding has 4 characters per started group of 3 bytes, all from the alphabet or `=` |
| Base64.DecodeEncode | api/pipeline.py:12 | decoding the encoding gives back the bytes |
| Base64.EncodeDecode | api/pipeline.py:12 | every text that decodes is the encoding of what it decodes to, so the encoding is canonical |
| Base64.EncodeHasNoComma | api/pipeline.py:12-13 | encoded text has no comma, the data delimiter of a data URL |
| DataUrl.BytesToDataUrl | api/pipeline.py:11-13 | the URL is `data:<mime>;base64,` then the encoding, and has the corresponding length |
| DataUrl.ParseBuilt | api/pipeline.py:11-13 | parsing a built URL gives back the media type and the bytes, for every media type |
| DataUrl.BuiltFromParts | api/pipeline.py:11-13 | every URL that parses is the URL built from its parts |
| Pipeline.TextBlock | api/pipeline.py:141-144 | the description or hint block is present exactly when the stripped text is not empty, and then carries the heading and the stripped text |
| Pipeline.ImageBlocks | api/pipeline.py:146-147 | one image block per data URL, in order |
| Pipeline.IdentifyRequest | api/pipeline.py:128-147 | the request is the instructions first, then the non-blank description and hint, then the images in order, and its length counts them |
| Pipeline.IdentifyContent | api/pipeline.py:128-147 | the appending loop builds exactly `IdentifyRequest` |
| Pipeline.Identify | api/pipeline.py:128-154 | the identification is the model's reply to exactly that request |
| Pipeline.Take | api/pipeline.py:162 | `xs[:n]` is the prefix of `xs` of length n, or all of `xs` when it is shorter |
| Pipeline.NonEmpty | api/pipeline.py:167 | the filter keeps exactly the non-empty strings and none is empty |
| Pipeline.NonEmptyAppend | api/pipeline.py:167 | filtering distributes over concatenation, so order is kept |
| Pipeline.Suggested | api/pipeline.py:162 | at most eight suggestions survive, exactly the non-empty ones among the first eight |
| Pipeline.Fallbacks | api/pipeline.py:163-165 | the price and listing fallbacks, then the alias one exactly when there is an alias; none is empty |
| Pipeline.Queries | api/pipeline.py:157-167 | at most 10 queries and none empty |
| Pipeline.QueriesShape | api/pipeline.py:162-167 | the surviving suggestions come first in order, then the price and listing fallbacks, which are always present; the alias fallback comes last, present exactly when there is an alias and fewer than eight suggestions survive |
| Pipeline.Degraded | api/pipeline.py:193-194 | the fallback record has the intended queries, no results and an error that is exactly `web_search unavailable or failed: ` followed by the exception's type name, `: ` and its message |
| Pipeline.ListingsFor | api/pipeline.py:182-194 | on success the reply is kept, and every result, in order and otherwise unchanged, gets the price parsed from its price text; on failure it is the degraded record |
| Pipeline.SearchListings | api/pipeline.py:156-194 | the in-place annotation loop returns exactly `ListingsFor` of the search outcome for the built queries |
| Pipeline.RunOutcome | api/pipeline.py:196-199 | a failed identification is raised with no search; otherwise the result has the identification, after a successful identification the listings are exactly what `ListingsFor` makes of the search run on the built queries and `max_results`, and a failed search still yields a result with no listings |
| Pipeline.Run | api/pipeline.py:196-199 | identification, then search for what was identified, gives exactly `RunOutcome` |
| Api.MimeOf | api/main.py:35 | the media type is the content type when there is one, else `image/png` |
| Api.SimilarListings | api/main.py:51-60 | one entry per result in order; entry i's id is the canonical numeral of i; the four fields are copied and default to the empty string |
| Api.SimilarListingIdsDistinct | api/main.py:51-59 | no two entries share an id |
| Api.ShapeResponse | api/main.py:40-61 | the response succeeds exactly when the five identification fields are present; currency is `USD`, price, confidence, brand, model and category are copied, and the listings are reshaped; otherwise a `KeyError`, market value first |
| Api.Predict | api/main.py:30-61 | rejected with 400 "Upload an image file." exactly when the content type is missing or does not start with `image/`; otherwise the pipeline outcome on the one data URL, raised or reshaped |
| Api.UploadRequest | api/main.py:34-38 | an accepted upload reaches the model as the instructions and one image, whose data URL carries the declared content type and the bytes unchanged |
| Api.RejectionIgnoresBodyAndModels | api/main.py:31-32 | a rejection does not depend on the body or on either model |
| Api.DegradedSearchHasNoListings | api/main.py:41 | a failed search still gives a response, with no similar listings |
| Api.ChanelScenario | api/main.py:38-61 | an image upload identified as a Chanel Classic Flap worth 4800 is priced 4800 USD with confidence 0.82, with one listing per search result, entry i having the id `str(i)` |

## Left out

- The hosted-model calls (`responses.create` in `identify` and `search_listings`) and `json.loads` of their replies: these are network and foreign code. They are function parameters, and a malformed reply is one of the exceptions the parameter can return.
- The schema dictionaries and the prompt wording: configuration and free text sent to the provider. The identification and listing records mirror the schemas, and the search request carries the values the prompt embeds (brand, model, category, aliases, queries, target count).
- The `LuxuryPipeline` constructor, the API key, the environment and the model names: configuration, with no behaviour beyond raising when the key is missing.
- CORS setup, the FastAPI routing and the asynchronous read of the upload: framework plumbing. The upload is given as its content type and its bytes.
- `float` conversions: amounts are integer hundredths, and the market value and the confidence are `real`.
- `Price.ToAmount`: recognises exactly the numerals the patterns can capture. `Raw` stands for the `ValueError` branch, which is proved unreachable, so Python's other accepted float spellings do not matter.
- Case-insensitive matching folds ASCII letters and the long s (U+017F), the only characters Python's case-insensitive matching relates to the letters of the markers. Other Unicode case rules do not affect these patterns.
- JSON `null` values and values of the wrong type: the providers' strict schemas rule them out. A missing key is modelled as `None`.
- An exception raised inside the annotation loop (a result that is not an object) would also produce the degraded record. With typed records it cannot happen.
