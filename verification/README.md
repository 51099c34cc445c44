# Carbon estimator core, modelled in Dafny

This project models the estimation pipeline of a small NestJS service. The
service estimates a dish's carbon footprint from its name or from a photo. The
pipeline has three steps:

- **Ingredient derivation** (`AiService`). A chat completion is asked for a
  JSON array of ingredients. The reply is used as it is, scraped with three
  regular expressions, or replaced by a static dish table.
- **Carbon weighting** (`AiService`). A second completion is asked for
  `{name, carbon_kg}` objects. A reply of the right shape is returned as it
  is. Any other outcome falls back to an ordered table of 27 factors, looked
  up by bidirectional substring matching.
- **Aggregation** (`EstimateService`). The weights are summed and the sum is
  rounded half-up to two decimals.

The completion client and `JSON.parse` are inputs of the model. A `Reply` is
`Failed | Empty | Text(s)`. The parser is a total function from the reply text
to `NotJson | JsonArray(items) | JsonOther`. Everything else is pure functions
over `seq<char>`, sequences and exact `real` weights.

Modules, one file each:

- `Text`: ASCII lower-casing, `includes`, JavaScript white space, `trim`.
- `Table`: ordered first-match lookup, proved against a reference "first hit".
- `Decimal`: `Math.round(x * 100) / 100`.
- `Gateway`: completion and parse outcomes.
- `Dto`: request and response records.
- `Scraper`: the three patterns and the clean-up.
- `Ingredients`: the dish, text and image paths.
- `Carbon`: the factor table and the weight path.
- `Estimate`: report assembly.
- `Scenarios` and `ScraperExamples`: worked examples with the gateway down.

## Model

| member | source | states |
|---|---|---|
| Text.ContainsMeansSlice | src/services/ai.service.ts:164-166 | `includes` holds exactly when the key is a contiguous slice of the name (both directions) |
| Text.ContainsEmpty | src/services/ai.service.ts:211 | every string includes the empty string, so an empty ingredient is related to every key |
| Text.MissingCharNotContained | src/services/ai.service.ts:211 | a name lacking one of a key's characters does not include that key |
| Text.Lower | src/services/ai.service.ts:206 | `toLowerCase` keeps the length, leaves no capital, and changes a character only by turning a capital into its small letter |
| Text.LowerIdempotent | src/services/ai.service.ts:164 | lower-casing an already lower-cased name changes nothing |
| Text.Contains | src/services/ai.service.ts:166 | `includes`: the key occurs in the name at some offset; `Text.ContainsMeansSlice` proves this equal to the slice definition |
| Text.Trim | src/services/ai.service.ts:146 | `trim` gives the slice of the string with only white space cut off on either side, starting and ending with a non-space; it keeps every non-space character and adds none |
| Text.TrimUnique | src/services/ai.service.ts:146 | exactly one such slice exists, so the result of `trim` is fully determined by that description |
| Text.IsBlank | src/controllers/estimate.controller.ts:28 | the controller's rejection test: nothing is left of the dish name after `trim` |
| Text.BlankMeansAllSpace | src/controllers/estimate.controller.ts:28 | a dish name is rejected exactly when every character of it is white space |
| Table.Lookup | src/services/ai.service.ts:165-171 | the ordered lookup returns the value of the first key (in declaration order) that matches, or the default when no key matches |
| Table.FirstHitIs | src/services/ai.service.ts:165-168 | once a key matches and no earlier key does, the lookup stops there whatever follows |
| Decimal.Round2 | src/services/ai.service.ts:219 | `Math.round(x*100)/100` is a whole number of hundredths within (x - 0.005, x + 0.005] |
| Decimal.Round2OfCents | src/services/ai.service.ts:219 | rounding leaves a value with at most two decimals unchanged |
| Decimal.CentsWindowUnique | src/services/estimate.service.ts:27 | only one hundredths value fits the rounding window, so the rounded total is determined by the sum |
| Scraper.MatchEnd | src/services/ai.service.ts:136-140 | one regex attempt at an index succeeds exactly when the pattern's reference shape (quoted, bracketed, or word run before a comma or the end) matches there |
| Scraper.Scan | src/services/ai.service.ts:142-144 | the global scan returns only substrings that match the pattern; it is empty exactly when the pattern matches nowhere |
| Scraper.Matches | src/services/ai.service.ts:143-144 | `text.match(pattern)` has at least one raw match exactly when the pattern matches somewhere in the text, and every raw match is a real match |
| Scraper.MatchUnique | src/services/ai.service.ts:143 | a regex attempt at one index can succeed in only one way: two matches from the same index end at the same place |
| Scraper.ScanSkips | src/services/ai.service.ts:143 | the global scan passes over indexes where no match starts without adding anything |
| Scraper.ScanAtMatch | src/services/ai.service.ts:143 | where a match starts, the global scan takes exactly that match and resumes at its end |
| Scraper.ScanLeftmost | src/services/ai.service.ts:143 | the global scan's next item is the leftmost match, followed by the scan from that match's end; with the empty-iff clause this gives every leftmost, non-overlapping match in order |
| Scraper.Keep | src/services/ai.service.ts:147 | the filter keeps an item exactly when it is non-empty and does not include the case-sensitive "Example" |
| Scraper.StripMarkup | src/services/ai.service.ts:146 | the replace drops every `"`, `'`, `[` and `]` and keeps every other character |
| Scraper.StripMarkupUnchanged | src/services/ai.service.ts:146 | text without quotes or brackets passes the replace unchanged |
| Scraper.StripMarkupCons | src/services/ai.service.ts:146 | the replace works character by character, left to right: a leading quote or bracket is dropped, any other leading character is kept in front of the rest |
| Scraper.Tidy | src/services/ai.service.ts:146 | a cleaned match is the markup-free text with surrounding white space cut off: trimmed, free of quotes and brackets, holding only characters of the match and every non-space, non-markup one of them |
| Scraper.Clean | src/services/ai.service.ts:145-147 | an item is kept exactly when it is the cleaned form of some raw match, is non-empty and has no "Example"; there are never more items than raw matches |
| Ingredients.MockIngredients | src/services/ai.service.ts:154-172 | the result is the list of the first key, in table order, that the lower-cased dish name contains, else the default list; it is never empty |
| Ingredients.ExtractFromText | src/services/ai.service.ts:134-152 | the first pattern with a raw match decides, even if its clean-up leaves nothing; with no match at all the result is the default list |
| Ingredients.UnknownDishIsDefault | src/services/ai.service.ts:151 | the "Unknown Dish" sentinel matches no key and gets the default list |
| Ingredients.ExtractFromTextItemsClean | src/services/ai.service.ts:145-147 | every item the scraper returns is trimmed and non-empty, with no quote, bracket or "Example" |
| Ingredients.ExtractFromDish | src/services/ai.service.ts:43-66 | a failed or empty reply gives the dish-table list, which is never empty; a JSON array is returned verbatim; other text is scraped |
| Ingredients.ExtractFromDishCleanOffArrayPath | src/services/ai.service.ts:43-66 | off the JSON-array path every item is trimmed, non-empty and free of quotes, brackets and "Example"; only a verbatim array can carry any other item |
| Ingredients.DishListsClean | src/services/ai.service.ts:156-161 | every list of the dish table holds clean items only |
| Ingredients.DefaultIsTableEntry | src/services/ai.service.ts:161-171 | the fallback list is the list of the table's own `default` entry |
| Ingredients.MockIngredientsIgnoresCase | src/services/ai.service.ts:164 | the dish lookup ignores letter case: an already lower-cased name gets the same list |
| Gateway.HasText | src/services/ai.service.ts:44 | `!response` is false exactly for a reply with non-empty text; a failed call, a missing content and `""` all count as no text |
| Ingredients.ExtractFromImage | src/services/ai.service.ts:69-85 | the image path yields five ingredients |
| Ingredients.ImageIgnoresBytes | src/services/ai.service.ts:76-80 | the image path returns the same fixed list whatever the bytes |
| Carbon.FactorsInRange | src/services/ai.service.ts:175-203 | every table factor lies in [0.1, 4.0] and has at most two decimals |
| Carbon.FactorFor | src/services/ai.service.ts:205-215 | the weight comes from the first key, in table order, that contains or is contained in the lower-cased ingredient, else 0.5; it always lies in [0.1, 4.0] |
| Carbon.Related | src/services/ai.service.ts:211 | an ingredient and a key are related when either includes the other |
| Carbon.FactorForIgnoresCase | src/services/ai.service.ts:206 | the weight lookup ignores letter case: an already lower-cased name gets the same weight |
| Carbon.MockEstimates | src/services/ai.service.ts:174-222 | the fallback gives one entry per input, in order, named by the original string; each weight is the table factor (rounding changes nothing) and lies in [0.1, 4.0] |
| Carbon.MockEstimatesAppend | src/services/ai.service.ts:205-221 | the fallback weighs each ingredient on its own, so it distributes over concatenation |
| Carbon.WellShaped | src/services/ai.service.ts:116-117 | an element passes the shape check when it is an object with both `name` and `carbon_kg` |
| Carbon.AiAccepted | src/services/ai.service.ts:114-117 | the reply is used when it is non-empty text, parses to an array, and every element passes the shape check |
| Carbon.AsEstimates | src/services/ai.service.ts:119 | an accepted array is returned element for element: same length, each element read as name and weight unchanged |
| Carbon.EstimateCarbon | src/services/ai.service.ts:109-131 | the AI array is returned as it is exactly when the reply is text that parses to an array whose every element has `name` and `carbon_kg`; every other outcome gives the fallback, with one in-range weight per input |
| Estimate.Total | src/services/estimate.service.ts:23 | the `reduce` adds the weights left to right from 0; its properties are stated by the lemmas below |
| Estimate.TotalAppend | src/services/estimate.service.ts:23 | the summed weight of a concatenation is the sum of the parts' sums |
| Estimate.TotalOfFirst | src/services/estimate.service.ts:23 | the sum is the first weight plus the sum of the rest |
| Estimate.TotalBounds | src/services/estimate.service.ts:23 | with every weight in [lo, hi], the total lies in [n*lo, n*hi] |
| Estimate.FallbackTotalBounds | src/services/estimate.service.ts:16-23 | with the weight completion rejected, the total lies between 0.1 and 4.0 kg per ingredient |
| Estimate.Assemble | src/services/estimate.service.ts:25-29 | the report keeps the estimates unchanged; its total is their sum rounded half-up to hundredths |
| Estimate.Compose | src/services/estimate.service.ts:11-37 | the estimator gets exactly the extracted list; an exception from either step is rethrown unchanged, with no fallback of its own |
| Estimate.EstimateFromDishName | src/services/estimate.service.ts:11-38 | the name path never fails. The report copies the dish name, lists the estimator's output for the extractor's list, and totals it as the rounded sum |
| Estimate.EstimateFromImage | src/services/estimate.service.ts:40-67 | the image path labels the report "Dish from Image". It weighs the fixed image list and totals it as the rounded sum |
| Estimate.MockEstimate | src/services/estimate.service.ts:69-85 | the fixture report keeps the given name and has four items; its total is the unrounded sum, 4.2 |
| Scenarios.DishOfChickenBiryani | src/services/ai.service.ts:156-168 | "Chicken Biryani" gets the biryani list |
| Scenarios.DishOfPastaSalad | src/services/ai.service.ts:158-168 | "Pasta Salad" gets the salad list, because `salad` is declared before `pasta` |
| Scenarios.FactorOfCoconutMilk | src/services/ai.service.ts:182-214 | "coconut milk" weighs 0.6, because `milk` precedes `coconut milk` |
| Scenarios.FactorOfEmptyName | src/services/ai.service.ts:176-214 | the empty ingredient weighs 1.1, because every key contains it and `rice` is first |
| Scenarios.FactorOfCapitalisedRice | src/services/ai.service.ts:206-214 | "Rice" weighs 1.1: the name is lower-cased before the lookup |
| Scenarios.GatewayDownIngredientList | src/services/ai.service.ts:174-221 | with the gateway down, rice, chicken, spices and oil weigh 1.1, 2.5, 0.1 and 0.4, and the total is 4.1 |
| Scenarios.GatewayDownBiryani | src/services/estimate.service.ts:11-38 | with both completions down, "Chicken Biryani" yields the six biryani weights and a total of 4.6 |
| Scenarios.GatewayDownImage | src/services/estimate.service.ts:40-67 | with the weight completion down, the image path yields a total of 4.4 whatever the bytes |
| Scenarios.EmptyAiArrayAccepted | src/services/ai.service.ts:114-119 | an empty AI array is accepted and returned, even for a non-empty input |
| Scenarios.ShortAiArrayAccepted | src/services/ai.service.ts:114-119 | a well-shaped AI array shorter than the input is returned as it is, values unchecked |
| Scenarios.MisshapenAiArrayFallsBack | src/services/ai.service.ts:114-126 | one element without `carbon_kg` sends the whole reply to the fallback table |
| Scenarios.DishArrayVerbatim | src/services/ai.service.ts:49-53 | a JSON array from the dish completion is returned with its duplicates and its case untouched |
| Scenarios.MockEstimateDiffersFromTable | src/services/estimate.service.ts:71-76 | the fixture lists Spices at 0.2, while the fallback table gives "Spices" 0.1 |
| ScraperExamples.NoPatternGivesDefault | src/services/ai.service.ts:142-151 | text that no pattern matches gives the default list |
| ScraperExamples.QuotedBlankGivesEmpty | src/services/ai.service.ts:142-148 | a quoted match decides even when clean-up removes it, so the text path returns an empty list |

## Left out

- The OpenAI client, `ConfigService`, the prompts, temperature and token limits: the model takes the completion outcome as a `Reply` input instead. `Failed` stands for any exception from the call. `Empty` stands for a missing message content. `Text("")` is handled like `Empty`, because an empty string is falsy in JavaScript.
- `JSON.parse` is a foreign call. It is a function parameter returning `NotJson`, `JsonArray(items)` or `JsonOther`.
- Logging has no effect on results and is not modelled.
- Dish-path arrays hold strings only. A JSON array with non-string elements is also returned verbatim by the source. A later `toLowerCase` in the weight fallback would then throw, and `EstimateService` would rethrow that error. With string-only arrays the sub-calls never throw. So the rethrow behaviour is stated on `Estimate.Compose`, for any outcome of the two steps.
- Weight-path elements are `JsonObject(name?, carbonKg?)` or `JsonNonObject`. A name is modelled as a string and `carbon_kg` as a number. Non-numeric `carbon_kg` values are not modelled (JavaScript would concatenate strings when summing them), and neither are extra properties. A `null` element makes the source's `'name' in item` throw inside the inner `try`. That leads to the same fallback as a rejected element, so `null` is a `JsonNonObject`.
- IEEE-754 doubles: weights and sums are exact reals. The accumulated error of `reduce` and of `Math.round` on binary doubles is not modelled.
- Unicode: lower-casing is ASCII only. White space is the fixed set of characters that JavaScript's `\s` and `trim` use.
- The `catch` branch of `extractIngredientsFromImage` is unreachable in the source and is not modelled.
- `async`/`await`: the pipeline is sequential.
- The HTTP controller, multer, the MIME-type and 200 MB checks, `main.ts`, `app.module.ts` and `dist/` are not part of this model. The controller's non-blank check becomes the `requires` of `Estimate.EstimateFromDishName`.
- Ingredients.ExtractFromImage: its own contract states only the length. The full constant list is stated by `Ingredients.ImageIgnoresBytes`.
- Scraper.Scan: its own contract states that every returned item is a match, and when the result is empty. It does not say that every match is returned in order. That is stated by `Scraper.ScanLeftmost`.
- Scraper.Matches: like `Scraper.Scan`, its own contract does not say that every leftmost, non-overlapping match is returned. `Scraper.ScanLeftmost` with a start of 0 states this, because `Matches` is the scan from index 0.
- Scraper.Clean: it states membership in both directions and the length bound. It does not state multiplicity or order.
- Worked examples of the word-run pattern on concrete text are not included, because evaluating `trim` and the markup removal on literals is too costly for the verifier. The pattern's behaviour is stated in general by `Scraper.MatchEnd`, `Scraper.Scan` and `Scraper.ScanLeftmost`.
