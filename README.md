# Coverage check: a Dafny model of the estimator, the request checks and the form

The coverage-check application recommends a life-insurance cover. A user fills in
name, age, city, annual income and number of dependents. The front end
(`src/App.js`) holds the form in a React component and computes a recommendation
locally. The backend (`backend/server.js`) serves `POST /api/calculate-coverage`:
it validates the body, looks up the weather for the city and the Bitcoin price,
and runs the estimator `calculateCoverage`:

- twelve times the income;
- ×1.2 above age 45, ×1.1 above age 35;
- plus two incomes per dependent;
- ×1.05 when the temperature is above 40 °C or below 5 °C;
- ×1.02 when the BTC price is above 50000;
- rounded to the nearest lakh (100 000), with a monthly premium of 0.9 % of the cover.

The backend then asks the store to save the request and answers with the figures
and two summaries of the external data.

The model lives in five modules:

- `Wrappers` (`wrappers.dfy`): `Option` and `Result`.
- `JsBuiltins` (`js_builtins.dfy`): the JavaScript built-ins the core depends on.
  These are `Math.round`, `parseInt` and `parseFloat` on sign-digits-fraction
  strings (`None` stands for NaN), and `String.prototype.replace` with a
  one-character pattern, which removes only the first occurrence.
- `Enrichment` (`enrichment.dfy`): the parts of the OpenWeather and CoinDesk
  payloads the server reads. The two fetch helpers map the HTTP outcome, which is an
  input, to an `Option`.
- `Server` (`server.dfy`): the estimator and the handler.
  - The estimator is an imperative method that updates `baseCoverage` step by step,
    proved equal to a closed form `QuoteFor`. The lemmas are stated about `QuoteFor`.
  - The handler is a pure function that returns the response together with the
    trace of outward actions, in order: weather lookup, price lookup, save.
- `App` (`app.dfy`): the local calculator, which is also an imperative method over
  its closed form. The component state is the class `CoverageForm`, whose methods
  mirror `handleInputChange`, `handleSubmit` and `resetForm`.

Arithmetic is exact. JavaScript's double-precision numbers become Dafny `real`s and
`int`s. The literals 1.2, 1.1, 1.05, 1.02 and 0.009 are the exact rationals they
denote. `Math.round(x)` is `Floor(x + 1/2)`.

Validation only rejects falsy fields, so nothing stops a negative age, income or
number of dependents: an income of −100000 passes and is quoted a coverage of
−1200000 (`Server.NegativeIncomeAccepted`). On non-negative incomes and dependents
every quote is non-negative (`Server.NonNegativeQuote`).

## Model

| member | source | states |
|---|---|---|
| JsBuiltins.MathRound | backend/server.js:172 | `Math.round` gives the integer within half of its argument, halves rounded up |
| JsBuiltins.MathRoundOfInteger | backend/server.js:173 | rounding an integral value returns that value |
| JsBuiltins.ParseIntOfDigits | src/App.js:26-28 | `parseInt` of a non-empty digit string is that string's decimal value |
| JsBuiltins.FracValuePositive | backend/server.js:164-165 | the fractional digits add a positive amount exactly when one of them is not 0 |
| JsBuiltins.ParseInt | src/App.js:26-28 | `parseInt` is a number exactly when a digit follows the optional sign; the number is non-negative without a '-' and non-positive with one |
| JsBuiltins.ParseFloat | backend/server.js:164 | `parseFloat` is a number exactly when, after the optional sign, a digit or a '.' and a digit come first; its sign follows the leading '-' |
| JsBuiltins.ParseFloatOfDecimal | backend/server.js:164 | `parseFloat` of "<digits>.<digits>" is the integer part plus the decimal fraction |
| JsBuiltins.ParseFloatOfInteger | backend/server.js:164 | `parseFloat` stops at the first character that is neither a digit nor '.', and returns the digits read so far |
| JsBuiltins.IndexOf | backend/server.js:164 | the index of the first occurrence of a character: it holds the character and nothing before it does |
| JsBuiltins.RemoveFirst | backend/server.js:164 | `replace(',', '')` leaves a string without a comma unchanged and otherwise shortens it by exactly one character |
| JsBuiltins.RemoveFirstAfter | backend/server.js:164 | when the first comma follows a comma-free prefix, removing it joins the prefix and everything after it |
| JsBuiltins.RemoveFirstCutsFirstOccurrence | backend/server.js:164 | the result is the string with exactly its first comma cut out; later commas remain |
| Enrichment.FetchWeatherData | backend/server.js:71-104 | the weather lookup is `null` exactly when the HTTP request failed, and otherwise returns the reply body |
| Enrichment.FetchCryptoData | backend/server.js:106-134 | the price lookup is `null` exactly when the HTTP request failed, and otherwise returns the reply body |
| Server.AgeMultiplier | backend/server.js:147-148 | ×1.2 exactly when age > 45, ×1.1 exactly when 35 < age ≤ 45, ×1 exactly when age ≤ 35 |
| Server.BullMarket | backend/server.js:163-169 | the estimator throws exactly when `bpi.USD` is present without a string `rate`; the ×1.02 factor applies exactly when `bpi.USD` is present and the cleaned rate parses to more than 50000 |
| Server.ExtremeWeather | backend/server.js:154-156 | the weather is extreme exactly when the payload has a `main.temp` outside the closed range 5 to 40 |
| Server.RoundToLakh | backend/server.js:172 | the coverage is a multiple of 100 000 and within half a lakh of the unrounded amount |
| Server.MonthlyPremium | backend/server.js:173 | the premium is the integer nearest to 0.9 % of the coverage: 1000 × premium is within 500 of 9 × coverage |
| Server.QuoteFor | backend/server.js:137-178 | the estimator fails exactly when the market check throws; a quote is a multiple of a lakh within half a lakh of the adjusted amount, with a premium of exactly 0.9 % |
| Server.PremiumOfLakhMultiple | backend/server.js:173 | on a whole number of lakhs the premium is 900 per lakh, exactly 9/1000 of the coverage |
| Server.CalculateCoverage | backend/server.js:137-178 | the step-by-step computation equals the closed form `QuoteFor`: a multiple of a lakh, with a premium of exactly 0.9 %, or the thrown error |
| Server.QuoteIsWholeLakhs | backend/server.js:172-173 | every successful quote is a multiple of 100 000 and its premium times 1000 is nine times the coverage |
| Server.NonNegativeQuote | backend/server.js:143-173 | with a non-negative income and number of dependents, every quote has a non-negative coverage and premium |
| Server.NegativeIncomeAccepted | backend/server.js:189-192 | an income of −100000 passes validation and is quoted −1200000 with a premium of −10800 |
| Server.MathRoundMonotone | backend/server.js:172 | `Math.round` is monotone |
| Server.AdjustedAmountMonotone | backend/server.js:151 | with a non-negative income, the unrounded amount does not decrease when dependents increase |
| Server.RoundToLakhMonotone | backend/server.js:172 | rounding to a lakh is monotone |
| Server.CoverageMonotoneInDependents | backend/server.js:143-173 | with a non-negative income, more dependents never give a smaller coverage or premium; the error case does not depend on dependents |
| Server.DependentsAddendIgnoresAge | backend/server.js:143-151 | the dependents addend is added after the age multiplier and is not scaled by it |
| Server.EnrichmentFactorsCompound | backend/server.js:151-169 | the weather and market factors scale the whole sum, dependents addend included, and compound to ×1.071 |
| Server.AgeBoundaries | backend/server.js:147-148 | age 45 gets ×1.1 and 46 gets ×1.2; 35 gets no multiplier and 36 gets ×1.1 |
| Server.WeatherThreshold | backend/server.js:154-160 | a payload that is not extreme gives the same quote as no payload; an extreme one gives the rounding of 1.05 times the unadjusted-for-weather amount |
| Server.WeatherBoundaries | backend/server.js:156 | 40 °C and 5 °C do not count as extreme, 41 and 4.5 do, and a missing `temp` does not |
| Server.BtcPrice | backend/server.js:164 | the price of a rate without a comma is `parseFloat` of the rate itself |
| Server.BtcPriceCutsFirstComma | backend/server.js:164 | with a comma in the rate, the price is `parseFloat` of the rate with exactly its first comma cut out |
| Server.CleanedGroupedRate | backend/server.js:164 | removing the comma of "<digits>,<lo>.<frac>" gives "<digits><lo>.<frac>" |
| Server.BtcPriceOfGroupedRate | backend/server.js:164 | a rate with one thousands comma parses to its full decimal value |
| Server.BtcPriceOfFiftyThousand | backend/server.js:164 | "50,000.<frac>" parses to 50000 plus the fraction |
| Server.FiftyThousandThreshold | backend/server.js:164-165 | a rate "50,000.<frac>" is above the threshold exactly when some digit of the fraction is not zero |
| Server.BtcAtThreshold | backend/server.js:164-166 | at "50,000.00" the price is exactly 50000 and the market factor does not apply: the comparison is strict |
| Server.BtcAboveThreshold | backend/server.js:164-166 | at "50,000.01" the price is 50000.01 and the market factor applies |
| Server.SecondCommaStopsTheParse | backend/server.js:164 | "1,000,000.00" keeps its second comma, so the price is read as 1000 |
| Server.ThousandParses | backend/server.js:164 | "1000,000.00" parses to 1000 because `parseFloat` stops at the comma |
| Server.WorkedExample | backend/server.js:137-178 | an income of 600000 at age 30 with 2 dependents and no enrichment data gives 9600000 and a premium of 86400 |
| Server.RejectsRequest | backend/server.js:189 | a request is accepted exactly when every field is present, the name and city are non-empty and the age and income are non-zero |
| Server.DependentsValueIgnored | backend/server.js:189 | once `dependents` is present its value never changes the validation outcome |
| Server.ValidationOfZeros | backend/server.js:189-192 | zero dependents is accepted; an age or income of zero, or missing dependents, is rejected |
| Server.FirstDescription | backend/server.js:251 | the description is `weather[0].description`: present exactly when the `weather` array is present, non-empty, and its first entry carries one |
| Server.WeatherInfoOf | backend/server.js:249-253 | `weatherInfo` is `null` exactly when there is no weather payload; otherwise it carries the payload's city and first description, and its temperature is the `main.temp` when there is one |
| Server.MarketInfoOf | backend/server.js:254-257 | `marketInfo` is `null` exactly when there is no price payload; otherwise `btcPrice` is the `bpi.USD.rate` and `lastUpdated` the `time.updated`, each present exactly when the payload has it |
| Server.HandleCalculateCoverage | backend/server.js:189-199 | a 400 response is sent exactly when the validation rejects; in that case no lookup is made; otherwise the weather lookup for the city comes first and the price lookup second |
| Server.ServerErrorExactly | backend/server.js:264-268 | a 500 response is sent exactly when a valid request meets a price payload whose `bpi.USD` has no string rate; then only the two lookups happen and nothing is saved |
| Server.SuccessfulResponse | backend/server.js:243-259 | a 200 response always carries the estimator's coverage and premium; `weatherInfo`/`marketInfo` are `null` exactly when the matching lookup failed; the saved record carries the same figures |
| Server.LookupsFailed | backend/server.js:198-206 | when both lookups fail, a valid request still gets a 200 response, computed from the form figures alone, with both summaries `null` |
| App.With | src/App.js:16-22 | the named field takes the new value and every other field keeps its value |
| App.Complete | src/App.js:51-57 | the submit check passes exactly when the empty string is none of the five field values |
| App.CompleteMeansNoEmptyField | src/App.js:51-57 | the submit check passes exactly when none of the five fields is the empty string |
| App.ZeroDependentsIsComplete | src/App.js:51-57 | the dependents value "0" passes the check and parses to 0; the coverage is then a number exactly when the income parses |
| App.LocalCoverage | src/App.js:24-47 | the local coverage is a number exactly when income and dependents parse, and then it is a multiple of 100 000 |
| App.LocalAgeFactor | src/App.js:34-35 | the local age multiplier is the backend's bracket for a parsed age, and 1 for an unparsable (NaN) age |
| App.CalculateCoverage | src/App.js:24-47 | the step-by-step local computation equals its closed form, and its coverage is a multiple of a lakh |
| App.AgreesWithServer | src/App.js:24-41 | without enrichment data the local coverage and premium equal the backend estimator's |
| App.Premium | src/App.js:70 | the local premium is a number exactly when the coverage is, and then it is the backend's premium of that coverage |
| App.RecommendationFor | src/App.js:68-76 | the stored coverage is NaN exactly when the income or the dependents field does not parse, and the premium is NaN exactly when the coverage is |
| App.LocalPremiumExact | src/App.js:70 | the local premium of a whole number of lakhs is 900 per lakh |
| App.UnparsedAgeGetsNoMultiplier | src/App.js:27-35 | an age field that does not parse gives the same coverage as age 35 |
| App.SubmittedRecommendation | src/App.js:68-76 | a stored numeric coverage is a multiple of a lakh and its premium is exactly 900 per lakh |
| App.CoverageForm.constructor | src/App.js:5-14 | the component starts with an empty form, no result, not loading, with the form shown |
| App.CoverageForm.HandleInputChange | src/App.js:16-22 | exactly the named field changes; `result`, `loading` and `showForm` are kept |
| App.CoverageForm.HandleSubmit | src/App.js:49-83 | an incomplete form raises the alert and changes nothing; otherwise the result is the recommendation for the form, the form is hidden and loading ends false |
| App.CoverageForm.ResetForm | src/App.js:85-95 | the form is shown again, the result is cleared and all five fields are empty |

## Left out

- Express routing, the CORS and JSON middleware and `app.listen`: plumbing with no logic of its own.
- The MongoDB connection, the schemas, the `save`, `find` and count calls, and the statistics and health endpoints.
  - These are foreign store calls.
  - The model records the save as an action in the handler's trace. Its outcome is not an input, because a failed save does not change the response (backend/server.js:225-238).
  - The fetch helpers also record each reply in the store. That record is left out, because its failure cannot change what the helper returns.
- The axios requests to OpenWeather and CoinDesk, and the environment configuration. These are network I/O. Each lookup's outcome is an input (`HttpReply`), and any failure becomes `null`.
- IEEE-754 double arithmetic. The model computes exactly, so a float result that lands just beside a half-lakh boundary could round differently from the exact model. That difference is not modelled.
- `parseInt` reads an optional sign and digits. `parseFloat` reads an optional sign, digits, and an optional '.' with more digits, so ".5" is 0.5 as in JavaScript. Leading whitespace, exponents, `Infinity` and hexadecimal prefixes are not modelled.
- Non-integer request numbers, and numeric request fields sent as JSON strings or `null`.
  - The backend's numeric fields are integers, present or absent. On integers below 10^21 in magnitude the `parseInt` calls (backend/server.js:203, 211-214) are the identity, so the model passes the values on unchanged.
  - On a non-integer number `parseInt` truncates, which the model does not capture. For example `age: 45.9` would get the ×1.1 bracket, and `annualIncome: 0.5` passes the `!annualIncome` test but is then read as 0.
  - From 10^21 on, a number converts to exponent notation before it is parsed, which the model does not capture either. `annualIncome: 1e21` passes validation, `parseInt` reads it as 1, and the source quotes a coverage of 0, where the model prices 10^21.
  - A `null` dependents passes the `=== undefined` test and would give a NaN quote; that path is not modelled.
- A JSON `null` weather temperature: JavaScript compares it as 0, so it would get the ×1.05 factor. The model treats it like a missing temperature, which gets no factor.
- The `reasoning` texts with `toLocaleString`, the `console.log` calls and the `details` text of the 500 response: formatting and logging.
- The JSX rendering, the two-second `setTimeout` delay, the `alert` box (reduced to the `alerted` result of `HandleSubmit`) and the WhatsApp link: UI and timing.
- `handleInputChange` with an input name outside the five fields: every input of the form carries one of the five names.
- The try/catch in `handleSubmit`: local calculation cannot throw, so the catch branch never runs.
- `tailwind.config.js`: styling configuration.
