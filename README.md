# Hours of Work — a Dafny model

A browser extension for shopping pages annotates every displayed price with the
number of hours of work it costs: the price brought to Indian rupees (INR)
divided by the user's hourly wage brought to rupees. Rates come from an
exchange-rate API quoted against INR and are cached in the extension's local
storage for two days. The user's currency and wage are kept in sync storage and
edited on an options page that refuses a wage which is not a positive number.

The model covers the content script (`contentScript.js`) and the options page
(`options.js`):

- `JsNumber` — the JavaScript behaviour the extension relies on. It covers
  numbers that may be NaN, `trim`, removing every comma, and `parseFloat` on
  decimal numerals.
- `RateCache` — the cached rate table and its timestamp as a class over the two
  storage keys. It holds the two-day staleness test, the single fetch attempt,
  the rate lookup and the conversion from rupees. Pure functions
  (`IsStale`, `AfterFetch`, `AfterLookup`, `ReadRate`, `ConversionIn`) specify them.
- `Settings` — the defaults applied when the settings are read: currency INR and
  wage 100, also for falsy stored values.
- `Prices` — the symbol-to-currency table and the reading of a price from its
  whole and fraction elements.
- `HoursOfWork` — normalising the wage, then the loop over the page's prices.
  It is specified by the recursive `AnnotateAll` and driven by `AnnotatePage` (`main`).
- `Options` — the options form filled from storage, and the validate-then-store
  Save handler over sync storage.

The clock and the outcome of each network request are parameters (`Env`), one
per rate lookup. A page is the sequence of its price elements, given as the text
of the whole, symbol and fraction elements. The annotations are the sequence of
their values, before formatting.

Three points of the code shape the model:

- The currency table holds 21 symbols (`contentScript.js:102-124`).
- `getConversionRate` is documented to return a number or null
  (`contentScript.js:34`). When no table is stored even after the refresh
  attempt, reading `conversion_rates` of the absent table throws a TypeError
  instead (`contentScript.js:56`). The model returns `Failure(TypeError)`, which
  ends the annotation pass, or keeps the settings callback from running at all.
- A fraction element is read with `parseFloat` and always divided by 100,
  whatever its number of digits (`contentScript.js:97-99`).

## Model

| member | source | states |
|---|---|---|
| JsNumber.Add | contentScript.js:99 | The sum is NaN exactly when an operand is NaN; otherwise it is the sum of the values. |
| JsNumber.Div | contentScript.js:131 | Division by a non-zero number keeps NaN, and the quotient times the divisor gives back the dividend. |
| JsNumber.DigitsValue | contentScript.js:95 | A numeral of n digits has a value below 10^n. |
| JsNumber.DigitsValueAppend | contentScript.js:95 | Reading a numeral in two pieces: the left piece counts as many places higher as the right piece has digits. |
| JsNumber.Trim | contentScript.js:91 | The trimmed text is one slice of the text with only white space dropped before and after it, and it neither starts nor ends with white space. |
| JsNumber.SkipSpaces | contentScript.js:91 | The end of a run of white space: everything skipped is white space, and what follows is not. |
| JsNumber.SkipSpacesBack | contentScript.js:91 | The start of a run of white space ending at a position: everything skipped is white space, and what precedes is not. |
| JsNumber.TrimUnpadded | contentScript.js:94 | Text that neither starts nor ends with white space is unchanged by trimming. |
| JsNumber.RemoveCommas | contentScript.js:94 | The result has no comma and keeps every other character with its multiplicity; digits and separators leave only digits. |
| JsNumber.RemoveCommasAppend | contentScript.js:94 | Removing commas distributes over concatenation. |
| JsNumber.SeparatorDropped | contentScript.js:94 | A comma anywhere in the text is dropped without any other effect. |
| JsNumber.RemoveCommasNoComma | contentScript.js:94 | Text without commas is left unchanged. |
| JsNumber.LeadingDigits | contentScript.js:95 | The longest run of digits at the front of the text: a prefix, all digits, followed by no digit. |
| JsNumber.ParseFloatDigits | contentScript.js:95 | `parseFloat` of a non-empty run of digits is its decimal value. |
| JsNumber.ParseUnsigned | contentScript.js:95 | An unsigned numeral is NaN exactly when the text starts with neither a digit nor a `.` followed by a digit; otherwise it is not negative. |
| JsNumber.Negate | options.js:16 | The sign flips the value and keeps NaN as NaN. |
| JsNumber.ParseFloat | options.js:16 | `parseFloat` of the empty text is NaN; text starting with a digit reads as a number of at least 0; a number is read only from text holding a digit. |
| JsNumber.ParseUnsignedDigits | contentScript.js:95 | A run of digits read as an unsigned numeral is its decimal value. |
| JsNumber.ParseFloatUnsigned | options.js:16 | Text that starts with neither white space nor a sign is read as an unsigned numeral. |
| JsNumber.ParseFloatMinus | options.js:16 | A leading minus sign is read as the sign of the unsigned numeral after it. |
| JsNumber.ParseFloatNoDigits | options.js:16 | `parseFloat` of text with no number in front, the empty text among them, is NaN. |
| JsNumber.ParseFloatNegative | options.js:16 | A leading minus sign negates what `parseFloat` reads, and keeps NaN as NaN. |
| RateCache.RateIn | contentScript.js:59-64 | A rate is found exactly when the table has the currency with a truthy (non-zero) value, and it is that value. |
| RateCache.IsStale | contentScript.js:45 | The cache is fresh exactly when a table and a truthy timestamp are stored and the table is at most two days old. |
| RateCache.AfterFetch | contentScript.js:15-25 | A successful request stores its body and the time; a failed one changes nothing; a stored table is never lost. |
| RateCache.AfterLookup | contentScript.js:44-50 | A fresh cache is untouched, a stored table is never lost, and storage changes only to a newly fetched table stamped with the lookup time. |
| RateCache.ReadRate | contentScript.js:52-64 | The read throws exactly when no table is stored; otherwise it gives the table's truthy rate or null. |
| RateCache.ConvertedAmount | contentScript.js:75-79 | The amount times the rate when there is a rate, null otherwise; converting 1 gives the rate itself. |
| RateCache.ConversionIn | contentScript.js:73-80 | The conversion throws exactly when no table is stored; otherwise it is null exactly when the rate is missing, else amount times rate, never 0 for an amount of 1. |
| RateCache.RateCache.FetchExchangeRatesData | contentScript.js:12-29 | A successful request replaces the table and stamps the current time; an HTTP error or an exception changes nothing. |
| RateCache.RateCache.GetConversionRate | contentScript.js:36-65 | A stale cache gets one refresh attempt and a fresh one is untouched. The lookup throws exactly when no table is stored afterwards, else it returns the table's rate. |
| RateCache.RateCache.ConvertFromINR | contentScript.js:73-80 | The cache is refreshed as a lookup does, and the result is the conversion from the refreshed storage. |
| RateCache.TwoDayBoundary | contentScript.js:45 | A table exactly 172800000 ms old is reused; one millisecond older and it is refreshed. |
| RateCache.FailedFetchKeepsCache | contentScript.js:23-28 | A failed request leaves the table and its timestamp as they were. |
| RateCache.FetchedIsFresh | contentScript.js:15-21 | Right after a successful fetch the cache is fresh, and it stays fresh for two days. |
| RateCache.LookupKeepsTable | contentScript.js:44-56 | A lookup never loses a stored table, so the read after it does not throw. |
| RateCache.LoadedStaysLoaded | contentScript.js:44-56 | Once a table is stored, no later lookup, however many, throws. |
| RateCache.FreshCacheIsReused | contentScript.js:45-50 | While the cache is fresh, lookups neither fetch nor change storage, and they return the stored rate. |
| Settings.CurrencyOrDefault | contentScript.js:155 | The currency is never empty: a truthy stored one is kept, otherwise INR. |
| Settings.WageOrDefault | contentScript.js:154 | The wage is never 0: a truthy stored one is kept, otherwise 100. |
| Prices.ConversionTarget | contentScript.js:102-128 | No conversion exactly for the rupee sign or an unmapped symbol; otherwise the mapped code, which is never INR. |
| Prices.ParsePriceOfDigits | contentScript.js:94-99 | On digit-and-comma text the price is the comma-free whole digits plus the fraction digits over 100; a missing fraction counts as 0. |
| Prices.ParsePrice | contentScript.js:94-99 | Blank whole text reads as NaN. The price is NaN exactly when the whole or a present fraction is unreadable. With no fraction it is the whole. Otherwise the fraction read is 100 times what it adds. |
| Prices.ParsePriceExample | contentScript.js:94-99 | "1,234" with fraction "56" reads as 1234.56. |
| Prices.ParsePriceRoundExample | contentScript.js:94-99 | "250" with fraction "00" reads as 250. |
| Prices.ParsePriceFromValues | contentScript.js:94-99 | The price is the whole value plus the fraction value over 100, given the values of the digit runs. |
| Prices.ParsePriceIgnoresSeparator | contentScript.js:94 | A thousands separator between runs of digits does not change the price. |
| Prices.PriceWithinOneUnit | contentScript.js:96-99 | With a fraction of at most two digits, the price lies between its whole part and the next unit. |
| Prices.DigitsOf1234 | contentScript.js:95 | The numeral 1234 reads as 1234. |
| Prices.DigitsOf56 | contentScript.js:95 | The numeral 56 reads as 56. |
| Prices.DigitsOf250 | contentScript.js:95 | The numeral 250 reads as 250. |
| Prices.DigitsOf00 | contentScript.js:95 | The numeral 00 reads as 0. |
| Prices.CommaRemovedExample | contentScript.js:94 | "1,234" loses its separator and becomes "1234". |
| HoursOfWork.NormalizedWage | contentScript.js:157-161 | The wage is kept for INR or a missing rate; otherwise the rupee wage times the rate gives back the stored wage; it is never 0. |
| HoursOfWork.UserWage | contentScript.js:152-166 | The defaulted wage, never 0, is kept for INR with storage untouched. For another currency storage is refreshed as a lookup does; the call throws exactly when no table is stored after it, else the wage is normalised with that table's rate, or kept when the rate is null. |
| HoursOfWork.GetUserSettings | contentScript.js:152-166 | The storage it leaves and the wage it hands on are those of `UserWage`. |
| HoursOfWork.ApplyRate | contentScript.js:129-133 | With no rate the price is unchanged; otherwise NaN stays NaN, and the rupee price times the rate gives back the displayed price. |
| HoursOfWork.SymbolOf | contentScript.js:90-91 | The symbol is the trimmed text of the symbol element, or the empty text when there is none. |
| HoursOfWork.PriceInINR | contentScript.js:89-134 | An unmapped or rupee symbol gives the parsed price with no lookup. Otherwise storage is refreshed as a lookup does; the step throws exactly when no table is stored after it, else the price is converted with that table. |
| HoursOfWork.AnnotateAll | contentScript.js:86-146 | At most one annotation per price element, and one for every element exactly when no lookup threw. |
| HoursOfWork.PriceInRupees | contentScript.js:89-134 | One price brought to rupees: the storage it leaves and the price it gives are those `PriceInINR` states. |
| HoursOfWork.AppendHoursOfWork | contentScript.js:86-146 | The loop appends, in order, exactly the hours and leaves exactly the storage and the exception of `AnnotateAll`. |
| HoursOfWork.AnnotatePage | contentScript.js:171-177 | If reading the settings throws, nothing is annotated; otherwise the page is annotated with the wage the settings give. |
| HoursOfWork.AnnotateStep | contentScript.js:88-145 | One turn of the loop: its hours value comes in front of the rest of the pass, or its exception ends the pass. |
| HoursOfWork.AnnotateCompletesOnceLoaded | contentScript.js:52-60 | Once a table is stored, the pass never throws and annotates every price element. |
| HoursOfWork.FreshStep | contentScript.js:45-50 | With a fresh table, a price is converted with the stored rate and storage is untouched. |
| HoursOfWork.AnnotateWithFreshCache | contentScript.js:86-146 | With a table fresh for every lookup, storage is unchanged and each price's hours are its converted price over the wage. |
| HoursOfWork.UnconvertedPriceKeepsFaceValue | contentScript.js:127-137 | A rupee-sign or unmapped price is annotated with its face value over the wage, whatever the cache holds. |
| HoursOfWork.RupeePriceExample | contentScript.js:86-146 | "₹" "250" "00" with a wage of 100 gives 2.5 hours, with no lookup and no change to storage. |
| HoursOfWork.SinglePricePass | contentScript.js:88-145 | A pass over one price element that does not throw appends that price over the wage. |
| HoursOfWork.RupeeSymbolRead | contentScript.js:91-127 | A "₹" symbol element is read as the rupee sign, which is never converted. |
| Options.LoadedForm | options.js:2-10 | The form shows each stored value with its default: a truthy stored currency or wage as it is, a missing or falsy one as INR or 100. It never shows a falsy value. |
| Options.ValidatedWage | options.js:16-23 | The wage is refused exactly when `parseFloat` gives NaN or a value not above 0; an accepted wage is positive and is the parsed value. |
| Options.SyncStorage.Save | options.js:13-29 | It saves exactly when the wage is a positive number, and then stores exactly the chosen currency and the parsed wage. Otherwise storage is untouched. Every stored wage stays positive. |
| Options.SaveThenLoad | options.js:4-26 | Reopening the page after a save shows the saved currency and wage. |
| Options.NaNWageRefused | options.js:16-23 | Text with no number in front, the empty text among them, is refused. |
| Options.LoadedWageIsPositive | options.js:5-9 | A form loaded from storage this page has written shows a positive wage. |
| Options.NonPositiveWageRefused | options.js:19-23 | A negative wage, or a wage of zero digits, is refused. |
| Options.DigitWageAccepted | options.js:16-26 | A wage written as digits is accepted exactly when its value is not zero, and that value is what is stored. |

## Left out

- `background.js` and `popup.js` are not part of this model. The popup applies the same defaults as `Settings`.
- The network request, the API URL and key, and `response.json()` are not modelled. Each lookup's outcome is an `Env` parameter: a parsed body, an HTTP error or an exception. A body that is not an object (JSON `null`) is not modelled.
- `chrome.storage` callbacks and promises are not modelled, and neither are races between tabs. The un-awaited `storage.local.set` after a fetch is taken as done before the re-read at `contentScript.js:52-54`.
- The module-level `exchangeRatesData` variable written at `contentScript.js:16` is not modelled, because no lookup reads it.
- The DOM is reduced to the text of the price elements and the appended values. Not modelled: `querySelectorAll`, element creation and insertion, the select and input elements, `toFixed(2)` and the " (… hrs)" text.
- Doubles are exact reals: IEEE rounding, Infinity and `-0` are not modelled.
- `parseFloat` is read on sign, digits and an optional decimal fraction. Exponents, "Infinity" and Unicode white space beyond ASCII, NBSP and BOM are not modelled.
- Keys inherited from `Object.prototype` (such as "constructor") in the symbol table and the rate table are not modelled; both are plain maps.
- Rate values that are not numbers are not modelled.
- The fetch is stamped with the clock reading taken at the start of the lookup (`contentScript.js:42`), not with the second reading taken after the response arrives (`contentScript.js:17`). Both come from the same `Env`.
- `console` logging, `alert` and `focus` are left out: they have no effect on state.
- HoursOfWork.AppendHoursOfWork: requires a non-zero wage. Its only caller passes a wage proved non-zero, so the division by a zero wage (Infinity or NaN) is not modelled.
- HoursOfWork.AppendHoursOfWork: requires one `Env` per price element. Elements that make no lookup ignore theirs.
