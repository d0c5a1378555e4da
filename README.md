# SkyCast forecast summariser in Dafny

SkyCast is a browser weather dashboard. Its client asks a relay server for
current weather and a 3-hourly forecast. It reduces the forecast to at most
three day cards. This project models that reduction, `getThreeDayForecast`
in `public/script.js`, together with its helpers `mode` and
`capitalizeFirstLetter`, and proves what they promise.

- `wrappers.dfy`: `Option`, standing in for JavaScript's `undefined`.
- `mode.dfy` (module `Mode`): the `mode` scan. It is a method with a count
  table (a `map`), the largest count so far and the current mode value. It
  is proved to end on `ModeOf`, the value of the recursive scan `Scan`.
  `ModeOf` is characterised by the predicate `IsScanMode`: the value occurs
  at least as often as any other and is the first, left to right, to reach
  that count. This is the tie-break given by the strict `>` update.
- `forecast.dfy` (module `Forecast`): the summariser in the same imperative
  form as the source.
  - `GroupByDay` pushes each sample onto the three lists of its
    day-of-month bucket. It is proved against `SamplesOn` and `BucketOf`:
    the samples of a day, in input order.
  - `GetThreeDayForecast` walks the buckets, skips today, stops counting
    after three, and builds each summary. Its result is tied entry by entry
    to `ForecastDays`.
- `text.dfy` (module `Text`): `capitalizeFirstLetter`.

Inputs that come from the clock or from `Date` are parameters:

- each sample carries its local day-of-month (1 to 31);
- the caller supplies today's day-of-month and today's weekday index
  (0 is Sunday).

The weekday name is computed as the source does it. It takes the current
date, sets its day-of-month to `d` (days past the month's end roll over)
and reads the weekday. That is today's weekday moved by `d - today` days.
So a day from the next month is named as if it were in the current month.
`WeekdayNameAcrossMonthEnd` states this behaviour, and the model keeps it.

Bucket order: the buckets live in a plain object with integer-like keys,
and `for...in` enumerates such keys in ascending numeric order (section
10.1.11.1 of ECMA-262, OrdinaryOwnPropertyKeys). Insertion order does not
matter. The model therefore visits days 1 to 31 in order and keeps those
that have a bucket. A description of the system that says buckets come out
in first-occurrence order disagrees with the code here. The model follows
the code: across a month end (samples for days 30, 31, 1, 2, 3, today the
30th) the reported days are the 1st, 2nd and 3rd (`MonthEndOrder`).

Temperatures are `real`. `Math.round` is `RoundHalfUp`: the nearest
integer, with halves rounded towards +infinity.

## Model

| member | source | states |
|---|---|---|
| `Mode.Mode` | public/script.js:290-304 | Returns `None` exactly for the empty list. Otherwise it returns `ModeOf` the list, the value the left-to-right scan ends on. `ModeOfIsScanMode` states what that value is. |
| `Mode.ScanStep` | public/script.js:295-301 | One step of the scan: the value just read takes over exactly when its count now exceeds the previous maximum. Otherwise the previous mode stays. |
| `Mode.ScanFindsScanMode` | public/script.js:290-304 | On a non-empty list the scan ends holding a value with its exact count, and that value meets the scan-mode description. |
| `Mode.ScanModeUnique` | public/script.js:297-300 | The tie-break determines the result: at most one value satisfies the scan-mode description. |
| `Mode.ModeOfIsScanMode` | public/script.js:290-304 | The mode of a non-empty list is an element of it, no value outnumbers it, and it is the first value, left to right, to reach that count. |
| `Mode.ModeOfCharacterised` | public/script.js:297-300 | A value meets the scan-mode description if and only if it is `ModeOf` the list. |
| `Mode.TieBreakExample` | public/script.js:297-300 | For `[a, b, b, a]` with `a != b`, the result is `b` and not `a`, although both occur twice. |
| `Forecast.BucketOf` | public/script.js:243-254 | A day's `temps`, `icons` and `weathers` lists have the same length, one entry per sample of that day. Entry `k` of each list comes from that day's `k`-th sample. |
| `Forecast.SamplesOnMembership` | public/script.js:239-254 | A sample is in the bucket of day `d` if and only if it is an input sample whose day-of-month is `d`. |
| `Forecast.SamplesOnAppend` | public/script.js:239-254 | Grouping keeps input order. The bucket for a concatenated input is the first part's bucket followed by the second part's. |
| `Forecast.BucketsPartitionSamples` | public/script.js:238-254 | The bucket sizes over days 1 to 31 add up to the number of samples, so each sample lands in exactly one bucket. |
| `Forecast.GroupByDay` | public/script.js:238-254 | A bucket exists for exactly the days that have a sample, and each bucket is that day's lists in input order. |
| `Forecast.ForecastDays` | public/script.js:260-284 | At most three days are reported. None of them is today, and each has at least one sample. |
| `Forecast.UpcomingBelowSpec` | public/script.js:260-262 | The buckets are visited in strictly ascending day-of-month order. Every day with a bucket, other than today, is visited, and nothing else is. |
| `Forecast.ForecastDaysSpec` | public/script.js:260-284 | At most three days are reported, in ascending order. None of them is today, and each has samples. An eligible day is left out only if three earlier eligible days were reported, so skipping today uses up no place. |
| `Forecast.NoSamplesNoDays` | public/script.js:233-287 | An empty sample list reports no days. |
| `Forecast.MonthEndOrder` | public/script.js:260-262 | With samples for days 30, 31, 1, 2, 3 and today the 30th, the reported days are 1, 2, 3 (enumeration order, not date order). |
| `Forecast.WeekdayName` | public/script.js:263-265 | The name is one of Sun..Sat. Today's own day-of-month gets today's weekday name. |
| `Forecast.WeekdayNameAcrossMonthEnd` | public/script.js:263-265 | When today is the 31st, the 1st is named five weekdays after today, not one: it is named as the 1st of the current month. |
| `Forecast.RoundHalfUp` | public/script.js:268-271 | `Math.round`: the result `r` satisfies `r - 1/2 <= x < r + 1/2`. |
| `Forecast.RoundHalfUpMonotonic` | public/script.js:268-271 | Rounding preserves order. |
| `Forecast.RoundingExamples` | public/script.js:268-271 | 2.5 rounds to 3 and -2.5 rounds to -2. Temperatures 10, 12, 14 average to 12. |
| `Forecast.MeanWithinRange` | public/script.js:268-271 | A day's mean temperature lies between its lowest and highest sample, and so does its rounded value once the bounds are rounded the same way. |
| `Forecast.SummariseDay` | public/script.js:263-279 | A day's entry is its weekday name, the rounded mean of its temperatures, and the modes of its icons and of its condition labels. The bucket is never empty, so the mean and both modes are defined. |
| `Forecast.SummariesAt` | public/script.js:260-284 | Entry `k` of the summaries is the summary of the `k`-th reported day. |
| `Forecast.SummaryFromOwnDay` | public/script.js:268-279 | A day's icon and condition label each come from some input sample of that day. Its temperature is the rounded mean of that day's temperatures. |
| `Forecast.GetThreeDayForecast` | public/script.js:233-287 | The result has at most three entries. They are, in order, the summaries of the days in `ForecastDays`: ascending day-of-month, today skipped, first three. No samples gives no entries. |
| `Text.ToUpperAscii` | public/script.js:307-309 | A lower-case ASCII letter maps to the matching capital. Any other character is unchanged. |
| `Text.CapitalizeFirstLetter` | public/script.js:307-309 | The length is preserved, every character after the first is unchanged, and the first character is upper-cased. The empty string maps to itself. |
| `Text.CapitalizeIdempotent` | public/script.js:307-309 | Capitalising twice gives the same result as capitalising once. |

## Left out

- Rendering and page state are not modelled: `createWeatherCard`, its HTML, `showError`, the loading indicator and the animation delay (public/script.js:155-230, 312-321).
- Network and asynchronous control flow are not modelled: `fetch`, promise chains, `Promise.all` over the default cities, geolocation (public/script.js:11-65, 84-152). The search debounce timer (public/script.js:68-81) is left out as timer-driven.
- `server.js`, the HTTP relay to the upstream weather provider, is not part of this model.
- Reading a sample's local day-of-month from its timestamp (`new Date(dt * 1000).getDate()`) and reading today's date are left to the caller, as parameters. Time zones, and the two separate reads of the clock (lines 257 and 263), are not modelled. The model uses one `today` for both.
- Floating-point temperatures are modelled as exact reals, so rounding error in the sum is not captured.
- The payload shape is not modelled: a payload without `list`, or a sample without `weather[0]`, throws in the source. The model takes the sample list directly.
- `Mode.Mode`: the source counts in a plain object, so values are coerced to string keys. Names inherited from `Object.prototype` (such as `constructor` or `toString`) read back as non-numbers and are never chosen. The model counts values exactly, with no such keys.
- `Text.ToUpperAscii`: only ASCII letters are upper-cased. JavaScript's `toUpperCase` uses full Unicode case mapping, which can lengthen the string ("ß" becomes "SS").
- `Text.CapitalizeFirstLetter`: works on characters, not UTF-16 code units, and inherits the ASCII-only mapping above. Its length-preservation guarantee therefore holds only for the model.
