# EvergreenHealth urgent-care wait times: a Dafny model of the record normaliser

The serverless handler `API/evergreen.js` reads three secrets, asks the Epic
"On My Way" scheduling service for its urgent-care departments, and turns each raw
department record into a clean clinic-status record. Each record holds the name,
the city, an open flag, a wait estimate in minutes, a wait text, a wait range, and
the drive time and distance from the Redmond clinic (asked of the Mapbox
directions service). The handler then sorts the records by name and replies with them.

This project models that handler's decisions and proves what they guarantee:

- `JsNumber` (js_number.dfy): JavaScript numbers (NaN, the infinities and exact finite
  values), `Math.round`, rounding to a multiple of five, and the decimal printing of integers.
- `JsValues` (js_values.dfy): values as `JSON.parse` produces them, and the conversions the
  handler leans on: truthiness, `||`, property reads, `String(v)`, `Number(v)`, `trim`.
- `Routing` (routing.dfy): the conversion of a directions route into whole minutes and miles
  to one decimal.
- `Normalizer` (normalizer.dfy): the clinic table, `getMinutesEstimate`, `getOpenStatus`,
  `getRangeString`, the name extraction, the wait text and the assembled output record.
- `Mapping` (mapping.dfy): the department loop. There is a specification function
  (`MapAll`), an imperative method proved equal to it (`MapDepartments`), and the in-place
  sort by name on an array (`SortByName`).
- `Handler` (handler.dfy): the credential checks, the 502 reply for a failing scheduling
  call, the department-list fallback chain, what `for…of` iterates, and the whole handler.
  `DepartmentsToVisit` gives the early returns before the loop and `Outcome` the whole
  decision as functions. `Handle` is the method that runs the loop and sorts in place.

The JavaScript engine parts that the handler only uses are passed in a `Host` value:

- the numeric-literal grammar behind `Number("…")`;
- `Number::toString` for non-integers and for values of 10^21 and above;
- `localeCompare`.

The routing service is a function from the index of a routing call to its reply
(`None` when the request threw, was not 2xx, or had no `routes[0]`). The model
logs every destination it routes to.

`String(v)` and `Number(v)` can throw. A value from `JSON.parse` is never callable, so
an object with its own `toString` key has no usable conversion and gives a TypeError, and
so does an array holding such a value. `ToString` and `ToNumber` return `Err(TypeError)`
there. The loop then throws (`Visit` gives `None`) and the handler replies 500. This
happens when the name conversion at API/evergreen.js:178 throws, when a `Number(c)` at :113
throws before a finite candidate is found, or when the `String(...)` of the first truthy
range candidate at :137 throws.

The loop model (`Visit`, `Step`, `MapAll`, `MapDepartments`, `Outcome`, `Handle`) uses the
corrected coordinate lookup: it routes only names that are own keys of the clinic table
(see "## Findings"). The behaviour as written, where an inherited Object.prototype member also
counts as a clinic, is stated only by `Mapping.RoutingCallsAsWritten` and
`Mapping.PrototypeNameIsRouted`.

## Model

| member | source | states |
|---|---|---|
| JsNumber.Round | API/evergreen.js:167-168 | `Math.round(x)` is the integer within half a unit of x, ties going up |
| JsNumber.RoundToFive | API/evergreen.js:144 | `Math.round(x / 5) * 5` is a multiple of 5 within 2.5 of x |
| JsNumber.DecimalRoundTrip | API/evergreen.js:150 | the decimal digits printed for a natural number read back as that number |
| JsNumber.IntToDecimalInjective | API/evergreen.js:197 | two integers whose decimal printing is the same are equal. Below 10^21 this is how an integer is printed, so among integer estimates below 10^21 minutes the wait text determines the estimate. Other estimates print through the engine's format, which is left abstract |
| JsNumber.NatToDecimal | API/evergreen.js:197 | the digits that a natural number prints as in a template: at least one digit, only digits, and no leading zero unless the number is 0 |
| JsNumber.IntToDecimal | API/evergreen.js:197 | an integer prints as its digits, with a leading minus sign exactly when it is negative |
| JsValues.Truthy | API/evergreen.js:178-179 | definition; no contract. ToBoolean, behind `filter(Boolean)` at :135, the logical OR and `!name` |
| JsValues.Or | API/evergreen.js:178 | definition; no contract. The logical OR gives its left operand when truthy, the right one otherwise |
| JsValues.Accessible | API/evergreen.js:178 | definition; no contract. Reading a property of null or undefined throws a TypeError |
| JsValues.Field | API/evergreen.js:106-110 | `d.X` is the own entry of a plain object, and undefined when d is not an object or has no such key |
| JsValues.Join | API/evergreen.js:137 | definition; no contract. The comma join inside `String(array)` |
| JsValues.NumberString | API/evergreen.js:137 | definition; no contract. Prints NaN, Infinity and -Infinity by name and finite values by `NumberToString` |
| JsValues.Trim | API/evergreen.js:178 | `trim()` returns a middle slice of its input, cuts away only whitespace, and leaves no whitespace at either end |
| JsValues.TrimIdempotent | API/evergreen.js:178 | trimming an already trimmed name changes nothing |
| JsValues.ToString | API/evergreen.js:137 | `String(v)` throws exactly when v is an object with its own `toString` key or an array holding such a value; a string is itself; any other object is "[object Object]" |
| JsValues.ToNumber | API/evergreen.js:113 | `Number(v)` throws exactly when `String(v)` does; undefined is NaN, null, false and "" are 0, true is 1, a number is itself, any other object is NaN |
| JsValues.StringToNumber | API/evergreen.js:113 | a string of only whitespace converts to 0; other strings follow the engine's numeric grammar |
| JsValues.NumberToString | API/evergreen.js:150 | an integer below 10^21 in magnitude prints as its decimal digits, with a sign when negative |
| Routing.DriveFromRoute | API/evergreen.js:166-169 | minutes is the whole number nearest duration/60, miles is the tenth nearest distance × 0.000621371, and both are non-negative for a non-negative route |
| Routing.DriveFromReply | API/evergreen.js:161-172 | a drive estimate exists exactly when the routing reply has a route |
| Routing.FifteenMinuteExample | API/evergreen.js:166-169 | a 900 s, 4000 m route is a 15-minute, 2.5-mile drive |
| Normalizer.ClinicCoords | API/evergreen.js:64-101 | definition; no contract. The clinic table: each clinic's name, city and coordinates |
| Normalizer.SkippedFirstThrow | API/evergreen.js:112-116 | after a first candidate that converts to a non-finite number, the first throwing candidate of the rest is that of the whole list, one position on |
| Normalizer.SkippedFirstFinite | API/evergreen.js:112-116 | after a first candidate that converts to a non-finite number, the first finite candidate of the rest is that of the whole list, one position on |
| Normalizer.FirstFinite | API/evergreen.js:112-116 | null exactly when every candidate converts to a non-finite number; a TypeError exactly when a conversion throws before any finite one; otherwise the value of the first finite candidate |
| Normalizer.MinutesEstimate | API/evergreen.js:103-117 | the estimate is the first of WaitTime, WaitTimeInMinutes, DisplayWait, EstimatedWaitMinutes, EstWait with a finite `Number(...)`. It is null exactly when none has one, and it throws exactly when a conversion throws before a finite one |
| Normalizer.SkipsNonNumericField | API/evergreen.js:103-117 | `{WaitTime: "bad", WaitTimeInMinutes: 12}` gives 12 when "bad" is not numeric |
| Normalizer.ObjectWaitTimeThrows | API/evergreen.js:112-113 | `{WaitTime: {toString: "5"}}` makes the estimate throw a TypeError |
| Normalizer.ExplicitOpenFlag | API/evergreen.js:121-122 | a boolean `IsOpen` wins, then a boolean `IsOpenNow`, and otherwise there is no explicit flag |
| Normalizer.OpenStatus | API/evergreen.js:119-127 | an explicit boolean flag decides. Without one, it throws exactly when the estimate throws, and it is open exactly when the estimate search finds a finite field |
| Normalizer.TruthyOnly | API/evergreen.js:130-135 | `filter(Boolean)` keeps only truthy candidates, is empty exactly when none is truthy, and starts with the first truthy one |
| Normalizer.RangeBounds | API/evergreen.js:141-149 | both bounds are non-negative multiples of 5 with min ≤ max; for a non-negative estimate they are the multiples of 5 nearest 0.7× and 1.3× it, and for a negative one both are 0 |
| Normalizer.RangeBoundsAtTie | API/evergreen.js:141-149 | in exact arithmetic, 175 minutes gives the bounds (125, 230); see "## Left out" for the engine's doubles |
| Normalizer.SynthesizedRange | API/evergreen.js:150 | below 10^20 minutes the range prints as `<min>–<max> min`, with both bounds in plain decimal digits |
| Normalizer.SynthesizedRangeExamples | API/evergreen.js:141-150 | 10 minutes gives "5–15 min", 20 minutes gives "15–25 min" and 0 minutes gives "0–0 min" |
| Normalizer.RangeString | API/evergreen.js:129-151 | the `String(...)` of the first truthy range field wins, including its TypeError; without one the result is "n/a" when there is no estimate and the synthesised range otherwise |
| Normalizer.ArrayRangeThrows | API/evergreen.js:136-137 | a first truthy range field `[{toString: "x"}]` makes the range throw a TypeError |
| Normalizer.WaitText | API/evergreen.js:197 | "n/a" exactly when there is no estimate, and otherwise the estimate followed by " min" |
| Normalizer.NameValue | API/evergreen.js:178 | definition; no contract. The logical OR of `d.Name`, `d.DepartmentName` and "" |
| Normalizer.DepartmentName | API/evergreen.js:178 | the trimmed string of `Name` when truthy, otherwise of `DepartmentName` when truthy, otherwise "". It throws exactly when the chosen value's conversion throws, and a result never starts or ends with whitespace |
| Normalizer.ReadDepartment | API/evergreen.js:182-184 | the estimate, then the range, then the open flag. It throws exactly when the estimate throws, or the estimate converts and the range throws; the open flag never throws after the estimate has converted |
| Normalizer.Normalize | API/evergreen.js:192-201 | no contract of its own; characterised by NormalizeWellFormed and the Redmond lemmas |
| Normalizer.NormalizeWellFormed | API/evergreen.js:192-201 | a pushed record has a non-empty trimmed name, a wait text that matches its estimate, and the table city for a known clinic; an unknown clinic has an empty city and no drive, and the two drive fields are null together. The name, open flag, estimate and range are the ones read, and the drive fields are the drive's minutes and miles, or null without a drive |
| Mapping.Step | API/evergreen.js:177-202 | no contract of its own; StepFaultsExactly says when it throws |
| Mapping.Visit | API/evergreen.js:178-201 | no contract of its own; characterised by VisitRoutesExactlyKnown, VisitKnownClinic, VisitUnknownName and VisitKeepsInvariant |
| Mapping.VisitKnownClinic | API/evergreen.js:178-201 | a department named after a clinic pushes its record and makes one routing call to that clinic, answered by the next routing reply |
| Mapping.VisitUnknownName | API/evergreen.js:178-201 | a department with a non-empty name outside the table pushes its record without a drive and makes no routing call |
| Mapping.MapAll | API/evergreen.js:176-202 | no contract of its own; characterised by MapAllFaultsExactly, MapAllInvariant, FaultPersists and MapDepartments |
| Mapping.StepFaultsExactly | API/evergreen.js:177-184 | one iteration throws exactly when the department is null or undefined, its name conversion throws, or its name is not empty and its estimate or range conversion throws |
| Mapping.MapAllFaultsExactly | API/evergreen.js:177-184 | the loop throws exactly when some department is null or undefined, has a name conversion that throws, or has a non-empty name and an estimate or range conversion that throws |
| Mapping.ObjectNameThrows | API/evergreen.js:178 | a department whose `Name` is `{toString: "ER"}` makes the loop throw |
| Mapping.FaultPersists | API/evergreen.js:177-202 | once a department throws, the loop has thrown, whatever follows |
| Mapping.MapAllInvariant | API/evergreen.js:176-202 | no more records than departments, every record well formed, and routing calls made exactly for the records named in the clinic table, to its coordinates, in order |
| Mapping.VisitKeepsInvariant | API/evergreen.js:178-201 | one pass of the loop body keeps every record well formed and the routing calls equal to those of the records named after a clinic, and pushes at most one record |
| Mapping.MapDepartments | API/evergreen.js:176-202 | the imperative loop builds exactly the records and routing calls of the specification `MapAll` |
| Mapping.RoutingCallsAsWritten | API/evergreen.js:181-190 | as written, a department is routed when it does not throw, its name is not empty, and the name is a clinic or an inherited Object.prototype member |
| Mapping.PrototypeNameIsRouted | API/evergreen.js:181-190 | a department named "toString" is routed as written, but not by the corrected loop body |
| Mapping.VisitRoutesExactlyKnown | API/evergreen.js:178-201 | a loop body that does not throw pushes one record exactly for a non-empty name, keeps the earlier records, and routes exactly when the name is an own key of the clinic table |
| Mapping.SwapDown | API/evergreen.js:205 | one exchange of neighbours keeps the array's records and moves only those two |
| Mapping.InsertLast | API/evergreen.js:205 | one insertion pass: the prefix up to i ends up ordered by name, the array keeps its records, and the part after i is unchanged |
| Mapping.SortByName | API/evergreen.js:205 | after sorting, names are in collation order and the array holds the same records |
| Handler.IsSet | API/evergreen.js:11-14 | definition; no contract. A secret counts as set when present and not empty (`!secret` is false) |
| Handler.IsSuccess | API/evergreen.js:40 | definition; no contract. `epicRes.ok` holds for statuses 200 to 299 |
| Handler.StatusCode | API/evergreen.js:208 | definition; no contract. The status passed to `res.status(...)`: 200 for the locations here, 500 at :12, :15 and :214, 502 at :43 |
| Handler.CheckConfig | API/evergreen.js:11-16 | no reply exactly when all three secrets are set; a missing Epic secret gives the Epic message whatever the Mapbox token; the Mapbox message comes exactly when only the Mapbox token is missing; both are status 500 |
| Handler.BodyExcerpt | API/evergreen.js:41-44 | the excerpt is a prefix of the body (an unreadable body counts as ""), at most 500 characters, and all of it when it is that short |
| Handler.DepartmentList | API/evergreen.js:50-54 | the first truthy of OnMyWayDepartments, Departments, departmentList, else `[]`; reading them from a null body throws |
| Handler.Elements | API/evergreen.js:177 | `for…of` visits an array's items and a string's characters, and throws on anything else |
| Handler.DepartmentsToVisit | API/evergreen.js:11-54 | missing secrets give their 500 reply first; a failed call gives 500 and a non-2xx reply its 502; the loop runs exactly when the secrets are set, the reply is 2xx and parsed, and its department list is readable and iterable |
| Handler.EpicCredentialsFirst | API/evergreen.js:11-13 | missing Epic credentials are reported before any other check or call |
| Handler.UpstreamFailureReply | API/evergreen.js:40-45 | a non-2xx scheduling reply gives 502 with its status and at most 500 characters taken from the start of its body |
| Handler.UpstreamFailureExample | API/evergreen.js:40-45 | status 503 with body "boom" gives 502 `{status: 503, body: "boom"}` |
| Handler.Outcome | API/evergreen.js:11-202 | no contract of its own; characterised by EpicCredentialsFirst, UpstreamFailureReply, OutcomeRecords and RedmondExample, and implemented by Handle |
| Handler.RedmondReadings | API/evergreen.js:182-184 | the Redmond department with a 10-minute wait reads as 10 minutes, "5–15 min", and open |
| Handler.RedmondRecord | API/evergreen.js:176-202 | the Redmond department with a 10-minute wait and a 900 s, 4000 m route gives one open Redmond, WA record with "10 min", "5–15 min" and a 15-minute, 2.5-mile drive, after one routing call from Redmond |
| Handler.RedmondExample | API/evergreen.js:47-202 | end to end, that department under `OnMyWayDepartments` gives exactly that one record |
| Handler.OutcomeRecords | API/evergreen.js:176-202 | a successful run has no more records than departments, each well formed |
| Handler.SortedLocations | API/evergreen.js:204-211 | the 200 reply carries the timestamp and the records sorted by name, as a permutation, each still well formed |
| Handler.Handle | API/evergreen.js:5-216 | a failure decided by `Outcome` is replied as is; otherwise status 200 with the given timestamp and the loop's records, sorted by name, as a permutation, each well formed |

## Left out

- Network I/O: the `fetch` calls to both services and their headers, URL and payload are not modelled. The scheduling reply is a parameter (`EpicReply`), and the routing replies come from the function `routing`.
- `process.env` is not modelled: the three secrets are a parameter (`Env`). An empty string and a missing value both count as not set.
- `JSON.parse` of the reply body is not modelled: a body that does not parse is `json == None` and gives the 500 reply.
- The clock is not modelled: `updatedAt` is a parameter, since `new Date().toISOString()` reads the clock.
- `console.error`, the `Cache-Control` header and the `detail` text of the 500 reply are left out. They are I/O or depend on the engine's error messages.
- `async`/`await`: routing calls are made one at a time in department order. This matches the source, which awaits each one inside the loop.
- JsNumber.Round: `Math.round` itself is exact on its argument. The products and quotients computed before it (API/evergreen.js:144, :148, :167-168) are IEEE-754 doubles in the engine, but exact reals here. So when the exact value lies on a rounding tie, the engine's rounded result can be one step lower than the model's.
- Normalizer.RangeBounds: near a rounding tie a bound can differ from the engine by 5 minutes, because `minutes * 0.7` and `minutes * 1.3` are exact here. For 175 minutes the model gives (125, 230) (`RangeBoundsAtTie`). In doubles 175 × 0.7 / 5 is just below 24.5, so the engine gives 120 as the lower bound. Integer estimates 325, 675 and 725 are affected the same way.
- Normalizer.SynthesizedRange: for the same reason it can print a bound 5 minutes off the engine's near a tie. For 175 minutes the model prints "125–230 min" and the engine "120–230 min".
- Routing.DriveFromRoute: near a rounding tie the engine's result can differ from the model's by one minute, or by 0.1 mile, because `duration / 60` and `distance * 0.000621371 * 10` are exact reals here and doubles in the engine.
- Routing.DriveFromRoute: it assumes `duration` and `distance` are numbers. A route missing them would give NaN, which the model does not represent.
- JsValues.ToNumber: the grammar for strings is left abstract (`Host.parseNumber`), apart from blank strings, which are 0.
- JsValues.ToString: values are those `JSON.parse` produces, so no getters, symbols, callable members or prototypes other than the built-in ones are modelled.
- JsValues.NumberToString: the engine's format for non-integers and for integers of 10^21 and above is left abstract (`Host.formatNumber`).
- Mapping.SortByName: `localeCompare` is left abstract. It is assumed to be a total preorder (`CollationIsPreorder`). Sort stability, which `Array.prototype.sort` guarantees, is not stated.
- Handler.Elements: a string is iterated by Unicode code point, and such elements have no `Name`, so they are skipped. UTF-16 surrogate halves are not represented.
- Handler.BodyExcerpt: `slice(0, 500)` counts UTF-16 code units and the model counts code points. The two agree on text without characters outside the Basic Multilingual Plane.
- Routing: the routing request's origin, destination and token in the URL are not modelled. The model logs each destination's coordinates instead.

## Findings

| source | as written | input that shows it | evidently intended | confidence | as-written member | corrected member |
|---|---|---|---|---|---|---|
| API/evergreen.js:181-190 | `CLINIC_COORDS[name]` is a property read on an object literal. An inherited Object.prototype member such as `toString` is truthy, so a routing call is made to undefined coordinates | a department named "toString" | route only names that are own keys of the clinic table | not executed | Mapping.PrototypeNameIsRouted | Mapping.VisitRoutesExactlyKnown |
