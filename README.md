# Nightscout dashboard client — a Dafny model

This project models the data layer of a small Nightscout glucose dashboard. That layer turns the loosely typed JSON it receives from the Nightscout API into typed records:

- glucose readings (`GlucoseValue`);
- devices (`DeviceStatus`);
- an overall status (`StatusSummary`).

It also models the rules around that layer:

- the gate that turns a non-ok HTTP response into an error;
- how the base URL is chosen from the configuration and the environment;
- the decisions the dashboard page takes for its fallback state and its three status cards.

Modules:

- `Wrappers` (`wrappers.dfy`): `Option` and `Result`, and `MapResult`, the semantics of `Array.prototype.map` when the callback can throw.
- `JsonValue` (`json.dfy`): a parsed JSON document and JavaScript property reads on it (`typeof x.k === "string"` and so on).
- `Decimal` (`decimal.dfy`): how a template literal prints a natural number, with the proof that the numeral reads back to that number.
- `Env` (`env.ts`, in `env.dfy`): `trim`, `sanitizeBaseUrl` and `getApiBaseUrl`.
- `NightscoutClient` (`nightscout-client.ts`, in `nightscout_client.dfy`): `parseJson`, the entry filter, the status and device coercion, the base-URL choice and the default limit.
- `Dashboard` (`page.tsx`, in `dashboard.dfy`): the `DashboardPage` method and the card decisions.

A thrown exception is an `Err` value. The client can throw six kinds:

- `RequestFailed(status, body)`: the `Error` that `parseJson` throws for a non-ok response.
- `MalformedJson`: `response.json()` rejects the body.
- `NotAnArray`: `.map` is called on a value that is not an array.
- `NullRecord`: a property is read on `null`. This covers `.map` on a `null` payload.
- `InvalidUrl`: the `TypeError` of `new URL(...)` for a location it cannot parse.
- `NetworkFailure`: `fetch` rejects.

The client runs against a `Runtime` value with three parts:

- `env`: the two environment variables, as `Option<string>`.
- `parsesAsUrl`: which texts `new URL` accepts.
- `fetch`: the response to a request, or `None` when `fetch` rejects.

The URL is built before anything is sent. So a location that does not parse fails with `InvalidUrl`, and `fetch` is never consulted.

The model follows what the code does, including where that differs from a tidier reading of it:

- An explicit `config.baseUrl` is used verbatim. It is not trimmed, not sanitised, and not skipped when blank. So `"http://x/"` is requested as `"http://x//entries.json"`.
- A `devices` value that is neither `null`/absent nor an array makes `fetchStatus` throw. It is not defaulted to the empty list.
- A `null` element in the entries array, or in the device list, makes the call throw. The element is neither dropped nor defaulted.
- A payload for the entries request that is not an array makes the call throw.
- The blank test in `getApiBaseUrl` runs on the trimmed value before the slash is stripped. So a variable holding `"/"` resolves to the empty base URL. `"http://x /"` resolves to `"http://x "`.

## Model

| member | source | states |
|---|---|---|
| `Wrappers.MapResult` | apps/web/lib/nightscout-client.ts:47-62 | `map` with a throwing callback: success iff every element maps, then same length and pointwise results; otherwise the error of the first failing element |
| `JsonValue.Property` | apps/web/lib/nightscout-client.ts:49-51 | a property read yields a value exactly for an own key of an object, and `undefined` for every other value |
| `JsonValue.StringProperty` | apps/web/lib/nightscout-client.ts:50-51 | `typeof v[k] === "string"` holds exactly when the field is present and a string, and then gives that string |
| `JsonValue.NumberProperty` | apps/web/lib/nightscout-client.ts:49 | `typeof v[k] === "number"` holds exactly when the field is present and a number, and then gives that number |
| `Decimal.FromNat` | apps/web/lib/nightscout-client.ts:30 | the printed status is a non-empty string of digits without a leading zero, one digit exactly for numbers below 10 |
| `Decimal.ToNatFromNat` | apps/web/lib/nightscout-client.ts:30 | reading the printed numeral back yields the number |
| `Decimal.FromNatInjective` | apps/web/lib/nightscout-client.ts:30 | distinct status codes print differently |
| `NightscoutClient.Message` | apps/web/lib/nightscout-client.ts:30 | an error has a client-built message exactly when it is a request failure, and then the message is `RequestFailedMessage` of its status and body |
| `NightscoutClient.ParseJson` | apps/web/lib/nightscout-client.ts:27-34 | not ok iff the result is a request failure, carrying the response's status and body, and its message is the line-30 text for them; an ok response yields its payload unchanged, or an error when the body is not JSON |
| `NightscoutClient.RequestFailedMessage` | apps/web/lib/nightscout-client.ts:30 | the message is the fixed prefix, then the status in decimal, then `): `, then the response body verbatim |
| `NightscoutClient.RequestFailedMessageExample` | apps/web/lib/nightscout-client.ts:30 | status 500 with body "boom" gives exactly `Nightscout API request failed (500): boom` |
| `NightscoutClient.RequestFailedMessageInjective` | apps/web/lib/nightscout-client.ts:30 | the message determines both the status and the body |
| `NightscoutClient.ToGlucoseValue` | apps/web/lib/nightscout-client.ts:48-62 | a `null` record throws; any other record maps to a reading iff it `IsReading` (`sgv` a number, `dateString` a string), and that reading is `ReadingOf` the record |
| `NightscoutClient.ReadingOf` | apps/web/lib/nightscout-client.ts:49-61 | a kept record's `sgv` and `dateString` are its reading's `mgdl` and `measuredAt`; `direction` is set iff the record's `direction` is a string |
| `NightscoutClient.FilterPresent` | apps/web/lib/nightscout-client.ts:63 | `filter(Boolean)` never lengthens the list |
| `NightscoutClient.NormaliseEntries` | apps/web/lib/nightscout-client.ts:47-63 | a `null` payload throws `NullRecord` and any other non-array payload `NotAnArray`; a payload with a `null` element throws, and otherwise the result is exactly the reference `Readings` of the records |
| `NightscoutClient.FilterPresentIsReadings` | apps/web/lib/nightscout-client.ts:53-63 | mapping and then filtering out the `null` placeholders equals the reference filter `Readings` |
| `NightscoutClient.ReadingsSelectKept` | apps/web/lib/nightscout-client.ts:47-63 | the output is an order-preserving selection: strictly increasing positions, every kept position's reading in order, and every valid record included |
| `NightscoutClient.EntryKeptIff` | apps/web/lib/nightscout-client.ts:49-55 | a reading is in the output iff some record with numeric `sgv` and string `dateString` yields it |
| `NightscoutClient.ReadingsLength` | apps/web/lib/nightscout-client.ts:47-63 | the output is no longer than the input, and exactly as long iff every record is a reading |
| `NightscoutClient.OnlyRequiredFieldsDecideKeep` | apps/web/lib/nightscout-client.ts:49-55 | changing any field other than `sgv` and `dateString` never changes whether a record is kept |
| `NightscoutClient.ZeroReadingKept` | apps/web/lib/nightscout-client.ts:53-63 | a reading with `sgv` 0 is kept, because the filter tests the record object |
| `NightscoutClient.EntriesExample` | apps/web/lib/nightscout-client.ts:47-63 | of `{sgv 120, Flat, t1}`, `{sgv null, t2}`, `{t3}` only the first survives, as `{120, "Flat", "t1"}` |
| `NightscoutClient.StateOf` | apps/web/lib/nightscout-client.ts:75-78 | `state` is `status.state` when that is a string, and `"unknown"` when `status` is absent, null, not an object or has no string `state` |
| `NightscoutClient.ToDeviceStatus` | apps/web/lib/nightscout-client.ts:83-94 | a `null` device throws; any other device is coerced by the reference `DeviceOf` |
| `NightscoutClient.DeviceOf` | apps/web/lib/nightscout-client.ts:84-87 | each of `name`, `status` and `lastUpdated` is the device's own field when that field holds a string; otherwise it is `"Unknown"`, `"Unavailable"` or `null` respectively |
| `NightscoutClient.NormaliseStatus` | apps/web/lib/nightscout-client.ts:74-95 | a successful result's state is the `StateOf` the payload's `status` field |
| `NightscoutClient.StatusFailsIff` | apps/web/lib/nightscout-client.ts:74-83 | the status normalisation fails iff the payload is `null`, or `devices` is neither nullish nor an array, or a device is `null` |
| `NightscoutClient.DevicesPreserved` | apps/web/lib/nightscout-client.ts:82-94 | no device is dropped, added or reordered: same count, and the i-th output is the i-th input coerced |
| `NightscoutClient.NullishDevicesEmpty` | apps/web/lib/nightscout-client.ts:76 | absent or `null` `devices` gives the empty device list |
| `NightscoutClient.StatusExample` | apps/web/lib/nightscout-client.ts:74-95 | `{status: {}, devices: [{status: "ok"}]}` gives state `"unknown"` and one device `("Unknown", "ok", null)` |
| `NightscoutClient.Request.Location` | apps/web/lib/nightscout-client.ts:38 | entries are requested from `<base>/entries.json`, and the status from `<base>/status.json` (line 68) |
| `NightscoutClient.BaseUrl` | apps/web/lib/nightscout-client.ts:37 | an explicit `baseUrl` is used as it is; without one the environment decides |
| `NightscoutClient.CreateNightscoutClient` | apps/web/lib/nightscout-client.ts:98-107 | without a configuration the client has no explicit base URL; with one it keeps it |
| `NightscoutClient.Exchange` | apps/web/lib/nightscout-client.ts:38-45 | an unparsable location fails with `InvalidUrl`, and only then; a parsable one with a rejected `fetch` fails with `NetworkFailure`, and only then; otherwise the response goes through `parseJson` (lines 68-72 for the status request) |
| `NightscoutClient.FetchRecentEntries` | apps/web/lib/nightscout-client.ts:36-64 | a failed exchange for `<base>/entries.json` with `count = limit` is the result; a successful exchange gives exactly `NormaliseEntries` of its payload, so success holds exactly when the payload is an array without `null`, and then the result is that array's `Readings` |
| `NightscoutClient.FetchStatus` | apps/web/lib/nightscout-client.ts:66-96 | a failed exchange for `<base>/status.json` is the result; a successful exchange gives exactly `NormaliseStatus` of its payload, so a success reports the payload's `StateOf` |
| `NightscoutClient.Client.GetRecentEntries` | apps/web/lib/nightscout-client.ts:100-102 | without a limit 24 entries are fetched; with one, that many |
| `NightscoutClient.Client.GetStatus` | apps/web/lib/nightscout-client.ts:103-105 | the status of the client's own configuration |
| `NightscoutClient.UpstreamFailurePropagates` | apps/web/lib/nightscout-client.ts:41-45 | a non-ok response fails `getRecentEntries` and `getStatus` with that response's status and body |
| `NightscoutClient.InvalidUrlSendsNothing` | apps/web/lib/nightscout-client.ts:38-41 | when neither location parses, both calls fail with `InvalidUrl` whatever `fetch` would answer |
| `NightscoutClient.NetworkFailurePropagates` | apps/web/lib/nightscout-client.ts:41-43 | a rejected `fetch` fails both calls with `NetworkFailure` (lines 70-72 for the status) |
| `NightscoutClient.ExplicitBaseUrlVerbatim` | apps/web/lib/nightscout-client.ts:37 | with an explicit base URL, whatever the environment, both calls request exactly that URL (count 24 when no limit is given) and decode the answer |
| `NightscoutClient.DefaultClientUsesEnvironment` | apps/web/lib/nightscout-client.ts:67 | a default client requests the status from the URL that the environment resolves to |
| `Env.TrimStart` | apps/web/lib/env.ts:12-13 | a suffix of the input; everything removed is whitespace; the rest does not start with whitespace |
| `Env.TrimEnd` | apps/web/lib/env.ts:12-13 | a prefix of the input; everything removed is whitespace; the rest does not end with whitespace |
| `Env.Trim` | apps/web/lib/env.ts:12-13 | a contiguous slice of the input with only whitespace before and after it; empty iff the input is all whitespace; otherwise starts and ends with non-whitespace |
| `Env.TrimIdempotent` | apps/web/lib/env.ts:12-13 | trimming a trimmed value changes nothing |
| `Env.SanitizeBaseUrl` | apps/web/lib/env.ts:3-5 | a final `/` is removed, and any other input is returned unchanged |
| `Env.SanitizeRemovesAtMostOneSlash` | apps/web/lib/env.ts:3-5 | the result is the input or the input minus one final `/`: a prefix, at most one character shorter |
| `Env.SanitizeDoubleSlash` | apps/web/lib/env.ts:4 | `"a//"` becomes `"a/"` |
| `Env.SanitizeFallbackIsIdentity` | apps/web/lib/env.ts:16 | sanitising the fallback URL is the identity |
| `Env.ChosenValue` | apps/web/lib/env.ts:8-10 | the public variable whenever it is defined, else the private one |
| `Env.GetApiBaseUrl` | apps/web/lib/env.ts:7-17 | a missing or blank chosen value gives the fallback; any other result is a prefix of the trimmed chosen value, at most one character shorter |
| `Env.PublicVariableWins` | apps/web/lib/env.ts:8-12 | once the public variable is defined the private one never matters, and a blank public one gives the fallback |
| `Env.ChosenValueUsed` | apps/web/lib/env.ts:12-13 | a chosen value with non-blank text gives `sanitizeBaseUrl(trim(value))`, a prefix of the trimmed value at most one character shorter |
| `Env.FallbackUsed` | apps/web/lib/env.ts:12-16 | no defined variable, or a blank chosen one, gives exactly `http://localhost:1337/api/v1` |
| `Env.FallbackIff` | apps/web/lib/env.ts:12-16 | the result is the fallback iff the chosen value is missing or blank, or itself trims and sanitises to the fallback |
| `Env.LoneSlashResolvesToEmpty` | apps/web/lib/env.ts:12-13 | a lone `/` passes the blank test and resolves to the empty string |
| `Env.SpaceBeforeSlashSurvives` | apps/web/lib/env.ts:12-13 | `"http://x /"` resolves to `"http://x "`, since trimming happens before the slash is stripped |
| `Dashboard.ErrorText` | apps/web/app/page.tsx:30-33 | an `Error` shows its message; any other thrown value shows `Unable to reach the Nightscout API` |
| `Dashboard.Rejection` | apps/web/app/page.tsx:25-28 | the rejection is that of the failing call, or of the first to fail when both fail |
| `Dashboard.DashboardPage` | apps/web/app/page.tsx:14-36 | both calls' values or neither: on success entries and status are the fetched ones and there is no error; on any failure entries are `[]`, status is `("unknown", [])`, and the error text is the rejection's |
| `Dashboard.MostRecentEntry` | apps/web/app/page.tsx:36 | the first entry, absent iff there are no entries |
| `Dashboard.GlucoseTone` | apps/web/app/page.tsx:69 | `success` iff a latest entry exists and 70 ≤ mgdl ≤ 180, `warning` otherwise |
| `Dashboard.GlucoseCard` | apps/web/app/page.tsx:57-70 | no entry shows "No data" / "Waiting for first reading"; an entry shows its rounded mg/dL and time; the tone is as for `GlucoseTone` |
| `Dashboard.SystemTone` | apps/web/app/page.tsx:80 | `success` iff `"ok"`, `warning` iff `"warn"`, `default` iff any other state |
| `Dashboard.DeviceDescription` | apps/web/app/page.tsx:75-79 | no devices gives "No device telemetry reported", one gives "1 connected device", n > 1 gives "n connected devices" |
| `Dashboard.NoDeviceSentenceOnlyForZero` | apps/web/app/page.tsx:75-79 | "No device telemetry reported" is shown iff there are no devices |
| `Dashboard.DeviceDescriptionInjective` | apps/web/app/page.tsx:75-79 | the description determines the device count |
| `Dashboard.SystemCard` | apps/web/app/page.tsx:72-81 | shows the state, the device description and the state's tone |
| `Dashboard.TrendValue` | apps/web/app/page.tsx:85 | the latest entry's direction when one is present (even an empty one), "Unknown" when there is no entry or no direction |
| `Dashboard.TrendCard` | apps/web/app/page.tsx:83-87 | shows the trend value with the default tone and the fixed description |
| `Dashboard.WarningBanner` | apps/web/app/page.tsx:49-53 | shown iff there is an error text and it is not empty, as that text followed by the fixed suffix |

## Left out

- The React `cache` deduplication of `fetchRecentEntries` and `fetchStatus` is not modelled. It is a library mechanism keyed by argument identity, and `createNightscoutClient()` builds a fresh configuration object on each call anyway.
- `fetch`, its 30-second `revalidate` option, `response.text()` and `response.json()` are network I/O and HTTP caching. What `fetch` yields is the `fetch` part of the `Runtime`: a `Response(ok, status, body, json)` or a rejection, where `json` stands for what `response.json()` yields. The link between `body` and `json` (JSON parsing) is not modelled.
- WHATWG URL parsing is not modelled. Which locations `new URL` accepts is the `parsesAsUrl` part of the `Runtime`. So the model does not derive that a particular location is refused, for example the `/entries.json` that an empty base URL gives. It only states what happens once a location is refused. `Request.Location` is the text handed to `new URL`.
- `searchParams.set("count", String(limit))` is not modelled as text: `count` is kept as an integer rather than printed.
- JSON numbers are `real`s. A literal that `JSON.parse` reads as `Infinity` (such as `1e400`) is not represented, and neither is rounding to a double.
- The `limit` is modelled as an integer; JavaScript would accept any number there.
- The messages of the `TypeError` and `SyntaxError` values the runtime throws are engine-specific, so those `ClientError` variants carry none. Because of that, the page takes the outcome of each client call as an abstract `Result` over `Thrown`, and `Thrown` is not derived from `ClientError`.
- `Promise.all` concurrency is not modelled. Which of two failing calls rejects first is a parameter of `DashboardPage`.
- `formatTimestamp` (`Date` parsing and locale time formatting) and `Math.round` are shown as the `CardText` values `MeasuredAt` and `RoundedMgdl`, which name what is displayed.
- JSX rendering is not modelled: the device list, the "Updated" badge, the sparkline section and the empty-devices placeholder, plus `StatusCard` styling, `TrendSparkline` geometry, `layout.tsx` and `tailwind.config.ts`.
- `apps/web/app/api/status/route.ts`, the HTTP handler wiring, is not part of this model.
- `NightscoutClient.FilterPresent`: its own contract only bounds the length. What it keeps is stated by `FilterPresentIsReadings` for the lists the client builds.
