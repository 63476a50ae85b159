# Nimbus weather dashboard: a Dafny model

Nimbus is a browser weather dashboard with an offline service worker. This
project models two parts of it and proves properties of each.

- The page script (`script.js`). It derives the indicators shown on the
  page:
  - the weather background class;
  - day or night;
  - the current hourly slot;
  - UV advice;
  - the additive "outside score" and its colour band;
  - the best hour to go outside.

  It also models the page state the handlers change: the body's class list,
  localStorage, the feels-like preference, the last request, and what the
  output area shows. The handlers modelled are fetchWeather, with its
  offline-snapshot fallback, and the dark and feels-like toggles.
- The service worker (`sw.js`). It models the browser's cache storage as a
  class. Its state is the bucket names in creation order, each bucket's
  URL-to-response entries, and a log of network fetches, bucket deletions
  and the client claim. The handlers modelled are:
  - install: precache the shell into `nimbus-v5-static`, all or nothing;
  - activate: delete every bucket whose name does not start with
    `nimbus-v5`, then claim the pages;
  - fetch: network-first for hosts containing `open-meteo.com` and
    cache-first for everything else, always writing to `nimbus-v5-runtime`.

Files:

- `common.dfy`: `Option` and the JavaScript string operations used
  (`startsWith`, `includes`, two-digit `Number(slice)`).
- `indicators.dfy`: module `Indicators`. The pure rules are functions with
  lemmas. The two loops (`calculateOutsideScore`, the `renderBestHours`
  scan) are methods proved equal to those functions.
- `page.dfy`: module `Page`. The class `Dashboard` holds the page state.
- `service_worker.dfy`: module `ServiceWorker`. The class `CacheStorage`
  has the install, activate and fetch handlers.

Modelling choices:

- Instants are integers, in milliseconds since the epoch.
- Measurements are `real`.
- Hourly timestamps are strings `YYYY-MM-DDTHH:MM`.
- The network and the clock are parameters.
- A value stored in localStorage is either plain text or the JSON of a
  snapshot. Parsing that JSON gives the same snapshot back.

Where the code and the usual description of the app differ, the model
follows the code:

- If the forecast request fails and no snapshot is stored, the loading
  text stays on screen. No "no data" message is shown.
- The feels-like toggle re-renders the stored snapshot as online data. The
  "offline" marker is dropped, even if the snapshot came from the offline
  fallback.
- `caches.open` creates the static bucket before `addAll` runs. A failed
  install therefore leaves `nimbus-v5-static` in place, empty if it was
  new, with its old entries if it already existed. The all-or-nothing rule
  covers the entries, not the bucket.
- Activation keeps every name with the `nimbus-v5` prefix. A bucket named
  `nimbus-v50-static` would survive too.
- Neither fetch branch checks the response's status or the request's
  method before calling `cache.put`. The platform's `Cache.put` rejects a
  request whose URL scheme is not `http` or `https`, a non-GET request, and
  a 206 (partial) response. Because the put is not
  awaited, that rejection is silent, and the model leaves the cache
  unchanged in those cases.

## Model

| member | source | states |
|---|---|---|
| Indicators.WeatherClass | script.js:53-65 | The class is one of the five weather classes. Code 0 gives "clear-night" at night and "sunny" by day. Codes 1..48 give "cloudy". 71..77 and 85..86 give "snowy". Every other code gives "rainy". Each case is an if-and-only-if. |
| Indicators.PrecipitationCodesAreRainy | script.js:58-64 | Drizzle, rain, shower and thunderstorm codes (51..67, 80..82, 95..99) always show as rainy, by day or night. |
| Page.AppliedClasses | script.js:43-65 | After applyWeatherClass, the body holds exactly one weather class, the one for the code. Every class outside the five (e.g. "dark") is present exactly when it was before. |
| Page.AppliedClassesIdempotent | script.js:53-65 | Applying the same weather twice gives the same classes as applying it once. |
| Page.Dashboard.ClearWeatherClasses | script.js:43-51 | Removes the five weather classes. Nothing else changes. |
| Page.Dashboard.ApplyWeatherClass | script.js:53-65 | The in-place class-list update produces `AppliedClasses` of the old classes. Storage, preference, last request and view are unchanged. |
| Indicators.IsNight | script.js:72-77 | Night holds exactly when now is outside [sunrise, sunset]. |
| Indicators.SunriseAndSunsetAreDay | script.js:76 | The instants of sunrise and of sunset both count as day. |
| Indicators.CurrentHourIndex | script.js:79-82 | The result is -1 exactly when every hourly instant is earlier than now. Otherwise it is the least index whose instant is not earlier than now. |
| Indicators.FindFrom | script.js:81 | The `findIndex` scan from a given position: the first index at or after it with an instant not earlier than now, or -1 when none exists. |
| Indicators.UvTierOf | script.js:133-135 | "High" exactly when uv >= 6. "Moderate" exactly when 3 <= uv < 6. "Low" exactly when uv < 3. |
| Indicators.UvTierMonotone | script.js:133-135 | A higher UV index never gets a milder tier. |
| Indicators.UvAdvice | script.js:124-138 | Advice is given exactly when the UV value is present and now lies in [sunrise, sunset]. It is then the tier of the value. |
| Indicators.OutsideScore | script.js:140-156 | The score is 100 less the three penalties: 25 for temp < 5 or > 30, 20 for wind > 25, 30 for rain > 2. It always lies in [25, 100], so the clamp at 0 never applies. |
| Indicators.ScoreNonIncreasingInRain | script.js:154 | More rain never raises the score. |
| Indicators.ScoreNonIncreasingInWind | script.js:146 | More wind never raises the score. |
| Indicators.ScoreNonIncreasingAwayFromComfort | script.js:145 | Moving the temperature further away from the band [5, 30] never raises the score. |
| Indicators.RainToday | script.js:148-152 | The day's rainfall is 0 when no hourly timestamp starts with today's date. |
| Indicators.RainTodayIgnoresOtherDays | script.js:148-152 | Changing the rainfall of an entry whose timestamp does not start with today's date leaves the day's total unchanged. |
| Indicators.RainTodayNonNegative | script.js:148-152 | With no negative readings, the day's total is not negative. |
| Indicators.CalculateOutsideScore | script.js:140-156 | The loop sums the rainfall of the entries starting with today's date. The result equals `OutsideScore` of the temperature, the wind and that total, so it lies in [25, 100]. |
| Indicators.BandOf | script.js:207-209 | The band is "bad" exactly below 40, "okay" exactly in 40..69, and "good" exactly from 70. |
| Indicators.BandCountsPenalties | script.js:206-209 | The score's colour band counts the penalties: "bad" when all three apply, "okay" for two, "good" for at most one. |
| Indicators.HourOf | script.js:169 | The hour is the two-digit number at characters 11..12 of the timestamp: its tens digit is character 11 and its units digit character 12, so it lies in 0..99. |
| Indicators.HourScore | script.js:172-174 | An hour scores 40, 60, 80 or 100. It beats 50 exactly when the rain is at most 0.5 mm or the wind is at most 20. |
| Indicators.Inspected | script.js:166 | The scan inspects all entries but the last one. |
| Indicators.Eligible | script.js:167-170 | An entry is inspected further exactly when its timestamp starts with today's date and its hour lies in 9..19. |
| Indicators.BestAmong | script.js:163-179 | The fold over the first k entries: a result is an eligible entry (today, hour in 9..19) among them, carrying that entry's score. |
| Indicators.BestAmongIsEarliestMaximum | script.js:163-179 | The scan finds nothing exactly when no inspected entry is from today with an hour in 9..19. Otherwise it finds such an entry. Its score is the highest among those entries, and no earlier such entry has the same score, so ties keep the earliest hour. |
| Indicators.SelectBestHour | script.js:161-179 | The loop over indices 0..length-2, with its two `continue` filters and strict `>` replacement, returns the scan's result over all entries but the last. |
| Indicators.BannerHour | script.js:181-183 | An hour is announced exactly when there is a best candidate scoring above 50, and it is that candidate's hour. |
| Indicators.BannerIffDryHour | script.js:176-184 | A best hour is announced exactly when some inspected entry of today in 9..19 has at most 0.5 mm of rain or wind at most 20. |
| Page.FlagText | script.js:36 | A preference is written as "1" when on and "0" when off. |
| Page.FlagOn | script.js:22 | A preference reads as on exactly when the stored value is the text "1"; an absent key or any other value reads as off. |
| Page.FlagRoundTrip | script.js:22-38 | A preference written as "1"/"0" reads back as the same boolean. |
| Page.StoredSnapshot | script.js:302-304 | A snapshot is found exactly when the last-weather key holds one, and it is that snapshot. |
| Page.ClassesFor | script.js:194 | renderCurrent leaves exactly one weather class on the body, the one for the forecast's code and day/night, and keeps every other class. |
| Page.Toggled | script.js:33 | `classList.toggle(name)` flips the membership of that name and leaves every other class as it was. |
| Page.Dashboard.constructor | script.js:21-30 | On page load the feels preference is on only for stored "1", and "dark" is added only for stored "1". There is no last request and nothing is shown yet. |
| Page.Dashboard.ToggleDark | script.js:32-38 | Toggles "dark" and stores "1" exactly when the body now has it. The stored dark flag agrees with the body afterwards. An agreeing feels flag stays agreeing. |
| Page.Dashboard.ToggleFeels | script.js:99-104 | Flips the preference and stores it as "1"/"0". With a stored snapshot, that snapshot is shown as online data with its weather class. Without one, the view and classes are unchanged. |
| Page.Dashboard.RenderCurrent | script.js:190-194 | Shows the snapshot with its offline marker and applies the weather class for its conditions and day/night. |
| Page.Dashboard.FetchWeather | script.js:288-310 | Always records the request. On success it overwrites the single stored snapshot with the label, data and time, and shows it online. On failure storage is unchanged: the stored snapshot is shown marked offline, or, without one, the loading text stays. Both stored preferences stay in agreement. |
| Page.TogglesCancel | script.js:32-38 | On any page, pressing each toggle twice restores the feels preference and the "dark" class, and storage ends as before with both flags written to match them. When the stored flags already matched, storage as a whole is restored. |
| ServiceWorker.OpenNames | sw.js:30 | `caches.open`: the names afterwards are exactly the old names and the opened one. The old names keep their order at the front, a new name is added last, and the names stay distinct. |
| ServiceWorker.OpenBuckets | sw.js:30 | `caches.open`: the bucket exists afterwards. Existing buckets keep their entries, and a new one is empty. |
| ServiceWorker.CacheStorage.Open | sw.js:30 | The storage is updated by `OpenNames` and `OpenBuckets`, keeping names distinct and in step with the buckets. |
| ServiceWorker.PutAccepted | sw.js:71 | The platform's `Cache.put` accepts exactly a GET request for an `http:` or `https:` URL with a response whose status is not 206. |
| ServiceWorker.ExtensionRequestsNotStored | sw.js:82-84 | A GET for a `chrome-extension:` URL that cache-first fetches and stores leaves the runtime bucket as `caches.open` left it: the platform refuses the put. |
| ServiceWorker.PutEntry | sw.js:71 | `cache.put` changes only the named bucket, setting the request's URL to the response. A request for another URL scheme, a non-GET request or a 206 response changes nothing. |
| ServiceWorker.CacheStorage.Put | sw.js:84 | Applies `PutEntry` to the storage. Names and events are unchanged. |
| ServiceWorker.FetchOk | sw.js:31 | `Cache.addAll` accepts exactly a fetched response with a 2xx status other than 206. |
| ServiceWorker.Batch | sw.js:31 | The entries `addAll` writes are exactly the precached URLs, each with its fetched response. |
| ServiceWorker.FetchLog | sw.js:31 | `addAll` issues one fetch per URL, in order. |
| ServiceWorker.CacheStorage.AddAll | sw.js:31 | Every URL is fetched in order. The result is true exactly when every fetch gave an OK, non-206 response. Then the whole batch is written; otherwise nothing is written. |
| ServiceWorker.CacheStorage.Install | sw.js:26-34 | The static bucket is opened. Install succeeds exactly when every shell asset fetched OK, and then the bucket holds all five assets. On failure the bucket exists but none of the entries are written. |
| ServiceWorker.Retained | sw.js:45-49 | The names activate keeps, in key order. There are never more of them than there were names. |
| ServiceWorker.DeletionLog | sw.js:45-49 | The deletions activate performs, one per key at most, in key order. |
| ServiceWorker.Doomed | sw.js:46-47 | The names activate deletes. There are never more of them than there were names. |
| ServiceWorker.RetainedMembers | sw.js:45-49 | Activation keeps exactly the names starting with `nimbus-v5`, and never more names than there were. |
| ServiceWorker.RetainedConcat | sw.js:45-49 | The kept names keep their original order: those kept from a concatenation are the first part's followed by the second part's. |
| ServiceWorker.DeletionLogMembers | sw.js:45-49 | Activation deletes exactly the names not starting with `nimbus-v5`, and nothing else. |
| ServiceWorker.DoomedMembers | sw.js:46-47 | The deleted buckets are exactly those whose names lack the version prefix. |
| ServiceWorker.CurrentNamesKept | sw.js:45-49 | When every name has the version prefix, activation keeps all of them in order and deletes none. |
| ServiceWorker.RetainedIdempotent | sw.js:41-53 | A second activation of the same version keeps every name and deletes nothing. |
| ServiceWorker.CurrentBucketsSurvive | sw.js:6-8 | Of `nimbus-v3`, `nimbus-v4-static`, `nimbus-v5-static` and `nimbus-v5-runtime`, exactly the last two survive. A `nimbus-v50-static` bucket would survive too. |
| ServiceWorker.Without | sw.js:47 | `caches.delete` removes exactly the deleted name from the bucket list and keeps the others distinct. |
| ServiceWorker.Purge | sw.js:43-50 | The loop over the keys gives the kept names, the buckets less the deleted ones (kept buckets unchanged) and the deletions in key order. |
| ServiceWorker.CacheStorage.PurgeOtherVersions | sw.js:43-50 | The storage after the deletions: the retained names, the buckets less the deleted ones, and one deletion event per deleted name in key order. |
| ServiceWorker.CacheStorage.Activate | sw.js:41-53 | As `PurgeOtherVersions`, then the client claim as the last event, after every deletion. |
| ServiceWorker.IsApiRequest | sw.js:66 | A request goes network-first exactly when its origin contains `open-meteo.com` somewhere. |
| ServiceWorker.WeatherHostsAreApi | sw.js:66 | Both the forecast host and the geocoding host count as API requests. |
| ServiceWorker.MatchFrom | sw.js:81 | `caches.match` finds nothing exactly when no bucket holds the URL. Otherwise it finds the entry of the oldest bucket holding it. |
| ServiceWorker.ReplyOf | sw.js:74 | A found entry is served as is. Nothing found is a network error for the page. |
| ServiceWorker.Match | sw.js:74 | A non-GET request never matches. A GET request matches as `MatchFrom` over all buckets. |
| ServiceWorker.HeldUrlMatches | sw.js:81-82 | A GET for a URL that any bucket holds, e.g. a precached asset, is always a cache hit. |
| ServiceWorker.StoreNames | sw.js:84 | `caches.open(RUNTIME_CACHE)` before a put: the runtime bucket is among the names afterwards, appended last if it was new. |
| ServiceWorker.StoreBuckets | sw.js:84 | Storing a fetched response creates the runtime bucket if needed. The bucket keeps its other entries and gains the request's URL, unless the platform refuses the put, when it is as before. Every other bucket, the static one included, keeps its entries. |
| ServiceWorker.CacheStorage.NetworkFirst | sw.js:66-77 | The network is always tried. On a response, that response is returned unchanged and stored in the runtime bucket. On failure the reply is whatever `caches.match` finds (nothing is a network error), and the cache is not written. |
| ServiceWorker.CacheStorage.CacheFirst | sw.js:80-88 | On a hit the cached response is returned, with no fetch and no write. On a miss the network is tried. Its response is stored in the runtime bucket and returned. A network failure is passed on, with no fallback. |
| ServiceWorker.CacheStorage.HandleFetch | sw.js:61-89 | Requests whose origin contains `open-meteo.com` go network-first: one fetch is logged, and a response is stored in the runtime bucket. All others go cache-first: a hit fetches and writes nothing; a miss logs one fetch and stores a response. No bucket but the runtime one ever changes, no bucket disappears, and a failed network leaves the storage untouched. The reply follows the branch taken. |

## Left out

- DOM rendering is not modelled: the `innerHTML` templates, `renderHourly`/`renderDaily` markup, `toLocaleDateString`, the map panel. Only the values these parts compute are kept (the UV tier, the score band, the banner hour). The badge's CSS class and text are not modelled.
- The wind-chill formula of `calculateFeelsLike` is floating-point arithmetic with `Math.pow` and `Math.round` and is not modelled. The preference that selects it is.
- The random location is not modelled because it depends on `Math.random` and `toFixed`.
- Geocoding, geolocation, URL building and the timer-driven auto-location are foreign calls. Their result reaches the model only as the arguments of `FetchWeather`.
- `Date` parsing and `Date.now()` are not modelled. Instants are integer parameters.
- `JSON.stringify`/`JSON.parse` are taken as an exact round trip on snapshots. Malformed JSON and a non-snapshot text under the last-weather key are treated as "no snapshot". The page would throw instead.
- Indicators.HourOf: a timestamp without two digits at positions 11..12 is outside the model. The page would get `NaN`. Both hour comparisons are false for `NaN`, so such an entry passes the hour filter, is scored, and can be announced as "NaN:00".
- Indicators.BestAmongIsEarliestMaximum: the hourly time, precipitation and wind arrays are taken to have equal length, as the forecast API returns them.
- Indicators.CalculateOutsideScore: the rainfall sum uses exact real addition, not floating point.
- Page.Dashboard.RenderCurrent: only the page state is modelled. The markup and the calls to `renderHourly`/`renderDaily` are left out, as are exceptions thrown while rendering.
- Page.Dashboard.FetchWeather: a response that is not OK counts as a failure, like a network error. The JSON body is taken as parsed.
- The body's class list is a set, so its order is not modelled.
- `self.skipWaiting()` is not modelled. `self.clients.claim()` is kept only as an event, to fix its order after the deletions.
- Page.Dashboard.FetchWeather: an exception thrown while rendering a successful answer (for instance `renderHourly` reading entry -1 when `currentHourIndex` is -1) is caught by the failure handler. The snapshot just stored is then shown again, marked offline. That path is not modelled.
- Page.Dashboard.FetchWeather: the request and its answer are one atomic step. On the page the answer arrives later. Another `fetchWeather` call or a feels-like toggle can run in between, and a slower earlier response can then overwrite the snapshot of a later request. That interleaving is not modelled.
- The un-awaited `cache.put` and concurrent fetch events are not modelled. Each handler runs to completion, with the put applied before it returns.
- ServiceWorker.Request: the origin is a separate field of the request, not derived from its URL as `new URL(req.url).origin` does. URL parsing is not modelled.
- Vary headers, URL resolution of the relative shell paths, and `addAll`'s rejection of duplicate requests are not modelled. Cache keys are URLs.
- ServiceWorker.CacheStorage.Install: the install event's outcome is the boolean returned. The worker's lifecycle after a failed install is not modelled.
