# DataTribe offline worker and page script, modelled in Dafny

This project models the offline core of the DataTribe Collective site: the
service worker (`sw.js`) and the validation and routing logic of the page
script (`js/modern.js`).

The service worker keeps two durable stores per release generation:

- the **bootstrap** store (`datatribe-static-v1.0.0`), filled at install time from a fixed manifest;
- the **overflow** store (`datatribe-dynamic-v1.0.0`), which grows as the router sees cacheable network responses.

Its handlers, and where they are modelled:

| handler | what it does | module |
|---|---|---|
| install | fetches the manifest into the bootstrap store as one batch | `Install` |
| activate | deletes every store of another generation | `Activate` |
| fetch | answers requests cache-first | `FetchRouter` |
| sync | drains the queue of pending newsletter subscriptions | `BackgroundSync` |
| push / notificationclick | show a fixed-shape notification and react to its two actions | `PushNotifications` |

From the page script the project models:

- the e-mail check;
- the required-field and e-mail validation of `submitForm`;
- how the join form's entries become a user record and a redirect;
- the `as` attribute of preload links;
- the notification banner's colour lookup.

How the model is built:

- Stores are values. `CacheStorage.Caches` lists store names in creation order, so `caches.match` is deterministic.
- Every handler is a function or method from the old state and its inputs to the new state and a log of outward calls (`Events.Effect`). Install, activate and the sync drain also return how their promise settles (`Events.Settlement`); the fetch, sync-dispatch, push and click handlers do not, because their results are the response, the queue or the log.
- Things outside the code are parameters:
  - the network (`Events.Network`);
  - which store deletions fail;
  - whether loading the durable queue succeeds;
  - which submissions and removals succeed.

## Behaviour of the code worth knowing

- **Install.** The install promise fulfils even when `addAll` fails: the `catch` at sw.js:35-37 swallows the failure. The bootstrap store opened at sw.js:26 remains, empty on a fresh worker (`Scenarios.FailedInstallLeavesEmptyStore`), and `skipWaiting` is not called.
- **Activate.** The deletions at sw.js:48-55 go through `Promise.all` with no catch of their own. One failed deletion rejects the activate promise, so `clients.claim()` at sw.js:59 is never called. The other deletions still happen.
- **Offline fallback.** A failed network fetch of a document is answered with the stored `/index.html` (sw.js:110-111), whichever page was asked for.
- **Persisting.** Only responses with status exactly 200 and type `basic` are copied into the overflow store (sw.js:91).
- **Sync load failure.** A failure to load the queue is caught by the outer `try` at sw.js:127-140, so the drain still fulfils.

## Model

| member | source | states |
|---|---|---|
| CacheStorage.Open | sw.js:26 | opening a store creates it empty only when missing and leaves every store's contents as they were |
| CacheStorage.Put | sw.js:99-102 | after a put the store holds the response under the key, every other entry of every store is unchanged, and the store set grows by at most the opened name |
| CacheStorage.Delete | sw.js:52 | deleting a store removes exactly that name and leaves the other stores' contents untouched |
| CacheStorage.Match | sw.js:78-84 | a lookup returns nothing iff no store holds the key, and otherwise a response some store holds under it |
| CacheStorage.MatchAfterPut | sw.js:99-102 | storing under a key no store held makes later lookups of that key return exactly what was stored |
| Generation.StaticDynamicDisjoint | sw.js:3-4 | the bootstrap and overflow names never coincide, for any two versions |
| Generation.NamesInjective | sw.js:3-4 | names of different versions never collide, so stores of other releases are recognisably stale |
| Generation.LegacyCacheIsStale | sw.js:2 | the declared but unused `datatribe-v1.0.0` name is not one activation keeps |
| Generation.Resolve | sw.js:7-19 | a path resolves to exactly the worker's origin followed by the path; an absolute URL (the fonts stylesheet) is kept as is |
| Generation.OfflinePageInManifest | sw.js:9 | the offline fallback page is one of the manifest entries |
| Install.AddAll | sw.js:29 | `addAll` is all or nothing: every key is stored with its network response when all fetches are acceptable and distinct, otherwise the stores are unchanged |
| Install.HandleInstall | sw.js:22-39 | install always fulfils. It fetches every manifest entry in order and opens the bootstrap store even on failure. When the batch commits it stores the whole manifest, and it asks to skip waiting iff the batch commits. Entries the bootstrap store already held outside the manifest are kept unchanged. A failed batch leaves the bootstrap store as it was, or empty. No other store changes |
| Activate.StaleNames | sw.js:49-50 | the names activation deletes are exactly the listed names that are not the two current ones, with no repeats when the listing has none |
| Activate.Reap | sw.js:48-55 | reaping removes exactly the stale stores whose deletion succeeds and leaves every survivor's contents unchanged |
| Activate.HandleActivate | sw.js:42-62 | A store survives iff it is current or its deletion failed, and survivors are untouched. Exactly the stale stores are asked to be deleted. The claim happens iff no stale deletion fails, iff the promise fulfils; it comes last, after only deletions. The log holds nothing but deletions and the claim, none of them twice. A fulfilled activation leaves only current stores |
| Activate.ActivateIdempotent | sw.js:42-62 | activating twice with the same deletion outcomes leaves the stores as one activation did |
| Activate.CurrentStoresSurvive | sw.js:50 | the current generation's stores always survive activation with their contents |
| FetchRouter.HandleFetch | sw.js:65-116 | Declined iff not a GET or not same-origin-or-fonts-host. A stored response wins and the network is not asked. The network is asked iff the lookup misses, and its response is returned unchanged. The overflow store changes iff the response is 200/basic, and then serves it. A network failure changes nothing and falls back to the stored `/index.html` only for documents. No other entry of any store changes |
| FetchRouter.InterceptionRule | sw.js:67-75 | a request is intercepted iff it is a GET and same-origin or its host name contains `fonts.googleapis.com` somewhere |
| FetchRouter.PersistedResponseIsServed | sw.js:88-104 | round trip: after a miss answered by a 200/basic response, the same request is served that response from the store, with no network call, whatever the network does |
| BackgroundSync.RemoveById | sw.js:133 | removing a record by id keeps exactly the records with other ids |
| BackgroundSync.Retained | sw.js:130-137 | the records left after a drain are exactly those whose submission or removal failed |
| BackgroundSync.SyncNewsletterSubscriptions | sw.js:126-141 | The drain always fulfils and a load failure changes nothing. Otherwise the queue left is the records that did not complete, in order. The call log is submit-then-remove per record, in queue order, with the removal only after a successful submission |
| BackgroundSync.EachRecordSubmittedOnceInOrder | sw.js:130-137 | whatever fails, every queued record is submitted exactly once, in queue order |
| BackgroundSync.HandleSync | sw.js:119-123 | only the `newsletter-sync` tag drains the queue; then the remaining queue is the records that did not complete, the log is one submit attempt per record followed by its removal when the submit succeeded, and the submitted ids are the queue's ids in order |
| BackgroundSync.MiddleFailureLeavesOnlyIt | sw.js:130-137 | with records R1 and R3 succeeding and R2's submission failing, the drain leaves exactly [R2] |
| PushNotifications.HandlePush | sw.js:162-187 | a push shows one notification iff it carries a parseable payload, with the payload's title and body, the logo icon, the favicon badge, the fixed tag, interaction required, and the actions `open` ("Open Website") then `close` ("Close") |
| PushNotifications.HandleNotificationClick | sw.js:190-198 | a click always closes the notification first, and opens exactly one window, on the site root, iff the action is `open` |
| PushNotifications.OfferedActionsRoute | sw.js:171-180 | of the actions a shown notification offers, the first opens the root and the second only closes |
| Text.TrimEmptyIff | js/modern.js:165 | a value trims to nothing iff every character is JavaScript whitespace |
| Text.ContainsIff | sw.js:73 | the scanning `includes` holds iff the substring occurs at some position |
| Email.IsValidEmailIff | js/modern.js:193-196 | the executable e-mail check accepts exactly the strings matched by `^[^\s@]+@[^\s@]+\.[^\s@]+$` |
| Email.AcceptedShape | js/modern.js:194 | an accepted address holds exactly one `@` and no whitespace |
| FormValidation.Label | js/modern.js:166 | the required message names the field by name, else placeholder, else "This field" |
| FormValidation.MissingRequiredIff | js/modern.js:164-169 | the required check flags a field iff it is required and its value is empty or all whitespace |
| FormValidation.FormEntries | js/modern.js:151-152 | the data returned has exactly the named controls' names as keys, and a name used once maps to that control's value |
| FormValidation.SubmitForm | js/modern.js:149-190 | The form data is returned iff no field fails a check. A rejection carries at least one error, and the errors are exactly the required-check reports in field order, then the e-mail-check reports in field order, with their messages. The data returned is the form's entries |
| JoinForm.Get | js/modern.js:405-411 | `get` returns nothing iff no entry has the name, else the first entry's value |
| JoinForm.GetAll | js/modern.js:409 | `getAll` returns exactly the values under the name |
| JoinForm.GetAllSingle | js/modern.js:409 | `getAll` of one entry is its value when the name matches, else nothing |
| JoinForm.GetAllAppend | js/modern.js:409 | `getAll` distributes over concatenation, so it lists every value under the name in entry order, duplicates included |
| JoinForm.GetIsFirstOfGetAll | js/modern.js:405-411 | `get` is empty iff `getAll` is, and is otherwise its first element |
| JoinForm.CollectUserData | js/modern.js:404-412 | fullName, email, userType, experience and goals are each missing iff no entry has that name, and otherwise the first such entry's value; newsletter is set iff the first `newsletter` entry is `yes`; the interests are the `interests` values in entry order |
| JoinForm.RouteFor | js/modern.js:429-449 | mentors go to the mentor form, partners to the partner form, and everyone else (unknown or missing type included) to Discord. The mentor message is shown iff the type is `mentor`, the partner message iff it is `partner`, the learning-path message iff it is `learning-path`, and the welcome message for every other type |
| JoinForm.HandleJoinForm | js/modern.js:397-449 | the stored record is the collected user data and the page opened is one of the three URLs, chosen by the first `userType` entry, which also chooses the message announced |
| PageHelpers.PreloadDestination | js/modern.js:295 | the `as` attribute is `style` iff the resource ends in `.css`, and `script` iff it does not |
| PageHelpers.PreloadLinks | js/modern.js:285-300 | one preload link per resource, in order, `as` style iff the resource ends in `.css` |
| PageHelpers.CriticalResourcesPreloaded | js/modern.js:285-296 | the stylesheet is preloaded as a style and the script as a script |
| PageHelpers.BackgroundColour | js/modern.js:232-262 | as written: a palette type gets its colour, an inherited member name gets no colour, and any other type gets the info colour |
| PageHelpers.IntendedBackgroundColour | js/modern.js:256-262 | corrected: every type gets a palette colour, the info colour iff it is not success, error or warning |
| PageHelpers.BackgroundColourAgreesOutsideInherited | js/modern.js:256-262 | the code gives the intended colour for every type that is not an inherited member name |
| PageHelpers.InheritedNameGetsNoColour | js/modern.js:262 | the type `toString` gets no background instead of the info colour |
| Scenarios.OfflineNavigationServesInstalledIndex | sw.js:106-112 | after a successful install and activation, an offline document request for an unstored page is answered with the `/index.html` fetched at install |
| Scenarios.ManifestServedFromStore | sw.js:78-84 | after a successful install, every manifest entry is served from the store with no network call and no store change |
| Scenarios.FailedInstallLeavesEmptyStore | sw.js:25-38 | on a fresh worker whose first manifest fetch fails, install fulfils, leaves an empty bootstrap store and does not skip waiting |

## Left out

- Console logging is not modelled.
- Concurrency is not modelled. The overflow write is fire-and-forget in the code but is modelled as complete when the fetch step ends. Overlapping fetch events are not modelled.
- `caches.match` request matching is reduced to the absolute URL. Methods, `Vary` and match options are not modelled, since only GET requests reach the stores.
- `new URL(...)` parsing is not modelled. A request carries its origin and host name already parsed.
- Install.HandleInstall: `addAll` fetches its requests concurrently; the model logs them in manifest order. Response bodies are values, so `clone()` is a copy.
- Activate.HandleActivate: deletions run concurrently under `Promise.all`. They are logged in enumeration order. Every deletion takes effect even when another rejects.
- Failures of `skipWaiting()` and `clients.claim()` are not modelled: both are taken to succeed.
- The queue stubs `getPendingSubscriptions`, `submitNewsletterSubscription` and `removePendingSubscription` are stubs in the code: an empty queue and two no-ops. The model takes the queue and the outcome of each call as parameters.
- BackgroundSync.SyncNewsletterSubscriptions: requires distinct ids in the queue. The durable queue is keyed by id, so the code never sees duplicates.
- BackgroundSync.HandleSync: requires distinct ids in the queue, for the same reason; it passes the queue to the drain.
- PushNotifications.HandlePush: a payload is either an object with string title and body or malformed. Missing fields (shown as `undefined`) are not modelled.
- Notification display and window opening are effects in the log; the browser's handling of them is not modelled.
- FormValidation.SubmitForm: the errors are the sequence of `showFieldError` calls. That call removes an earlier message in the same parent element. A browser strips leading and trailing ASCII whitespace from an `input[type="email"]` value, so typed spaces give an empty value and only the required message. A required e-mail field holding only non-ASCII whitespace such as U+00A0 keeps that value: `trim` removes it, so it is flagged as missing, and then as a bad address, and only the e-mail message stays on screen. The model takes `value` as the script reads it (browser value sanitisation is not modelled) and does not model the DOM.
- FormValidation.SubmitForm: the one-second delay, the clearing of earlier errors and the `throw` are not modelled. Rejection is the `Rejected` outcome.
- FormValidation.FormEntries: every field is taken to be a successful form control. Unchecked boxes, disabled controls and file inputs are not modelled.
- JoinForm.HandleJoinForm: `localStorage`, `alert`, `window.open`, the button state, the timeout and the modal are not modelled. The outcome records what is stored, announced and opened.
- The rest of `js/modern.js` is not part of this model. That covers the nav toggle and anchor scrolling, the accessibility helpers (skip link, keyboard-navigation class, live region) and the lazy-load image observer. It also covers the join modal's open and close, the `initForms` submit wiring, the global error listeners, `debounce`/`throttle`, `isInViewport` and `logPerformance`. These are DOM and UI glue with no logic to prove.
- The ordering of install before activate, and the waiting and active states between them, are not modelled. The browser runs that lifecycle, not the worker code.

## Findings

| source | as written | input that shows it | evidently intended | confidence | as-written member | corrected member |
|---|---|---|---|---|---|---|
| js/modern.js:262 | `colors[type] \|\| colors.info` looks the type up on a plain object literal, which also answers for names inherited from `Object.prototype`. Such a name gives a truthy function or object (`__proto__` gives `Object.prototype`), so there is no fallback, and the browser rejects it as a colour. | `showNotification(msg, 'toString')`: the banner gets no background colour | an unknown type gets the info colour | not executed | PageHelpers.BackgroundColour (with PageHelpers.InheritedNameGetsNoColour) | PageHelpers.IntendedBackgroundColour (with PageHelpers.BackgroundColourAgreesOutsideInherited) |
