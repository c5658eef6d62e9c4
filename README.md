# Typing-practice UI: verified model of its tools and routes

This project models the state-keeping and decision logic of the typing-practice web UI's
front end. It has four independent parts, one Dafny module each.

- `SchemeStyleSheet` (`scheme_style_sheet.dfy`) is the colour-scheme stylesheet generator. It
  takes an ordered list of named values, each one string or a `[light, dark]` pair, plus a
  prefix. From these it builds three things:
  - a map from every name to `var(--prefix-name)`;
  - the light declaration string, with one `--prefix-name: value;` per entry;
  - the dark declaration string, with one declaration per pair-valued entry only.
  All of it is pure functions and lemmas.
- `LocalStorage` (`local_storage.dfy`) is the namespaced key-value store. Every key is stored
  as `Tx3/<key>`. Reads fall back to the legacy unprefixed key. Writes move the value to the
  namespaced key and delete the legacy one. A module-wide list of `(key, callback)` subscribers
  is notified about this tab's writes and about other tabs' storage events.
  - The store object is the class `Storage`. Its `store` map and its `subscribers` sequence are
    fields that its methods reassign.
  - Callbacks are identified by numbers, and calling them is modelled as returning the list of
    notifications in call order.
  - The `forEach` and `findIndex` loops are methods with loop invariants. Each `forEach` loop
    is proved equal to a recursive specification function. The `findIndex` loop is proved to
    return the first matching position, or -1 when nothing matches.
- `ThrottledCallback` (`throttled_callback.dfy`) is the time-window throttle. The class
  `Throttled` holds the cache, which is either absent or `{time, value}`. `Call(args, now)`
  either answers from the cache or runs the callback and caches its result. A ghost counter
  records how many times the callback has really run. The pure function `Step` states one call
  on values, and the lemmas about runs of calls use it.
- `Routes` (`routes.dfy`) is the route guard and the route table. A guarded route shows its
  children exactly when `pub == !user`. Otherwise it redirects to `/` when a user is logged in
  and to `/login` when none is. It is proved that every path reaches the composer or the login
  page within three redirects.

`Wrappers` (`wrappers.dfy`) holds the `Option` type that stands for JavaScript's
`undefined`/`null`.

Inputs from outside the model are parameters:
- the clock (`now`);
- whether a browser window and its storage exist (`available`);
- the JSON codec (`parse`, `stringify`, supplied to the `Storage` constructor);
- the throttled callback;
- whether a user is logged in (`hasUser`).

## Model

| member | source | states |
|---|---|---|
| `SchemeStyleSheet.VariableName` | ui/src/tools/createSchemeStyleSheet.tsx:48-50 | the custom property name is `--`, then the prefix, then `-`, then the name, and has exactly that length |
| `SchemeStyleSheet.VariableNameInjective` | ui/src/tools/createSchemeStyleSheet.tsx:48-50 | under one prefix, distinct names never share a custom property |
| `SchemeStyleSheet.Variables` | ui/src/tools/createSchemeStyleSheet.tsx:10-13 | the fold's map has exactly the scheme's names as keys, each mapped to `var(` + its variable name + `)` |
| `SchemeStyleSheet.Declaration` | ui/src/tools/createSchemeStyleSheet.tsx:16 | a declaration `--prefix-name: value;` is never empty |
| `SchemeStyleSheet.LightDeclarations` | ui/src/tools/createSchemeStyleSheet.tsx:15-16 | one declaration per entry, in entry order, using the pair's first element or the single value |
| `SchemeStyleSheet.PairEntries` | ui/src/tools/createSchemeStyleSheet.tsx:19-20 | the filter keeps every pair entry and only pair entries; it is no longer than the scheme; it is empty iff no entry is a pair; it is the whole scheme when all entries are pairs |
| `SchemeStyleSheet.PairEntriesAppend` | ui/src/tools/createSchemeStyleSheet.tsx:19-20 | the filter keeps order and multiplicity: adding an entry appends it to the pair entries exactly when it is a pair |
| `SchemeStyleSheet.DarkDeclarations` | ui/src/tools/createSchemeStyleSheet.tsx:19-21 | the dark declarations are never more numerous than the entries |
| `SchemeStyleSheet.DarkDeclarationsFilterThenMap` | ui/src/tools/createSchemeStyleSheet.tsx:19-21 | position by position, the dark declarations are the filtered pair entries, in entry order, each declared with its second element |
| `SchemeStyleSheet.JoinAppend` | ui/src/tools/createSchemeStyleSheet.tsx:17 | `join("")` inserts no separator: joining a concatenation is concatenating the joins |
| `SchemeStyleSheet.JoinEmpty` | ui/src/tools/createSchemeStyleSheet.tsx:22 | a joined string is empty iff every part is empty |
| `SchemeStyleSheet.LightSheetAppend` | ui/src/tools/createSchemeStyleSheet.tsx:15-17 | adding an entry appends exactly its light declaration to the light sheet, so the sheet is the in-order concatenation of the entries' declarations |
| `SchemeStyleSheet.DarkDeclarationsAppend` | ui/src/tools/createSchemeStyleSheet.tsx:19-21 | adding an entry appends its dark declaration when it is a pair and nothing otherwise |
| `SchemeStyleSheet.DarkSheetAppend` | ui/src/tools/createSchemeStyleSheet.tsx:19-22 | the dark sheet grows by the added entry's dark declaration when it is a pair and is unchanged otherwise |
| `SchemeStyleSheet.DarkNoLongerThanLight` | ui/src/tools/createSchemeStyleSheet.tsx:15-22 | the dark sheet has no more declarations than the light sheet |
| `SchemeStyleSheet.DarkSheetEmptyIffNoPairs` | ui/src/tools/createSchemeStyleSheet.tsx:19-22 | the dark sheet is the empty string iff no entry is a pair |
| `SchemeStyleSheet.AllPairsSameVariables` | ui/src/tools/createSchemeStyleSheet.tsx:15-22 | when every entry is a pair, both sheets declare the same variables in the same order, the light one with the first element and the dark one with the second |
| `LocalStorage.Prefix` | ui/src/tools/localStorage.tsx:57 | the namespaced key is `Tx3/` followed by the key |
| `LocalStorage.PrefixInjective` | ui/src/tools/localStorage.tsx:57 | distinct keys have distinct namespaced keys |
| `LocalStorage.PrefixIsNotKey` | ui/src/tools/localStorage.tsx:28-29 | a key is never its own namespaced key, so a write's deletion of the legacy key cannot erase the value just stored |
| `LocalStorage.HasIn` | ui/src/tools/localStorage.tsx:12-15 | `has` is true iff a store exists and the namespaced key is present; the legacy key is never consulted |
| `LocalStorage.ReadFrom` | ui/src/tools/localStorage.tsx:16-20 | `read` gives the default without a store; otherwise it uses the namespaced item, else the legacy item; it gives the default when neither exists or the item parses to `null` or to nothing; a non-default result is the parsed item |
| `LocalStorage.StoreAfterWrite` | ui/src/tools/localStorage.tsx:28-29 | after a write, the namespaced key holds the serialised value, the legacy key is absent and every other key is unchanged |
| `LocalStorage.StoreAfterRemove` | ui/src/tools/localStorage.tsx:35-39 | after `remove`, the namespaced and legacy keys are absent and every other key is unchanged |
| `LocalStorage.ReadAfterWrite` | ui/src/tools/localStorage.tsx:16-29 | after a write, `has` is true and `read` returns the written value whenever the codec parses it back to a non-null value |
| `LocalStorage.ReadAfterRemove` | ui/src/tools/localStorage.tsx:12-39 | after `remove`, `has` is false and `read` returns the default |
| `LocalStorage.WriteOfPrefixedKeyDropsOwner` | ui/src/tools/localStorage.tsx:28-29 | writing the key `Tx3/<j>` deletes `Tx3/<j>` as its legacy slot, so `has(j)` becomes false |
| `LocalStorage.WriteNotificationsAppend` | ui/src/tools/localStorage.tsx:30 | a write's notifications follow the subscriber list's order |
| `LocalStorage.EventNotificationsAppend` | ui/src/tools/localStorage.tsx:4-9 | a storage event's notifications follow the subscriber list's order |
| `LocalStorage.WriteNotifiesExactlyKeySubscribers` | ui/src/tools/localStorage.tsx:30 | a write notifies a callback iff it is registered under exactly the written key, always with the written value, and makes no more calls than there are registrations |
| `LocalStorage.EventNotifiesExactlyMatching` | ui/src/tools/localStorage.tsx:4-9 | a storage event notifies a callback iff it is registered under a key that equals the event's key or whose namespaced form does, with the parsed new value |
| `LocalStorage.NullKeyEventNotifiesNobody` | ui/src/tools/localStorage.tsx:6 | a storage event with a `null` key notifies nobody |
| `LocalStorage.ForeignWriteReachesKeySubscribers` | ui/src/tools/localStorage.tsx:4-9 | provided nobody is subscribed under the literal key `Tx3/<key>`, the `Tx3/<key>` event that another tab's write of `key` raises reaches the same callbacks, in the same order, as a write of `key` in this tab |
| `LocalStorage.LegacyDeleteEventReachesKeySubscribers` | ui/src/tools/localStorage.tsx:4-9 | when another tab's write also deletes an occupied legacy slot `key` (line 29), the resulting `key` event with a `null` value calls every subscriber of `key` with `undefined` |
| `LocalStorage.CollectWriteNotifications` | ui/src/tools/localStorage.tsx:30 | the filter-then-`forEach` loop produces exactly the write's notifications |
| `LocalStorage.CollectEventNotifications` | ui/src/tools/localStorage.tsx:5-8 | the listener's `forEach` loop produces exactly the event's notifications |
| `LocalStorage.FindIndex` | ui/src/tools/localStorage.tsx:47 | `findIndex` returns -1 iff no entry has this key and callback; otherwise it returns the first such entry's position |
| `LocalStorage.RemoveFirstAt` | ui/src/tools/localStorage.tsx:47-48 | splicing at the index `findIndex` finds removes the first registration of that key and callback |
| `LocalStorage.RemoveFirstAbsent` | ui/src/tools/localStorage.tsx:48 | when nothing matches, unsubscribing leaves the list unchanged |
| `LocalStorage.SubscribeThenUnsubscribe` | ui/src/tools/localStorage.tsx:43-49 | subscribing a callback that was not registered and then calling its unsubscribe function restores the list |
| `LocalStorage.UnsubscribeRemovesOne` | ui/src/tools/localStorage.tsx:46-49 | unsubscribing removes exactly one registration of the key and callback when there is one, keeps every other entry, and changes nothing otherwise |
| `LocalStorage.SubscribedIsNotifiedLast` | ui/src/tools/localStorage.tsx:30-44 | a newly subscribed callback is the last one that a write of its key notifies |
| `LocalStorage.Storage.constructor` | ui/src/tools/localStorage.tsx:58-67 | the store starts with the given items and an empty subscriber list |
| `LocalStorage.Storage.Read` | ui/src/tools/localStorage.tsx:16-20 | `read` on the object's state is `ReadFrom` of its availability, codec and items |
| `LocalStorage.Storage.Has` | ui/src/tools/localStorage.tsx:12-15 | `has` on the object's state: a store exists and the namespaced key is present |
| `LocalStorage.Storage.Write` | ui/src/tools/localStorage.tsx:21-34 | an updater is applied to the current `read(key)` (default `null`); with a store, the new state is the write's store and the result is the key's subscribers' notifications; without a store, nothing is stored and nobody is notified; the subscriber list is unchanged |
| `LocalStorage.Storage.Remove` | ui/src/tools/localStorage.tsx:35-39 | with a store, both keys are deleted and nothing else; without one, nothing changes |
| `LocalStorage.Storage.Clear` | ui/src/tools/localStorage.tsx:40-42 | with a store, it is emptied; the subscriber list is unchanged |
| `LocalStorage.Storage.Subscribe` | ui/src/tools/localStorage.tsx:43-45 | appends exactly one `(key, callback)` entry at the end |
| `LocalStorage.Storage.Unsubscribe` | ui/src/tools/localStorage.tsx:46-49 | removes the first entry matching both key and callback; when there is none, the list is unchanged; when there is one, the list shrinks by one |
| `LocalStorage.Storage.OnStorageEvent` | ui/src/tools/localStorage.tsx:4-9 | the listener's notifications are the event's matching subscribers, with the parsed new value |
| `ThrottledCallback.EffectiveDelay` | ui/src/tools/useThrottledCallback.tsx:13 | the delay defaults to 1000 |
| `ThrottledCallback.Step` | ui/src/tools/useThrottledCallback.tsx:17-29 | a call without a cache always runs the callback; a call runs it iff there is no cache or `now >= cached.time + delay`, so a call exactly at `time + delay` is not suppressed; a suppressed call keeps the cache and discards its arguments; a real call caches `{now, callback(args)}`; the returned value is always the cached value |
| `ThrottledCallback.InvocationsSpaced` | ui/src/tools/useThrottledCallback.tsx:17-29 | over any run of calls, consecutive real invocations are at least `delay` apart, and the first is at least `delay` after the cached time |
| `ThrottledCallback.QuietWindow` | ui/src/tools/useThrottledCallback.tsx:19-21 | every call made before the cached time plus `delay` runs nothing and returns the cached value |
| `ThrottledCallback.Throttled.constructor` | ui/src/tools/useThrottledCallback.tsx:13-15 | the cache starts empty and the callback has run zero times |
| `ThrottledCallback.Throttled.Call` | ui/src/tools/useThrottledCallback.tsx:17-29 | the new cache and the result are those of one `Step`; the invocation count grows by one exactly when the callback runs; the result equals the cached value afterwards |
| `Routes.Guard` | ui/src/corns/Routes.tsx:17-22 | renders the children iff `pub` (default false) equals `!user`; otherwise redirects to `/` with a user and to `/login` without one |
| `Routes.GuardRedirects` | ui/src/corns/Routes.tsx:18-21 | a public route with a user redirects to `/`; a private route without a user redirects to `/login`; an omitted `pub` acts as false |
| `Routes.RouterTable` | ui/src/corns/Routes.tsx:10-15 | `/login` is a public guarded login page, `/app` a private guarded composer, `/` a private guarded redirect to `/app`, and every other path redirects to `/` |
| `Routes.Render` | ui/src/corns/Routes.tsx:17-22 | a guarded page is shown iff the visitor is the audience its `pub` flag names; an admitted visitor gets the children (page or navigation); a refused one is navigated to `/` with a user and to `/login` without one; a bare redirect navigates to its target |
| `Routes.EveryPathLands` | ui/src/corns/Routes.tsx:10-22 | from any path, at most three redirects lead to the composer when a user is logged in and to the login page when none is |

## Left out

- ui/src/corns/Composer.tsx only forwards a textarea's value, so there is no matching logic to model. ComposerRoute.tsx and App.tsx are React state wiring, logging and constant texts.
- ui/src/corns/Progress.tsx is floating-point presentation (bar width and `toFixed`).
- ui/src/data/UserProvider.tsx and LoginRoute.tsx are asynchronous promises, timers, `alert` and form handling. They appear here only as the `hasUser` flag.
- ui/src/tools/useLocalStorage.tsx is React `useState`/`useEffect` glue around the store and the throttle, which are modelled on their own.
- ui/src/tools/parseJson.tsx and `JSON.stringify` are the foreign JSON codec, passed in as functions. JSON numbers are modelled as integers.
- The `createGlobalStyle` stylesheet template (createSchemeStyleSheet.tsx:24-43) and all styled-components CSS are library calls and styling. The model stops at the two declaration strings that the template embeds.
- Registering the `storage` listener on `window`, and publishing the store as `window.atlasLocalStorage` (localStorage.tsx:69), are host wiring. The listener's behaviour is `Storage.OnStorageEvent`.
- react-router's path matching is modelled as exact string comparison with a final catch-all. Case-insensitive matching and trailing slashes are not modelled.
- `SchemeStyleSheet.Variables`: the scheme is an ordered list of entries, and duplicate names are not excluded. A JavaScript object's keys are unique, and the map depends only on the names, so nothing is lost.
- `LocalStorage.Storage.Write`: does not model exceptions. A `stringify` that throws, or a subscriber callback that throws, stops the write midway; the source catches the exception and logs it. The model assumes the codec and the callbacks return normally.
- `LocalStorage.Storage.Write`: availability is one flag, standing for "`localStorage` exists". The source checks `set`, `stringify` and `del` separately. `set` and `del` come from `window.localStorage` and `stringify` from `window`, so a storage implies a window and all three exist. A window without a storage is modelled as no store.
- `LocalStorage.Storage.OnStorageEvent`: callbacks are assumed not to change the subscriber list or the store while they are being notified. The listener iterates the live `subscribers` array, so in the source a callback that subscribes, unsubscribes or writes during notification can change who is notified next. `Storage.Write` likewise computes its notifications from the list as it was before the calls.
- `ThrottledCallback.Throttled.Call`: the source reads `Date.now()` twice, once for the test and once for the stored time. The model uses one `now` for both, so a clock tick between the two reads is not modelled.
- `ThrottledCallback.Throttled.Call`: the callback is a mathematical function of its arguments. Side effects of a real callback are not modelled, and neither is the `use-ref-callback` indirection that always calls the latest callback.
- `ThrottledCallback.Throttled.Call`: the delay is fixed when the object is built. Through `use-ref-callback` the source uses the `delay` of the latest render, so a delay that changes between renders is not modelled.
- `ThrottledCallback.Throttled.Call`: `now`, `delay` and the cached time are integers. They are JavaScript numbers in the source, so fractional delays and times are not modelled.
