/**
 * The application's wrapper around the browser's string-keyed local storage. Every key is
 * namespaced as `Tx3/<key>`; reads fall back to the legacy unprefixed key, writes move the value
 * to the prefixed key and drop the legacy one, and a module-wide list of `(key, callback)`
 * subscribers is told about writes made here and about storage events raised by other tabs.
 *
 * Callbacks are identified by a `SubscriberId` (the source compares them by reference), and
 * calling them is modelled by returning the sequence of notifications, in call order. The JSON
 * codec is passed in as two functions, `parse` and `stringify`.
 */
module LocalStorage {
  import opened Wrappers

  /** The JSON values the store holds (numbers are modelled as integers). */
  datatype Json =
    | JNull
    | JBool(b: bool)
    | JNumber(n: int)
    | JString(s: string)
    | JArray(items: seq<Json>)
    | JObject(fields: map<string, Json>)

  /** A subscriber callback, compared by identity. */
  type SubscriberId = nat

  /** One registration in the subscriber list: the key it listens to and its callback. */
  type Subscription = (string, SubscriberId)

  /** One call of a subscriber callback with the value it receives (`None` is `undefined`). */
  datatype Notification = Notify(subscriber: SubscriberId, value: Option<Json>)

  /** The value argument of `write`: a value, or a function of the value currently read. */
  datatype WriteValue = Value(v: Json) | Update(f: Json -> Json)

  const KeyPrefix: string := "Tx3/"

  /** The namespaced key under which `key` is stored. */
  function Prefix(key: string): (r: string)
    ensures |r| == |key| + 4
    ensures r[..4] == KeyPrefix && r[4..] == key
  {
    KeyPrefix + key
  }

  /** Distinct keys are stored under distinct namespaced keys. */
  lemma PrefixInjective(a: string, b: string)
    requires Prefix(a) == Prefix(b)
    ensures a == b
  {
  }

  /** A key is never its own namespaced key, so a write's delete of the legacy key keeps the new value. */
  lemma PrefixIsNotKey(key: string)
    ensures Prefix(key) != key
  {
  }

  /** `parseJson`: a missing item (`null`) parses to `undefined`, a string goes to the codec. */
  function ParseJson(parse: string -> Option<Json>, text: Option<string>): Option<Json> {
    match text
    case None => None
    case Some(t) => parse(t)
  }

  /** JavaScript's `parsed ?? default`: both `undefined` and `null` give the default. */
  function OrDefault(parsed: Option<Json>, default: Json): Json {
    if parsed.None? || parsed.value == JNull then default else parsed.value
  }

  /** `has`: only the namespaced key is consulted, and without a store the answer is false. */
  function HasIn(available: bool, store: map<string, string>, key: string): (r: bool)
    ensures r <==> available && Prefix(key) in store
  {
    available && Prefix(key) in store
  }

  /**
   * `read`: the namespaced item if there is one, else the legacy item, parsed; the default
   * when there is no store, no item, or the item parses to `null` or fails to parse.
   */
  function ReadFrom(available: bool, parse: string -> Option<Json>, store: map<string, string>,
                    key: string, default: Json): (r: Json)
    ensures !available ==> r == default
    ensures available && Prefix(key) in store ==> r == OrDefault(parse(store[Prefix(key)]), default)
    ensures available && Prefix(key) !in store && key in store ==> r == OrDefault(parse(store[key]), default)
    ensures available && Prefix(key) !in store && key !in store ==> r == default
    ensures r != default ==> r != JNull && ParseJson(parse, Lookup(store, key)) == Some(r)
  {
    if !available then default
    else OrDefault(ParseJson(parse, Lookup(store, key)), default)
  }

  /** `get(prefix(key)) ?? get(key)`. */
  function Lookup(store: map<string, string>, key: string): Option<string> {
    if Prefix(key) in store then Some(store[Prefix(key)])
    else if key in store then Some(store[key])
    else None
  }

  /** The value `write` stores: an updater is applied to what `read(key)` currently gives. */
  function Resolve(value: WriteValue, current: Json): Json {
    match value
    case Value(v) => v
    case Update(f) => f(current)
  }

  /** The store after a write of `text` under `key`: the namespaced key set, the legacy key gone. */
  function StoreAfterWrite(store: map<string, string>, key: string, text: string): (r: map<string, string>)
    ensures Prefix(key) in r && r[Prefix(key)] == text
    ensures key !in r
    ensures forall k :: k != key && k != Prefix(key) ==> (k in r <==> k in store)
    ensures forall k :: k in r && k != Prefix(key) ==> r[k] == store[k]
  {
    PrefixIsNotKey(key);
    store[Prefix(key) := text] - {key}
  }

  /** The store after `remove(key)`: both the namespaced and the legacy key gone, nothing else touched. */
  function StoreAfterRemove(store: map<string, string>, key: string): (r: map<string, string>)
    ensures Prefix(key) !in r && key !in r
    ensures forall k :: k != key && k != Prefix(key) ==> (k in r <==> k in store)
    ensures forall k :: k in r ==> r[k] == store[k]
  {
    store - {Prefix(key), key}
  }

  /** After a write, reading the key gives back the written value whenever the codec round-trips it. */
  lemma ReadAfterWrite(parse: string -> Option<Json>, store: map<string, string>, key: string,
                       text: string, v: Json, default: Json)
    requires parse(text) == Some(v) && v != JNull
    ensures HasIn(true, StoreAfterWrite(store, key, text), key)
    ensures ReadFrom(true, parse, StoreAfterWrite(store, key, text), key, default) == v
  {
  }

  /** After a removal, the key is absent and reads give the default, whatever the legacy slot held. */
  lemma ReadAfterRemove(parse: string -> Option<Json>, store: map<string, string>, key: string, default: Json)
    ensures !HasIn(true, StoreAfterRemove(store, key), key)
    ensures ReadFrom(true, parse, StoreAfterRemove(store, key), key, default) == default
  {
  }

  /**
   * Writing the key `Tx3/<j>` deletes `Tx3/<j>` as its legacy slot, which is where the key `j`
   * itself is stored: such a write makes `has(j)` false.
   */
  lemma WriteOfPrefixedKeyDropsOwner(store: map<string, string>, j: string, text: string)
    ensures !HasIn(true, StoreAfterWrite(store, Prefix(j), text), j)
  {
  }

  // ---------------------------------------------------------------------------------------
  // Notifications

  /** The notifications of `write(key, value)`: every subscriber of exactly `key`, in list order. */
  function WriteNotifications(subs: seq<Subscription>, key: string, value: Json): seq<Notification> {
    if subs == [] then []
    else (if subs[0].0 == key then [Notify(subs[0].1, Some(value))] else [])
         + WriteNotifications(subs[1..], key, value)
  }

  /** Whether a subscription to `subKey` reacts to a storage event for `eventKey` (`None` is a `null` key). */
  predicate EventMatches(subKey: string, eventKey: Option<string>) {
    eventKey.Some? && (subKey == eventKey.value || Prefix(subKey) == eventKey.value)
  }

  /** The notifications of a storage event: every matching subscriber, in list order, with the parsed new value. */
  function EventNotifications(subs: seq<Subscription>, eventKey: Option<string>, value: Option<Json>): seq<Notification> {
    if subs == [] then []
    else (if EventMatches(subs[0].0, eventKey) then [Notify(subs[0].1, value)] else [])
         + EventNotifications(subs[1..], eventKey, value)
  }

  /** Notifications follow list order: a longer list notifies its own subscribers after the others. */
  lemma {:induction false} WriteNotificationsAppend(a: seq<Subscription>, b: seq<Subscription>, key: string, value: Json)
    ensures WriteNotifications(a + b, key, value) == WriteNotifications(a, key, value) + WriteNotifications(b, key, value)
  {
    if a == [] {
      assert a + b == b;
    } else {
      var head := if a[0].0 == key then [Notify(a[0].1, Some(value))] else [];
      assert (a + b)[0] == a[0] && (a + b)[1..] == a[1..] + b;
      WriteNotificationsAppend(a[1..], b, key, value);
      calc {
        WriteNotifications(a + b, key, value);
        head + WriteNotifications(a[1..] + b, key, value);
        head + (WriteNotifications(a[1..], key, value) + WriteNotifications(b, key, value));
        (head + WriteNotifications(a[1..], key, value)) + WriteNotifications(b, key, value);
      }
    }
  }

  lemma {:induction false} EventNotificationsAppend(a: seq<Subscription>, b: seq<Subscription>,
                                                    eventKey: Option<string>, value: Option<Json>)
    ensures EventNotifications(a + b, eventKey, value)
            == EventNotifications(a, eventKey, value) + EventNotifications(b, eventKey, value)
  {
    if a == [] {
      assert a + b == b;
    } else {
      var head := if EventMatches(a[0].0, eventKey) then [Notify(a[0].1, value)] else [];
      assert (a + b)[0] == a[0] && (a + b)[1..] == a[1..] + b;
      EventNotificationsAppend(a[1..], b, eventKey, value);
      calc {
        EventNotifications(a + b, eventKey, value);
        head + EventNotifications(a[1..] + b, eventKey, value);
        head + (EventNotifications(a[1..], eventKey, value) + EventNotifications(b, eventKey, value));
        (head + EventNotifications(a[1..], eventKey, value)) + EventNotifications(b, eventKey, value);
      }
    }
  }

  /** A write notifies a callback exactly when it is registered under that very key, and always with the written value. */
  lemma {:induction false} WriteNotifiesExactlyKeySubscribers(subs: seq<Subscription>, key: string, value: Json,
                                                              id: SubscriberId, v: Option<Json>)
    ensures Notify(id, v) in WriteNotifications(subs, key, value) <==> (key, id) in subs && v == Some(value)
    ensures |WriteNotifications(subs, key, value)| <= |subs|
  {
    if subs != [] {
      WriteNotifiesExactlyKeySubscribers(subs[1..], key, value, id, v);
      assert subs == [subs[0]] + subs[1..];
    }
  }

  /** A storage event notifies a callback exactly when its key, or that key namespaced, is the event's key. */
  lemma {:induction false} EventNotifiesExactlyMatching(subs: seq<Subscription>, eventKey: Option<string>,
                                                        value: Option<Json>, id: SubscriberId, v: Option<Json>)
    ensures Notify(id, v) in EventNotifications(subs, eventKey, value)
            <==> v == value && exists k :: (k, id) in subs && EventMatches(k, eventKey)
  {
    if subs != [] {
      EventNotifiesExactlyMatching(subs[1..], eventKey, value, id, v);
      assert subs == [subs[0]] + subs[1..];
      if v == value && exists k :: (k, id) in subs && EventMatches(k, eventKey) {
        var k :| (k, id) in subs && EventMatches(k, eventKey);
        if (k, id) != subs[0] {
          assert (k, id) in subs[1..];
        }
      }
    }
  }

  /** A storage event with a `null` key (another tab cleared the store) notifies nobody. */
  lemma {:induction false} NullKeyEventNotifiesNobody(subs: seq<Subscription>, value: Option<Json>)
    ensures EventNotifications(subs, None, value) == []
  {
    if subs != [] {
      NullKeyEventNotifiesNobody(subs[1..], value);
    }
  }

  /**
   * Another tab's write of `key` raises a storage event for `Tx3/<key>`. Provided nobody here is
   * subscribed under the literal key `Tx3/<key>` (such a subscriber is reached by the event but
   * not by a write of `key`), that event reaches the same subscribers as this tab's own write of
   * `key` would, in the same order.
   */
  lemma {:induction false} ForeignWriteReachesKeySubscribers(subs: seq<Subscription>, key: string,
                                                             value: Json, parsed: Option<Json>)
    requires forall s :: s in subs ==> s.0 != Prefix(key)
    ensures |EventNotifications(subs, Some(Prefix(key)), parsed)| == |WriteNotifications(subs, key, value)|
    ensures forall i :: 0 <= i < |WriteNotifications(subs, key, value)| ==>
              EventNotifications(subs, Some(Prefix(key)), parsed)[i].subscriber
              == WriteNotifications(subs, key, value)[i].subscriber
  {
    if subs != [] {
      assert subs[0] in subs;
      assert forall s :: s in subs[1..] ==> s in subs;
      ForeignWriteReachesKeySubscribers(subs[1..], key, value, parsed);
      assert EventMatches(subs[0].0, Some(Prefix(key))) <==> subs[0].0 == key by {
        if Prefix(subs[0].0) == Prefix(key) { PrefixInjective(subs[0].0, key); }
      }
    }
  }

  /**
   * When the other tab's write also deletes an occupied legacy slot `key`, that deletion raises a
   * second event, for `key` with a `null` new value: every subscriber of `key` here is then called
   * with `undefined`.
   */
  lemma LegacyDeleteEventReachesKeySubscribers(subs: seq<Subscription>, key: string, id: SubscriberId)
    requires (key, id) in subs
    ensures Notify(id, None) in EventNotifications(subs, Some(key), None)
  {
    EventNotifiesExactlyMatching(subs, Some(key), None, id, None);
  }

  /** The `forEach` over the filtered subscribers in `write`: one call per subscriber of `key`, in order. */
  method CollectWriteNotifications(subs: seq<Subscription>, key: string, value: Json)
    returns (notified: seq<Notification>)
    ensures notified == WriteNotifications(subs, key, value)
  {
    notified := [];
    var i := 0;
    while i < |subs|
      invariant 0 <= i <= |subs|
      invariant notified == WriteNotifications(subs[..i], key, value)
    {
      WriteNotificationsAppend(subs[..i], [subs[i]], key, value);
      assert subs[..i + 1] == subs[..i] + [subs[i]];
      if subs[i].0 == key {
        notified := notified + [Notify(subs[i].1, Some(value))];
      }
      i := i + 1;
    }
    assert subs[..i] == subs;
  }

  /** The storage-event listener's `forEach`: one call per matching subscriber, in order. */
  method CollectEventNotifications(subs: seq<Subscription>, eventKey: Option<string>, value: Option<Json>)
    returns (notified: seq<Notification>)
    ensures notified == EventNotifications(subs, eventKey, value)
  {
    notified := [];
    var i := 0;
    while i < |subs|
      invariant 0 <= i <= |subs|
      invariant notified == EventNotifications(subs[..i], eventKey, value)
    {
      EventNotificationsAppend(subs[..i], [subs[i]], eventKey, value);
      assert subs[..i + 1] == subs[..i] + [subs[i]];
      if EventMatches(subs[i].0, eventKey) {
        notified := notified + [Notify(subs[i].1, value)];
      }
      i := i + 1;
    }
    assert subs[..i] == subs;
  }

  // ---------------------------------------------------------------------------------------
  // Subscriber list

  /** What an unsubscribe does to the list: the first entry with both this key and this callback goes. */
  function RemoveFirst(subs: seq<Subscription>, key: string, id: SubscriberId): seq<Subscription> {
    if subs == [] then []
    else if subs[0] == (key, id) then subs[1..]
    else [subs[0]] + RemoveFirst(subs[1..], key, id)
  }

  /** `findIndex`: the first position holding `(key, id)`, or -1 when there is none. */
  method FindIndex(subs: seq<Subscription>, key: string, id: SubscriberId) returns (index: int)
    ensures -1 <= index < |subs|
    ensures index == -1 <==> (key, id) !in subs
    ensures index >= 0 ==> subs[index] == (key, id) && (key, id) !in subs[..index]
  {
    index := 0;
    while index < |subs|
      invariant 0 <= index <= |subs|
      invariant (key, id) !in subs[..index]
    {
      if subs[index].0 == key && subs[index].1 == id {
        return;
      }
      assert subs[..index + 1] == subs[..index] + [subs[index]];
      index := index + 1;
    }
    assert subs[..index] == subs;
    index := -1;
  }

  /** Removing the first match is the splice at the index `findIndex` gives; with no match nothing changes. */
  lemma {:induction false} RemoveFirstAt(subs: seq<Subscription>, key: string, id: SubscriberId, index: nat)
    requires index < |subs| && subs[index] == (key, id) && (key, id) !in subs[..index]
    ensures RemoveFirst(subs, key, id) == subs[..index] + subs[index + 1..]
  {
    if index > 0 {
      assert subs[..index] == [subs[0]] + subs[1..][..index - 1];
      RemoveFirstAt(subs[1..], key, id, index - 1);
    }
  }

  lemma {:induction false} RemoveFirstAbsent(subs: seq<Subscription>, key: string, id: SubscriberId)
    requires (key, id) !in subs
    ensures RemoveFirst(subs, key, id) == subs
  {
    if subs != [] {
      assert (key, id) !in subs[1..] by { assert forall s :: s in subs[1..] ==> s in subs; }
      RemoveFirstAbsent(subs[1..], key, id);
    }
  }

  /** Subscribing and then unsubscribing the same callback, when it was not registered before, restores the list. */
  lemma SubscribeThenUnsubscribe(subs: seq<Subscription>, key: string, id: SubscriberId)
    requires (key, id) !in subs
    ensures RemoveFirst(subs + [(key, id)], key, id) == subs
  {
    RemoveFirstAt(subs + [(key, id)], key, id, |subs|);
    assert (subs + [(key, id)])[..|subs|] == subs;
  }

  /** Unsubscribing removes one registration of the callback when there is one, and keeps every other entry. */
  lemma {:induction false} UnsubscribeRemovesOne(subs: seq<Subscription>, key: string, id: SubscriberId)
    ensures (key, id) in subs ==> multiset(RemoveFirst(subs, key, id)) == multiset(subs) - multiset{(key, id)}
    ensures (key, id) !in subs ==> RemoveFirst(subs, key, id) == subs
  {
    if (key, id) !in subs {
      RemoveFirstAbsent(subs, key, id);
    } else if subs[0] != (key, id) {
      assert subs == [subs[0]] + subs[1..];
      UnsubscribeRemovesOne(subs[1..], key, id);
    } else {
      assert subs == [subs[0]] + subs[1..];
    }
  }

  /** A newly subscribed callback is the last one a write of its key notifies. */
  lemma SubscribedIsNotifiedLast(subs: seq<Subscription>, key: string, id: SubscriberId, value: Json)
    ensures WriteNotifications(subs + [(key, id)], key, value)
            == WriteNotifications(subs, key, value) + [Notify(id, Some(value))]
  {
    WriteNotificationsAppend(subs, [(key, id)], key, value);
  }

  // ---------------------------------------------------------------------------------------
  // The store object

  /** The `localStorage` object together with the module-level subscriber list it shares. */
  class Storage {
    /** Whether a browser window, and with it a storage and `JSON.stringify`, exists. */
    const available: bool
    const parse: string -> Option<Json>
    const stringify: Json -> string
    /** The browser storage's items. */
    var store: map<string, string>
    /** The `subscribers` array, in registration order. */
    var subscribers: seq<Subscription>

    constructor (available: bool, parse: string -> Option<Json>, stringify: Json -> string,
                 items: map<string, string>)
      ensures this.available == available && this.parse == parse && this.stringify == stringify
      ensures store == items && subscribers == []
    {
      this.available := available;
      this.parse := parse;
      this.stringify := stringify;
      store := items;
      subscribers := [];
    }

    /** `localStorage.has`. */
    function Has(key: string): (r: bool)
      reads this
      ensures r <==> available && Prefix(key) in store
    {
      HasIn(available, store, key)
    }

    /** `localStorage.read`. */
    function Read(key: string, default: Json): (r: Json)
      reads this
      ensures r == ReadFrom(available, parse, store, key, default)
    {
      ReadFrom(available, parse, store, key, default)
    }

    /**
     * `localStorage.write`: resolve an updater against the current `read(key)` (default `null`),
     * then, when a store exists, store the serialised value under the namespaced key, drop the
     * legacy key and notify the key's subscribers.
     */
    method Write(key: string, value: WriteValue) returns (notified: seq<Notification>)
      modifies this
      ensures subscribers == old(subscribers)
      ensures var v := Resolve(value, old(Read(key, JNull)));
              if available then
                store == StoreAfterWrite(old(store), key, stringify(v))
                && notified == WriteNotifications(old(subscribers), key, v)
              else
                store == old(store) && notified == []
    {
      var v := Resolve(value, Read(key, JNull));
      if !available {
        return [];
      }
      store := StoreAfterWrite(store, key, stringify(v));
      notified := CollectWriteNotifications(subscribers, key, v);
    }

    /** `localStorage.remove`: drop the namespaced and the legacy key. */
    method Remove(key: string)
      modifies this
      ensures subscribers == old(subscribers)
      ensures store == if available then StoreAfterRemove(old(store), key) else old(store)
    {
      if !available {
        return;
      }
      store := StoreAfterRemove(store, key);
    }

    /** `localStorage.clear`: empty the whole store, including other applications' items. */
    method Clear()
      modifies this
      ensures subscribers == old(subscribers)
      ensures store == if available then map[] else old(store)
    {
      if available {
        store := map[];
      }
    }

    /** `localStorage.subscribe`: append one registration; `Unsubscribe` is the function it returns. */
    method Subscribe(key: string, id: SubscriberId)
      modifies this
      ensures store == old(store)
      ensures subscribers == old(subscribers) + [(key, id)]
    {
      subscribers := subscribers + [(key, id)];
    }

    /** The unsubscribe function: splice out the first registration of this key and callback, if any. */
    method Unsubscribe(key: string, id: SubscriberId)
      modifies this
      ensures store == old(store)
      ensures subscribers == RemoveFirst(old(subscribers), key, id)
      ensures (key, id) !in old(subscribers) ==> subscribers == old(subscribers)
      ensures (key, id) in old(subscribers) ==> |subscribers| == |old(subscribers)| - 1
    {
      var index := FindIndex(subscribers, key, id);
      if index != -1 {
        // `~index` is non-zero exactly when `index` is not -1
        RemoveFirstAt(subscribers, key, id, index);
        subscribers := subscribers[..index] + subscribers[index + 1..];
      } else {
        RemoveFirstAbsent(subscribers, key, id);
      }
    }

    /** The window's `storage` listener: notify the matching subscribers with the parsed new value. */
    method OnStorageEvent(eventKey: Option<string>, newValue: Option<string>) returns (notified: seq<Notification>)
      ensures notified == EventNotifications(subscribers, eventKey, ParseJson(parse, newValue))
    {
      notified := CollectEventNotifications(subscribers, eventKey, ParseJson(parse, newValue));
    }
  }
}
