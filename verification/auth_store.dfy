/** The frontend's token store: an in-memory `token` kept beside the `jwtToken` entry of
    `localStorage`, which is what the navigation guard reads. */
module AuthStore {
  import Wrappers
  import Router

  const TokenKey := "jwtToken"

  /** The values `setToken` is given: JavaScript `null`, `undefined` or a string. */
  datatype JsValue = Null | Undefined | Str(s: string)

  /** The string a value holds, if any: `null` and `undefined` hold none. */
  function AsString(v: JsValue): (s: Wrappers.Option<string>)
    ensures s.Some? <==> v.Str?
    ensures v.Str? ==> s.value == v.s
  {
    if v.Str? then Wrappers.Some(v.s) else Wrappers.None
  }

  /** JavaScript truthiness of a `JsValue`: that of the string it holds, so only a non-empty
      string is truthy. */
  predicate Truthy(v: JsValue) {
    Wrappers.Truthy(AsString(v))
  }

  /** `localStorage`: string keys to string values. */
  class LocalStorage {
    var items: map<string, string>

    constructor (items: map<string, string>)
      ensures this.items == items
    {
      this.items := items;
    }

    /** `getItem(key)`: the stored string, or `null` for a missing key. */
    function GetItem(key: string): (v: Wrappers.Option<string>)
      reads this
      ensures v.Some? <==> key in items
      ensures v.Some? ==> v.value == items[key]
    {
      Wrappers.Get(items, key)
    }

    method SetItem(key: string, value: string)
      modifies this
      ensures items == old(items)[key := value]
    {
      items := items[key := value];
    }

    method RemoveItem(key: string)
      modifies this
      ensures items == old(items) - {key}
    {
      items := items - {key};
    }
  }

  /** `localStorage.getItem("jwtToken") || null`: the stored token if it is truthy, else `null`. */
  function InitialToken(stored: Wrappers.Option<string>): (t: JsValue)
    ensures t == Null || Truthy(t)
    ensures Truthy(t) <==> Wrappers.Truthy(stored)
    ensures Truthy(t) ==> stored == Wrappers.Some(t.s)
  {
    if Wrappers.Truthy(stored) then Str(stored.value) else Null
  }

  /** The storage after `setToken(v)`: a truthy value is written under the key, anything else
      removes the key. */
  function StoredAfter(items: map<string, string>, v: JsValue): (r: map<string, string>)
    ensures Truthy(v) ==> TokenKey in r && r[TokenKey] == v.s
    ensures !Truthy(v) ==> TokenKey !in r
    ensures forall k :: k != TokenKey ==> Wrappers.Get(r, k) == Wrappers.Get(items, k)
  {
    if Truthy(v) then items[TokenKey := v.s] else items - {TokenKey}
  }

  /** The field and the storage agree on whether there is a token, and on its value if there is. */
  predicate Synced(token: JsValue, items: map<string, string>) {
    && (Truthy(token) <==> Wrappers.Truthy(Wrappers.Get(items, TokenKey)))
    && (Truthy(token) ==> Wrappers.Get(items, TokenKey) == Wrappers.Some(token.s))
  }

  /** `authStore`. */
  class Store {
    var token: JsValue
    const storage: LocalStorage

    /** Initialisation from whatever the storage holds when the module loads. */
    constructor (storage: LocalStorage)
      ensures this.storage == storage
      ensures token == InitialToken(Wrappers.Get(storage.items, TokenKey))
      ensures Synced(token, storage.items)
    {
      this.storage := storage;
      token := InitialToken(storage.GetItem(TokenKey));
    }

    /** `setToken(newToken)`: the field takes the value as given; the storage entry is written for
        a truthy value and removed otherwise; no other storage entry changes. */
    method SetToken(newToken: JsValue)
      modifies this, storage
      ensures token == newToken
      ensures storage.items == StoredAfter(old(storage.items), newToken)
      ensures Synced(token, storage.items)
    {
      token := newToken;
      if Truthy(newToken) {
        storage.SetItem(TokenKey, newToken.s);
      } else {
        storage.RemoveItem(TokenKey);
      }
    }
  }

  /** Initialisation always yields a field in step with the storage. */
  lemma InitiallySynced(items: map<string, string>)
    ensures Synced(InitialToken(Wrappers.Get(items, TokenKey)), items)
  {
  }

  /** `setToken` leaves field and storage in step, even for a falsy value such as `""`. */
  lemma SetTokenSyncs(items: map<string, string>, v: JsValue)
    ensures Synced(v, StoredAfter(items, v))
  {
  }

  /** Round trip: after `setToken(v)` with a truthy `v`, re-initialising from storage gives `v`. */
  lemma TruthyRoundTrip(items: map<string, string>, v: JsValue)
    requires Truthy(v)
    ensures InitialToken(Wrappers.Get(StoredAfter(items, v), TokenKey)) == v
  {
  }

  /** After `setToken(v)` with a falsy `v` the key is gone and re-initialising gives `null`,
      although the field itself holds `v` (say `""` or `undefined`). */
  lemma FalsyClears(items: map<string, string>, v: JsValue)
    requires !Truthy(v)
    ensures TokenKey !in StoredAfter(items, v)
    ensures InitialToken(Wrappers.Get(StoredAfter(items, v), TokenKey)) == Null
  {
  }

  /** `setToken(v)` twice leaves the storage as `setToken(v)` once (the field is `v` either way). */
  lemma SetTokenIdempotent(items: map<string, string>, v: JsValue)
    ensures StoredAfter(StoredAfter(items, v), v) == StoredAfter(items, v)
  {
  }

  /** What the guard then does: after `setToken(v)` the log viewer opens exactly when `v` is
      truthy, and the login page sends the user home exactly when `v` is truthy. */
  lemma GuardAfterSetToken(items: map<string, string>, v: JsValue)
    ensures var stored := Wrappers.Get(StoredAfter(items, v), TokenKey);
            && Router.BeforeEach(Router.At(Router.Routes[2]), stored)
                 == (if Truthy(v) then Router.Proceed else Router.RedirectTo("Login"))
            && Router.BeforeEach(Router.At(Router.Routes[1]), stored)
                 == (if Truthy(v) then Router.RedirectTo("Home") else Router.Proceed)
  {
  }
}
