/** The auth-token cache: a module-level cache in front of the device's secure
    key/value storage, with listeners told of every new token. */
module AuthToken {
  import opened Wrappers
  import opened JsText

  /** The storage key the token lives under. */
  const TokenKey: string := "token"

  /** The module-level cache: `undefined` until the first read or write, then a `string | null`. */
  datatype Cache = Unset | Cached(token: Option<string>)

  /** A call into the secure storage. */
  datatype StorageCall = GetItem(key: string) | SetItem(key: string, value: string) | DeleteItem(key: string)

  /** A subscribed callback, by identity. */
  type Listener = nat

  class TokenStore {
    var tokenCache: Cache
    /** The secure storage's contents. */
    var storage: map<string, string>
    /** Every call made into the secure storage, in order. */
    var storageCalls: seq<StorageCall>
    var listeners: set<Listener>
    /** The tokens each listener has been called with, in order. */
    var received: map<Listener, seq<Option<string>>>

    function Received(l: Listener): seq<Option<string>>
      reads this
    {
      if l in received then received[l] else []
    }

    /** A fresh app start over whatever the device's storage holds. */
    constructor (storage: map<string, string>)
      ensures tokenCache == Unset && this.storage == storage && storageCalls == []
      ensures listeners == {} && received == map[]
    {
      tokenCache := Unset;
      this.storage := storage;
      storageCalls := [];
      listeners := {};
      received := map[];
    }

    /** `getAuthToken`. `readFails` says whether the storage read throws. */
    method GetAuthToken(readFails: bool) returns (token: Option<string>)
      modifies this`tokenCache, this`storageCalls
      ensures old(tokenCache).Cached? ==>
        token == old(tokenCache).token && tokenCache == old(tokenCache) && storageCalls == old(storageCalls)
      ensures old(tokenCache) == Unset ==>
        && storageCalls == old(storageCalls) + [GetItem(TokenKey)]
        && token == (if readFails || TokenKey !in storage then None else Some(storage[TokenKey]))
        && tokenCache == Cached(token)
    {
      if tokenCache.Cached? {
        return tokenCache.token;
      }
      storageCalls := storageCalls + [GetItem(TokenKey)];
      if readFails {
        tokenCache := Cached(None);
      } else {
        tokenCache := Cached(if TokenKey in storage then Some(storage[TokenKey]) else None);
      }
      token := tokenCache.token;
    }

    /** `setAuthToken`: the cache first, then the storage (a truthy token is
        written, `null` or `""` deletes the key), then every listener. A storage
        failure (`persistFails`) is caught and leaves the storage as it was; a
        listener that throws is caught too, so the loop reaches every listener. */
    method SetAuthToken(token: Option<string>, persistFails: bool)
      modifies this`tokenCache, this`storage, this`storageCalls, this`received
      ensures tokenCache == Cached(token)
      ensures storageCalls == old(storageCalls)
        + [if Truthy(token) then SetItem(TokenKey, token.value) else DeleteItem(TokenKey)]
      ensures storage == (
        if persistFails then old(storage)
        else if Truthy(token) then old(storage)[TokenKey := token.value]
        else old(storage) - {TokenKey})
      ensures forall l :: Received(l) == old(Received(l)) + (if l in listeners then [token] else [])
    {
      tokenCache := Cached(token);
      if Truthy(token) {
        storageCalls := storageCalls + [SetItem(TokenKey, token.value)];
        if !persistFails {
          storage := storage[TokenKey := token.value];
        }
      } else {
        storageCalls := storageCalls + [DeleteItem(TokenKey)];
        if !persistFails {
          storage := storage - {TokenKey};
        }
      }
      var pending := listeners;
      while pending != {}
        modifies this`received
        invariant pending <= listeners
        invariant forall l :: Received(l) == old(Received(l)) + (if l in listeners - pending then [token] else [])
        decreases pending
      {
        var l :| l in pending;
        received := received[l := Received(l) + [token]];
        pending := pending - {l};
      }
    }

    /** `subscribeToTokenChanges`. */
    method Subscribe(listener: Listener)
      modifies this`listeners
      ensures listeners == old(listeners) + {listener}
    {
      listeners := listeners + {listener};
    }

    /** The function `subscribeToTokenChanges` returns. */
    method Unsubscribe(listener: Listener)
      modifies this`listeners
      ensures listeners == old(listeners) - {listener}
    {
      listeners := listeners - {listener};
    }
  }

  /** After a set, reads return the new token from the cache, even when
      persisting failed and whatever the storage would say. */
  method SetThenGetScenario(stored: map<string, string>, token: Option<string>, persistFails: bool, readFails: bool)
    returns (read: Option<string>, calls: seq<StorageCall>)
    ensures read == token
    ensures calls == [if Truthy(token) then SetItem(TokenKey, token.value) else DeleteItem(TokenKey)]
  {
    var store := new TokenStore(stored);
    store.SetAuthToken(token, persistFails);
    read := store.GetAuthToken(readFails);
    calls := store.storageCalls;
  }

  /** The first read caches what it found (null when absent or failing), and a
      second read returns that without touching the storage, a cached null included. */
  method ColdReadScenario(stored: map<string, string>, readFails: bool)
    returns (first: Option<string>, second: Option<string>, calls: seq<StorageCall>)
    ensures first == (if readFails || TokenKey !in stored then None else Some(stored[TokenKey]))
    ensures second == first && calls == [GetItem(TokenKey)]
  {
    var store := new TokenStore(stored);
    first := store.GetAuthToken(readFails);
    second := store.GetAuthToken(false);
    calls := store.storageCalls;
  }

  /** A listener that unsubscribed is not called by later sets; one still subscribed is. */
  method UnsubscribeScenario(stay: Listener, leave: Listener, token: Option<string>)
    returns (stayGot: seq<Option<string>>, leaveGot: seq<Option<string>>)
    requires stay != leave
    ensures stayGot == [token] && leaveGot == []
  {
    var store := new TokenStore(map[]);
    store.Subscribe(stay);
    store.Subscribe(leave);
    store.Unsubscribe(leave);
    store.SetAuthToken(token, false);
    stayGot := store.Received(stay);
    leaveGot := store.Received(leave);
  }
}
