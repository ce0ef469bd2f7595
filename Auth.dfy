/** The session state of `AuthProvider` (src/contexts/AuthProvider.tsx): the
    token, the `isAuthenticated` flag and the raw `auth_token` entry of
    `localStorage`. A state update is visible from the next call on, as it is
    from the next render in React. */
module Auth {
  import opened Js

  const TokenKey := "auth_token"
  const MockTokenPrefix := "mock_token_"

  /** `if (value)` on a string that may be `null`. */
  predicate NonEmpty(value: Option<string>) {
    value.Some? && value.value != ""
  }

  /** The token the mocked login issues at time `now` (milliseconds). */
  function MockToken(now: nat): (t: string)
    ensures |t| > |MockTokenPrefix| && t[..|MockTokenPrefix|] == MockTokenPrefix
    ensures forall i :: |MockTokenPrefix| <= i < |t| ==> IsDigit(t[i])
  {
    MockTokenPrefix + NatText(now)
  }

  /** Logins at different times issue different tokens. */
  lemma MockTokensDiffer(a: nat, b: nat)
    requires a != b
    ensures MockToken(a) != MockToken(b)
  {
    if MockToken(a) == MockToken(b) {
      assert NatText(a) == MockToken(a)[|MockTokenPrefix|..];
      assert NatText(b) == MockToken(b)[|MockTokenPrefix|..];
      NatTextInjective(a, b);
    }
  }

  class AuthProvider {
    var isAuthenticated: bool
    var token: Option<string>
    /** `localStorage`, raw strings by key. */
    var storage: map<string, string>

    /** Storage and the in-memory token agree: a non-empty token is stored
        under `auth_token`, and a stored non-empty entry is the token. */
    ghost predicate Synced()
      reads this
    {
      && (NonEmpty(token) <==> TokenKey in storage && storage[TokenKey] != "")
      && (NonEmpty(token) ==> storage[TokenKey] == token.value)
    }

    /** `checkAuth`. */
    predicate CheckAuth()
      reads this
    {
      isAuthenticated && NonEmpty(token)
    }

    /** The first render: no token, not authenticated, whatever storage holds. */
    constructor (storage: map<string, string>)
      ensures this.storage == storage && token == None && !isAuthenticated
      ensures !CheckAuth()
    {
      this.storage := storage;
      token := None;
      isAuthenticated := false;
    }

    /** The mount effect: a non-empty stored token is taken over and marks the
        session authenticated; otherwise nothing changes. */
    method LoadStored()
      modifies this
      ensures storage == old(storage)
      ensures TokenKey in storage && storage[TokenKey] != "" ==>
        token == Some(storage[TokenKey]) && isAuthenticated && CheckAuth() && Synced()
      ensures !(TokenKey in storage && storage[TokenKey] != "") ==>
        token == old(token) && isAuthenticated == old(isAuthenticated)
    {
      var storedToken := if TokenKey in storage then Some(storage[TokenKey]) else None;
      if NonEmpty(storedToken) {
        token := storedToken;
        isAuthenticated := true;
      }
    }

    /** `saveToken` (the context's `setToken`): store a non-empty token, remove
        the entry otherwise; the in-memory token becomes the argument either way. */
    method SaveToken(newToken: Option<string>)
      modifies this
      ensures token == newToken && isAuthenticated == old(isAuthenticated)
      ensures NonEmpty(newToken) ==> storage == old(storage)[TokenKey := newToken.value]
      ensures !NonEmpty(newToken) ==> storage == old(storage) - {TokenKey}
      ensures Synced()
    {
      if NonEmpty(newToken) {
        storage := storage[TokenKey := newToken.value];
      } else {
        storage := storage - {TokenKey};
      }
      token := newToken;
    }

    /** `login` with the clock reading `now`: the mocked call always succeeds,
        issuing and saving a fresh token. */
    method Login(username: string, password: string, now: nat) returns (ok: bool)
      modifies this
      ensures ok
      ensures token == Some(MockToken(now)) && isAuthenticated
      ensures storage == old(storage)[TokenKey := MockToken(now)]
      ensures CheckAuth() && Synced()
    {
      var mockToken := MockTokenPrefix + NatText(now);
      SaveToken(Some(mockToken));
      isAuthenticated := true;
      ok := true;
    }

    /** `logout`: forget the token everywhere and leave the session. */
    method Logout()
      modifies this
      ensures token == None && !isAuthenticated
      ensures storage == old(storage) - {TokenKey}
      ensures !CheckAuth() && Synced()
    {
      SaveToken(None);
      isAuthenticated := false;
    }

    /** The context's raw `setIsAuthenticated`. */
    method SetIsAuthenticated(value: bool)
      modifies this
      ensures isAuthenticated == value && token == old(token) && storage == old(storage)
      ensures CheckAuth() <==> value && NonEmpty(token)
    {
      isAuthenticated := value;
    }
  }
}
