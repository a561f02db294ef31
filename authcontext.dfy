/** The session store (src/context/AuthContext.tsx): a two-state machine,
    anonymous or authenticated, kept in the `token` and `tokenDate` entries of
    storage, with a 24-hour expiry check. Time is passed in as `now`
    (milliseconds since the epoch). */
module AuthContext {
  import opened Js
  import opened Storage
  import opened Types

  const TokenDateKey := "tokenDate"
  /** 24 hours, in milliseconds. */
  const ExpirationTime: int := 24 * 60 * 60 * 1000

  /** The string entries after `login(token)` at time `now`: the token is
      stored, the issue time is stored as text that `parseInt` reads back as
      `now`, and every other entry is kept. */
  function LoginItems(items: map<string, string>, token: string, now: int): (r: map<string, string>)
    ensures r.Keys == items.Keys + {TokenKey, TokenDateKey}
    ensures r[TokenKey] == token
    ensures ParseInt(r[TokenDateKey]) == Int(now)
    ensures forall k :: k in items && k != TokenKey && k != TokenDateKey ==> r[k] == items[k]
  {
    ParseIntOfDecimal(now, []);
    assert IntToDecimal(now) + [] == IntToDecimal(now);
    items[TokenKey := token][TokenDateKey := IntToDecimal(now)]
  }

  /** The string entries after `logout()`: neither session entry is left and
      every other entry is kept. */
  function LogoutItems(items: map<string, string>): (r: map<string, string>)
    ensures TokenKey !in r && TokenDateKey !in r
    ensures forall k :: k in items && k != TokenKey && k != TokenDateKey ==> k in r && r[k] == items[k]
    ensures r.Keys <= items.Keys
  {
    items - {TokenKey, TokenDateKey}
  }

  /** Whether the expiry check logs out: the stored token and issue time are
      both truthy, the issue time parses to a number (a NaN comparison is
      false), and more than 24 hours have passed since it. Since `parseInt`
      of the empty string is NaN, this is: a non-empty token is stored, the
      issue time is stored and parses to a number, and that number is more
      than 24 hours before `now`. */
  function ShouldLogOut(items: map<string, string>, now: int): (expired: bool)
    ensures expired <==>
      && TokenKey in items && items[TokenKey] != ""
      && TokenDateKey in items && ParseInt(items[TokenDateKey]).Int?
      && now - ParseInt(items[TokenDateKey]).value > ExpirationTime
  {
    var token := Lookup(items, TokenKey);
    var tokenDate := Lookup(items, TokenDateKey);
    && Truthy(token)
    && Truthy(tokenDate)
    && match ParseInt(tokenDate.value)
       case Int(issued) => now - issued > ExpirationTime
       case NaN => false
  }

  // ---------------------------------------------------------------------------
  // Properties of the expiry rule

  /** After `login(token)` at `issued`, the check logs out at `now` exactly when
      the token is non-empty and more than 24 hours have passed. */
  lemma ExpiryAfterLogin(items: map<string, string>, token: string, issued: int, now: int)
    ensures ShouldLogOut(LoginItems(items, token, issued), now)
        <==> token != "" && now - issued > ExpirationTime
  {
    ParseIntOfDecimal(issued, []);
    assert IntToDecimal(issued) + [] == IntToDecimal(issued);
  }

  /** A session checked at the instant it was opened survives, and so does one
      checked exactly 24 hours later; one millisecond more ends it. */
  lemma ExpiryBoundary(items: map<string, string>, token: string, issued: int)
    requires token != ""
    ensures !ShouldLogOut(LoginItems(items, token, issued), issued)
    ensures !ShouldLogOut(LoginItems(items, token, issued), issued + ExpirationTime)
    ensures ShouldLogOut(LoginItems(items, token, issued), issued + ExpirationTime + 1)
  {
    ExpiryAfterLogin(items, token, issued, issued);
    ExpiryAfterLogin(items, token, issued, issued + ExpirationTime);
    ExpiryAfterLogin(items, token, issued, issued + ExpirationTime + 1);
  }

  /** An issue time with trailing text is read up to its last leading digit,
      as `parseInt` does. */
  lemma TrailingTextInIssueTime(items: map<string, string>, issued: int, suffix: string, now: int)
    requires Truthy(Lookup(items, TokenKey))
    requires suffix == [] || !IsDigit(suffix[0])
    ensures ShouldLogOut(items[TokenDateKey := IntToDecimal(issued) + suffix], now)
        <==> now - issued > ExpirationTime
  {
    ParseIntOfDecimal(issued, suffix);
  }

  /** A missing or non-numeric issue time never expires: the comparison
      with NaN is false. */
  lemma NonNumericIssueTime(items: map<string, string>, now: int)
    requires TokenDateKey !in items || ParseInt(items[TokenDateKey]).NaN?
    ensures !ShouldLogOut(items, now)
  {
  }

  /** Logging out twice leaves the same entries as logging out once, and a
      logged-out store is never expired. */
  lemma LogoutIdempotent(items: map<string, string>, now: int)
    ensures LogoutItems(LogoutItems(items)) == LogoutItems(items)
    ensures !ShouldLogOut(LogoutItems(items), now)
  {
  }

  // ---------------------------------------------------------------------------
  // The provider

  class Session {
    const store: LocalStorage
    var isAuthenticated: bool
    /** The last route passed to `navigate`, if any. */
    var navigation: Option<string>

    /** Mounting the provider: the flag starts false whatever storage holds,
        and the expiry check runs once straight away. */
    constructor (store: LocalStorage, now: int)
      modifies store
      ensures this.store == store && !isAuthenticated
      ensures store.updatedUsers == old(store.updatedUsers)
      ensures ShouldLogOut(old(store.items), now) ==>
        store.items == LogoutItems(old(store.items)) && navigation == Some(LoginRoute)
      ensures !ShouldLogOut(old(store.items), now) ==>
        store.items == old(store.items) && navigation == None
    {
      this.store := store;
      isAuthenticated := false;
      navigation := None;
      new;
      CheckTokenExpiration(now);
    }

    /** `login(token)` at time `now`. */
    method Login(token: string, now: int)
      modifies this, store
      ensures store.items == LoginItems(old(store.items), token, now)
      ensures store.updatedUsers == old(store.updatedUsers)
      ensures isAuthenticated && navigation == Some(UsersRoute)
    {
      store.SetItem(TokenKey, token);
      store.SetItem(TokenDateKey, IntToDecimal(now));
      isAuthenticated := true;
      navigation := Some(UsersRoute);
    }

    /** `logout()`, from either state. */
    method Logout()
      modifies this, store
      ensures store.items == LogoutItems(old(store.items))
      ensures store.updatedUsers == old(store.updatedUsers)
      ensures !isAuthenticated && navigation == Some(LoginRoute)
    {
      store.RemoveItem(TokenKey);
      store.RemoveItem(TokenDateKey);
      isAuthenticated := false;
      navigation := Some(LoginRoute);
    }

    /** `checkTokenExpiration()` at time `now`: logs out when the stored
        session has expired, and otherwise changes nothing. */
    method CheckTokenExpiration(now: int)
      modifies this, store
      ensures store.updatedUsers == old(store.updatedUsers)
      ensures ShouldLogOut(old(store.items), now) ==>
        store.items == LogoutItems(old(store.items)) && !isAuthenticated && navigation == Some(LoginRoute)
      ensures !ShouldLogOut(old(store.items), now) ==>
        && store.items == old(store.items)
        && isAuthenticated == old(isAuthenticated)
        && navigation == old(navigation)
    {
      var token := store.GetItem(TokenKey);
      if Truthy(token) {
        var tokenDate := store.GetItem(TokenDateKey);
        if Truthy(tokenDate) {
          match ParseInt(tokenDate.value)
          case Int(issued) =>
            if now - issued > ExpirationTime {
              Logout();
            }
          case NaN =>
        }
      }
    }
  }
}
