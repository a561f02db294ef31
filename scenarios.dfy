/** End-to-end scenarios of the screens, proved over one shared storage. */
module Scenarios {
  import opened Js
  import opened Types
  import opened Storage
  import Api
  import opened UserList
  import opened UserEdit
  import opened AuthContext

  /** A stored token is what the interceptor sends; once logged out, no header
      is added. */
  lemma LoginTokenAuthorizes(items: map<string, string>, token: string, issued: int, headers: map<string, string>)
    requires token != ""
    ensures Api.Authorize(Lookup(LoginItems(items, token, issued), TokenKey), headers)
         == headers["Authorization" := Api.BearerPrefix + token]
    ensures Api.Authorize(Lookup(LogoutItems(items), TokenKey), headers) == headers
  {
  }

  /** A page [A, B, C] with an override stored for B only shows [A, B', C]. */
  lemma MergeScenario(a: User, b: User, c: User, b': User)
    requires a.id == Int(1) && b.id == Int(2) && c.id == Int(3)
    ensures MergeUsers([a, b, c], map["2" := b']) == [a, b', c]
  {
    assert OverrideKey(a) == "1" && OverrideKey(b) == "2" && OverrideKey(c) == "3";
  }

  /** Log in at `issued` on a freshly mounted provider, send a request, and run
      the expiry check at `now`; then send another request. */
  method SessionScenario(items: map<string, string>, token: string, issued: int, now: int)
    returns (authenticated: bool, sentBefore: Option<string>, sentAfter: Option<string>)
    ensures authenticated <==> token == "" || now - issued <= ExpirationTime
    ensures sentBefore == if token != "" then Some(Api.BearerPrefix + token) else None
    ensures sentAfter == if authenticated && token != "" then Some(Api.BearerPrefix + token) else None
  {
    var store := new LocalStorage(items - {UpdatedUsersKey}, Missing);
    var session := new Session(store, issued);
    var mounted := store.items;
    session.Login(token, issued);
    var request := new Api.RequestConfig(Api.UserPath(Int(1)), map[]);
    Api.Intercept(request, store);
    sentBefore := Lookup(request.headers, "Authorization");
    ExpiryAfterLogin(mounted, token, issued, now);
    session.CheckTokenExpiration(now);
    authenticated := session.isAuthenticated;
    request := new Api.RequestConfig(Api.UserPath(Int(1)), map[]);
    Api.Intercept(request, store);
    sentAfter := Lookup(request.headers, "Authorization");
  }

  /** Edit user 7 to {X, Y, z@z.com}, open the edit screen again, then delete
      user 7 from a listed page that holds it, and list that page once more. */
  method EditThenDeleteScenario(remote: User)
    returns (reloaded: Option<User>, readSkipped: bool, shownAfterDelete: seq<User>,
             afterDelete: Option<User>, refetched: seq<User>)
    requires remote.id == Int(7)
    ensures reloaded == Some(User(Int(7), "z@z.com", "X", "Y", "https://reqres.in/img/faces/7-image.jpg"))
    ensures readSkipped
    ensures shownAfterDelete == [] && afterDelete == None
    ensures refetched == [remote]
  {
    var store := new LocalStorage(map[], Missing);
    assert NumToString(Int(7)) == "7";
    NumberOfToString(Int(7));

    var edit := new UserEditScreen(Some("7"), store);
    edit.SetFirstName("X");
    edit.SetLastName("Y");
    edit.SetEmail("z@z.com");
    assert edit.formData == UpdateUserData("X", "Y", "z@z.com");
    edit.HandleSubmit();
    var updated := User(Int(7), "z@z.com", "X", "Y", "https://reqres.in/img/faces/7-image.jpg");
    assert Api.UpdateUser(Int(7), UpdateUserData("X", "Y", "z@z.com")) == updated;
    assert store.updatedUsers == Stored(map["7" := updated]);

    var again := new UserEditScreen(Some("7"), store);
    var requested := again.FetchUser(Rejected);
    reloaded := again.user;
    readSkipped := requested.None?;
    assert reloaded == Some(updated);

    var list := new UserListScreen(store);
    var page := UsersResponse(1, 6, 12, 2, [remote]);
    var _ := list.FetchUsers(Resolved(page));
    assert list.users == [updated];
    list.HandleDelete(Int(7), true);
    assert store.updatedUsers == Stored(map[]);
    shownAfterDelete := list.users;
    afterDelete := StoredEntry(Some("7"), store.updatedUsers.users);

    var _ := list.FetchUsers(Resolved(page));
    refetched := list.users;
  }
}
