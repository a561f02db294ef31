/** The directory client (src/services/api.ts) without its network layer: the
    simulated writes, the request paths and the token interceptor. */
module Api {
  import opened Js
  import opened Types
  import opened Storage

  const AvatarBase := "https://reqres.in/img/faces/"
  const AvatarSuffix := "-image.jpg"
  const UsersPathPrefix := "/users?page="
  const UserPathPrefix := "/users/"
  const BearerPrefix := "Bearer "

  /** `updateUser(id, data)`: nothing is sent; the record is synthesised from
      the id and the submitted fields, with an avatar URI derived from the id. */
  function UpdateUser(id: Num, data: UpdateUserData): (u: User)
    ensures u.id == id
    ensures FormOf(u) == data
    ensures u.avatar == AvatarBase + NumToString(id) + AvatarSuffix
  {
    User(id, data.email, data.firstName, data.lastName, AvatarBase + NumToString(id) + AvatarSuffix)
  }

  /** `deleteUser(id)`: nothing is sent and the promise always resolves. */
  function DeleteUser(id: Num): (ok: bool)
    ensures ok
  {
    true
  }

  /** The path `getUsers(page)` requests; `page` defaults to 1. The page
      number read back from the path is the page requested. */
  function UsersPath(page: Option<int>): (path: string)
    ensures |UsersPathPrefix| < |path| && path[..|UsersPathPrefix|] == UsersPathPrefix
    ensures StringToNumber(path[|UsersPathPrefix|..])
         == Int(match page case Some(p) => p case None => 1)
  {
    var p := match page case Some(p) => p case None => 1;
    NumberOfToString(Int(p));
    var path := UsersPathPrefix + IntToDecimal(p);
    assert path[|UsersPathPrefix|..] == NumToString(Int(p));
    path
  }

  /** The path `getUser(id)` requests. The id read back from the path is the
      id requested, NaN included. */
  function UserPath(id: Num): (path: string)
    ensures |UserPathPrefix| < |path| && path[..|UserPathPrefix|] == UserPathPrefix
    ensures StringToNumber(path[|UserPathPrefix|..]) == id
  {
    NumberOfToString(id);
    var path := UserPathPrefix + NumToString(id);
    assert path[|UserPathPrefix|..] == NumToString(id);
    path
  }

  /** The `Authorization` header rule of the request interceptor: a truthy
      stored token sets it to the bearer token, otherwise the headers pass
      through untouched. */
  function Authorize(token: Option<string>, headers: map<string, string>): (h: map<string, string>)
    ensures Truthy(token) ==> "Authorization" in h && h["Authorization"] == BearerPrefix + token.value
    ensures forall k :: k in headers && k != "Authorization" ==> k in h && h[k] == headers[k]
    ensures h.Keys <= headers.Keys + {"Authorization"}
    ensures !Truthy(token) ==> h == headers
  {
    if Truthy(token) then headers["Authorization" := BearerPrefix + token.value] else headers
  }

  /** The outgoing request an interceptor sees. */
  class RequestConfig {
    var url: string
    var headers: map<string, string>

    constructor (url: string, headers: map<string, string>)
      ensures this.url == url && this.headers == headers
    {
      this.url := url;
      this.headers := headers;
    }
  }

  /** The request interceptor: reads `token` from storage and sets the header
      on the request in place. */
  method Intercept(config: RequestConfig, store: LocalStorage)
    modifies config
    ensures config.headers == Authorize(store.GetItem(TokenKey), old(config.headers))
    ensures config.url == old(config.url)
  {
    var token := store.GetItem(TokenKey);
    if Truthy(token) {
      config.headers := config.headers["Authorization" := BearerPrefix + token.value];
    }
  }

  // ---------------------------------------------------------------------------
  // Properties

  /** Two simulated updates carry the same avatar exactly when they are for the
      same id: the avatar identifies the user. */
  lemma AvatarIdentifiesUser(a: Num, b: Num, da: UpdateUserData, db: UpdateUserData)
    ensures UpdateUser(a, da).avatar == UpdateUser(b, db).avatar <==> a == b
  {
    var sa, sb := NumToString(a), NumToString(b);
    if UpdateUser(a, da).avatar == UpdateUser(b, db).avatar {
      var n := |AvatarBase|;
      assert |sa| == |sb|;
      assert sa == (AvatarBase + sa + AvatarSuffix)[n..n + |sa|];
      assert sb == (AvatarBase + sb + AvatarSuffix)[n..n + |sb|];
    }
    NumToStringInjective(a, b);
  }
}
