/** How the two screens share the override map: the edit screen writes under
    the raw route parameter, the list reads under `id.toString()`. */
module Overlay {
  import opened Js
  import opened Types
  import Api
  import opened UserList
  import opened UserEdit

  /** A path segment as the router matches `:id`: non-empty, with no `/`. */
  predicate IsSegment(s: string)
  {
    s != "" && forall i :: 0 <= i < |s| ==> s[i] != '/'
  }

  /** The `:id` parameter the route `/users/:id/edit` (src/App.tsx) extracts
      from a path, or `None` when the path does not match that route. */
  function EditRouteParam(path: string): (param: Option<string>)
    ensures param.Some? ==> Api.UserPathPrefix + param.value + EditSuffix == path && IsSegment(param.value)
    ensures param.None? ==> forall s :: IsSegment(s) ==> Api.UserPathPrefix + s + EditSuffix != path
  {
    var p, q := |Api.UserPathPrefix|, |EditSuffix|;
    if p + q < |path| && path[..p] == Api.UserPathPrefix && path[|path| - q..] == EditSuffix
       && IsSegment(path[p..|path| - q])
    then
      assert Api.UserPathPrefix + path[p..|path| - q] + EditSuffix == path;
      Some(path[p..|path| - q])
    else
      assert forall s :: IsSegment(s) && Api.UserPathPrefix + s + EditSuffix == path ==>
        (Api.UserPathPrefix + s + EditSuffix)[p..|path| - q] == s;
      None
  }

  /** The printed form of a number is a single path segment. */
  lemma NumberIsSegment(n: Num)
    ensures IsSegment(NumToString(n))
  {
    var s := NumToString(n);
    if n.Int? && n.value < 0 {
      assert s == "-" + NatToDecimal(-n.value);
      assert forall i :: 1 <= i < |s| ==> s[i] == NatToDecimal(-n.value)[i - 1];
    } else if n.Int? {
      assert s == NatToDecimal(n.value);
    }
  }

  /** Following the Edit button of a row with id `id` gives the edit screen
      the route parameter `id.toString()`, the key the list looks that row up
      by. */
  lemma {:induction false} EditButtonParam(id: Num)
    ensures EditRouteParam(EditRoute(id)) == Some(NumToString(id))
  {
    var route := EditRoute(id);
    NumberIsSegment(id);
    assert route == Api.UserPathPrefix + NumToString(id) + EditSuffix by {
      assert route[|Api.UserPathPrefix|..|route| - |EditSuffix|] == OverrideKey(User(id, "", "", "", ""));
      assert route == route[..|Api.UserPathPrefix|] + route[|Api.UserPathPrefix|..|route| - |EditSuffix|]
                      + route[|route| - |EditSuffix|..];
    }
    var param := EditRouteParam(route);
    if param.None? {
      assert false;
    }
    assert Api.UserPathPrefix + param.value + EditSuffix == Api.UserPathPrefix + NumToString(id) + EditSuffix;
    assert param.value == (Api.UserPathPrefix + param.value + EditSuffix)[|Api.UserPathPrefix|..|route| - |EditSuffix|];
  }

  /** From the Edit button of a row with id `id`, the edit screen reads that
      id back from its route parameter, and an update submitted there
      replaces every row with that id in every later merge of the list. */
  lemma SubmitShowsInList(id: Num, stored: map<string, User>, form: UpdateUserData, data: seq<User>)
    ensures var route := EditRouteParam(EditRoute(id));
      && RouteNumber(route) == id
      && forall i :: 0 <= i < |data| && StrictEquals(data[i].id, id) ==>
           MergeUsers(data, SubmittedOverrides(route, stored, form))[i] == Api.UpdateUser(id, form)
  {
    EditButtonParam(id);
    NumberOfToString(id);
    var route := Some(NumToString(id));
    assert Truthy(route);
    forall i | 0 <= i < |data| && StrictEquals(data[i].id, id)
      ensures OverrideKey(data[i]) == route.value
    {
      assert data[i].id == id;
    }
  }

  /** The path `/users/07/edit`, typed by hand, opens the edit screen of
      user 7, but the update submitted there is stored under `07`, a key the
      list never looks up: the row keeps showing the directory's copy. */
  lemma PaddedRouteMissedByList(form: UpdateUserData, row: User)
    requires row.id == Int(7)
    ensures EditRouteParam("/users/07/edit") == Some("07")
    ensures RouteNumber(Some("07")) == Int(7)
    ensures MergeUsers([row], SubmittedOverrides(Some("07"), map[], form)) == [row]
    ensures forall u: User :: OverrideKey(u) != "07"
  {
    forall u: User
      ensures OverrideKey(u) != "07"
    {
      if u.id.Int? && u.id.value >= 0 {
        var s := NatToDecimal(u.id.value);
        assert OverrideKey(u) == s;
      }
    }
    assert "/users/07/edit" == Api.UserPathPrefix + "07" + EditSuffix;
    assert "/users/07/edit"[7..9] == "07";
    assert SplitSign("07") == (false, "07");
    assert DigitsValue("07") == 7 by {
      assert "07"[..1] == "0";
      assert "0"[..0] == "";
    }
    assert OverrideKey(row) == "7";
  }

  /** Submitting from the Edit button of a row keeps every override stored
      under its own id, so the list's merge stays idempotent. */
  lemma SubmitKeepsWellKeyed(id: Num, stored: map<string, User>, form: UpdateUserData)
    requires WellKeyed(stored)
    ensures WellKeyed(SubmittedOverrides(EditRouteParam(EditRoute(id)), stored, form))
  {
    EditButtonParam(id);
    NumberOfToString(id);
  }

  /** Deleting keeps every override stored under its own id. */
  lemma ClearKeepsWellKeyed(stored: map<string, User>, id: Num)
    requires WellKeyed(stored)
    ensures WellKeyed(stored - {NumToString(id)})
  {
  }

  /** After a row is deleted, the edit screen reached from that row's Edit
      button finds no override and reads the directory again. */
  lemma LoadAfterDelete(id: Num, stored: map<string, User>)
    ensures StoredEntry(EditRouteParam(EditRoute(id)), stored - {NumToString(id)}).None?
  {
    EditButtonParam(id);
  }
}
