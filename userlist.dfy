/** The listing screen (src/components/UserList.tsx): one page of the
    directory with the stored overrides laid over it, and deletion. */
module UserList {
  import opened Js
  import opened Types
  import opened Storage
  import Api

  const FetchUsersError := "Failed to fetch users"
  const DeleteUserError := "Failed to delete user"

  /** The key the list looks a user up by: `user.id.toString()`. The key
      reads back as the user's id. */
  function OverrideKey(u: User): (k: string)
    ensures StringToNumber(k) == u.id
  {
    NumberOfToString(u.id);
    NumToString(u.id)
  }

  /** The positional merge of a fetched page with the stored overrides: each
      row is replaced by the override stored under its id, if there is one. */
  function MergeUsers(data: seq<User>, stored: map<string, User>): (r: seq<User>)
    ensures |r| == |data|
    ensures forall i :: 0 <= i < |data| ==>
      r[i] == if OverrideKey(data[i]) in stored then stored[OverrideKey(data[i])] else data[i]
  {
    if data == [] then []
    else
      var u := data[0];
      [if OverrideKey(u) in stored then stored[OverrideKey(u)] else u] + MergeUsers(data[1..], stored)
  }

  /** The rows left after deleting `id`: those whose id is not `=== id`. */
  function RemoveUser(users: seq<User>, id: Num): (r: seq<User>)
    ensures |r| <= |users|
  {
    if users == [] then []
    else (if StrictEquals(users[0].id, id) then [] else [users[0]]) + RemoveUser(users[1..], id)
  }

  const EditSuffix := "/edit"

  /** The route the Edit button navigates to: the user path followed by
      `/edit`, with a middle segment that is the list's override key of every
      row carrying the id, and so reads back as the id. */
  function EditRoute(id: Num): (route: string)
    ensures |Api.UserPathPrefix| + |EditSuffix| < |route|
    ensures route[..|Api.UserPathPrefix|] == Api.UserPathPrefix
    ensures route[|route| - |EditSuffix|..] == EditSuffix
    ensures forall u: User :: u.id == id ==> route[|Api.UserPathPrefix|..|route| - |EditSuffix|] == OverrideKey(u)
    ensures StringToNumber(route[|Api.UserPathPrefix|..|route| - |EditSuffix|]) == id
  {
    NumberOfToString(id);
    var route := Api.UserPathPrefix + NumToString(id) + EditSuffix;
    assert route[|Api.UserPathPrefix|..|route| - |EditSuffix|] == NumToString(id);
    route
  }

  /** Every override is stored under the key of its own id. */
  ghost predicate WellKeyed(stored: map<string, User>)
  {
    forall k :: k in stored ==> OverrideKey(stored[k]) == k
  }

  // ---------------------------------------------------------------------------
  // Properties of the merge and of the row filter

  /** With no overrides stored, the merge shows the page as fetched. */
  lemma MergeWithoutOverrides(data: seq<User>)
    ensures MergeUsers(data, map[]) == data
  {
  }

  /** Merging a second time changes nothing when every override is stored
      under its own id. */
  lemma MergeIdempotent(data: seq<User>, stored: map<string, User>)
    requires WellKeyed(stored)
    ensures MergeUsers(MergeUsers(data, stored), stored) == MergeUsers(data, stored)
  {
    var once := MergeUsers(data, stored);
    var twice := MergeUsers(once, stored);
    forall i | 0 <= i < |data|
      ensures twice[i] == once[i]
    {
      var k := OverrideKey(data[i]);
      if k in stored {
        assert OverrideKey(once[i]) == k;
      }
    }
  }

  /** Once the override under a user's key is cleared, the merge shows that
      user's fetched row again, and every other row as before. */
  lemma MergeAfterClear(data: seq<User>, stored: map<string, User>, key: string)
    ensures var cleared := MergeUsers(data, stored - {key});
      forall i :: 0 <= i < |data| ==>
        cleared[i] == if OverrideKey(data[i]) == key then data[i] else MergeUsers(data, stored)[i]
  {
  }

  /** A row survives the delete exactly when it was listed and its id is not
      `===` the deleted id. */
  lemma {:induction false} RemoveUserMembers(users: seq<User>, id: Num)
    ensures forall u :: u in RemoveUser(users, id) <==> u in users && !StrictEquals(u.id, id)
  {
    if users != [] {
      RemoveUserMembers(users[1..], id);
      assert users == [users[0]] + users[1..];
    }
  }

  /** Filtering rows distributes over concatenation, so the rows kept stay in
      their relative order. */
  lemma {:induction false} RemoveUserAppend(a: seq<User>, b: seq<User>, id: Num)
    ensures RemoveUser(a + b, id) == RemoveUser(a, id) + RemoveUser(b, id)
  {
    if a == [] {
      assert a + b == b;
    } else {
      var head := if StrictEquals(a[0].id, id) then [] else [a[0]];
      assert (a + b)[0] == a[0] && (a + b)[1..] == a[1..] + b;
      calc {
        RemoveUser(a + b, id);
        head + RemoveUser(a[1..] + b, id);
        { RemoveUserAppend(a[1..], b, id); }
        head + (RemoveUser(a[1..], id) + RemoveUser(b, id));
        (head + RemoveUser(a[1..], id)) + RemoveUser(b, id);
      }
    }
  }

  /** Deleting an id that no row carries leaves the rows as they were. */
  lemma {:induction false} RemoveAbsentUser(users: seq<User>, id: Num)
    requires forall u :: u in users ==> !StrictEquals(u.id, id)
    ensures RemoveUser(users, id) == users
  {
    if users != [] {
      assert users[0] in users;
      assert forall u :: u in users[1..] ==> u in users;
      RemoveAbsentUser(users[1..], id);
    }
  }

  /** NaN is `!==` to every id, so deleting NaN removes no row. */
  lemma RemoveNaNKeepsAll(users: seq<User>)
    ensures RemoveUser(users, NaN) == users
  {
    RemoveAbsentUser(users, NaN);
  }

  // ---------------------------------------------------------------------------
  // The screen

  class UserListScreen {
    const store: LocalStorage
    var users: seq<User>
    var page: int
    var totalPages: int
    var error: string
    /** The last route passed to `navigate`, if any. */
    var navigation: Option<string>

    constructor (store: LocalStorage)
      ensures this.store == store
      ensures users == [] && page == 1 && totalPages == 1 && error == "" && navigation == None
    {
      this.store := store;
      users := [];
      page := 1;
      totalPages := 1;
      error := "";
      navigation := None;
    }

    /** `fetchUsers`: `response` is how the read of the current page ended.
        Returns the path that read requested. */
    method FetchUsers(response: Fetched<UsersResponse>) returns (path: string)
      modifies this
      ensures path == Api.UsersPath(Some(page))
      ensures page == old(page) && navigation == old(navigation)
      ensures if response.Resolved? && ParseStoredUsers(store.updatedUsers).Some?
        then users == MergeUsers(response.body.data, ParseStoredUsers(store.updatedUsers).value)
          && totalPages == response.body.totalPages
          && error == old(error)
        else users == old(users) && totalPages == old(totalPages) && error == FetchUsersError
    {
      path := Api.UsersPath(Some(page));
      match response
      case Rejected =>
        error := FetchUsersError;
      case Resolved(body) =>
        var parsed := ParseStoredUsers(store.updatedUsers);
        match parsed
        case None =>
          error := FetchUsersError;
        case Some(stored) =>
          users := MergeUsers(body.data, stored);
          totalPages := body.totalPages;
    }

    /** The pagination control's change handler. */
    method SetPage(value: int)
      modifies this
      ensures page == value
      ensures users == old(users) && totalPages == old(totalPages)
      ensures error == old(error) && navigation == old(navigation)
    {
      page := value;
    }

    /** `handleDelete(id)`; `confirmed` is the answer to the confirmation
        dialog. */
    method HandleDelete(id: Num, confirmed: bool)
      modifies this, store
      ensures store.items == old(store.items)
      ensures page == old(page) && totalPages == old(totalPages) && navigation == old(navigation)
      ensures !confirmed ==>
        users == old(users) && error == old(error) && store.updatedUsers == old(store.updatedUsers)
      ensures confirmed && ParseStoredUsers(old(store.updatedUsers)).None? ==>
        users == old(users) && error == DeleteUserError && store.updatedUsers == old(store.updatedUsers)
      ensures confirmed && ParseStoredUsers(old(store.updatedUsers)).Some? ==>
        && store.updatedUsers == Stored(ParseStoredUsers(old(store.updatedUsers)).value - {NumToString(id)})
        && users == RemoveUser(old(users), id)
        && error == old(error)
    {
      if confirmed {
        // the simulated delete always resolves, so only a parse failure
        // reaches the error path
        var deleted := Api.DeleteUser(id);
        var parsed := ParseStoredUsers(store.updatedUsers);
        if !deleted || parsed.None? {
          error := DeleteUserError;
        } else {
          var stored := parsed.value;
          stored := stored - {NumToString(id)};
          store.WriteUpdatedUsers(stored);
          users := RemoveUser(users, id);
        }
      }
    }

    /** `handleEdit(id)`: navigates to the edit screen of that user. */
    method HandleEdit(id: Num)
      modifies this
      ensures navigation == Some(EditRoute(id))
      ensures users == old(users) && page == old(page) && totalPages == old(totalPages)
      ensures error == old(error)
    {
      navigation := Some(EditRoute(id));
    }
  }
}
