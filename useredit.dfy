/** The edit screen (src/components/UserEdit.tsx): loads a user, preferring the
    stored override to the directory, and stores the simulated update on
    submit. */
module UserEdit {
  import opened Js
  import opened Types
  import opened Storage
  import Api

  const FetchUserError := "Failed to fetch user data"
  const UpdateUserError := "Failed to update user"
  const UpdateSuccess := "User updated successfully"
  const EmptyForm := UpdateUserData("", "", "")

  /** `Number(id)` for the route parameter; an absent parameter is NaN. A
      parameter holding the printed form of a number (as the list's edit link
      writes it) reads back as that number. */
  function RouteNumber(routeId: Option<string>): (n: Num)
    ensures routeId.None? ==> n.NaN?
    ensures forall x :: routeId == Some(NumToString(x)) ==> n == x
  {
    NumberOfEveryToString();
    match routeId
    case Some(s) => StringToNumber(s)
    case None => NaN
  }

  /** `id ? storedUsers[id] : null`: the override stored under the raw route
      parameter, looked up only when that parameter is truthy. */
  function StoredEntry(routeId: Option<string>, stored: map<string, User>): (r: Option<User>)
    ensures r.Some? <==> Truthy(routeId) && routeId.value in stored
    ensures r.Some? ==> r.value == stored[routeId.value]
  {
    if Truthy(routeId) && routeId.value in stored then Some(stored[routeId.value]) else None
  }

  /** The override map after a submit: the simulated update stored under the
      raw route parameter when it is truthy, the map unchanged otherwise. A
      submit writes only the route's own key: every other override is kept. */
  function SubmittedOverrides(routeId: Option<string>, stored: map<string, User>, form: UpdateUserData): (after: map<string, User>)
    ensures Truthy(routeId) ==>
      && routeId.value in after
      && FormOf(after[routeId.value]) == form
      && after[routeId.value].id == RouteNumber(routeId)
    ensures forall k :: k in stored && !(Truthy(routeId) && k == routeId.value) ==> k in after && after[k] == stored[k]
    ensures after.Keys == if Truthy(routeId) then stored.Keys + {routeId.value} else stored.Keys
  {
    if Truthy(routeId) then stored[routeId.value := Api.UpdateUser(RouteNumber(routeId), form)] else stored
  }

  // ---------------------------------------------------------------------------
  // Properties of the override store seen from the edit screen

  /** After a submit, loading the same route finds the submitted fields in the
      stored override, with the id read from the route and its avatar. */
  lemma LoadAfterSubmit(routeId: Option<string>, stored: map<string, User>, form: UpdateUserData)
    requires Truthy(routeId)
    ensures var e := StoredEntry(routeId, SubmittedOverrides(routeId, stored, form));
      && e.Some?
      && FormOf(e.value) == form
      && e.value.id == RouteNumber(routeId)
      && e.value.avatar == Api.AvatarBase + NumToString(RouteNumber(routeId)) + Api.AvatarSuffix
  {
  }

  // ---------------------------------------------------------------------------
  // The screen

  class UserEditScreen {
    /** The `:id` route parameter, as text; `None` when absent. */
    const routeId: Option<string>
    const store: LocalStorage
    var user: Option<User>
    var formData: UpdateUserData
    var error: string
    var success: string
    /** A navigation scheduled by the screen, if any. */
    var navigation: Option<string>

    constructor (routeId: Option<string>, store: LocalStorage)
      ensures this.routeId == routeId && this.store == store
      ensures user == None && formData == EmptyForm
      ensures error == "" && success == "" && navigation == None
    {
      this.routeId := routeId;
      this.store := store;
      user := None;
      formData := EmptyForm;
      error := "";
      success := "";
      navigation := None;
    }

    /** The screen shows only the loading text until a user is loaded: it
        renders the form exactly when it holds a user. */
    function Loading(): (loading: bool)
      reads this
      ensures loading <==> user.None?
    {
      user.None?
    }

    /** `fetchUser`: `response` is how the single-user read would end. Returns
        the path read, or `None` when the read is skipped. */
    method FetchUser(response: Fetched<GetUserResponse>) returns (requested: Option<string>)
      modifies this
      ensures success == old(success) && navigation == old(navigation)
      ensures Loading() ==> old(Loading())
      ensures ParseStoredUsers(store.updatedUsers).None? ==>
        && requested == None
        && user == old(user) && formData == old(formData) && error == FetchUserError
      ensures (ParseStoredUsers(store.updatedUsers).Some?
               && StoredEntry(routeId, ParseStoredUsers(store.updatedUsers).value).Some?) ==>
        var stored := StoredEntry(routeId, ParseStoredUsers(store.updatedUsers).value).value;
        && requested == None
        && user == Some(stored) && formData == FormOf(stored) && error == old(error)
      ensures (ParseStoredUsers(store.updatedUsers).Some?
               && StoredEntry(routeId, ParseStoredUsers(store.updatedUsers).value).None?) ==>
        && requested == Some(Api.UserPath(RouteNumber(routeId)))
        && (response.Rejected? ==>
              user == old(user) && formData == old(formData) && error == FetchUserError)
        && (response.Resolved? && response.body.data.Some? ==>
              user == response.body.data && formData == FormOf(response.body.data.value)
              && error == old(error))
        && (response.Resolved? && response.body.data.None? ==>
              user == old(user) && formData == old(formData) && error == old(error))
    {
      requested := None;
      var parsed := ParseStoredUsers(store.updatedUsers);
      if parsed.None? {
        error := FetchUserError;
        return;
      }
      var storedUser := StoredEntry(routeId, parsed.value);
      if storedUser.Some? {
        user := storedUser;
        formData := FormOf(storedUser.value);
        return;
      }
      requested := Some(Api.UserPath(RouteNumber(routeId)));
      match response
      case Rejected =>
        error := FetchUserError;
      case Resolved(body) =>
        if body.data.Some? {
          user := body.data;
          formData := FormOf(body.data.value);
        }
    }

    /** `handleSubmit`: clears both messages, takes the simulated update,
        reports success, then stores the updated record under the route
        parameter and schedules the return to the list. */
    method HandleSubmit()
      modifies this, store
      ensures store.items == old(store.items)
      ensures user == old(user) && formData == old(formData)
      ensures success == UpdateSuccess
      ensures ParseStoredUsers(old(store.updatedUsers)).None? ==>
        && error == UpdateUserError
        && store.updatedUsers == old(store.updatedUsers)
        && navigation == old(navigation)
      ensures ParseStoredUsers(old(store.updatedUsers)).Some? ==>
        && error == ""
        && navigation == Some(UsersRoute)
        && store.updatedUsers ==
             if Truthy(routeId)
             then Stored(SubmittedOverrides(routeId, ParseStoredUsers(old(store.updatedUsers)).value, formData))
             else old(store.updatedUsers)
    {
      error := "";
      success := "";
      var updatedUser := Api.UpdateUser(RouteNumber(routeId), formData);
      success := UpdateSuccess;
      var parsed := ParseStoredUsers(store.updatedUsers);
      if parsed.None? {
        error := UpdateUserError;
        return;
      }
      var stored := parsed.value;
      if Truthy(routeId) {
        stored := stored[routeId.value := updatedUser];
        store.WriteUpdatedUsers(stored);
      }
      navigation := Some(UsersRoute);
    }

    /** The first-name field's change handler. */
    method SetFirstName(value: string)
      modifies this
      ensures formData == old(formData).(firstName := value)
      ensures user == old(user) && error == old(error) && success == old(success)
      ensures navigation == old(navigation)
    {
      formData := formData.(firstName := value);
    }

    /** The last-name field's change handler. */
    method SetLastName(value: string)
      modifies this
      ensures formData == old(formData).(lastName := value)
      ensures user == old(user) && error == old(error) && success == old(success)
      ensures navigation == old(navigation)
    {
      formData := formData.(lastName := value);
    }

    /** The email field's change handler. */
    method SetEmail(value: string)
      modifies this
      ensures formData == old(formData).(email := value)
      ensures user == old(user) && error == old(error) && success == old(success)
      ensures navigation == old(navigation)
    {
      formData := formData.(email := value);
    }

    /** The Cancel button. */
    method Cancel()
      modifies this
      ensures navigation == Some(UsersRoute)
      ensures user == old(user) && formData == old(formData)
      ensures error == old(error) && success == old(success)
    {
      navigation := Some(UsersRoute);
    }
  }
}
