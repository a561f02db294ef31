/** The records exchanged between the screens, the directory client and the
    browser's storage (src/types/index.ts). */
module Types {
  import opened Js

  /** The console's routes (src/App.tsx). */
  const LoginRoute := "/login"
  const UsersRoute := "/users"

  /** The storage key of the session token, read by the request interceptor
      and written by the session store. */
  const TokenKey := "token"

  /** A user record of the directory. */
  datatype User = User(id: Num, email: string, firstName: string, lastName: string, avatar: string)

  /** The editable fields of a user: what the edit form holds and submits. */
  datatype UpdateUserData = UpdateUserData(firstName: string, lastName: string, email: string)

  /** One page of the directory listing. */
  datatype UsersResponse = UsersResponse(page: int, perPage: int, total: int, totalPages: int, data: seq<User>)

  /** The body of a single-user read; `data` may be missing. */
  datatype GetUserResponse = GetUserResponse(data: Option<User>)

  /** How an awaited network call ends: with its response body, or by throwing. */
  datatype Fetched<T> = Resolved(body: T) | Rejected

  /** The form contents loaded from a user record. */
  function FormOf(u: User): (form: UpdateUserData)
    ensures form.firstName == u.firstName && form.lastName == u.lastName && form.email == u.email
  {
    UpdateUserData(u.firstName, u.lastName, u.email)
  }
}
