/** The browser's `localStorage`, as the console uses it. */
module Storage {
  import opened Js
  import opened Types

  /** What reading and parsing the `updatedUsers` entry meets: no entry (read
      as `'{}'`), a parsed object keyed by stringified user id, or text that
      `JSON.parse` rejects. */
  datatype StoredUsers = Missing | Stored(users: map<string, User>) | Malformed

  /** `JSON.parse(localStorage.getItem('updatedUsers') || '{}')`: `None` when the
      parse throws. */
  function ParseStoredUsers(s: StoredUsers): (r: Option<map<string, User>>)
    ensures r.None? <==> s.Malformed?
    ensures s.Missing? ==> r == Some(map[])
    ensures s.Stored? ==> r == Some(s.users)
  {
    match s
    case Missing => Some(map[])
    case Stored(m) => Some(m)
    case Malformed => None
  }

  /** `getItem(key)` on a snapshot of the string entries: `None` stands for
      `null`. */
  function Lookup(items: map<string, string>, key: string): (v: Option<string>)
    ensures v.Some? <==> key in items
    ensures v.Some? ==> v.value == items[key]
  {
    if key in items then Some(items[key]) else None
  }

  /** The storage key of the override map. */
  const UpdatedUsersKey := "updatedUsers"

  /** The key-value store shared by every screen. `items` holds every key
      except `updatedUsers`, which is kept already parsed in `updatedUsers`:
      the string-entry members below never take that key, so the two parts
      cannot disagree about it. */
  class LocalStorage {
    var items: map<string, string>
    var updatedUsers: StoredUsers

    constructor (items: map<string, string>, updatedUsers: StoredUsers)
      requires UpdatedUsersKey !in items
      ensures this.items == items && this.updatedUsers == updatedUsers
    {
      this.items := items;
      this.updatedUsers := updatedUsers;
    }

    /** `getItem(key)` for any key but `updatedUsers`. */
    function GetItem(key: string): (v: Option<string>)
      requires key != UpdatedUsersKey
      reads this
      ensures v.Some? <==> key in items
      ensures v.Some? ==> v.value == items[key]
    {
      Lookup(items, key)
    }

    /** `setItem(key, value)` for any key but `updatedUsers`, which is written
        by `WriteUpdatedUsers`. */
    method SetItem(key: string, value: string)
      requires key != UpdatedUsersKey
      modifies this
      ensures items == old(items)[key := value]
      ensures updatedUsers == old(updatedUsers)
    {
      items := items[key := value];
    }

    /** `removeItem(key)` for any key but `updatedUsers`. */
    method RemoveItem(key: string)
      requires key != UpdatedUsersKey
      modifies this
      ensures items == old(items) - {key}
      ensures updatedUsers == old(updatedUsers)
    {
      items := items - {key};
    }

    /** `setItem('updatedUsers', JSON.stringify(m))`. */
    method WriteUpdatedUsers(m: map<string, User>)
      modifies this
      ensures updatedUsers == Stored(m)
      ensures items == old(items)
    {
      updatedUsers := Stored(m);
    }
  }
}
