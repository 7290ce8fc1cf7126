/**
 * `chrome.storage.session`, the popup's durable store, as an abstract key-value map.
 * Whether an operation succeeds is the environment's choice and is passed in as `ok`;
 * a failed operation leaves the store as it was.
 */
module Storage {
  import opened Wrappers
  import opened Record

  class SessionStorage {
    var data: map<string, StoredValue>

    constructor()
      ensures data == map[]
    {
      data := map[];
    }

    /** `get(keys)`: the entries stored under `keys`, or `None` when the read fails. */
    method Get(keys: set<string>, ok: bool) returns (r: Option<map<string, StoredValue>>)
      ensures ok ==> r == Some(Restrict(data, keys))
      ensures !ok ==> r == None
    {
      if ok {
        r := Some(Restrict(data, keys));
      } else {
        r := None;
      }
    }

    /** `set(entries)`: stores every given entry and keeps every other one. */
    method Set(entries: map<string, StoredValue>, ok: bool) returns (done: bool)
      modifies this
      ensures done == ok
      ensures data == if ok then old(data) + entries else old(data)
    {
      if ok {
        data := data + entries;
      }
      done := ok;
    }

    /** `clear()`: removes every entry. */
    method Clear(ok: bool) returns (done: bool)
      modifies this
      ensures done == ok
      ensures data == if ok then map[] else old(data)
    {
      if ok {
        data := map[];
      }
      done := ok;
    }
  }
}
