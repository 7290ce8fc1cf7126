/**
 * popup/js/state.js: the `StateManager` that keeps the record in memory and
 * mirrors it to session storage. The module-level `saveDebounceTimer` is the
 * field `saveTimer`, which holds the partial its callback will write.
 */
module State {
  import opened Wrappers
  import opened Constants
  import opened Record
  import opened Storage
  import opened Ui

  const LoadErrorMessage := "상태를 불러오는데 실패했습니다."
  const SaveErrorMessage := "상태를 저장하는데 실패했습니다."
  const ClearErrorMessage := "상태를 초기화하는데 실패했습니다."

  /** The record a popup opened on `data` starts from: stored keys over the defaults. */
  function Reloaded(data: map<string, StoredValue>): PersistedState {
    Overlay(Defaults, FromEntries(Restrict(data, StorageKeys)))
  }

  /** Both flags of `s` would come back unchanged from a popup reopened on `data`. */
  predicate FlagsAgree(s: PersistedState, data: map<string, StoredValue>) {
    var d := Reloaded(data);
    d.isDecoded == s.isDecoded && d.hasResult == s.hasResult
  }

  /** While storage holds the in-memory flags, reopening the popup keeps `isDecoded ==> hasResult`. */
  lemma ReloadKeepsInvariant(s: PersistedState, data: map<string, StoredValue>)
    requires DecodedHasResult(s) && FlagsAgree(s, data)
    ensures DecodedHasResult(Reloaded(data))
  {
  }

  /** A successful write of `p`, overlaid in memory as well, keeps memory and storage in step on the flags. */
  lemma WriteKeepsFlags(s: PersistedState, data: map<string, StoredValue>, p: Partial)
    ensures FlagsAgree(s, data) ==> FlagsAgree(Overlay(s, p), data + Entries(p))
  {
    RestrictToKeys(data);
    RestrictToKeys(data + Entries(p));
    EntriesMerge(data, p);
    OverlayCombine(Defaults, FromEntries(data), p);
  }

  /** A partial that does not touch the flags can be lost or written without changing what comes back of them. */
  lemma TextWriteKeepsFlags(s: PersistedState, data: map<string, StoredValue>, p: Partial)
    requires TextOnly(p)
    ensures FlagsAgree(s, data) ==> FlagsAgree(s, data + Entries(p))
    ensures FlagsAgree(s, data) ==> FlagsAgree(Overlay(s, p), data)
  {
    WriteKeepsFlags(s, data, p);
  }

  /** An emptied store reloads as the defaults. */
  lemma ClearedStoreReloadsDefaults()
    ensures Reloaded(map[]) == Defaults
  {
    assert Restrict(map[], StorageKeys) == map[];
  }

  class StateManager {
    var currentState: PersistedState
    var isLoaded: bool
    /** The pending debounced write, holding the partial it will write. */
    var saveTimer: Option<Partial>
    const storage: SessionStorage
    /** The indicator `updateStorageStatus` drives when a debounced write completes. */
    const indicator: StorageIndicator

    constructor(storage: SessionStorage, indicator: StorageIndicator)
      ensures this.storage == storage && this.indicator == indicator
      ensures currentState == Defaults && !isLoaded && saveTimer == None
    {
      this.storage := storage;
      this.indicator := indicator;
      currentState := Defaults;
      isLoaded := false;
      saveTimer := None;
    }

    /** Memory and storage agree on both flags. */
    ghost predicate FlagsPersisted()
      reads this, storage
    {
      FlagsAgree(currentState, storage.data)
    }

    /** `load()`: stored keys win over the current state; `isLoaded` is set even when the read fails. */
    method Load(ok: bool) returns (r: Result<PersistedState>)
      modifies this`currentState, this`isLoaded
      ensures isLoaded
      ensures ok ==> currentState == Overlay(old(currentState), FromEntries(Restrict(storage.data, StorageKeys)))
      ensures ok ==> r == Success(currentState)
      ensures !ok ==> currentState == old(currentState) && r == Failure(LoadErrorMessage)
    {
      var got := storage.Get(StorageKeys, ok);
      if got.Some? {
        currentState := Overlay(currentState, FromEntries(got.value));
        isLoaded := true;
        r := Success(currentState);
      } else {
        isLoaded := true;
        r := Failure(LoadErrorMessage);
      }
    }

    /** `update(p)`: memory takes `p` before the write and keeps it if the write fails; storage gets exactly `p`. */
    method Update(p: Partial, ok: bool) returns (r: Outcome)
      modifies this`currentState, storage
      ensures currentState == Overlay(old(currentState), p)
      ensures storage.data == if ok then old(storage.data) + Entries(p) else old(storage.data)
      ensures r == if ok then Pass else Fail(SaveErrorMessage)
    {
      currentState := Overlay(currentState, p);
      var done := storage.Set(Entries(p), ok);
      if done {
        r := Pass;
      } else {
        r := Fail(SaveErrorMessage);
      }
    }

    /** `updateDebounced(p)`: memory takes `p` now; any pending write is cancelled and replaced by one of `p` alone. */
    method UpdateDebounced(p: Partial)
      modifies this`currentState, this`saveTimer
      ensures currentState == Overlay(old(currentState), p)
      ensures saveTimer == Some(p)
    {
      currentState := Overlay(currentState, p);
      saveTimer := None;
      saveTimer := Some(p);
    }

    /** The debounce timer going off: the pending partial is written and the indicator reports the outcome. */
    method FireSaveTimer(ok: bool)
      requires saveTimer.Some?
      modifies this`saveTimer, storage, indicator
      ensures storage.data == if ok then old(storage.data) + Entries(old(saveTimer).value) else old(storage.data)
      ensures indicator.className == if ok then "saved" else ""
      ensures indicator.hideTimer == if ok then Some(StatusDisplayTime) else None
      ensures saveTimer == None
    {
      var done := storage.Set(Entries(saveTimer.value), ok);
      if done {
        indicator.Update("saved");
      } else {
        indicator.Update("hidden");
      }
      saveTimer := None;
    }

    /** `clear()`: memory goes back to the defaults whether or not storage could be cleared. */
    method Clear(ok: bool) returns (r: Outcome)
      modifies this`currentState, storage
      ensures currentState == Defaults
      ensures storage.data == if ok then map[] else old(storage.data)
      ensures r == if ok then Pass else Fail(ClearErrorMessage)
    {
      currentState := Defaults;
      var done := storage.Clear(ok);
      if done {
        r := Pass;
      } else {
        r := Fail(ClearErrorMessage);
      }
    }

    /** `get()`: the in-memory record; storage is not read. */
    method Get() returns (s: PersistedState)
      ensures s == currentState
    {
      s := currentState;
    }
  }
}
