/**
 * The persisted state record, the partial records the handlers write, and the
 * key-value entries under which session storage holds them.
 */
module Record {
  import opened Wrappers
  import opened Constants

  /** The four fields of `StateManager.currentState`. */
  datatype PersistedState = PersistedState(
    currentText: string,
    originalInput: string,
    isDecoded: bool,
    hasResult: bool)

  /** The record a fresh `StateManager` and `clear()` start from. */
  const Defaults := PersistedState("", "", false, false)

  /** The record's invariant: the view is never marked decoded without a result. */
  predicate DecodedHasResult(s: PersistedState) {
    s.isDecoded ==> s.hasResult
  }

  /** An object literal holding some of the four keys; `None` is an absent key. */
  datatype Partial = Partial(
    currentText: Option<string>,
    originalInput: Option<string>,
    isDecoded: Option<bool>,
    hasResult: Option<bool>)

  /** A partial that touches neither flag, as the input handler's partials are. */
  predicate TextOnly(p: Partial) {
    p.isDecoded.None? && p.hasResult.None?
  }

  /** `{ ...s, ...p }`: every key present in `p` wins, every other field keeps its value. */
  function Overlay(s: PersistedState, p: Partial): (r: PersistedState)
    ensures p.currentText.Some? ==> r.currentText == p.currentText.value
    ensures p.currentText.None? ==> r.currentText == s.currentText
    ensures p.originalInput.Some? ==> r.originalInput == p.originalInput.value
    ensures p.originalInput.None? ==> r.originalInput == s.originalInput
    ensures p.isDecoded.Some? ==> r.isDecoded == p.isDecoded.value
    ensures p.isDecoded.None? ==> r.isDecoded == s.isDecoded
    ensures p.hasResult.Some? ==> r.hasResult == p.hasResult.value
    ensures p.hasResult.None? ==> r.hasResult == s.hasResult
  {
    PersistedState(
      p.currentText.GetOr(s.currentText),
      p.originalInput.GetOr(s.originalInput),
      p.isDecoded.GetOr(s.isDecoded),
      p.hasResult.GetOr(s.hasResult))
  }

  /** `{ ...p, ...q }` on two partials. */
  function Combine(p: Partial, q: Partial): Partial {
    Partial(
      if q.currentText.Some? then q.currentText else p.currentText,
      if q.originalInput.Some? then q.originalInput else p.originalInput,
      if q.isDecoded.Some? then q.isDecoded else p.isDecoded,
      if q.hasResult.Some? then q.hasResult else p.hasResult)
  }

  /** Overlaying two partials one after the other is overlaying their combination. */
  lemma OverlayCombine(s: PersistedState, p: Partial, q: Partial)
    ensures Overlay(Overlay(s, p), q) == Overlay(s, Combine(p, q))
  {
  }

  /** Overlaying the same partial twice changes nothing the first overlay did not. */
  lemma OverlayIdempotent(s: PersistedState, p: Partial)
    ensures Overlay(Overlay(s, p), p) == Overlay(s, p)
  {
  }

  /** A partial holding all four keys fixes the whole record, whatever it was before. */
  lemma OverlayComplete(s: PersistedState, t: PersistedState, p: Partial)
    requires p.currentText.Some? && p.originalInput.Some? && p.isDecoded.Some? && p.hasResult.Some?
    ensures Overlay(s, p) == Overlay(t, p)
  {
  }

  /** A stored value: the record's fields are strings and booleans. */
  datatype StoredValue = StoredText(text: string) | StoredFlag(flag: bool)

  /** The storage entries `chrome.storage.session.set(p)` writes: one per key present in `p`. */
  function Entries(p: Partial): (m: map<string, StoredValue>)
    ensures m.Keys <= StorageKeys
    ensures CurrentTextKey in m <==> p.currentText.Some?
    ensures OriginalInputKey in m <==> p.originalInput.Some?
    ensures IsDecodedKey in m <==> p.isDecoded.Some?
    ensures HasResultKey in m <==> p.hasResult.Some?
  {
    StorageKeysDistinct();
    (if p.currentText.Some? then map[CurrentTextKey := StoredText(p.currentText.value)] else map[])
    + (if p.originalInput.Some? then map[OriginalInputKey := StoredText(p.originalInput.value)] else map[])
    + (if p.isDecoded.Some? then map[IsDecodedKey := StoredFlag(p.isDecoded.value)] else map[])
    + (if p.hasResult.Some? then map[HasResultKey := StoredFlag(p.hasResult.value)] else map[])
  }

  function TextAt(m: map<string, StoredValue>, key: string): Option<string> {
    if key in m && m[key].StoredText? then Some(m[key].text) else None
  }

  function FlagAt(m: map<string, StoredValue>, key: string): Option<bool> {
    if key in m && m[key].StoredFlag? then Some(m[key].flag) else None
  }

  /** The partial record `chrome.storage.session.get` returns for the four keys: a field is set exactly when its key holds a value of its type. */
  function FromEntries(m: map<string, StoredValue>): (r: Partial)
    ensures r.currentText.Some? <==> CurrentTextKey in m && m[CurrentTextKey].StoredText?
    ensures r.originalInput.Some? <==> OriginalInputKey in m && m[OriginalInputKey].StoredText?
    ensures r.isDecoded.Some? <==> IsDecodedKey in m && m[IsDecodedKey].StoredFlag?
    ensures r.hasResult.Some? <==> HasResultKey in m && m[HasResultKey].StoredFlag?
    ensures r.currentText.Some? ==> r.currentText.value == m[CurrentTextKey].text
    ensures r.originalInput.Some? ==> r.originalInput.value == m[OriginalInputKey].text
    ensures r.isDecoded.Some? ==> r.isDecoded.value == m[IsDecodedKey].flag
    ensures r.hasResult.Some? ==> r.hasResult.value == m[HasResultKey].flag
  {
    Partial(
      TextAt(m, CurrentTextKey),
      TextAt(m, OriginalInputKey),
      FlagAt(m, IsDecodedKey),
      FlagAt(m, HasResultKey))
  }

  /** `m` restricted to `keys`, as a `get(keys)` returns it. */
  function Restrict(m: map<string, StoredValue>, keys: set<string>): (r: map<string, StoredValue>)
    ensures r.Keys == m.Keys * keys
    ensures forall k :: k in r ==> r[k] == m[k]
  {
    map k | k in m && k in keys :: m[k]
  }

  lemma StorageKeysDistinct()
    ensures CurrentTextKey != OriginalInputKey && CurrentTextKey != IsDecodedKey
    ensures CurrentTextKey != HasResultKey && OriginalInputKey != IsDecodedKey
    ensures OriginalInputKey != HasResultKey && IsDecodedKey != HasResultKey
  {
    assert IsDecodedKey[0] != HasResultKey[0];
    assert CurrentTextKey[0] != OriginalInputKey[0];
    assert CurrentTextKey[0] != IsDecodedKey[0];
    assert CurrentTextKey[0] != HasResultKey[0];
    assert OriginalInputKey[0] != IsDecodedKey[0];
    assert OriginalInputKey[0] != HasResultKey[0];
  }

  /** Reading back what was written gives the written partial: the entries round-trip. */
  lemma EntriesRoundTrip(p: Partial)
    ensures FromEntries(Entries(p)) == p
  {
    StorageKeysDistinct();
  }

  /** Writing `p` into a store holding `m` and reading back is combining `p` over what was read before. */
  lemma EntriesMerge(m: map<string, StoredValue>, p: Partial)
    ensures FromEntries(m + Entries(p)) == Combine(FromEntries(m), p)
  {
    StorageKeysDistinct();
  }

  /** Reading only the four keys loses nothing the record is made of. */
  lemma RestrictToKeys(m: map<string, StoredValue>)
    ensures FromEntries(Restrict(m, StorageKeys)) == FromEntries(m)
  {
  }
}
