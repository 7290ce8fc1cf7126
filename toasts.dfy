/**
 * popup/js/toast-system.js: the `ToastManager` queue of notifications.
 * The insertion-ordered `Map` of toasts is a sequence of toast records with
 * distinct ids, oldest first. A toast's auto-dismiss timer is its `timer`
 * field; the 300 ms deletion timers `dismiss` starts are the queue
 * `deletions`, which fire in the order they were started because they all
 * have the same delay.
 */
module Toasts {
  import opened Wrappers

  const MaxToasts: nat := 5
  const DefaultDuration: int := 1000
  const ErrorDuration: int := 2000
  const WarningDuration: int := 1500

  /** The caller's options object; `None` is a key the caller left out. */
  datatype Options = Options(
    kind: Option<string>,
    duration: Option<int>,
    persistent: Option<bool>,
    dismissible: Option<bool>)

  const NoOptions := Options(None, None, None, None)

  /** A toast's `config`; `kind` is the `type` option. */
  datatype Config = Config(kind: string, duration: int, persistent: bool, dismissible: bool)

  /** `{ type: 'info', duration: 1000, persistent: false, dismissible: true, ...options }` */
  function ShowConfig(o: Options): (c: Config)
    ensures o.kind.Some? ==> c.kind == o.kind.value
    ensures o.kind.None? ==> c.kind == "info"
    ensures o.duration.Some? ==> c.duration == o.duration.value
    ensures o.duration.None? ==> c.duration == DefaultDuration
    ensures o.persistent.Some? ==> c.persistent == o.persistent.value
    ensures o.persistent.None? ==> c.persistent == false
    ensures o.dismissible.Some? ==> c.dismissible == o.dismissible.value
    ensures o.dismissible.None? ==> c.dismissible == true
  {
    Config(
      o.kind.GetOr("info"),
      o.duration.GetOr(DefaultDuration),
      o.persistent.GetOr(false),
      o.dismissible.GetOr(true))
  }

  /** The options `success` passes on: `{ ...options, type: 'success' }`. */
  function SuccessOptions(o: Options): Options {
    o.(kind := Some("success"))
  }

  /** The options `error` passes on: `{ ...options, type: 'error', duration: 2000 }`. */
  function ErrorOptions(o: Options): Options {
    o.(kind := Some("error"), duration := Some(ErrorDuration))
  }

  /** The options `warning` passes on: `{ ...options, type: 'warning', duration: 1500 }`. */
  function WarningOptions(o: Options): Options {
    o.(kind := Some("warning"), duration := Some(WarningDuration))
  }

  /** The options `info` passes on: `{ ...options, type: 'info' }`. */
  function InfoOptions(o: Options): Options {
    o.(kind := Some("info"))
  }

  /** With no options, `show` makes an auto-dismissing, dismissible info toast of 1000 ms. */
  lemma ShowDefaults()
    ensures ShowConfig(NoOptions) == Config("info", DefaultDuration, false, true)
  {
  }

  /**
   * `error` and `warning` fix their type and duration whatever the caller passes;
   * `success` and `info` fix only the type. All four keep the caller's other options.
   */
  lemma ConvenienceConfigs(o: Options)
    ensures ShowConfig(ErrorOptions(o)) == ShowConfig(o).(kind := "error", duration := ErrorDuration)
    ensures ShowConfig(WarningOptions(o)) == ShowConfig(o).(kind := "warning", duration := WarningDuration)
    ensures ShowConfig(SuccessOptions(o)) == ShowConfig(o).(kind := "success")
    ensures ShowConfig(InfoOptions(o)) == ShowConfig(o).(kind := "info")
  {
  }

  /** `createIcon(type)`: the glyph of a known type, the info glyph for any other. */
  function Icon(kind: string): (glyph: string)
    ensures glyph == "✓" || glyph == "✕" || glyph == "⚠" || glyph == "ℹ"
    ensures glyph == "ℹ" <==> kind != "success" && kind != "error" && kind != "warning"
    ensures kind == "success" ==> glyph == "✓"
    ensures kind == "error" ==> glyph == "✕"
    ensures kind == "warning" ==> glyph == "⚠"
  {
    if kind == "success" then "✓"
    else if kind == "error" then "✕"
    else if kind == "warning" then "⚠"
    else "ℹ"
  }

  /**
   * A toast record. `timer` holds the delay of its auto-dismiss timer while
   * that timer is pending; `exiting` is the `toast-exit` class.
   */
  datatype Toast = Toast(id: nat, message: string, config: Config, timer: Option<int>, exiting: bool)

  /** The record `createToast` builds: it has an auto-dismiss timer exactly when it is neither persistent nor of zero or negative duration. */
  function NewToast(id: nat, message: string, config: Config): (t: Toast)
    ensures t.id == id && t.message == message && t.config == config && !t.exiting
    ensures t.timer.Some? <==> !config.persistent && config.duration > 0
    ensures t.timer.Some? ==> t.timer.value == config.duration
  {
    Toast(id, message, config, if !config.persistent && config.duration > 0 then Some(config.duration) else None, false)
  }

  /** What `dismiss` does to a toast: its timer is cleared and it is marked exiting. */
  function Exited(t: Toast): (r: Toast)
    ensures r.id == t.id && r.message == t.message && r.config == t.config
    ensures r.exiting && r.timer.None?
  {
    t.(timer := None, exiting := true)
  }

  /** The keys of the map, in insertion order. */
  function Ids(ts: seq<Toast>): (ids: seq<nat>)
    ensures |ids| == |ts|
    ensures forall i :: 0 <= i < |ts| ==> ids[i] == ts[i].id
  {
    seq(|ts|, i requires 0 <= i < |ts| => ts[i].id)
  }

  ghost predicate DistinctIds(ts: seq<Toast>) {
    forall i, j :: 0 <= i < j < |ts| ==> ts[i].id != ts[j].id
  }

  /** `toasts.get(id)`: the position of the first toast with this id. */
  function Find(ts: seq<Toast>, id: nat): (r: Option<nat>)
    ensures r.Some? ==> r.value < |ts| && ts[r.value].id == id
    ensures r.Some? ==> forall j :: 0 <= j < r.value ==> ts[j].id != id
    ensures r.None? <==> id !in Ids(ts)
  {
    if ts == [] then None
    else if ts[0].id == id then Some(0)
    else
      match Find(ts[1..], id)
      case None =>
        assert Ids(ts) == [ts[0].id] + Ids(ts[1..]);
        None
      case Some(k) => Some(k + 1)
  }

  /** The map after `dismiss(id)`: the toast with that id, if any, is exited; nothing else changes. */
  function MarkExiting(ts: seq<Toast>, id: nat): (r: seq<Toast>)
    ensures |r| == |ts| && Ids(r) == Ids(ts)
    ensures id !in Ids(ts) ==> r == ts
    ensures DistinctIds(ts) ==> forall i :: 0 <= i < |ts| ==> r[i] == (if ts[i].id == id then Exited(ts[i]) else ts[i])
  {
    match Find(ts, id)
    case None => ts
    case Some(i) => ts[i := Exited(ts[i])]
  }

  /** With distinct keys, dismissing the key at `i` exits exactly the toast at `i`. */
  lemma MarkExitingAt(ts: seq<Toast>, i: nat)
    requires DistinctIds(ts) && i < |ts|
    ensures MarkExiting(ts, ts[i].id) == ts[i := Exited(ts[i])]
  {
  }

  /** The map after every toast in it is dismissed. */
  function ExitAll(ts: seq<Toast>): (r: seq<Toast>)
    ensures |r| == |ts|
    ensures forall i :: 0 <= i < |ts| ==> r[i] == Exited(ts[i])
  {
    seq(|ts|, i requires 0 <= i < |ts| => Exited(ts[i]))
  }

  /** The map after its first `n` toasts are dismissed, the rest untouched. */
  function ExitFirst(ts: seq<Toast>, n: nat): (r: seq<Toast>)
    requires n <= |ts|
    ensures |r| == |ts|
    ensures Ids(r) == Ids(ts)
    ensures forall i :: 0 <= i < |ts| ==> r[i] == (if i < n then Exited(ts[i]) else ts[i])
  {
    ExitAll(ts[..n]) + ts[n..]
  }

  /** Dismissing the next toast extends the dismissed prefix by one. */
  lemma ExitFirstStep(ts: seq<Toast>, n: nat)
    requires n < |ts|
    ensures ExitFirst(ts, n)[n := Exited(ts[n])] == ExitFirst(ts, n + 1)
  {
  }

  lemma ExitFirstAll(ts: seq<Toast>)
    ensures ExitFirst(ts, |ts|) == ExitAll(ts)
  {
  }

  /** `toasts.delete(id)`. */
  function Remove(ts: seq<Toast>, id: nat): (r: seq<Toast>)
    ensures |r| <= |ts|
  {
    if ts == [] then []
    else if ts[0].id == id then Remove(ts[1..], id)
    else [ts[0]] + Remove(ts[1..], id)
  }

  /** Every toast with another id stays and the deleted id is gone. */
  lemma {:induction false} RemoveMembers(ts: seq<Toast>, id: nat)
    ensures forall t :: t in Remove(ts, id) <==> t in ts && t.id != id
  {
    if ts != [] {
      RemoveMembers(ts[1..], id);
      assert forall t :: t in ts <==> t == ts[0] || t in ts[1..];
    }
  }

  /** Deleting keeps the keys distinct. */
  lemma {:induction false} RemoveKeepsDistinct(ts: seq<Toast>, id: nat)
    requires DistinctIds(ts)
    ensures DistinctIds(Remove(ts, id))
  {
    if ts != [] {
      TailDistinct(ts);
      RemoveKeepsDistinct(ts[1..], id);
      if ts[0].id != id {
        var rest := Remove(ts[1..], id);
        RemoveMembers(ts[1..], id);
        var r := [ts[0]] + rest;
        forall a, b | 0 <= a < b < |r| ensures r[a].id != r[b].id {
          assert r[b] == rest[b - 1] && r[b] in rest;
          if a > 0 {
            assert r[a] == rest[a - 1];
          }
        }
      }
    }
  }

  /** The number of toasts that are not exiting. */
  function LiveCount(ts: seq<Toast>): (n: nat)
    ensures n <= |ts|
  {
    if ts == [] then 0 else (if ts[0].exiting then 0 else 1) + LiveCount(ts[1..])
  }

  /** The limit step of `addToast`: at five or more toasts the first key is dismissed, exiting or not. */
  function Evicted(ts: seq<Toast>): (r: seq<Toast>)
    ensures |r| == |ts| && Ids(r) == Ids(ts)
    ensures |ts| < MaxToasts ==> r == ts
    ensures |ts| >= MaxToasts ==> r == ts[0 := Exited(ts[0])]
  {
    if |ts| >= MaxToasts then MarkExiting(ts, ts[0].id) else ts
  }

  /** Looking a toast up depends only on the keys. */
  lemma {:induction false} FindByIds(ts: seq<Toast>, us: seq<Toast>, id: nat)
    requires Ids(ts) == Ids(us)
    ensures Find(ts, id) == Find(us, id)
  {
    if ts != [] {
      assert Ids(ts[1..]) == Ids(ts)[1..] && Ids(us[1..]) == Ids(us)[1..];
      assert ts[0].id == Ids(ts)[0] == Ids(us)[0] == us[0].id;
      FindByIds(ts[1..], us[1..], id);
    }
  }

  /** Dismissing a toast again before its deletion leaves the map as the first dismissal left it. */
  lemma DismissTwice(ts: seq<Toast>, id: nat)
    ensures MarkExiting(MarkExiting(ts, id), id) == MarkExiting(ts, id)
  {
    var once := MarkExiting(ts, id);
    FindByIds(once, ts, id);
  }

  /** The second of two deletions of one id removes nothing more. */
  lemma {:induction false} RemoveTwice(ts: seq<Toast>, id: nat)
    ensures Remove(Remove(ts, id), id) == Remove(ts, id)
  {
    if ts != [] {
      RemoveTwice(ts[1..], id);
    }
  }

  /** Deleting a present id from a map with distinct keys removes exactly that entry, keeping the order of the rest. */
  lemma {:induction false} RemoveAt(ts: seq<Toast>, i: nat)
    requires DistinctIds(ts) && i < |ts|
    ensures Remove(ts, ts[i].id) == ts[..i] + ts[i + 1..]
  {
    TailDistinct(ts);
    if i == 0 {
      RemoveAbsent(ts[1..], ts[0].id);
      assert Remove(ts, ts[0].id) == ts[1..];
      assert ts[..0] + ts[1..] == ts[1..];
    } else {
      var id := ts[i].id;
      assert ts[1..][i - 1] == ts[i] && ts[0].id != id;
      RemoveAt(ts[1..], i - 1);
      assert Remove(ts, id) == [ts[0]] + (ts[1..][..i - 1] + ts[1..][i..]);
      assert ts[..i] == [ts[0]] + ts[1..][..i - 1];
      assert ts[i + 1..] == ts[1..][i..];
      assert [ts[0]] + (ts[1..][..i - 1] + ts[1..][i..]) == ([ts[0]] + ts[1..][..i - 1]) + ts[1..][i..];
    }
  }

  /** Behind the first key of a map with distinct keys come distinct keys, none of them the first. */
  lemma TailDistinct(ts: seq<Toast>)
    requires DistinctIds(ts) && ts != []
    ensures DistinctIds(ts[1..])
    ensures forall t :: t in ts[1..] ==> t.id != ts[0].id
  {
    forall t | t in ts[1..] ensures t.id != ts[0].id {
      var k :| 0 <= k < |ts[1..]| && ts[1..][k] == t;
      assert t == ts[k + 1];
    }
  }

  /** Deleting an absent id changes nothing. */
  lemma {:induction false} RemoveAbsent(ts: seq<Toast>, id: nat)
    requires forall t :: t in ts ==> t.id != id
    ensures Remove(ts, id) == ts
  {
    if ts != [] {
      assert ts[0] in ts;
      assert forall t :: t in ts[1..] ==> t in ts;
      RemoveAbsent(ts[1..], id);
    }
  }

  /** Replacing one toast changes the live count by what that toast contributed. */
  lemma {:induction false} LiveCountUpdate(ts: seq<Toast>, i: nat, t: Toast)
    requires i < |ts|
    ensures LiveCount(ts[i := t]) + (if ts[i].exiting then 0 else 1) == LiveCount(ts) + (if t.exiting then 0 else 1)
  {
    if i > 0 {
      assert ts[i := t][1..] == ts[1..][i - 1 := t];
      LiveCountUpdate(ts[1..], i - 1, t);
    }
  }

  lemma {:induction false} LiveCountAppend(ts: seq<Toast>, t: Toast)
    ensures LiveCount(ts + [t]) == LiveCount(ts) + (if t.exiting then 0 else 1)
  {
    if ts != [] {
      assert (ts + [t])[1..] == ts[1..] + [t];
      LiveCountAppend(ts[1..], t);
    }
  }

  /**
   * Adding a toast keeps at most five toasts live when at most five were live
   * and, at the limit, the first key was still live.
   */
  lemma EvictionKeepsCap(ts: seq<Toast>, t: Toast)
    requires DistinctIds(ts) && LiveCount(ts) <= MaxToasts && !t.exiting
    requires |ts| >= MaxToasts ==> !ts[0].exiting
    ensures LiveCount(Evicted(ts) + [t]) <= MaxToasts
  {
    LiveCountAppend(Evicted(ts), t);
    if |ts| >= MaxToasts {
      assert MarkExiting(ts, ts[0].id) == ts[0 := Exited(ts[0])];
      LiveCountUpdate(ts, 0, Exited(ts[0]));
    }
  }

  /**
   * The limit counts exiting toasts as well and evicts the first key even when
   * it is already exiting: a sixth toast exiting at the head and five live ones
   * behind it give six live toasts after one more `show`.
   */
  lemma EvictionCanExceedCap(c: Config)
    ensures var ts := [Exited(NewToast(0, "", c)), NewToast(1, "", c), NewToast(2, "", c),
                       NewToast(3, "", c), NewToast(4, "", c), NewToast(5, "", c)];
            LiveCount(Evicted(ts) + [NewToast(6, "", c)]) == MaxToasts + 1
  {
    var ts := [Exited(NewToast(0, "", c)), NewToast(1, "", c), NewToast(2, "", c),
               NewToast(3, "", c), NewToast(4, "", c), NewToast(5, "", c)];
    assert Find(ts, 0) == Some(0);
    assert Evicted(ts) == ts;
    LiveCountAppend(ts, NewToast(6, "", c));
    assert LiveCount(ts[5..]) == 1;
    assert LiveCount(ts[4..]) == 2 by { assert ts[4..][1..] == ts[5..]; }
    assert LiveCount(ts[3..]) == 3 by { assert ts[3..][1..] == ts[4..]; }
    assert LiveCount(ts[2..]) == 4 by { assert ts[2..][1..] == ts[3..]; }
    assert LiveCount(ts[1..]) == 5 by { assert ts[1..][1..] == ts[2..]; }
  }

  class ToastManager {
    /** `this.toasts`, oldest first. */
    var toasts: seq<Toast>
    /** The next fresh toast id. */
    var nextId: nat
    /** The ids whose 300 ms deletion timers are pending, oldest first. */
    var deletions: seq<nat>

    /**
     * Keys are distinct and were handed out before; a toast is exiting exactly
     * when its deletion is pending, and an exiting toast has no auto-dismiss timer.
     */
    ghost predicate Valid()
      reads this
    {
      && DistinctIds(toasts)
      && (forall i :: 0 <= i < |toasts| ==> toasts[i].id < nextId)
      && (forall k :: 0 <= k < |deletions| ==> deletions[k] < nextId)
      && (forall i :: 0 <= i < |toasts| ==> (toasts[i].exiting <==> toasts[i].id in deletions))
      && (forall i :: 0 <= i < |toasts| && toasts[i].exiting ==> toasts[i].timer.None?)
    }

    constructor()
      ensures Valid() && toasts == [] && deletions == []
    {
      toasts, nextId, deletions := [], 0, [];
    }

    /** `show(message, options)`: returns the new toast's id, which is then the last key of the map. */
    method Show(message: string, o: Options) returns (id: nat)
      requires Valid()
      modifies this
      ensures Valid()
      ensures id == old(nextId) && nextId == old(nextId) + 1
      ensures toasts == Evicted(old(toasts)) + [NewToast(id, message, ShowConfig(o))]
      ensures deletions == old(deletions) + (if |old(toasts)| >= MaxToasts then [old(toasts)[0].id] else [])
      ensures id in Ids(toasts) && toasts[|toasts| - 1].id == id
    {
      var config := ShowConfig(o);
      var t := CreateToast(message, config);
      AddToast(t);
      id := t.id;
      assert Ids(toasts)[|toasts| - 1] == id;
    }

    /** `success(message, options)` */
    method Success(message: string, o: Options) returns (id: nat)
      requires Valid()
      modifies this
      ensures Valid()
      ensures toasts == Evicted(old(toasts)) + [NewToast(id, message, ShowConfig(o).(kind := "success"))]
      ensures id == old(nextId) && nextId == old(nextId) + 1
      ensures deletions == old(deletions) + (if |old(toasts)| >= MaxToasts then [old(toasts)[0].id] else [])
    {
      ConvenienceConfigs(o);
      id := Show(message, SuccessOptions(o));
    }

    /** `error(message, options)` */
    method Error(message: string, o: Options) returns (id: nat)
      requires Valid()
      modifies this
      ensures Valid()
      ensures toasts == Evicted(old(toasts)) + [NewToast(id, message, ShowConfig(o).(kind := "error", duration := ErrorDuration))]
      ensures id == old(nextId) && nextId == old(nextId) + 1
      ensures deletions == old(deletions) + (if |old(toasts)| >= MaxToasts then [old(toasts)[0].id] else [])
    {
      ConvenienceConfigs(o);
      id := Show(message, ErrorOptions(o));
    }

    /** `warning(message, options)` */
    method Warning(message: string, o: Options) returns (id: nat)
      requires Valid()
      modifies this
      ensures Valid()
      ensures toasts == Evicted(old(toasts)) + [NewToast(id, message, ShowConfig(o).(kind := "warning", duration := WarningDuration))]
      ensures id == old(nextId) && nextId == old(nextId) + 1
      ensures deletions == old(deletions) + (if |old(toasts)| >= MaxToasts then [old(toasts)[0].id] else [])
    {
      ConvenienceConfigs(o);
      id := Show(message, WarningOptions(o));
    }

    /** `info(message, options)` */
    method Info(message: string, o: Options) returns (id: nat)
      requires Valid()
      modifies this
      ensures Valid()
      ensures toasts == Evicted(old(toasts)) + [NewToast(id, message, ShowConfig(o).(kind := "info"))]
      ensures id == old(nextId) && nextId == old(nextId) + 1
      ensures deletions == old(deletions) + (if |old(toasts)| >= MaxToasts then [old(toasts)[0].id] else [])
    {
      ConvenienceConfigs(o);
      id := Show(message, InfoOptions(o));
    }

    /** The id and timer part of `createToast`: a fresh id and, when armed, the auto-dismiss timer. */
    method CreateToast(message: string, config: Config) returns (t: Toast)
      modifies this`nextId
      ensures t == NewToast(old(nextId), message, config)
      ensures nextId == old(nextId) + 1
    {
      t := NewToast(nextId, message, config);
      nextId := nextId + 1;
    }

    /** `addToast(toast)`: at the limit the first key is dismissed; the new toast always goes last. */
    method AddToast(t: Toast)
      requires Valid()
      requires t.id < nextId && t.id !in Ids(toasts) && t.id !in deletions && !t.exiting
      modifies this`toasts, this`deletions
      ensures Valid()
      ensures toasts == Evicted(old(toasts)) + [t]
      ensures deletions == old(deletions) + (if |old(toasts)| >= MaxToasts then [old(toasts)[0].id] else [])
    {
      if |toasts| >= MaxToasts {
        Dismiss(toasts[0].id);
      }
      toasts := toasts + [t];
    }

    /** `dismiss(id)`: an unknown id changes nothing; a known one is exited and its deletion scheduled. */
    method Dismiss(id: nat)
      requires Valid()
      modifies this`toasts, this`deletions
      ensures Valid()
      ensures toasts == MarkExiting(old(toasts), id)
      ensures deletions == old(deletions) + (if id in Ids(old(toasts)) then [id] else [])
    {
      var found := Find(toasts, id);
      if found.None? {
        return;
      }
      var i := found.value;
      toasts := toasts[i := Exited(toasts[i])];
      deletions := deletions + [id];
    }

    /** `dismissAll()`: dismisses every key present at the call, from a snapshot of the keys. */
    method DismissAll()
      requires Valid()
      modifies this`toasts, this`deletions
      ensures Valid()
      ensures toasts == ExitAll(old(toasts))
      ensures deletions == old(deletions) + Ids(old(toasts))
    {
      ghost var start, pending := toasts, deletions;
      var keys := Ids(toasts);
      var i := 0;
      while i < |keys|
        invariant 0 <= i <= |keys| == |start|
        invariant Valid()
        invariant toasts == ExitFirst(start, i)
        invariant deletions == pending + keys[..i]
      {
        DismissNext(start, pending, keys, i);
        i := i + 1;
      }
      ExitFirstAll(start);
    }

    /** One turn of the `dismissAll` loop: the `i`-th key of the snapshot is dismissed. */
    method DismissNext(ghost start: seq<Toast>, ghost pending: seq<nat>, keys: seq<nat>, i: nat)
      requires Valid() && keys == Ids(start) && i < |start| && toasts == ExitFirst(start, i)
      requires deletions == pending + keys[..i]
      modifies this`toasts, this`deletions
      ensures Valid()
      ensures toasts == ExitFirst(start, i + 1)
      ensures deletions == pending + keys[..i + 1]
    {
      assert keys[..i + 1] == keys[..i] + [keys[i]];
      assert keys[i] == toasts[i].id && keys[i] in Ids(toasts);
      MarkExitingAt(toasts, i);
      ExitFirstStep(start, i);
      Dismiss(keys[i]);
    }

    /** A toast's auto-dismiss timer going off: the toast is dismissed. */
    method FireAutoDismiss(id: nat)
      requires Valid()
      requires Find(toasts, id).Some? && toasts[Find(toasts, id).value].timer.Some?
      modifies this`toasts, this`deletions
      ensures Valid()
      ensures toasts == MarkExiting(old(toasts), id)
      ensures deletions == old(deletions) + [id]
    {
      Dismiss(id);
    }

    /** The oldest pending deletion timer going off: its id leaves the map. */
    method FireDeletion()
      requires Valid() && deletions != []
      modifies this`toasts, this`deletions
      ensures Valid()
      ensures toasts == Remove(old(toasts), old(deletions)[0])
      ensures deletions == old(deletions)[1..]
    {
      var id := deletions[0];
      RemoveMembers(toasts, id);
      RemoveKeepsDistinct(toasts, id);
      toasts := Remove(toasts, id);
      deletions := deletions[1..];
      forall i | 0 <= i < |toasts|
        ensures toasts[i] in old(toasts) && toasts[i].id != id
      {
        assert toasts[i] in toasts;
      }
    }
  }
}
