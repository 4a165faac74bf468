/**
 * The storage hook behind the workspace: the value is read once from
 * local storage, written back whenever it changes, and a "saving" flag is
 * shown for 1.5 s after each change.
 */
module Persistence {
  import opened Wrappers
  import opened Json

  /**
   * The value the hook starts from: the stored item parsed, or the initial
   * value when there is no item, the item is empty, or it does not parse.
   */
  function LoadInitial(item: Option<string>, parse: string -> Option<Json>, initial: Json): (v: Json)
    ensures item.None? || item == Some("") ==> v == initial
    ensures item.Some? && item.value != "" && parse(item.value).Some? ==> v == parse(item.value).value
    ensures item.Some? && item.value != "" && parse(item.value).None? ==> v == initial
  {
    match item
    case None => initial
    case Some(text) =>
      if text == "" then initial
      else match parse(text)
        case None => initial
        case Some(v) => v
  }

  /**
   * The hook's state: the value, what local storage holds, the saving
   * flag, the live indicator timer (by handle) and the next handle.
   */
  datatype Store = Store(value: Json, disk: Option<string>, saving: bool, timer: Option<nat>, nextHandle: nat)

  /**
   * The write-back effect, run on mount and after every change of the
   * value: clear the old timer, raise the flag, try the write (`writeOk`
   * says whether `setItem` succeeded), arm a fresh timer. A failed write is
   * only logged; the timer is armed all the same.
   */
  function Persist(s: Store, v: Json, writeOk: bool, stringify: Json -> string): (r: Store)
    ensures r.value == v && r.saving
    ensures r.timer == Some(s.nextHandle) && r.nextHandle == s.nextHandle + 1
    ensures writeOk ==> r.disk == Some(stringify(v))
    ensures !writeOk ==> r.disk == s.disk
  {
    Store(v, if writeOk then Some(stringify(v)) else s.disk, true, Some(s.nextHandle), s.nextHandle + 1)
  }

  /** The hook mounting: it loads, then its effect runs once for the loaded value. */
  function Mount(disk: Option<string>, parse: string -> Option<Json>, initial: Json, writeOk: bool,
                 stringify: Json -> string, firstHandle: nat): (s: Store)
    ensures s.saving && s.value == LoadInitial(disk, parse, initial)
    ensures writeOk ==> s.disk == Some(stringify(s.value))
    ensures !writeOk ==> s.disk == disk
    ensures s.timer == Some(firstHandle) && s.nextHandle == firstHandle + 1
  {
    Persist(Store(LoadInitial(disk, parse, initial), disk, false, None, firstHandle), LoadInitial(disk, parse, initial), writeOk, stringify)
  }

  /** An indicator timer fires: only the live one lowers the flag. */
  function Tick(s: Store, h: nat): (r: Store)
    ensures s.timer == Some(h) ==> !r.saving && r.timer.None?
    ensures s.timer != Some(h) ==> r == s
    ensures r.value == s.value && r.disk == s.disk
  {
    if s.timer == Some(h) then s.(saving := false, timer := None) else s
  }

  /** Unmounting clears the live timer. */
  function Unmount(s: Store): (r: Store)
    ensures r.timer.None? && r.(timer := s.timer) == s
  {
    s.(timer := None)
  }

  /**
   * Two changes in quick succession: the first change's timer was cleared,
   * so the flag stays up until the second one's fires.
   */
  lemma StaleTimerKeepsSaving(s: Store, v1: Json, ok1: bool, v2: Json, ok2: bool, stringify: Json -> string)
    ensures var s1 := Persist(s, v1, ok1, stringify);
      var s2 := Persist(s1, v2, ok2, stringify);
      Tick(s2, s1.timer.value).saving && !Tick(s2, s2.timer.value).saving
  {
  }

  /**
   * After a write that failed, the flag is still lowered by its timer, and
   * storage still holds the previous value.
   */
  lemma FailedWriteStillClears(s: Store, v: Json, stringify: Json -> string)
    ensures var s1 := Persist(s, v, false, stringify);
      !Tick(s1, s1.timer.value).saving && Tick(s1, s1.timer.value).disk == s.disk
  {
  }

  /**
   * What a successful write stores is what the next visit loads, for a
   * value the serializer and parser agree on.
   */
  lemma ReloadReadsBack(s: Store, v: Json, parse: string -> Option<Json>, stringify: Json -> string, initial: Json)
    requires RoundTrips(parse, stringify, v) && stringify(v) != ""
    ensures LoadInitial(Persist(s, v, true, stringify).disk, parse, initial) == v
  {
  }

  /** A run of changes, each written back in turn. */
  function PersistAll(s: Store, vs: seq<Json>, oks: seq<bool>, stringify: Json -> string): (r: Store)
    requires |vs| == |oks|
    ensures |vs| > 0 ==> r.value == vs[|vs| - 1] && r.saving
    decreases |vs|
  {
    if |vs| == 0 then s
    else Persist(PersistAll(s, vs[..|vs| - 1], oks[..|oks| - 1], stringify), vs[|vs| - 1], oks[|oks| - 1], stringify)
  }

  /** A reload after a run of changes reads back the last value whose write succeeded. */
  lemma {:induction false} ReloadAfterChanges(s: Store, vs: seq<Json>, oks: seq<bool>, parse: string -> Option<Json>,
                                              stringify: Json -> string, initial: Json, k: nat)
    requires |vs| == |oks| && k < |vs| && oks[k]
    requires forall j :: k < j < |vs| ==> !oks[j]
    requires RoundTrips(parse, stringify, vs[k]) && stringify(vs[k]) != ""
    ensures LoadInitial(PersistAll(s, vs, oks, stringify).disk, parse, initial) == vs[k]
  {
    PersistAllDisk(s, vs, oks, stringify, k);
  }

  /** Storage holds the last value whose write succeeded. */
  lemma {:induction false} PersistAllDisk(s: Store, vs: seq<Json>, oks: seq<bool>, stringify: Json -> string, k: nat)
    requires |vs| == |oks| && k < |vs| && oks[k]
    requires forall j :: k < j < |vs| ==> !oks[j]
    ensures PersistAll(s, vs, oks, stringify).disk == Some(stringify(vs[k]))
    decreases |vs|
  {
    if k < |vs| - 1 {
      PersistAllDisk(s, vs[..|vs| - 1], oks[..|oks| - 1], stringify, k);
    }
  }
}
