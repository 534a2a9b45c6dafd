/** What the multi-key actions keep, and what the two deletions do to the view. */
module MultiKeyRuns {
  import opened Text
  import opened MultiKey
  import opened Wrappers

  ghost predicate GoodKey(k: string) {
    k != "" && '\n' !in k
  }

  ghost predicate GoodKeys(keys: seq<string>) {
    forall k :: k in keys ==> GoodKey(k)
  }

  ghost predicate InBounds(info: Info, n: nat) {
    && (forall i :: i in info.status ==> 0 <= i < n)
    && (forall i :: i in info.time ==> 0 <= i < n)
    && (forall i :: i in info.reason ==> 0 <= i < n)
  }

  /** Keys are non-empty lines, the stored size counts them, and no side map points beyond them. */
  ghost predicate Consistent(c: Channel, json: JsonArray) {
    var keys := GetKeys(c.key, json);
    keys != [] && GoodKeys(keys) && c.size == |keys| && InBounds(c.info, c.size)
  }

  // ----- the key text reads back -----

  /** The joined keys are not taken for a JSON array of something else. */
  predicate ReadsBack(keys: seq<string>, json: JsonArray) {
    var text := Join(keys, '\n');
    IsArray(text, json) ==> json(TrimSpace(text)).value == keys
  }

  /** Joined keys read back exactly when they are not taken for another array. */
  lemma ReadKeys(keys: seq<string>, json: JsonArray)
    requires keys != [] && GoodKeys(keys)
    ensures Join(keys, '\n') != ""
    ensures GetKeys(Join(keys, '\n'), json) == keys <==> ReadsBack(keys, json)
  {
    ReadBack(keys, '\n');
  }

  /** A text that is no JSON array holds one key per line, blank lines at its ends apart. */
  lemma KeysAreLines(text: string, json: JsonArray)
    requires text != "" && !("[" <= TrimSpace(text) && json(TrimSpace(text)).Some?)
    ensures Join(GetKeys(text, json), '\n') == TrimSep(text, '\n')
    ensures forall k :: k in GetKeys(text, json) ==> '\n' !in k
  {
    JoinOfSplit(TrimSep(text, '\n'), '\n');
  }

  lemma CountIsKeys(text: string, json: JsonArray)
    requires GetKeys(text, json) != []
    ensures CountKeys(text, json) == |GetKeys(text, json)|
  {
  }

  // ----- Update on consistent input -----

  lemma WithinBounds(m: map<int, int>, n: nat)
    requires forall i :: i in m ==> i < n
    ensures (map i | i in m && i < n :: m[i]) == m
  {
  }

  lemma UpdateSameKeys(c: Channel, info: Info, json: JsonArray)
    requires Consistent(c, json) && InBounds(info, c.size)
    ensures Update(c, c.(info := info), json) == c.(info := info)
  {
    CountIsKeys(c.key, json);
    WithinBounds(info.status, c.size);
  }

  lemma EntriesDetermineKeys(ks: seq<string>, i: Info, ls: seq<string>, j: Info)
    requires Entries(ks, i) == Entries(ls, j)
    ensures ks == ls
  {
    assert |ks| == |Entries(ks, i)| == |ls|;
    forall n | 0 <= n < |ks| ensures ks[n] == ls[n] {
      assert Entries(ks, i)[n].key == Entries(ls, j)[n].key;
    }
  }

  lemma StoreReadable(c: Channel, b: Rebuilt, json: JsonArray)
    requires b.keys != [] && GoodKeys(b.keys) && InBounds(b.info, |b.keys|) && ReadsBack(b.keys, json)
    ensures Update(c, Deleted(b), json) == Deleted(b) && GetKeys(Deleted(b).key, json) == b.keys
  {
    ReadKeys(b.keys, json);
    CountIsKeys(Deleted(b).key, json);
    WithinBounds(b.info.status, |b.keys|);
  }

  /** Storing rebuilt keys shows them, with their records, exactly when the text reads back. */
  lemma StoredViewExactly(c: Channel, b: Rebuilt, json: JsonArray)
    requires b.keys != [] && GoodKeys(b.keys) && InBounds(b.info, |b.keys|)
    ensures View(Update(c, Deleted(b), json), json) == Entries(b.keys, b.info) <==> ReadsBack(b.keys, json)
  {
    var c' := Update(c, Deleted(b), json);
    ReadKeys(b.keys, json);
    if ReadsBack(b.keys, json) {
      StoreReadable(c, b, json);
    } else if View(c', json) == Entries(b.keys, b.info) {
      EntriesDetermineKeys(GetKeys(c'.key, json), c'.info, b.keys, b.info);
    }
  }

  /** What is read from the stored text are again good keys, enough for the times and reasons kept. */
  ghost predicate StoredFits(b: Rebuilt, json: JsonArray) {
    var keys := GetKeys(Join(b.keys, '\n'), json);
    && keys != [] && GoodKeys(keys)
    && (forall i :: i in b.info.time ==> i < |keys|)
    && (forall i :: i in b.info.reason ==> i < |keys|)
  }

  lemma StoredConsistentExactly(c: Channel, b: Rebuilt, json: JsonArray)
    requires b.keys != [] && GoodKeys(b.keys) && InBounds(b.info, |b.keys|)
    ensures Consistent(Update(c, Deleted(b), json), json) <==> StoredFits(b, json)
    ensures ReadsBack(b.keys, json) ==> StoredFits(b, json)
  {
    ReadKeys(b.keys, json);
    var keys := GetKeys(Join(b.keys, '\n'), json);
    if keys != [] {
      CountIsKeys(Join(b.keys, '\n'), json);
    }
  }

  // ----- the rebuilding loop refines a list filter -----

  ghost function KeepEntries(es: seq<Entry>, n: nat, dropped: set<int>): seq<Entry>
    requires n <= |es|
  {
    if n == 0 then []
    else KeepEntries(es, n - 1, dropped) + if n - 1 in dropped then [] else [es[n - 1]]
  }

  lemma CarryEntries(b: Rebuilt, info: Info, i: int, key: string, always: bool)
    requires InBounds(b.info, |b.keys|)
    ensures var b' := Carry(b, info, i, key, always);
            InBounds(b'.info, |b'.keys|) && Entries(b'.keys, b'.info) == Entries(b.keys, b.info) + [EntryAt(info, i, key)]
  {
    var b' := Carry(b, info, i, key, always);
    var j := |b.keys|;
    forall k | 0 <= k < j ensures EntryAt(b'.info, k, b'.keys[k]) == EntryAt(b.info, k, b.keys[k]) {
    }
    assert EntryAt(b'.info, j, key) == EntryAt(info, i, key);
  }

  /** What is recorded of a surviving key: time and reason of an enabled one are dropped by `delete_disabled_keys` only. */
  lemma CarryMeaning(b: Rebuilt, info: Info, i: int, key: string, always: bool)
    requires InBounds(b.info, |b.keys|)
    ensures var b', j := Carry(b, info, i, key, always), |b.keys|;
            var on := !(i in info.status) || info.status[i] == 1;
            && b'.keys == b.keys + [key]
            && (if on then j !in b'.info.status else j in b'.info.status && b'.info.status[j] == info.status[i])
            && (j in b'.info.time <==> i in info.time && (always || !on))
            && (j in b'.info.reason <==> i in info.reason && (always || !on))
            && (j in b'.info.time ==> b'.info.time[j] == info.time[i])
            && (j in b'.info.reason ==> b'.info.reason[j] == info.reason[i])
  {
  }

  /** Status, disable time and reason follow each surviving key to its new position. */
  lemma {:induction false} RebuildKeepsEntries(keys: seq<string>, info: Info, n: nat, dropped: set<int>, always: bool)
    requires n <= |keys|
    ensures var b := Rebuild(keys, info, n, dropped, always);
            && InBounds(b.info, |b.keys|)
            && Entries(b.keys, b.info) == KeepEntries(Entries(keys, info), n, dropped)
            && forall k :: k in b.keys ==> k in keys
  {
    if n > 0 {
      RebuildKeepsEntries(keys, info, n - 1, dropped, always);
      var b := Rebuild(keys, info, n - 1, dropped, always);
      if n - 1 !in dropped {
        CarryEntries(b, info, n - 1, keys[n - 1], always);
      }
    }
  }

  lemma {:induction false} KeepAllButOne(es: seq<Entry>, n: nat, k: nat)
    requires n <= |es|
    ensures KeepEntries(es, n, {k}) == if n <= k then es[..n] else es[..k] + es[k + 1..n]
  {
    if n > 0 {
      KeepAllButOne(es, n - 1, k);
      if n <= k {
        assert es[..n] == es[..n - 1] + [es[n - 1]];
      } else if n > k + 1 {
        assert es[k + 1..n] == es[k + 1..n - 1] + [es[n - 1]];
      }
    }
  }

  ghost function Without(es: seq<Entry>, k: nat): (r: seq<Entry>)
    requires k < |es|
    ensures |r| == |es| - 1
  {
    es[..k] + es[k + 1..]
  }

  lemma KeepIsWithout(es: seq<Entry>, k: nat)
    requires k < |es|
    ensures KeepEntries(es, |es|, {k}) == Without(es, k)
  {
    KeepAllButOne(es, |es|, k);
    assert es[k + 1..|es|] == es[k + 1..];
  }

  ghost function KeysOf(es: seq<Entry>): (keys: seq<string>)
    ensures |keys| == |es| && forall i :: 0 <= i < |es| ==> keys[i] == es[i].key
  {
    seq(|es|, i requires 0 <= i < |es| => es[i].key)
  }

  lemma KeysOfEntries(keys: seq<string>, info: Info)
    ensures KeysOf(Entries(keys, info)) == keys
  {
  }

  // ----- delete_key -----

  ghost function AfterDeletion(c: Channel, index: nat, json: JsonArray): Rebuilt {
    var keys := GetKeys(c.key, json);
    Rebuild(keys, c.info, |keys|, {index}, true)
  }

  lemma DeleteKeyLoop(c: Channel, index: nat, json: JsonArray)
    requires Consistent(c, json) && index < c.size
    ensures var b := AfterDeletion(c, index, json);
            && Entries(b.keys, b.info) == Without(View(c, json), index)
            && |b.keys| == c.size - 1 && GoodKeys(b.keys) && InBounds(b.info, |b.keys|)
            && b.keys == KeysOf(Without(View(c, json), index))
  {
    var keys, b := GetKeys(c.key, json), AfterDeletion(c, index, json);
    RebuildKeepsEntries(keys, c.info, |keys|, {index}, true);
    KeepIsWithout(View(c, json), index);
    assert |b.keys| == |Entries(b.keys, b.info)|;
    KeysOfEntries(b.keys, b.info);
  }

  lemma DeleteKeyStores(c: Channel, index: nat, json: JsonArray)
    requires Consistent(c, json) && index < c.size
    ensures After(c, DeleteKey(Some(index)), json)
            == if c.size == 1 then c else Update(c, Deleted(AfterDeletion(c, index, json)), json)
  {
    DeleteKeyLoop(c, index, json);
  }

  /**
   `delete_key` shows exactly the other rows, renumbered, if and only if their keys, joined, are not taken
   for a JSON array of something else; the last key cannot be deleted.
   */
  lemma DeleteKeyView(c: Channel, index: nat, json: JsonArray)
    requires Consistent(c, json) && index < c.size
    ensures c.size == 1 ==> After(c, DeleteKey(Some(index)), json) == c
    ensures c.size > 1 ==>
      (View(After(c, DeleteKey(Some(index)), json), json) == Without(View(c, json), index)
       <==> ReadsBack(KeysOf(Without(View(c, json), index)), json))
  {
    DeleteKeyStores(c, index, json);
    DeleteKeyLoop(c, index, json);
    if c.size > 1 {
      StoredViewExactly(c, AfterDeletion(c, index, json), json);
    }
  }

  // ----- delete_disabled_keys -----

  /** The rows that `delete_disabled_keys` is meant to leave. */
  ghost function NotAutoDisabled(es: seq<Entry>): seq<Entry> {
    if es == [] then []
    else
      var last := es[|es| - 1];
      NotAutoDisabled(es[..|es| - 1]) + if last.status == 3 then [] else [last]
  }

  lemma {:induction false} KeepIsFilter(keys: seq<string>, info: Info, n: nat)
    requires n <= |keys|
    ensures var es := Entries(keys, info);
            KeepEntries(es, n, WithStatus(info, |keys|, AUTO_DISABLED)) == NotAutoDisabled(es[..n])
  {
    var es := Entries(keys, info);
    if n > 0 {
      KeepIsFilter(keys, info, n - 1);
      assert es[..n][..n - 1] == es[..n - 1];
      assert es[..n][n - 1] == EntryAt(info, n - 1, keys[n - 1]);
    } else {
      assert es[..0] == [];
    }
  }

  lemma {:induction false} NothingToDelete(es: seq<Entry>)
    requires forall i :: 0 <= i < |es| ==> es[i].status != AUTO_DISABLED
    ensures NotAutoDisabled(es) == es
  {
    if es != [] {
      NothingToDelete(es[..|es| - 1]);
      assert es == es[..|es| - 1] + [es[|es| - 1]];
    }
  }

  lemma {:induction false} EverythingDeleted(es: seq<Entry>)
    ensures NotAutoDisabled(es) == [] <==> forall i :: 0 <= i < |es| ==> es[i].status == AUTO_DISABLED
  {
    if es != [] {
      EverythingDeleted(es[..|es| - 1]);
      var init := es[..|es| - 1];
      assert forall i :: 0 <= i < |init| ==> es[i] == init[i];
    }
  }

  ghost function AfterDropping(c: Channel, json: JsonArray): Rebuilt {
    var keys := GetKeys(c.key, json);
    Rebuild(keys, c.info, |keys|, WithStatus(c.info, |keys|, AUTO_DISABLED), false)
  }

  /** The loop of `delete_disabled_keys` computes the filter; what becomes of it depends on `Update`. */
  lemma DeleteDisabledLoop(c: Channel, json: JsonArray)
    requires Consistent(c, json)
    ensures var b := AfterDropping(c, json);
            && Entries(b.keys, b.info) == NotAutoDisabled(View(c, json))
            && InBounds(b.info, |b.keys|) && GoodKeys(b.keys)
            && b.keys == KeysOf(NotAutoDisabled(View(c, json)))
  {
    var keys, es, b := GetKeys(c.key, json), View(c, json), AfterDropping(c, json);
    RebuildKeepsEntries(keys, c.info, |keys|, WithStatus(c.info, |keys|, AUTO_DISABLED), false);
    KeepIsFilter(keys, c.info, |keys|);
    assert es[..|keys|] == es;
    KeysOfEntries(b.keys, b.info);
  }

  lemma EmptyMap<V>(m: map<int, V>)
    requires forall i :: i !in m
    ensures m == map[]
  {
    forall i ensures i !in m.Keys {
      assert i !in m;
    }
    assert m.Keys == {};
  }

  lemma NoBounds(info: Info)
    requires InBounds(info, 0)
    ensures info == NO_INFO
  {
    EmptyMap(info.status);
    EmptyMap(info.time);
    EmptyMap(info.reason);
  }

  /** When every key is auto-disabled the stored key text stays, and all keys come back enabled. */
  lemma AllAutoDisabledComeBack(c: Channel, json: JsonArray)
    requires Consistent(c, json) && NotAutoDisabled(View(c, json)) == []
    ensures After(c, DeleteDisabled, json) == c.(info := NO_INFO)
  {
    var keys := GetKeys(c.key, json);
    var dropped := WithStatus(c.info, |keys|, AUTO_DISABLED);
    var b := Rebuild(keys, c.info, |keys|, dropped, false);
    DeleteDisabledLoop(c, json);
    EverythingDeleted(View(c, json));
    assert View(c, json)[0].status == AUTO_DISABLED;
    assert 0 in dropped;
    assert |Entries(b.keys, b.info)| == 0;
    NoBounds(b.info);
    CountIsKeys(c.key, json);
    WithinBounds(NO_INFO.status, c.size);
  }

  ghost predicate SomeAutoDisabled(c: Channel, json: JsonArray) {
    exists i :: 0 <= i < |View(c, json)| && View(c, json)[i].status == 3
  }

  ghost predicate SomeKept(c: Channel, json: JsonArray) {
    exists i :: 0 <= i < |View(c, json)| && View(c, json)[i].status != 3
  }

  lemma DeleteDisabledStores(c: Channel, json: JsonArray)
    requires Consistent(c, json)
    ensures After(c, DeleteDisabled, json)
            == if SomeAutoDisabled(c, json) then Update(c, Deleted(AfterDropping(c, json)), json) else c
  {
    var dropped := WithStatus(c.info, c.size, AUTO_DISABLED);
    forall i | 0 <= i < c.size ensures View(c, json)[i].status == AUTO_DISABLED <==> i in dropped {
    }
    if dropped != {} {
      var i :| i in dropped;
      assert View(c, json)[i].status == AUTO_DISABLED;
    }
  }

  /**
   `delete_disabled_keys` leaves exactly the rows that are not auto-disabled, renumbered, if and only if
   there is such a row and, when anything is deleted, the remaining keys read back.
   */
  lemma DeleteDisabledView(c: Channel, json: JsonArray)
    requires Consistent(c, json)
    ensures View(After(c, DeleteDisabled, json), json) == NotAutoDisabled(View(c, json))
            <==> SomeKept(c, json)
                 && (SomeAutoDisabled(c, json) ==> ReadsBack(KeysOf(NotAutoDisabled(View(c, json))), json))
  {
    var es, b := View(c, json), AfterDropping(c, json);
    DeleteDisabledStores(c, json);
    EverythingDeleted(es);
    DeleteDisabledLoop(c, json);
    if NotAutoDisabled(es) == [] {
      AllAutoDisabledComeBack(c, json);
      assert |View(After(c, DeleteDisabled, json), json)| == c.size;
    } else if SomeAutoDisabled(c, json) {
      StoredViewExactly(c, b, json);
    } else {
      NothingToDelete(es);
    }
  }

  // ----- consistency over runs -----

  lemma DisableAllBounds(c: Channel, json: JsonArray)
    requires Consistent(c, json)
    ensures InBounds(c.info.(status := Disabled(c.info, c.size)), c.size)
  {
    forall i | i in Disabled(c.info, c.size) ensures 0 <= i < c.size {
      DisabledAt(c.info, c.size, i);
    }
  }

  /** When an action leaves a consistent channel: only a deletion that stores new key text can fail to. */
  ghost predicate Fits(c: Channel, action: Action, json: JsonArray) {
    match action
    case DeleteKey(index) => InRange(c, index) && c.size > 1 ==> StoredFits(AfterDeletion(c, index.value, json), json)
    case DeleteDisabled => SomeAutoDisabled(c, json) && SomeKept(c, json) ==> StoredFits(AfterDropping(c, json), json)
    case _ => true
  }

  lemma DeletionsFit(c: Channel, action: Action, json: JsonArray)
    requires Consistent(c, json) && (action.DeleteKey? || action.DeleteDisabled?)
    ensures Consistent(After(c, action, json), json) <==> Fits(c, action, json)
  {
    if action.DeleteDisabled? {
      DeleteDisabledStores(c, json);
      DeleteDisabledLoop(c, json);
      EverythingDeleted(View(c, json));
      if NotAutoDisabled(View(c, json)) == [] {
        AllAutoDisabledComeBack(c, json);
      } else {
        StoredConsistentExactly(c, AfterDropping(c, json), json);
      }
    } else if InRange(c, action.index) {
      DeleteKeyStores(c, action.index.value, json);
      DeleteKeyLoop(c, action.index.value, json);
      if c.size > 1 {
        StoredConsistentExactly(c, AfterDeletion(c, action.index.value, json), json);
      }
    }
  }

  lemma ActionKeepsConsistency(c: Channel, action: Action, json: JsonArray)
    requires Consistent(c, json)
    ensures Consistent(After(c, action, json), json) <==> Fits(c, action, json)
  {
    match action {
      case DisableKey(index) =>
        if InRange(c, index) {
          UpdateSameKeys(c, c.info.(status := c.info.status[index.value := MANUALLY_DISABLED]), json);
        }
      case EnableKey(index) =>
        if InRange(c, index) {
          UpdateSameKeys(c, Info(c.info.status - {index.value}, c.info.time - {index.value}, c.info.reason - {index.value}), json);
        }
      case EnableAll =>
        UpdateSameKeys(c, NO_INFO, json);
      case DisableAll =>
        DisableAllBounds(c, json);
        UpdateSameKeys(c, c.info.(status := Disabled(c.info, c.size)), json);
      case DeleteKey(_) =>
        DeletionsFit(c, action, json);
      case DeleteDisabled =>
        DeletionsFit(c, action, json);
    }
  }

  function Init(actions: seq<Action>): seq<Action>
    requires actions != []
  {
    actions[..|actions| - 1]
  }

  function Last(actions: seq<Action>): Action
    requires actions != []
  {
    actions[|actions| - 1]
  }

  function Replay(c: Channel, actions: seq<Action>, json: JsonArray): Channel {
    if actions == [] then c else After(Replay(c, Init(actions), json), Last(actions), json)
  }

  /** The channel is consistent throughout the run. */
  ghost predicate AlwaysConsistent(c: Channel, actions: seq<Action>, json: JsonArray) {
    (actions == [] || AlwaysConsistent(c, Init(actions), json)) && Consistent(Replay(c, actions, json), json)
  }

  ghost predicate AllFit(c: Channel, actions: seq<Action>, json: JsonArray) {
    actions == [] || (AllFit(c, Init(actions), json) && Fits(Replay(c, Init(actions), json), Last(actions), json))
  }

  /**
   Over every sequence of actions the size counts the keys and no side map points beyond them, if and only
   if every deletion's text fits.
   */
  lemma {:induction false} RunsStayConsistent(c: Channel, actions: seq<Action>, json: JsonArray)
    requires Consistent(c, json)
    ensures AlwaysConsistent(c, actions, json) <==> AllFit(c, actions, json)
  {
    if actions != [] {
      RunsStayConsistent(c, Init(actions), json);
      if AlwaysConsistent(c, Init(actions), json) {
        assert Consistent(Replay(c, Init(actions), json), json);
        ActionKeepsConsistency(Replay(c, Init(actions), json), Last(actions), json);
      }
    }
  }

  // ----- deletions over runs -----

  /** The deletion shows the rows it should leave. */
  ghost predicate ShowsTheRest(c: Channel, action: Action, json: JsonArray) {
    match action
    case DeleteKey(index) =>
      InRange(c, index) && 1 < c.size == |View(c, json)| ==>
        View(After(c, action, json), json) == Without(View(c, json), index.value)
    case DeleteDisabled => View(After(c, action, json), json) == NotAutoDisabled(View(c, json))
    case _ => true
  }

  /** The keys it leaves read back, and there are some. */
  ghost predicate LeavesReadable(c: Channel, action: Action, json: JsonArray) {
    match action
    case DeleteKey(index) =>
      InRange(c, index) && 1 < c.size == |View(c, json)| ==>
        ReadsBack(KeysOf(Without(View(c, json), index.value)), json)
    case DeleteDisabled =>
      SomeKept(c, json) && (SomeAutoDisabled(c, json) ==> ReadsBack(KeysOf(NotAutoDisabled(View(c, json))), json))
    case _ => true
  }

  lemma DeletionExactly(c: Channel, action: Action, json: JsonArray)
    requires Consistent(c, json)
    ensures ShowsTheRest(c, action, json) <==> LeavesReadable(c, action, json)
    ensures LeavesReadable(c, action, json) ==> Consistent(After(c, action, json), json)
  {
    ActionKeepsConsistency(c, action, json);
    if action.DeleteDisabled? {
      DeleteDisabledView(c, json);
      DeleteDisabledLoop(c, json);
      EverythingDeleted(View(c, json));
      if NotAutoDisabled(View(c, json)) != [] {
        StoredConsistentExactly(c, AfterDropping(c, json), json);
      }
    } else if action.DeleteKey? && InRange(c, action.index) && c.size > 1 {
      DeleteKeyView(c, action.index.value, json);
      DeleteKeyLoop(c, action.index.value, json);
      StoredConsistentExactly(c, AfterDeletion(c, action.index.value, json), json);
    }
  }

  ghost predicate AllShowTheRest(c: Channel, actions: seq<Action>, json: JsonArray) {
    actions == [] ||
    (AllShowTheRest(c, Init(actions), json) && ShowsTheRest(Replay(c, Init(actions), json), Last(actions), json))
  }

  ghost predicate AllLeaveReadable(c: Channel, actions: seq<Action>, json: JsonArray) {
    actions == [] ||
    (AllLeaveReadable(c, Init(actions), json) && LeavesReadable(Replay(c, Init(actions), json), Last(actions), json))
  }

  /**
   Over every sequence of actions: all deletions show exactly the rows they should leave, if and only if
   each of them leaves keys, and keys that read back.
   */
  lemma {:induction false} RunDeletionsExactly(c: Channel, actions: seq<Action>, json: JsonArray)
    requires Consistent(c, json)
    ensures AllShowTheRest(c, actions, json) <==> AllLeaveReadable(c, actions, json)
    ensures AllLeaveReadable(c, actions, json) ==> Consistent(Replay(c, actions, json), json)
  {
    if actions != [] {
      RunDeletionsExactly(c, Init(actions), json);
      if AllLeaveReadable(c, Init(actions), json) {
        DeletionExactly(Replay(c, Init(actions), json), Last(actions), json);
      }
    }
  }

  // ----- keys that are misread -----

  lemma {:induction false} TrimLeftConcat(a: string, b: string, cut: char -> bool)
    requires TrimLeft(a, cut) != ""
    ensures TrimLeft(a + b, cut) == TrimLeft(a, cut) + b
  {
    if cut(a[0]) {
      assert (a + b)[1..] == a[1..] + b;
      TrimLeftConcat(a[1..], b, cut);
    }
  }

  lemma {:induction false} TrimRightHead(s: string, cut: char -> bool)
    requires s != "" && !cut(s[0])
    ensures TrimRight(s, cut) != "" && TrimRight(s, cut)[0] == s[0]
  {
    if cut(s[|s| - 1]) {
      TrimRightHead(s[..|s| - 1], cut);
    }
  }

  lemma TrimSpaceHead(s: string)
    requires TrimLeft(s, IsSpace) != ""
    ensures TrimSpace(s) != "" && TrimSpace(s)[0] == TrimLeft(s, IsSpace)[0]
  {
    TrimLeftEnds(s, IsSpace);
    TrimRightHead(TrimLeft(s, IsSpace), IsSpace);
  }

  lemma JoinIsNoArray(keys: seq<string>, json: JsonArray)
    requires keys != [] && TrimLeft(keys[0], IsSpace) != "" && TrimLeft(keys[0], IsSpace)[0] != '['
    ensures !IsArray(Join(keys, '\n'), json)
  {
    var k := keys[0];
    var rest := if |keys| == 1 then "" else ['\n'] + Join(keys[1..], '\n');
    assert Join(keys, '\n') == k + rest;
    TrimLeftConcat(k, rest, IsSpace);
    TrimSpaceHead(k + rest);
  }

  function Fresh(keys: seq<string>): Channel {
    Channel(Join(keys, '\n'), |keys|, NO_INFO)
  }

  lemma FreshIsConsistent(keys: seq<string>, json: JsonArray)
    requires keys != [] && GoodKeys(keys) && ReadsBack(keys, json)
    ensures Consistent(Fresh(keys), json) && View(Fresh(keys), json) == Entries(keys, NO_INFO)
  {
    ReadKeys(keys, json);
  }

  lemma WithoutFirst(keys: seq<string>)
    requires keys != []
    ensures Without(Entries(keys, NO_INFO), 0) == Entries(keys[1..], NO_INFO)
  {
  }

  /** Deleting an ordinary first key from in front of lines that together form a JSON array changes the other keys. */
  lemma ArrayLinesAreMisread(keys: seq<string>, json: JsonArray)
    requires |keys| > 1 && GoodKeys(keys) && TrimLeft(keys[0], IsSpace) != "" && TrimLeft(keys[0], IsSpace)[0] != '['
    requires !ReadsBack(keys[1..], json)
    ensures var c := Fresh(keys);
            && Consistent(c, json)
            && View(c, json) == Entries(keys, NO_INFO)
            && View(After(c, DeleteKey(Some(0)), json), json) != Entries(keys[1..], NO_INFO)
  {
    JoinIsNoArray(keys, json);
    FreshIsConsistent(keys, json);
    DeleteKeyView(Fresh(keys), 0, json);
    WithoutFirst(keys);
    KeysOfEntries(keys[1..], NO_INFO);
  }

  /** For instance the keys `x`, `[1,` and `2]`: without the first, the text is an array of `1` and `2`. */
  lemma MisreadExample(json: JsonArray)
    requires json("[1,\n2]") == Some(["1", "2"])
    ensures var keys := ["x", "[1,", "2]"];
            var c := Channel("x\n[1,\n2]", 3, NO_INFO);
            && Consistent(c, json) && View(c, json) == Entries(keys, NO_INFO)
            && View(After(c, DeleteKey(Some(0)), json), json) != Entries(keys[1..], NO_INFO)
  {
    var keys := ["x", "[1,", "2]"];
    var text := "[1,\n2]";
    assert keys[1..] == ["[1,", "2]"];
    assert Join(keys[1..], '\n') == text;
    assert Join(keys, '\n') == "x\n[1,\n2]";
    TrimOfTight(text, IsSpace);
    assert !ReadsBack(keys[1..], json);
    ArrayLinesAreMisread(keys, json);
  }

  // ----- the other actions -----

  /** Disabling and enabling touch exactly the row they name. */
  lemma DisableView(c: Channel, index: nat, json: JsonArray)
    requires Consistent(c, json) && index < c.size
    ensures var es, off := View(c, json), View(After(c, DisableKey(Some(index)), json), json);
            && |off| == |es| && off[index].status == 2 && off[index].key == es[index].key
            && off[index].time == (if index in c.info.time then c.info.time[index] else 0)
            && off[index].reason == (if index in c.info.reason then c.info.reason[index] else "")
            && (forall i :: 0 <= i < |es| && i != index ==> off[i] == es[i])
  {
    UpdateSameKeys(c, c.info.(status := c.info.status[index := MANUALLY_DISABLED]), json);
  }

  lemma EnableView(c: Channel, index: nat, json: JsonArray)
    requires Consistent(c, json) && index < c.size
    ensures var es, on := View(c, json), View(After(c, EnableKey(Some(index)), json), json);
            && |on| == |es| && on[index] == Entry(es[index].key, 1, 0, "")
            && (forall i :: 0 <= i < |es| && i != index ==> on[i] == es[i])
  {
    UpdateSameKeys(c, Info(c.info.status - {index}, c.info.time - {index}, c.info.reason - {index}), json);
  }

  lemma AllSwitchView(c: Channel, json: JsonArray)
    requires Consistent(c, json)
    ensures var es := View(c, json);
            var off := View(After(c, DisableAll, json), json);
            && |off| == |es|
            && (forall i :: 0 <= i < |es| ==>
                  if es[i].status == 1 then off[i].status == 2 && off[i].key == es[i].key else off[i] == es[i])
  {
    if WithStatus(c.info, c.size, ENABLED) == {} {
      forall i | 0 <= i < c.size ensures View(c, json)[i].status != ENABLED {
        assert i !in WithStatus(c.info, c.size, ENABLED);
      }
    } else {
      DisableAllBounds(c, json);
      UpdateSameKeys(c, c.info.(status := Disabled(c.info, c.size)), json);
      forall i | 0 <= i < c.size
        ensures StatusOf(c.info.(status := Disabled(c.info, c.size)), i) ==
                if StatusOf(c.info, i) == ENABLED then MANUALLY_DISABLED else StatusOf(c.info, i)
      {
        DisabledAt(c.info, c.size, i);
      }
    }
  }

  lemma EnableAllView(c: Channel, json: JsonArray)
    requires Consistent(c, json)
    ensures var es, on := View(c, json), View(After(c, EnableAll, json), json);
            |on| == |es| && forall i :: 0 <= i < |es| ==> on[i] == Entry(es[i].key, 1, 0, "")
  {
    UpdateSameKeys(c, NO_INFO, json);
  }

  /** What a row shows: the key, its recorded status or enabled, and time and reason only of a key that is not enabled. */
  lemma RowMeaning(c: Channel, json: JsonArray, i: nat)
    requires i < |GetKeys(c.key, json)|
    ensures var row := View(c, json)[i];
            && |View(c, json)| == |GetKeys(c.key, json)| && row.key == GetKeys(c.key, json)[i]
            && row.status == (if i in c.info.status then c.info.status[i] else 1)
            && row.time == (if row.status != 1 && i in c.info.time then c.info.time[i] else 0)
            && row.reason == (if row.status != 1 && i in c.info.reason then c.info.reason[i] else "")
  {
  }

  /** An index that is missing or out of range changes nothing. */
  lemma BadIndexIsRefused(c: Channel, index: Option<int>, json: JsonArray)
    requires index.None? || index.value < 0 || index.value >= c.size
    ensures After(c, DisableKey(index), json) == c && After(c, EnableKey(index), json) == c && After(c, DeleteKey(index), json) == c
  {
  }
}
