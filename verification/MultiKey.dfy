/**
 Managing the keys of a multi-key channel (controller/channel.go, `ManageMultiKeys`; model/channel.go,
 `GetKeys` and `Update`).  Keys live in one text; three sparse maps, indexed by position, hold status,
 disable time and disable reason.  Deleting keys renumbers the maps.
 */
module MultiKey {
  import opened Text
  import opened Wrappers

  /** Parsing a text as a JSON array of raw messages, when it is one. */
  type JsonArray = string -> Option<seq<string>>

  const ENABLED := 1
  const MANUALLY_DISABLED := 2
  const AUTO_DISABLED := 3

  // ----- the key text -----

  predicate IsArray(text: string, json: JsonArray) {
    HasPrefix(TrimSpace(text), "[") && json(TrimSpace(text)).Some?
  }

  /** `Channel.GetKeys` on a channel read from the database */
  function GetKeys(text: string, json: JsonArray): seq<string> {
    if text == "" then []
    else if IsArray(text, json) then json(TrimSpace(text)).value
    else Split(TrimSep(text, '\n'), '\n')
  }

  /** The key count `Channel.Update` recomputes: an empty JSON array is counted as plain text. */
  function CountKeys(text: string, json: JsonArray): nat {
    if text == "" then 0
    else if IsArray(text, json) && json(TrimSpace(text)).value != [] then |json(TrimSpace(text)).value|
    else |Split(TrimSep(text, '\n'), '\n')|
  }

  // ----- the stored channel -----

  datatype Info = Info(status: map<int, int>, time: map<int, int>, reason: map<int, string>)

  datatype Channel = Channel(key: string, size: nat, info: Info)

  const NO_INFO := Info(map[], map[], map[])

  /**
   `Channel.Update`: zero values are not written, so an empty key text leaves the stored one in place;
   the size is recomputed and status entries beyond it are dropped.
   */
  function Update(stored: Channel, c: Channel, json: JsonArray): Channel {
    var text := if c.key == "" then stored.key else c.key;
    var n := CountKeys(text, json);
    Channel(text, n, c.info.(status := map i | i in c.info.status && i < n :: c.info.status[i]))
  }

  // ----- what get_key_status shows -----

  datatype Entry = Entry(key: string, status: int, time: int, reason: string)

  function StatusOf(info: Info, i: int): int {
    if i in info.status then info.status[i] else ENABLED
  }

  function EntryAt(info: Info, i: int, key: string): Entry {
    var status := StatusOf(info, i);
    if status == ENABLED then Entry(key, status, 0, "")
    else Entry(key, status, if i in info.time then info.time[i] else 0, if i in info.reason then info.reason[i] else "")
  }

  /** The rows of the view, in order; a row's index is its position. */
  function Entries(keys: seq<string>, info: Info): (es: seq<Entry>)
    ensures |es| == |keys| && forall i :: 0 <= i < |es| ==> es[i] == EntryAt(info, i, keys[i])
  {
    seq(|keys|, i requires 0 <= i < |keys| => EntryAt(info, i, keys[i]))
  }

  function View(c: Channel, json: JsonArray): seq<Entry> {
    Entries(GetKeys(c.key, json), c.info)
  }

  // ----- the rebuilding loop of the two deletions -----

  datatype Rebuilt = Rebuilt(keys: seq<string>, info: Info)

  function Copy<V>(from: map<int, V>, i: int, to: map<int, V>, j: int): map<int, V> {
    if i in from then to[j := from[i]] else to
  }

  /** Copies the record of key `i` to the end; `delete_disabled_keys` skips time and reason of enabled keys. */
  function Carry(b: Rebuilt, info: Info, i: int, key: string, always: bool): Rebuilt {
    var j, on := |b.keys|, StatusOf(info, i) == ENABLED;
    Rebuilt(b.keys + [key],
            Info(if on then b.info.status else b.info.status[j := StatusOf(info, i)],
                 if always || !on then Copy(info.time, i, b.info.time, j) else b.info.time,
                 if always || !on then Copy(info.reason, i, b.info.reason, j) else b.info.reason))
  }

  /** The outcome of the loop over the first `n` keys. */
  function Rebuild(keys: seq<string>, info: Info, n: nat, dropped: set<int>, always: bool): (b: Rebuilt)
    requires n <= |keys|
    ensures |b.keys| <= n
  {
    if n == 0 then Rebuilt([], NO_INFO)
    else
      var b := Rebuild(keys, info, n - 1, dropped, always);
      if n - 1 in dropped then b else Carry(b, info, n - 1, keys[n - 1], always)
  }

  function Deleted(b: Rebuilt): Channel {
    Channel(Join(b.keys, '\n'), |b.keys|, b.info)
  }

  // ----- the actions -----

  datatype Action =
    | DisableKey(index: Option<int>)
    | EnableKey(index: Option<int>)
    | EnableAll
    | DisableAll
    | DeleteKey(index: Option<int>)
    | DeleteDisabled

  /** The positions below `n` that show the given status. */
  function WithStatus(info: Info, n: nat, status: int): set<int> {
    set i | 0 <= i < n && StatusOf(info, i) == status
  }

  lemma WithStatusNext(info: Info, n: nat, status: int)
    ensures WithStatus(info, n + 1, status) == WithStatus(info, n, status) + if StatusOf(info, n) == status then {n as int} else {}
    ensures |WithStatus(info, n + 1, status)| == |WithStatus(info, n, status)| + if StatusOf(info, n) == status then 1 else 0
  {
    assert WithStatus(info, n + 1, status) == WithStatus(info, n, status) + if StatusOf(info, n) == status then {n as int} else {};
  }

  /** The loop of `disable_all_keys` over the first `n` positions. */
  function Disabled(info: Info, n: nat): map<int, int> {
    if n == 0 then info.status
    else if StatusOf(info, n - 1) == ENABLED then Disabled(info, n - 1)[n - 1 := MANUALLY_DISABLED]
    else Disabled(info, n - 1)
  }

  lemma {:induction false} DisabledAt(info: Info, n: nat, i: int)
    ensures i in Disabled(info, n) <==> i in info.status || i in WithStatus(info, n, ENABLED)
    ensures i in Disabled(info, n) ==>
              Disabled(info, n)[i] == if i in WithStatus(info, n, ENABLED) then MANUALLY_DISABLED else info.status[i]
  {
    if n > 0 {
      DisabledAt(info, n - 1, i);
    }
  }

  predicate InRange(c: Channel, index: Option<int>) {
    index.Some? && 0 <= index.value < c.size
  }

  /** The stored channel after an action; actions that fail store nothing. */
  function After(c: Channel, action: Action, json: JsonArray): Channel {
    var keys := GetKeys(c.key, json);
    match action
    case DisableKey(index) =>
      if !InRange(c, index) then c
      else Update(c, c.(info := c.info.(status := c.info.status[index.value := MANUALLY_DISABLED])), json)
    case EnableKey(index) =>
      if !InRange(c, index) then c
      else Update(c, c.(info := Info(c.info.status - {index.value}, c.info.time - {index.value}, c.info.reason - {index.value})), json)
    case EnableAll => Update(c, c.(info := NO_INFO), json)
    case DisableAll =>
      if WithStatus(c.info, c.size, ENABLED) == {} then c
      else Update(c, c.(info := c.info.(status := Disabled(c.info, c.size))), json)
    case DeleteKey(index) =>
      if !InRange(c, index) then c
      else
        var b := Rebuild(keys, c.info, |keys|, {index.value}, true);
        if b.keys == [] then c else Update(c, Deleted(b), json)
    case DeleteDisabled =>
      var dropped := WithStatus(c.info, |keys|, AUTO_DISABLED);
      if dropped == {} then c else Update(c, Deleted(Rebuild(keys, c.info, |keys|, dropped, false)), json)
  }

  predicate LeavesKeys(c: Channel, index: int, json: JsonArray) {
    var keys := GetKeys(c.key, json);
    Rebuild(keys, c.info, |keys|, {index}, true).keys != []
  }

  class MultiKeyChannel {
    var stored: Channel
    const json: JsonArray

    constructor (c: Channel, json: JsonArray)
      ensures stored == c && this.json == json
    {
      stored := c;
      this.json := json;
    }

    method Disable(index: Option<int>) returns (ok: bool)
      modifies this
      ensures stored == After(old(stored), DisableKey(index), json) && ok == InRange(old(stored), index)
    {
      if index.None? { return false; }
      if index.value < 0 || index.value >= stored.size { return false; }
      var info := stored.info;
      info := info.(status := info.status[index.value := MANUALLY_DISABLED]);
      stored := Update(stored, stored.(info := info), json);
      return true;
    }

    method Enable(index: Option<int>) returns (ok: bool)
      modifies this
      ensures stored == After(old(stored), EnableKey(index), json) && ok == InRange(old(stored), index)
    {
      if index.None? { return false; }
      if index.value < 0 || index.value >= stored.size { return false; }
      var info := stored.info;
      info := Info(info.status - {index.value}, info.time - {index.value}, info.reason - {index.value});
      stored := Update(stored, stored.(info := info), json);
      return true;
    }

    method EnableAllKeys()
      modifies this
      ensures stored == After(old(stored), EnableAll, json)
    {
      stored := Update(stored, stored.(info := NO_INFO), json);
    }

    method DisableAllKeys() returns (count: nat)
      modifies this
      ensures stored == After(old(stored), DisableAll, json) && count == |WithStatus(old(stored).info, old(stored).size, ENABLED)|
    {
      var c := stored;
      var status;
      status, count := DisableLoop(c.info, c.size);
      if count == 0 { return; }
      stored := Update(c, c.(info := c.info.(status := status)), json);
    }

    method Delete(index: Option<int>) returns (ok: bool)
      modifies this
      ensures stored == After(old(stored), DeleteKey(index), json)
      ensures ok <==> InRange(old(stored), index) && LeavesKeys(old(stored), index.value, json)
    {
      if index.None? { return false; }
      if index.value < 0 || index.value >= stored.size { return false; }
      var b := DropLoop(GetKeys(stored.key, json), stored.info, index.value);
      if |b.keys| == 0 { return false; }
      stored := Update(stored, Channel(Join(b.keys, '\n'), |b.keys|, b.info), json);
      return true;
    }

    method DeleteAutoDisabled() returns (count: nat)
      modifies this
      ensures stored == After(old(stored), DeleteDisabled, json)
      ensures count == |WithStatus(old(stored).info, |GetKeys(old(stored).key, json)|, AUTO_DISABLED)|
    {
      var b;
      b, count := DropAutoLoop(GetKeys(stored.key, json), stored.info);
      if count == 0 { return; }
      stored := Update(stored, Channel(Join(b.keys, '\n'), |b.keys|, b.info), json);
    }
  }

  method DisableLoop(info: Info, size: nat) returns (status: map<int, int>, count: nat)
    ensures status == Disabled(info, size) && count == |WithStatus(info, size, ENABLED)|
  {
    status, count := info.status, 0;
    for i := 0 to size
      invariant status == Disabled(info, i) && count == |WithStatus(info, i, ENABLED)|
    {
      WithStatusNext(info, i, ENABLED);
      DisabledAt(info, i, i);
      var s := if i in status then status[i] else ENABLED;
      if s == ENABLED {
        status := status[i := MANUALLY_DISABLED];
        count := count + 1;
      }
    }
  }

  method DropLoop(keys: seq<string>, info: Info, index: int) returns (b: Rebuilt)
    ensures b == Rebuild(keys, info, |keys|, {index}, true)
  {
    var remaining: seq<string>, status: map<int, int>, time: map<int, int>, reason: map<int, string> := [], map[], map[], map[];
    var newIndex := 0;
    for i := 0 to |keys|
      invariant newIndex == |remaining|
      invariant Rebuilt(remaining, Info(status, time, reason)) == Rebuild(keys, info, i, {index}, true)
    {
      if i == index { continue; }
      remaining := remaining + [keys[i]];
      if i in info.status && info.status[i] != ENABLED { status := status[newIndex := info.status[i]]; }
      if i in info.time { time := time[newIndex := info.time[i]]; }
      if i in info.reason { reason := reason[newIndex := info.reason[i]]; }
      newIndex := newIndex + 1;
    }
    b := Rebuilt(remaining, Info(status, time, reason));
  }

  method DropAutoLoop(keys: seq<string>, info: Info) returns (b: Rebuilt, count: nat)
    ensures b == Rebuild(keys, info, |keys|, WithStatus(info, |keys|, AUTO_DISABLED), false)
    ensures count == |WithStatus(info, |keys|, AUTO_DISABLED)|
  {
    var remaining: seq<string>, status: map<int, int>, time: map<int, int>, reason: map<int, string> := [], map[], map[], map[];
    var newIndex := 0;
    count := 0;
    ghost var dropped := WithStatus(info, |keys|, AUTO_DISABLED);
    for i := 0 to |keys|
      invariant newIndex == |remaining| && count == |WithStatus(info, i, AUTO_DISABLED)|
      invariant Rebuilt(remaining, Info(status, time, reason)) == Rebuild(keys, info, i, dropped, false)
    {
      WithStatusNext(info, i, AUTO_DISABLED);
      var s := if i in info.status then info.status[i] else ENABLED;
      if s == AUTO_DISABLED {
        count := count + 1;
      } else {
        remaining := remaining + [keys[i]];
        if s != ENABLED {
          status := status[newIndex := s];
          if i in info.time { time := time[newIndex := info.time[i]]; }
          if i in info.reason { reason := reason[newIndex := info.reason[i]]; }
        }
        newIndex := newIndex + 1;
      }
    }
    b := Rebuilt(remaining, Info(status, time, reason));
  }
}
