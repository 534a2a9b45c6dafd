/**
 Reconciling a channel's model list with what its upstream offers
 (controller/channel_upstream_update.go): detect pending changes, then apply a selection of them.
 */
module UpstreamModels {
  import opened Text
  import opened ModelNames

  /** `regexp.MatchString(pattern, name)`, false also when the pattern does not compile. */
  type Regex = (string, string) -> bool

  const REGEX_PREFIX := "regex:"

  predicate Covers(entry: string, name: string, rx: Regex) {
    if HasPrefix(entry, REGEX_PREFIX) then rx(TrimSpace(entry[|REGEX_PREFIX|..]), name) else entry == name
  }

  predicate Ignored(name: string, ignored: seq<string>, rx: Regex) {
    exists e :: e in ignored && Covers(e, name, rx)
  }

  /** Names the add filter admits. */
  function Missing(local: set<string>, upstream: set<string>, ignored: seq<string>, mapping: map<string, string>, rx: Regex): set<string> {
    set m | m in upstream && m !in local && m !in mapping.Values && !Ignored(m, ignored, rx)
  }

  /** Names the remove filter admits. */
  function Gone(local: set<string>, upstream: set<string>, mapping: map<string, string>): set<string> {
    set m | m in local && m !in mapping.Keys && m !in upstream
  }

  /** `collectPendingUpstreamModelChangesFromModels`, first result. */
  function PendingAdd(local: seq<string>, upstream: seq<string>, ignored: seq<string>, mapping: map<string, string>, rx: Regex): seq<string> {
    var u := Normalize(upstream);
    Normalize(Keep(u, Missing(Names(Normalize(local)), Names(u), Normalize(ignored), mapping, rx)))
  }

  /** `collectPendingUpstreamModelChangesFromModels`, second result. */
  function PendingRemove(local: seq<string>, upstream: seq<string>, mapping: map<string, string>): seq<string> {
    var l := Normalize(local);
    Normalize(Keep(l, Gone(Names(l), Names(Normalize(upstream)), mapping)))
  }

  // ----- the channel record -----

  /** The stored model text and the settings that the two operations read and write. */
  datatype Channel = Channel(models: string, ignored: seq<string>, detected: seq<string>, removed: seq<string>)

  /** `Channel.GetModels` */
  function GetModels(models: string): seq<string> {
    if models == "" then [] else Split(TrimSep(models, ','), ',')
  }

  function Local(models: string): seq<string> {
    Normalize(GetModels(models))
  }

  /** Detection as the settings remember it, without automatic adding. */
  function Detect(c: Channel, upstream: seq<string>, mapping: map<string, string>, rx: Regex): Channel {
    c.(detected := PendingAdd(GetModels(c.models), upstream, c.ignored, mapping, rx),
       removed := PendingRemove(GetModels(c.models), upstream, mapping))
  }

  function SelectedAdd(c: Channel, add: seq<string>): seq<string> {
    Intersect(add, Normalize(c.detected))
  }

  function SelectedRemove(c: Channel, add: seq<string>, remove: seq<string>): seq<string> {
    Subtract(Intersect(remove, Normalize(c.removed)), SelectedAdd(c, add))
  }

  function NextModels(c: Channel, add: seq<string>, remove: seq<string>): seq<string> {
    ApplySelected(Local(c.models), SelectedAdd(c, add), SelectedRemove(c, add, remove))
  }

  function NextIgnored(c: Channel, add: seq<string>, ignore: seq<string>): seq<string> {
    var merged := Merge(c.ignored, Intersect(ignore, Normalize(c.detected)));
    if SelectedAdd(c, add) != [] then Subtract(merged, SelectedAdd(c, add)) else merged
  }

  /** `applyChannelUpstreamModelUpdates` */
  function Apply(c: Channel, add: seq<string>, ignore: seq<string>, remove: seq<string>): Channel {
    var next := NextModels(c, add, remove);
    Channel(if next != Local(c.models) then Join(next, ',') else c.models,
            NextIgnored(c, add, ignore),
            Subtract(Normalize(c.detected), SelectedAdd(c, add) + Intersect(ignore, Normalize(c.detected))),
            Subtract(Normalize(c.removed), SelectedRemove(c, add, remove)))
  }

  class ChannelRecord {
    var models: string
    var ignored: seq<string>
    var detected: seq<string>
    var removed: seq<string>

    function Value(): Channel
      reads this
    {
      Channel(models, ignored, detected, removed)
    }

    constructor (c: Channel)
      ensures Value() == c
    {
      models, ignored, detected, removed := c.models, c.ignored, c.detected, c.removed;
    }

    /** The filters of `collectPendingUpstreamModelChangesFromModels`, storing their results. */
    method DetectChanges(upstream: seq<string>, mapping: map<string, string>, rx: Regex)
      modifies this`detected, this`removed
      ensures Value() == Detect(old(Value()), upstream, mapping, rx)
    {
      var local, offered, skip := Normalize(GetModels(models)), Normalize(upstream), Normalize(ignored);
      StoreDetected(local, offered, skip, mapping, rx);
      StoreRemoved(local, offered, mapping);
    }

    method StoreDetected(local: seq<string>, offered: seq<string>, skip: seq<string>, mapping: map<string, string>, rx: Regex)
      modifies this`detected
      ensures detected == Normalize(Keep(offered, Missing(Names(local), Names(offered), skip, mapping, rx)))
    {
      var covered := Names(local) + mapping.Values;
      var add: seq<string>, i := [], 0;
      ghost var missing := Missing(Names(local), Names(offered), skip, mapping, rx);
      while i < |offered|
        invariant 0 <= i <= |offered|
        invariant add == Keep(offered[..i], missing)
      {
        KeepPrefix(offered, i, missing);
        if offered[i] !in covered && !Ignored(offered[i], skip, rx) { add := add + [offered[i]]; }
        i := i + 1;
      }
      assert offered[..i] == offered;
      detected := Normalize(add);
    }

    method StoreRemoved(local: seq<string>, offered: seq<string>, mapping: map<string, string>)
      modifies this`removed
      ensures removed == Normalize(Keep(local, Gone(Names(local), Names(offered), mapping)))
    {
      var remove: seq<string>, i := [], 0;
      ghost var gone := Gone(Names(local), Names(offered), mapping);
      while i < |local|
        invariant 0 <= i <= |local|
        invariant remove == Keep(local[..i], gone)
      {
        KeepPrefix(local, i, gone);
        if local[i] !in mapping && local[i] !in offered { remove := remove + [local[i]]; }
        i := i + 1;
      }
      assert local[..i] == local;
      removed := Normalize(remove);
    }

    method ApplyUpdates(addInput: seq<string>, ignoreInput: seq<string>, removeInput: seq<string>)
      returns (added: seq<string>, dropped: seq<string>, changed: bool)
      modifies this
      ensures Value() == Apply(old(Value()), addInput, ignoreInput, removeInput)
      ensures added == SelectedAdd(old(Value()), addInput) && dropped == SelectedRemove(old(Value()), addInput, removeInput)
      ensures changed <==> NextModels(old(Value()), addInput, removeInput) != Local(old(models))
    {
      ghost var c := Value();
      var pendingAdd, pendingRemove := Normalize(detected), Normalize(removed);
      added := Intersect(addInput, pendingAdd);
      var ignore := Intersect(ignoreInput, pendingAdd);
      dropped := Intersect(removeInput, pendingRemove);
      dropped := Subtract(dropped, added);
      assert added == SelectedAdd(c, addInput) && dropped == SelectedRemove(c, addInput, removeInput);
      var origin := Local(models);
      var next := ApplySelected(origin, added, dropped);
      assert next == NextModels(c, addInput, removeInput);
      changed := origin != next;
      if changed { models := Join(next, ','); }
      StoreIgnored(added, ignore);
      assert ignored == NextIgnored(c, addInput, ignoreInput);
      detected := Subtract(pendingAdd, added + ignore);
      removed := Subtract(pendingRemove, dropped);
    }

    method StoreIgnored(added: seq<string>, ignore: seq<string>)
      modifies this`ignored
      ensures ignored == if added != [] then Subtract(Merge(old(ignored), ignore), added) else Merge(old(ignored), ignore)
    {
      ignored := MergeModelNames(ignored, ignore);
      if |added| > 0 { ignored := Subtract(ignored, added); }
    }
  }

  lemma KeepPrefix(xs: seq<string>, i: nat, s: set<string>)
    requires i < |xs|
    ensures Keep(xs[..i + 1], s) == Keep(xs[..i], s) + if xs[i] in s then [xs[i]] else []
    ensures xs[i] in Names(xs)
  {
    assert xs[..i + 1] == xs[..i] + [xs[i]];
    KeepSnoc(xs[..i], xs[i], s);
  }

  // ----- stored names hold no comma -----

  ghost predicate CommaFree(xs: seq<string>) {
    forall x :: x in xs ==> ',' !in x
  }

  lemma {:induction false} TrimLeftChars(s: string, cut: char -> bool, c: char)
    requires c !in s
    ensures c !in TrimLeft(s, cut)
  {
    if s != "" && cut(s[0]) {
      TrimLeftChars(s[1..], cut, c);
    }
  }

  lemma {:induction false} TrimRightChars(s: string, cut: char -> bool, c: char)
    requires c !in s
    ensures c !in TrimRight(s, cut)
  {
    if s != "" && cut(s[|s| - 1]) {
      TrimRightChars(s[..|s| - 1], cut, c);
    }
  }

  lemma {:induction false} TrimAllCommaFree(xs: seq<string>)
    requires CommaFree(xs)
    ensures CommaFree(TrimAll(xs))
  {
    if xs != [] {
      var last := xs[|xs| - 1];
      assert forall x :: x in xs[..|xs| - 1] ==> x in xs;
      TrimAllCommaFree(xs[..|xs| - 1]);
      TrimLeftChars(last, IsSpace, ',');
      TrimRightChars(TrimLeft(last, IsSpace), IsSpace, ',');
    }
  }

  lemma LocalCommaFree(models: string)
    ensures CommaFree(Local(models)) && Clean(Local(models))
  {
    var xs := GetModels(models);
    TrimAllCommaFree(xs);
    UniqMembers(TrimAll(xs));
    NormalizeIsClean(xs);
    forall x | x in Local(models) ensures ',' !in x {
      assert x in Names(Local(models));
    }
  }

  /** A clean comma-free list survives storing and reading. */
  lemma StoreAndRead(next: seq<string>)
    requires Clean(next) && CommaFree(next)
    ensures Local(Join(next, ',')) == next
  {
    if next == [] {
      assert Local("") == [];
    } else {
      assert forall x :: x in next ==> CleanName(x);
      ReadBack(next, ',');
      NormalizeOfClean(next);
    }
  }

  // ----- what detection finds -----

  /** The ignore list has an entry for `m`: its very name, or a pattern after "regex:" that matches it. */
  ghost predicate HasIgnoreEntry(ignored: seq<string>, m: string, rx: Regex) {
    exists i :: 0 <= i < |ignored| && (if "regex:" <= ignored[i] then rx(TrimSpace(ignored[i][6..]), m) else ignored[i] == m)
  }

  lemma IgnoredMeaning(ignored: seq<string>, m: string, rx: Regex)
    ensures Ignored(m, ignored, rx) <==> HasIgnoreEntry(ignored, m, rx)
  {
    if Ignored(m, ignored, rx) {
      var e :| e in ignored && Covers(e, m, rx);
      var i :| 0 <= i < |ignored| && ignored[i] == e;
    }
    if HasIgnoreEntry(ignored, m, rx) {
      var i :| 0 <= i < |ignored| && (if "regex:" <= ignored[i] then rx(TrimSpace(ignored[i][6..]), m) else ignored[i] == m);
      assert ignored[i] in ignored && Covers(ignored[i], m, rx);
    }
  }

  /** Pending for removal: the channel's names that the upstream does not offer and that redirect to no other. */
  lemma RemovedMeaning(c: Channel, upstream: seq<string>, mapping: map<string, string>, rx: Regex, m: string)
    ensures var removed := Detect(c, upstream, mapping, rx).removed;
            && (m in removed <==> m in Local(c.models) && m !in mapping && m !in Normalize(upstream))
            && Subsequence(removed, Local(c.models)) && Clean(removed)
  {
    var l, u := Local(c.models), Normalize(upstream);
    var r := Gone(Names(l), Names(u), mapping);
    FilterFacts(l, r, GetModels(c.models));
    KeepMeaning(l, r, m);
    KeepIsSubsequence(l, r);
  }

  lemma MissingMeaning(l: seq<string>, u: seq<string>, ignored: seq<string>, mapping: map<string, string>, rx: Regex, m: string)
    ensures m in Missing(Names(l), Names(u), ignored, mapping, rx) <==>
      m in u && m !in l && (forall k :: k in mapping ==> mapping[k] != m) && !HasIgnoreEntry(ignored, m, rx)
  {
    IgnoredMeaning(ignored, m, rx);
  }

  /**
   Pending for addition: the offered names that the channel does not have, that no redirect targets and that
   no entry ignores.
   */
  lemma DetectedMeaning(c: Channel, upstream: seq<string>, mapping: map<string, string>, rx: Regex, m: string)
    ensures var detected := Detect(c, upstream, mapping, rx).detected;
            && (m in detected <==>
                  && m in Normalize(upstream) && m !in Local(c.models)
                  && (forall k :: k in mapping ==> mapping[k] != m)
                  && !HasIgnoreEntry(Normalize(c.ignored), m, rx))
            && Subsequence(detected, Normalize(upstream)) && Clean(detected)
  {
    var l, u, ignored := Local(c.models), Normalize(upstream), Normalize(c.ignored);
    var a := Missing(Names(l), Names(u), ignored, mapping, rx);
    FilterFacts(u, a, upstream);
    KeepMeaning(u, a, m);
    KeepIsSubsequence(u, a);
    MissingMeaning(l, u, ignored, mapping, rx, m);
  }

  /** What is selected of the pending changes: only what is pending, and adding wins over removing. */
  lemma SelectionMeaning(c: Channel, add: seq<string>, ignore: seq<string>, remove: seq<string>, m: string)
    ensures m in SelectedAdd(c, add) <==> m in Normalize(add) && m in Normalize(c.detected)
    ensures m in SelectedRemove(c, add, remove)
            <==> m in Normalize(remove) && m in Normalize(c.removed) && m !in SelectedAdd(c, add)
  {
    FiltersMeaning(add, Normalize(c.detected), m);
    FiltersMeaning(remove, Normalize(c.removed), m);
    FiltersMeaning(Intersect(remove, Normalize(c.removed)), SelectedAdd(c, add), m);
    NormalizeIsClean(c.detected);
    NormalizeOfClean(Normalize(c.detected));
    NormalizeIsClean(c.removed);
    NormalizeOfClean(Normalize(c.removed));
    IntersectOfClean(add, Normalize(c.detected));
    NormalizeOfClean(SelectedAdd(c, add));
    IntersectOfClean(remove, Normalize(c.removed));
    NormalizeOfClean(Intersect(remove, Normalize(c.removed)));
  }

  lemma DetectedFacts(c: Channel, upstream: seq<string>, mapping: map<string, string>, rx: Regex)
    requires c == Detect(c, upstream, mapping, rx)
    ensures var l, u := Local(c.models), Normalize(upstream);
            var s := Missing(Names(l), Names(u), Normalize(c.ignored), mapping, rx);
            && c.detected == Keep(u, s) && Names(c.detected) == s && Clean(c.detected)
    ensures var l, u := Local(c.models), Normalize(upstream);
            var s := Gone(Names(l), Names(u), mapping);
            && c.removed == Keep(l, s) && Names(c.removed) == s && Clean(c.removed)
  {
    var l, u := Local(c.models), Normalize(upstream);
    var a := Missing(Names(l), Names(u), Normalize(c.ignored), mapping, rx);
    var r := Gone(Names(l), Names(u), mapping);
    FilterFacts(u, a, upstream);
    FilterFacts(l, r, GetModels(c.models));
  }

  lemma FilterFacts(xs: seq<string>, s: set<string>, raw: seq<string>)
    requires xs == Normalize(raw) && s <= Names(xs)
    ensures Normalize(Keep(xs, s)) == Keep(xs, s) && Names(Keep(xs, s)) == s && Clean(Keep(xs, s))
  {
    NormalizeIsClean(raw);
    KeepClean(xs, s);
    KeepMembers(xs, s);
    NormalizeOfClean(Keep(xs, s));
  }

  lemma SelectionFacts(c: Channel, upstream: seq<string>, mapping: map<string, string>, rx: Regex,
                       add: seq<string>, ignore: seq<string>, remove: seq<string>)
    requires c == Detect(c, upstream, mapping, rx)
    ensures var a, i, r := SelectedAdd(c, add), Intersect(ignore, Normalize(c.detected)), SelectedRemove(c, add, remove);
            && Clean(a) && Names(a) <= Names(c.detected)
            && Clean(i) && Names(i) <= Names(c.detected)
            && Clean(r) && Names(r) <= Names(c.removed)
  {
    DetectedFacts(c, upstream, mapping, rx);
    NormalizeOfClean(c.detected);
    NormalizeOfClean(c.removed);
    IntersectOfClean(add, c.detected);
    IntersectOfClean(ignore, c.detected);
    IntersectOfClean(remove, c.removed);
    var r := Intersect(remove, c.removed);
    SubtractOfClean(r, SelectedAdd(c, add));
    DropMembers(r, Names(SelectedAdd(c, add)));
  }

  /**
   The new model list in closed form: what was there less the selected removals, in the old order, then
   the selected additions.  A name that redirects to another is never among the removals.
   */
  lemma AppliedModels(c: Channel, upstream: seq<string>, mapping: map<string, string>, rx: Regex, add: seq<string>, remove: seq<string>)
    requires c == Detect(c, upstream, mapping, rx)
    ensures NextModels(c, add, remove) == Drop(Local(c.models), Names(SelectedRemove(c, add, remove))) + SelectedAdd(c, add)
    ensures Clean(NextModels(c, add, remove))
    ensures Names(SelectedRemove(c, add, remove)) !! mapping.Keys
  {
    DetectedFacts(c, upstream, mapping, rx);
    SelectionFacts(c, upstream, mapping, rx, add, [], remove);
    LocalCommaFree(c.models);
    ApplySelectedOfClean(Local(c.models), SelectedAdd(c, add), SelectedRemove(c, add, remove));
  }

  lemma NamesConcat(xs: seq<string>, ys: seq<string>)
    ensures Names(xs + ys) == Names(xs) + Names(ys)
  {
  }

  lemma AppliedNames(c: Channel, upstream: seq<string>, mapping: map<string, string>, rx: Regex, add: seq<string>, remove: seq<string>)
    requires c == Detect(c, upstream, mapping, rx)
    ensures Names(NextModels(c, add, remove))
            == (Names(Local(c.models)) - Names(SelectedRemove(c, add, remove))) + Names(SelectedAdd(c, add))
  {
    AppliedModels(c, upstream, mapping, rx, add, remove);
    var l, r := Local(c.models), Names(SelectedRemove(c, add, remove));
    DropMembers(l, r);
    NamesConcat(Drop(l, r), SelectedAdd(c, add));
  }

  /** The stored text reads back as the new list, provided no added name contains the separator. */
  lemma AppliedLocal(c: Channel, upstream: seq<string>, mapping: map<string, string>, rx: Regex,
                     add: seq<string>, ignore: seq<string>, remove: seq<string>)
    requires c == Detect(c, upstream, mapping, rx) && CommaFree(SelectedAdd(c, add))
    ensures Local(Apply(c, add, ignore, remove).models) == NextModels(c, add, remove)
  {
    var next := NextModels(c, add, remove);
    LocalCommaFree(c.models);
    AppliedModels(c, upstream, mapping, rx, add, remove);
    AppliedNames(c, upstream, mapping, rx, add, remove);
    forall x | x in next ensures ',' !in x {
      assert x in Names(next);
    }
    StoreAndRead(next);
  }

  // ----- what a second detection finds -----

  /** The new ignore list: the old entries and the newly ignored names, less the added ones. */
  lemma AppliedIgnores(c: Channel, upstream: seq<string>, mapping: map<string, string>, rx: Regex, add: seq<string>, ignore: seq<string>)
    requires c == Detect(c, upstream, mapping, rx)
    ensures var i := Intersect(ignore, Normalize(c.detected));
            && Clean(NextIgnored(c, add, ignore))
            && Names(NextIgnored(c, add, ignore)) == Names(Normalize(c.ignored)) + Names(i) - Names(SelectedAdd(c, add))
  {
    var known, i, a := Normalize(c.ignored), Intersect(ignore, Normalize(c.detected)), SelectedAdd(c, add);
    NormalizeIsClean(c.ignored);
    SelectionFacts(c, upstream, mapping, rx, add, ignore, []);
    MergeOfClean(known, i);
    assert Merge(c.ignored, i) == Merge(known, i) by {
      NormalizeOfClean(known);
    }
    DropMembers(i, Names(known));
    NamesConcat(known, Drop(i, Names(known)));
    var merged := Merge(c.ignored, i);
    SubtractOfClean(merged, a);
    DropMembers(merged, Names(a));
    NamesOfNonEmpty(a);
  }

  /** An upstream name that is neither on the channel, nor added to it, nor the target of a redirect. */
  ghost predicate StaysOff(c: Channel, upstream: seq<string>, mapping: map<string, string>, add: seq<string>, m: string) {
    m in Names(Normalize(upstream)) && m !in Names(Local(c.models)) && m !in mapping.Values && m !in Names(SelectedAdd(c, add))
  }

  /** Being on the old ignore list, or chosen now to be ignored. */
  ghost predicate ToBeIgnored(c: Channel, rx: Regex, ignore: seq<string>, m: string) {
    Ignored(m, Normalize(c.ignored), rx) || m in Names(Intersect(ignore, Normalize(c.detected)))
  }

  /** Changing the entries of the ignore list changes its meaning for no other name that stays off the channel. */
  ghost predicate IgnoresAsChosen(c: Channel, upstream: seq<string>, mapping: map<string, string>, rx: Regex,
                                  add: seq<string>, ignore: seq<string>)
  {
    forall m :: StaysOff(c, upstream, mapping, add, m) ==>
      (Ignored(m, NextIgnored(c, add, ignore), rx) <==> ToBeIgnored(c, rx, ignore, m))
  }

  lemma SameMeaning(c: Channel, upstream: seq<string>, mapping: map<string, string>, rx: Regex,
                    add: seq<string>, ignore: seq<string>, m: string)
    requires c == Detect(c, upstream, mapping, rx)
    requires forall n :: n in c.detected ==> !HasPrefix(n, REGEX_PREFIX)
    requires m !in Names(SelectedAdd(c, add))
    ensures Ignored(m, NextIgnored(c, add, ignore), rx) <==> ToBeIgnored(c, rx, ignore, m)
  {
    var before, after, i := Normalize(c.ignored), NextIgnored(c, add, ignore), Intersect(ignore, Normalize(c.detected));
    AppliedIgnores(c, upstream, mapping, rx, add, ignore);
    SelectionFacts(c, upstream, mapping, rx, add, ignore, []);
    if Ignored(m, after, rx) {
      var e :| e in after && Covers(e, m, rx);
      assert e in Names(after);
      if e in Names(before) {
        assert Ignored(m, before, rx);
      } else {
        assert e in Names(c.detected) && e in c.detected;
      }
    }
    if Ignored(m, before, rx) {
      var e :| e in before && Covers(e, m, rx);
      PlainEntryStays(c, upstream, mapping, rx, add, e);
      assert e in Names(after) && e in after;
    }
    if m in Names(i) {
      assert m in Names(c.detected) && m in c.detected;
      assert m in Names(after) && m in after && Covers(m, m, rx);
    }
  }

  /** An ignore entry is added, and so dropped, only if it is a pattern that does not match itself. */
  lemma PlainEntryStays(c: Channel, upstream: seq<string>, mapping: map<string, string>, rx: Regex, add: seq<string>, e: string)
    requires c == Detect(c, upstream, mapping, rx) && e in Normalize(c.ignored)
    ensures e in Names(SelectedAdd(c, add)) ==> HasPrefix(e, REGEX_PREFIX) && !rx(TrimSpace(e[|REGEX_PREFIX|..]), e)
  {
    if e in Names(SelectedAdd(c, add)) {
      SelectionFacts(c, upstream, mapping, rx, add, [], []);
      DetectedFacts(c, upstream, mapping, rx);
      assert !Ignored(e, Normalize(c.ignored), rx);
    }
  }

  /** Names without the "regex:" prefix never change what the ignore list means. */
  lemma PlainNamesIgnoreAsChosen(c: Channel, upstream: seq<string>, mapping: map<string, string>, rx: Regex,
                                 add: seq<string>, ignore: seq<string>)
    requires c == Detect(c, upstream, mapping, rx)
    requires forall n :: n in c.detected ==> !HasPrefix(n, REGEX_PREFIX)
    ensures IgnoresAsChosen(c, upstream, mapping, rx, add, ignore)
  {
    forall m | StaysOff(c, upstream, mapping, add, m)
      ensures Ignored(m, NextIgnored(c, add, ignore), rx) <==> ToBeIgnored(c, rx, ignore, m)
    {
      SameMeaning(c, upstream, mapping, rx, add, ignore, m);
    }
  }

  /** What a second detection would add, in terms of the first. */
  lemma StillMissing(c: Channel, upstream: seq<string>, mapping: map<string, string>, rx: Regex,
                     add: seq<string>, ignore: seq<string>, remove: seq<string>, m: string)
    requires c == Detect(c, upstream, mapping, rx)
    ensures m in FoundAgain(c, upstream, mapping, rx, add, ignore, remove)
            <==> StaysOff(c, upstream, mapping, add, m) && !Ignored(m, NextIgnored(c, add, ignore), rx)
    ensures m in LeftPending(c, add, ignore)
            <==> StaysOff(c, upstream, mapping, add, m) && !ToBeIgnored(c, rx, ignore, m)
  {
    SelectionFacts(c, upstream, mapping, rx, add, ignore, remove);
    DetectedFacts(c, upstream, mapping, rx);
    AppliedNames(c, upstream, mapping, rx, add, remove);
  }

  /** The names left pending by an application. */
  ghost function LeftPending(c: Channel, add: seq<string>, ignore: seq<string>): set<string> {
    Names(c.detected) - Names(SelectedAdd(c, add)) - Names(Intersect(ignore, Normalize(c.detected)))
  }

  ghost function FoundAgain(c: Channel, upstream: seq<string>, mapping: map<string, string>, rx: Regex,
                      add: seq<string>, ignore: seq<string>, remove: seq<string>): set<string>
  {
    Missing(Names(NextModels(c, add, remove)), Names(Normalize(upstream)), NextIgnored(c, add, ignore), mapping, rx)
  }

  lemma SameMeaningSameFind(c: Channel, upstream: seq<string>, mapping: map<string, string>, rx: Regex,
                            add: seq<string>, ignore: seq<string>, remove: seq<string>)
    requires c == Detect(c, upstream, mapping, rx) && IgnoresAsChosen(c, upstream, mapping, rx, add, ignore)
    ensures FoundAgain(c, upstream, mapping, rx, add, ignore, remove) == LeftPending(c, add, ignore)
  {
    forall m ensures m in FoundAgain(c, upstream, mapping, rx, add, ignore, remove) <==> m in LeftPending(c, add, ignore) {
      StillMissing(c, upstream, mapping, rx, add, ignore, remove, m);
    }
  }

  lemma SameFindSameMeaning(c: Channel, upstream: seq<string>, mapping: map<string, string>, rx: Regex,
                            add: seq<string>, ignore: seq<string>, remove: seq<string>)
    requires c == Detect(c, upstream, mapping, rx)
    requires FoundAgain(c, upstream, mapping, rx, add, ignore, remove) == LeftPending(c, add, ignore)
    ensures IgnoresAsChosen(c, upstream, mapping, rx, add, ignore)
  {
    forall m | StaysOff(c, upstream, mapping, add, m)
      ensures Ignored(m, NextIgnored(c, add, ignore), rx) <==> ToBeIgnored(c, rx, ignore, m)
    {
      StillMissing(c, upstream, mapping, rx, add, ignore, remove, m);
    }
  }

  lemma GoneAfter(c: Channel, upstream: seq<string>, mapping: map<string, string>, rx: Regex, add: seq<string>, remove: seq<string>)
    requires c == Detect(c, upstream, mapping, rx)
    ensures Gone(Names(NextModels(c, add, remove)), Names(Normalize(upstream)), mapping)
            == Names(c.removed) - Names(SelectedRemove(c, add, remove))
  {
    DetectedFacts(c, upstream, mapping, rx);
    SelectionFacts(c, upstream, mapping, rx, add, [], remove);
    AppliedNames(c, upstream, mapping, rx, add, remove);
  }

  lemma NormalizeNames(xs: seq<string>, ys: seq<string>)
    requires Clean(xs) && Clean(ys)
    ensures Names(Normalize(xs + ys)) == Names(xs) + Names(ys)
  {
    assert forall x :: x in xs + ys ==> CleanName(x);
    TrimAllOfClean(xs + ys);
    UniqMembers(xs + ys);
    NamesConcat(xs, ys);
  }

  /** What is left pending, as a filter of the upstream list. */
  lemma RemainingAdds(c: Channel, upstream: seq<string>, mapping: map<string, string>, rx: Regex, add: seq<string>, ignore: seq<string>, remove: seq<string>)
    requires c == Detect(c, upstream, mapping, rx)
    ensures Apply(c, add, ignore, remove).detected
            == Keep(Normalize(upstream), LeftPending(c, add, ignore))
  {
    var u, a, i := Normalize(upstream), SelectedAdd(c, add), Intersect(ignore, Normalize(c.detected));
    DetectedFacts(c, upstream, mapping, rx);
    SelectionFacts(c, upstream, mapping, rx, add, ignore, remove);
    NormalizeOfClean(c.detected);
    NormalizeNames(a, i);
    var s, gone := Names(c.detected), Names(a) + Names(i);
    KeepKeep(u, s, s - gone);
    KeepCongruent(u, s * (s - gone), s - Names(a) - Names(i));
  }

  lemma RemainingRemoves(c: Channel, upstream: seq<string>, mapping: map<string, string>, rx: Regex, add: seq<string>, ignore: seq<string>, remove: seq<string>)
    requires c == Detect(c, upstream, mapping, rx)
    ensures Apply(c, add, ignore, remove).removed
            == Keep(NextModels(c, add, remove), Names(c.removed) - Names(SelectedRemove(c, add, remove)))
  {
    var l, a, r := Local(c.models), SelectedAdd(c, add), SelectedRemove(c, add, remove);
    DetectedFacts(c, upstream, mapping, rx);
    SelectionFacts(c, upstream, mapping, rx, add, ignore, remove);
    AppliedModels(c, upstream, mapping, rx, add, remove);
    NormalizeOfClean(c.removed);
    NormalizeOfClean(r);
    var s := Names(c.removed);
    var left := s - Names(r);
    KeepKeep(l, s, left);
    KeepCongruent(l, s * left, left);
    KeepConcat(Drop(l, Names(r)), a, left);
    KeepKeep(l, Names(l) - Names(r), left);
    KeepCongruent(l, (Names(l) - Names(r)) * left, left);
    KeepNone(a, left);
    assert Keep(l, left) + [] == Keep(l, left);
  }

  /** Two filters of one list are equal only for equal sets of its members. */
  lemma KeepInjective(xs: seq<string>, s: set<string>, t: set<string>)
    requires s <= Names(xs) && t <= Names(xs) && Keep(xs, s) == Keep(xs, t)
    ensures s == t
  {
    KeepMembers(xs, s);
    KeepMembers(xs, t);
    assert s == Names(xs) * s && t == Names(xs) * t;
  }

  /** Without a comma among the added names, a fresh detection agrees exactly if the ignore list means the same. */
  lemma RedetectCommaFree(c: Channel, upstream: seq<string>, mapping: map<string, string>, rx: Regex,
                          add: seq<string>, ignore: seq<string>, remove: seq<string>)
    requires c == Detect(c, upstream, mapping, rx) && CommaFree(SelectedAdd(c, add))
    ensures var c' := Apply(c, add, ignore, remove);
            Detect(c', upstream, mapping, rx) == c' <==> IgnoresAsChosen(c, upstream, mapping, rx, add, ignore)
  {
    var c', u, r := Apply(c, add, ignore, remove), Normalize(upstream), SelectedRemove(c, add, remove);
    var found, left := FoundAgain(c, upstream, mapping, rx, add, ignore, remove), LeftPending(c, add, ignore);
    AppliedLocal(c, upstream, mapping, rx, add, ignore, remove);
    AppliedIgnores(c, upstream, mapping, rx, add, ignore);
    NormalizeOfClean(c'.ignored);
    GoneAfter(c, upstream, mapping, rx, add, remove);
    RemainingAdds(c, upstream, mapping, rx, add, ignore, remove);
    RemainingRemoves(c, upstream, mapping, rx, add, ignore, remove);
    FilterFacts(Local(c'.models), Names(c.removed) - Names(r), GetModels(c'.models));
    FilterFacts(u, found, upstream);
    DetectedFacts(c, upstream, mapping, rx);
    if IgnoresAsChosen(c, upstream, mapping, rx, add, ignore) {
      SameMeaningSameFind(c, upstream, mapping, rx, add, ignore, remove);
    } else if Keep(u, found) == Keep(u, left) {
      KeepInjective(u, found, left);
      SameFindSameMeaning(c, upstream, mapping, rx, add, ignore, remove);
    }
  }

  /** An added name with a comma is found missing again: the stored text splits it. */
  lemma AddedCommaIsMissing(c: Channel, upstream: seq<string>, mapping: map<string, string>, rx: Regex,
                            add: seq<string>, ignore: seq<string>, remove: seq<string>, m: string)
    requires c == Detect(c, upstream, mapping, rx) && m in SelectedAdd(c, add) && ',' in m
    requires !Ignored(m, NextIgnored(c, add, ignore), rx)
    ensures var c' := Apply(c, add, ignore, remove);
            m in Detect(c', upstream, mapping, rx).detected && m !in c'.detected
  {
    var c', u := Apply(c, add, ignore, remove), Normalize(upstream);
    SelectionFacts(c, upstream, mapping, rx, add, ignore, remove);
    DetectedFacts(c, upstream, mapping, rx);
    assert m in Names(SelectedAdd(c, add));
    LocalCommaFree(c'.models);
    AppliedIgnores(c, upstream, mapping, rx, add, ignore);
    NormalizeOfClean(c'.ignored);
    var found := Missing(Names(Local(c'.models)), Names(u), c'.ignored, mapping, rx);
    assert m in found;
    FilterFacts(u, found, upstream);
    assert m in Names(Keep(u, found));
    RemainingAdds(c, upstream, mapping, rx, add, ignore, remove);
    KeepMembers(u, LeftPending(c, add, ignore));
    assert m !in Names(c'.detected);
  }

  /**
   Whatever selection is applied, the lists left in the settings are exactly what a fresh detection
   against the same upstream would find, if and only if no added name contains a comma and the change of
   the ignore list affects no name but the chosen ones.
   */
  lemma RedetectFindsTheRemainder(c: Channel, upstream: seq<string>, mapping: map<string, string>, rx: Regex,
                                  add: seq<string>, ignore: seq<string>, remove: seq<string>)
    requires c == Detect(c, upstream, mapping, rx)
    requires forall m :: m in SelectedAdd(c, add) && ',' in m ==> !Ignored(m, NextIgnored(c, add, ignore), rx)
    ensures var c' := Apply(c, add, ignore, remove);
            Detect(c', upstream, mapping, rx) == c'
            <==> CommaFree(SelectedAdd(c, add)) && IgnoresAsChosen(c, upstream, mapping, rx, add, ignore)
  {
    if CommaFree(SelectedAdd(c, add)) {
      RedetectCommaFree(c, upstream, mapping, rx, add, ignore, remove);
    } else {
      var m :| m in SelectedAdd(c, add) && ',' in m;
      AddedCommaIsMissing(c, upstream, mapping, rx, add, ignore, remove, m);
    }
  }

  // ----- applying everything -----

  function ApplyAll(c: Channel): Channel {
    Apply(c, Normalize(c.detected), [], Normalize(c.removed))
  }

  lemma ApplyAllSelections(c: Channel, upstream: seq<string>, mapping: map<string, string>, rx: Regex)
    requires c == Detect(c, upstream, mapping, rx)
    ensures SelectedAdd(c, Normalize(c.detected)) == c.detected
    ensures SelectedRemove(c, Normalize(c.detected), Normalize(c.removed)) == c.removed
    ensures Intersect([], Normalize(c.detected)) == []
  {
    DetectedFacts(c, upstream, mapping, rx);
    NormalizeOfClean(c.detected);
    NormalizeOfClean(c.removed);
    KeepAll(c.detected, Names(c.detected));
    KeepAll(c.removed, Names(c.removed));
    SubtractOfClean(c.removed, c.detected);
    DropNothing(c.removed, Names(c.detected));
  }

  /** Survivors keep their order, additions follow, redirecting aliases stay, nothing is left pending. */
  lemma ApplyAllResult(c: Channel, upstream: seq<string>, mapping: map<string, string>, rx: Regex)
    requires c == Detect(c, upstream, mapping, rx) && CommaFree(c.detected)
    ensures var local, c' := Local(c.models), ApplyAll(c);
            && Local(c'.models) == Drop(local, Names(c.removed)) + c.detected
            && Names(local) * mapping.Keys <= Names(Local(c'.models))
            && c'.detected == [] && c'.removed == []
  {
    var add, remove := Normalize(c.detected), Normalize(c.removed);
    ApplyAllSelections(c, upstream, mapping, rx);
    AppliedLocal(c, upstream, mapping, rx, add, [], remove);
    AppliedModels(c, upstream, mapping, rx, add, remove);
    AppliedNames(c, upstream, mapping, rx, add, remove);
    DetectedFacts(c, upstream, mapping, rx);
    NormalizeOfClean(c.detected);
    NormalizeOfClean(c.removed);
    assert c.detected + [] == c.detected;
    KeepNone(c.detected, Names(c.detected) - Names(c.detected));
    KeepNone(c.removed, Names(c.removed) - Names(c.removed));
  }

  ghost predicate NothingPending(models: string, upstream: seq<string>, ignored: seq<string>, mapping: map<string, string>, rx: Regex) {
    PendingAdd(GetModels(models), upstream, ignored, mapping, rx) == [] && PendingRemove(GetModels(models), upstream, mapping) == []
  }

  lemma CommaFreeApplyIsFixpoint(c: Channel, upstream: seq<string>, mapping: map<string, string>, rx: Regex)
    requires c == Detect(c, upstream, mapping, rx) && CommaFree(c.detected)
    ensures NothingPending(ApplyAll(c).models, upstream, c.ignored, mapping, rx)
  {
    var u, l' := Normalize(upstream), Local(ApplyAll(c).models);
    var add, remove := Normalize(c.detected), Normalize(c.removed);
    ApplyAllSelections(c, upstream, mapping, rx);
    AppliedLocal(c, upstream, mapping, rx, add, [], remove);
    AppliedNames(c, upstream, mapping, rx, add, remove);
    DetectedFacts(c, upstream, mapping, rx);
    assert Missing(Names(l'), Names(u), Normalize(c.ignored), mapping, rx) == {};
    assert Gone(Names(l'), Names(u), mapping) == {};
    KeepNone(u, {});
    KeepNone(l', {});
  }

  lemma IgnoresOnlyShrink(c: Channel, upstream: seq<string>, mapping: map<string, string>, rx: Regex, m: string)
    requires c == Detect(c, upstream, mapping, rx) && Ignored(m, ApplyAll(c).ignored, rx)
    ensures exists e :: e in Normalize(c.ignored) && e !in c.detected && Covers(e, m, rx)
  {
    AppliedIgnores(c, upstream, mapping, rx, Normalize(c.detected), []);
    ApplyAllSelections(c, upstream, mapping, rx);
    var e :| e in ApplyAll(c).ignored && Covers(e, m, rx);
    assert e in Names(ApplyAll(c).ignored);
  }

  lemma DetectedStaysUnignored(c: Channel, upstream: seq<string>, mapping: map<string, string>, rx: Regex, m: string)
    requires c == Detect(c, upstream, mapping, rx) && m in c.detected
    ensures !Ignored(m, ApplyAll(c).ignored, rx)
  {
    DetectedFacts(c, upstream, mapping, rx);
    assert m in Names(c.detected);
    if Ignored(m, ApplyAll(c).ignored, rx) {
      IgnoresOnlyShrink(c, upstream, mapping, rx, m);
    }
  }

  lemma CommaIsMissing(c: Channel, upstream: seq<string>, mapping: map<string, string>, rx: Regex, models: string, m: string)
    requires c == Detect(c, upstream, mapping, rx) && m in c.detected && ',' in m
    ensures m in PendingAdd(GetModels(models), upstream, c.ignored, mapping, rx)
  {
    var u, l' := Normalize(upstream), Local(models);
    DetectedFacts(c, upstream, mapping, rx);
    LocalCommaFree(models);
    var s := Missing(Names(l'), Names(u), Normalize(c.ignored), mapping, rx);
    assert m in Names(c.detected);
    assert m in s;
    FilterFacts(u, s, upstream);
    assert m in Names(Keep(u, s));
  }

  /** A detected name with a comma is pending again, with the ignore list of before or the stored one. */
  lemma CommaStaysPending(c: Channel, upstream: seq<string>, mapping: map<string, string>, rx: Regex, m: string)
    requires c == Detect(c, upstream, mapping, rx) && m in c.detected && ',' in m
    ensures m in PendingAdd(GetModels(ApplyAll(c).models), upstream, c.ignored, mapping, rx)
    ensures m in Detect(ApplyAll(c), upstream, mapping, rx).detected
  {
    CommaIsMissing(c, upstream, mapping, rx, ApplyAll(c).models, m);
    assert m in Detect(ApplyAll(c), upstream, mapping, rx).detected by {
      ApplyAllSelections(c, upstream, mapping, rx);
      DetectedStaysUnignored(c, upstream, mapping, rx, m);
      AddedCommaIsMissing(c, upstream, mapping, rx, Normalize(c.detected), [], Normalize(c.removed), m);
    }
  }

  /** One round: apply everything and detect again. */
  function Round(c: Channel, upstream: seq<string>, mapping: map<string, string>, rx: Regex): Channel {
    Detect(ApplyAll(c), upstream, mapping, rx)
  }

  function Repeat(step: Channel -> Channel, c: Channel, n: nat): Channel {
    if n == 0 then c else step(Repeat(step, c, n - 1))
  }

  lemma {:induction false} RepeatKeeps(step: Channel -> Channel, kept: Channel -> bool, c: Channel, n: nat)
    requires kept(c) && forall x :: kept(x) ==> kept(step(x))
    ensures kept(Repeat(step, c, n))
  {
    if n > 0 {
      RepeatKeeps(step, kept, c, n - 1);
    }
  }

  lemma DetectAgain(c: Channel, upstream: seq<string>, mapping: map<string, string>, rx: Regex)
    ensures Detect(Detect(c, upstream, mapping, rx), upstream, mapping, rx) == Detect(c, upstream, mapping, rx)
  {
  }

  lemma CommaPendingNext(c: Channel, upstream: seq<string>, mapping: map<string, string>, rx: Regex, m: string)
    requires c == Detect(c, upstream, mapping, rx) && m in c.detected && ',' in m
    ensures var c' := Round(c, upstream, mapping, rx);
            c' == Detect(c', upstream, mapping, rx) && m in c'.detected
  {
    CommaStaysPending(c, upstream, mapping, rx, m);
    DetectAgain(ApplyAll(c), upstream, mapping, rx);
  }

  /** However often everything is applied and detected again, such a name stays pending. */
  lemma CommaPendingForEver(c: Channel, n: nat, upstream: seq<string>, mapping: map<string, string>, rx: Regex, m: string)
    requires c == Detect(c, upstream, mapping, rx) && m in c.detected && ',' in m
    ensures m in Repeat(x => Round(x, upstream, mapping, rx), c, n).detected
  {
    var kept := x => x == Detect(x, upstream, mapping, rx) && m in x.detected;
    var step := x => Round(x, upstream, mapping, rx);
    forall x | kept(x) ensures kept(step(x)) {
      CommaPendingNext(x, upstream, mapping, rx, m);
    }
    RepeatKeeps(step, kept, c, n);
    assert kept(Repeat(step, c, n));
  }

  /**
   Detecting, applying everything and detecting again with the same upstream list, ignore list and
   mapping finds nothing, if and only if no detected name contains a comma.
   */
  lemma ApplyAllIsFixpointExactly(c: Channel, upstream: seq<string>, mapping: map<string, string>, rx: Regex)
    requires c == Detect(c, upstream, mapping, rx)
    ensures NothingPending(ApplyAll(c).models, upstream, c.ignored, mapping, rx) <==> CommaFree(c.detected)
  {
    if CommaFree(c.detected) {
      CommaFreeApplyIsFixpoint(c, upstream, mapping, rx);
    } else {
      var m :| m in c.detected && ',' in m;
      CommaStaysPending(c, upstream, mapping, rx, m);
    }
  }

  /**
   Every upstream name off the channel that is ignored now is also ignored through an entry that is not
   itself a detected name.
   */
  ghost predicate NoneExposed(c: Channel, upstream: seq<string>, mapping: map<string, string>, rx: Regex) {
    forall m | m in Names(Normalize(upstream)) && m !in Names(Local(c.models)) && m !in mapping.Values
               && Ignored(m, Normalize(c.ignored), rx) ::
      exists e :: e in Normalize(c.ignored) && e !in c.detected && Covers(e, m, rx)
  }

  lemma ExposureIsMeaning(c: Channel, upstream: seq<string>, mapping: map<string, string>, rx: Regex)
    requires c == Detect(c, upstream, mapping, rx)
    ensures IgnoresAsChosen(c, upstream, mapping, rx, Normalize(c.detected), []) <==> NoneExposed(c, upstream, mapping, rx)
  {
    var add, known, after := Normalize(c.detected), Normalize(c.ignored), ApplyAll(c).ignored;
    ApplyAllSelections(c, upstream, mapping, rx);
    AppliedIgnores(c, upstream, mapping, rx, add, []);
    DetectedFacts(c, upstream, mapping, rx);
    forall m | StaysOff(c, upstream, mapping, add, m) ensures Ignored(m, known, rx) && (Ignored(m, after, rx) <==>
      exists e :: e in known && e !in c.detected && Covers(e, m, rx))
    {
      assert m !in Names(c.detected);
      if Ignored(m, after, rx) {
        IgnoresOnlyShrink(c, upstream, mapping, rx, m);
      }
      if e :| e in known && e !in c.detected && Covers(e, m, rx) {
        assert e in Names(known) && e in Names(after) && e in after;
      }
    }
    forall m | m in Names(Normalize(upstream)) && m !in Names(Local(c.models)) && m !in mapping.Values && Ignored(m, known, rx)
      ensures StaysOff(c, upstream, mapping, add, m)
    {
      assert m !in Names(c.detected);
    }
  }

  /**
   The same with the ignore list as it is stored: applying drops the entries that were themselves added,
   so in addition no name may depend on such an entry.
   */
  lemma ApplyAllStoredFixpointExactly(c: Channel, upstream: seq<string>, mapping: map<string, string>, rx: Regex)
    requires c == Detect(c, upstream, mapping, rx)
    ensures var c' := ApplyAll(c);
            NothingPending(c'.models, upstream, c'.ignored, mapping, rx)
            <==> CommaFree(c.detected) && NoneExposed(c, upstream, mapping, rx)
  {
    var c', add, remove := ApplyAll(c), Normalize(c.detected), Normalize(c.removed);
    ApplyAllSelections(c, upstream, mapping, rx);
    DetectedFacts(c, upstream, mapping, rx);
    forall m | m in SelectedAdd(c, add) && ',' in m ensures !Ignored(m, NextIgnored(c, add, []), rx) {
      DetectedStaysUnignored(c, upstream, mapping, rx, m);
    }
    RedetectFindsTheRemainder(c, upstream, mapping, rx, add, [], remove);
    ExposureIsMeaning(c, upstream, mapping, rx);
    NothingRemains(c, upstream, mapping, rx);
  }

  lemma NothingRemains(c: Channel, upstream: seq<string>, mapping: map<string, string>, rx: Regex)
    requires c == Detect(c, upstream, mapping, rx)
    ensures ApplyAll(c).detected == [] && ApplyAll(c).removed == []
  {
    ApplyAllSelections(c, upstream, mapping, rx);
    DetectedFacts(c, upstream, mapping, rx);
    NormalizeOfClean(c.detected);
    NormalizeOfClean(c.removed);
    assert c.detected + [] == c.detected;
    KeepNone(c.detected, Names(c.detected) - Names(c.detected));
    KeepNone(c.removed, Names(c.removed) - Names(c.removed));
  }

  /**
   Adding a name that is spelled like an ignore entry drops the entry, and a name that only this entry
   ignored becomes pending.
   */
  lemma PatternLosesItsEntry(c: Channel, upstream: seq<string>, mapping: map<string, string>, rx: Regex, entry: string, other: string)
    requires c == Detect(c, upstream, mapping, rx) && entry in c.detected && entry in Normalize(c.ignored)
    requires other in Names(Normalize(upstream)) && other !in Names(Local(c.models)) && other !in mapping.Values
    requires Covers(entry, other, rx) && forall e :: e in Normalize(c.ignored) && Covers(e, other, rx) ==> e == entry
    ensures !NothingPending(ApplyAll(c).models, upstream, ApplyAll(c).ignored, mapping, rx)
  {
    assert Ignored(other, Normalize(c.ignored), rx);
    assert !NoneExposed(c, upstream, mapping, rx);
    ApplyAllStoredFixpointExactly(c, upstream, mapping, rx);
  }

  lemma OfferedAndUnignored(c: Channel, upstream: seq<string>, mapping: map<string, string>, rx: Regex, m: string)
    requires m in Names(Normalize(upstream)) && m !in Names(Local(c.models)) && m !in mapping.Values
    requires !Ignored(m, Normalize(c.ignored), rx)
    ensures m in Detect(c, upstream, mapping, rx).detected
  {
    DetectAgain(c, upstream, mapping, rx);
    DetectedFacts(Detect(c, upstream, mapping, rx), upstream, mapping, rx);
    assert m in Names(Detect(c, upstream, mapping, rx).detected);
  }

  /**
   It happens on an empty channel with the one ignore entry, when the upstream offers the entry's own
   text, which its pattern does not match, and a name that it matches.
   */
  lemma PatternIsLost(ignored: seq<string>, upstream: seq<string>, rx: Regex, entry: string, other: string)
    requires Clean(ignored) && Names(ignored) == {entry} && Clean(upstream) && entry in upstream && other in upstream
    requires Covers(entry, other, rx) && !Covers(entry, entry, rx)
    ensures var c := Detect(Channel("", ignored, [], []), upstream, map[], rx);
            !NothingPending(ApplyAll(c).models, upstream, ApplyAll(c).ignored, map[], rx)
  {
    var before := Channel("", ignored, [], []);
    forall e | e in ignored ensures e == entry {
      assert e in Names(ignored);
    }
    assert entry in Names(ignored);
    NormalizeOfClean(ignored);
    NormalizeOfClean(upstream);
    assert entry in Names(upstream) && other in Names(upstream);
    assert Local("") == [];
    OfferedAndUnignored(before, upstream, map[], rx, entry);
    DetectAgain(before, upstream, map[], rx);
    PatternLosesItsEntry(Detect(before, upstream, map[], rx), upstream, map[], rx, entry, other);
  }

  lemma PatternExample(rx: Regex)
    requires rx("^ab", "abc") && !rx("^ab", "regex:^ab")
    ensures var ignored, upstream := ["regex:^ab"], ["regex:^ab", "abc"];
            var c := Detect(Channel("", ignored, [], []), upstream, map[], rx);
            !NothingPending(ApplyAll(c).models, upstream, ApplyAll(c).ignored, map[], rx)
  {
    var entry, other := "regex:^ab", "abc";
    assert entry[|REGEX_PREFIX|..] == "^ab";
    TrimOfTight(entry, IsSpace);
    TrimOfTight(other, IsSpace);
    TrimOfTight("^ab", IsSpace);
    assert Clean([entry]) && Clean([entry, other]);
    PatternIsLost([entry], [entry, other], rx, entry, other);
  }
}
