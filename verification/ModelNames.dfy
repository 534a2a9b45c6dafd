/**
 Ordered, deduplicated lists of model names and the operations on them
 (controller/channel_upstream_update.go).
 */
module ModelNames {
  import opened Text

  function Names(xs: seq<string>): set<string> {
    set x | x in xs
  }

  /** `lo.Filter` by membership. */
  function Keep(xs: seq<string>, s: set<string>): seq<string> {
    if xs == [] then []
    else Keep(xs[..|xs| - 1], s) + if xs[|xs| - 1] in s then [xs[|xs| - 1]] else []
  }

  function Drop(xs: seq<string>, s: set<string>): seq<string> {
    Keep(xs, Names(xs) - s)
  }

  /** `lo.Uniq`: first occurrences, in order. */
  function Uniq(xs: seq<string>): seq<string> {
    if xs == [] then []
    else
      var init, last := xs[..|xs| - 1], xs[|xs| - 1];
      Uniq(init) + if last in init then [] else [last]
  }

  /** The trimmed non-empty names. */
  function TrimAll(xs: seq<string>): seq<string> {
    if xs == [] then []
    else
      var last := TrimSpace(xs[|xs| - 1]);
      TrimAll(xs[..|xs| - 1]) + if last != "" then [last] else []
  }

  /** `normalizeModelNames` */
  function Normalize(models: seq<string>): seq<string> {
    Uniq(TrimAll(models))
  }

  /** `mergeModelNames` */
  function Merge(base: seq<string>, appended: seq<string>): seq<string> {
    var merged := Normalize(base);
    merged + Drop(Normalize(appended), Names(merged))
  }

  /** `subtractModelNames` */
  function Subtract(base: seq<string>, removed: seq<string>): seq<string> {
    Drop(Normalize(base), Names(Normalize(removed)))
  }

  /** `intersectModelNames` */
  function Intersect(base: seq<string>, allowed: seq<string>): seq<string> {
    Keep(Normalize(base), Names(Normalize(allowed)))
  }

  /** `applySelectedModelChanges`: add wins over remove. */
  function ApplySelected(origin: seq<string>, add: seq<string>, remove: seq<string>): seq<string> {
    var normalizedAdd := Normalize(add);
    var normalizedRemove := Subtract(Normalize(remove), normalizedAdd);
    Subtract(Merge(origin, normalizedAdd), normalizedRemove)
  }

  /** The loop of `mergeModelNames`. */
  method MergeModelNames(base: seq<string>, appended: seq<string>) returns (merged: seq<string>)
    ensures merged == Merge(base, appended)
  {
    merged := Normalize(base);
    var seen := Names(merged);
    var extra := Normalize(appended);
    ghost var first := merged;
    NormalizeIsClean(appended);
    assert first + [] == first;
    for i := 0 to |extra|
      invariant MergedUpTo(first, extra, i, seen, merged)
    {
      MergeStep(first, extra, i, seen, merged);
      if extra[i] !in seen {
        seen := seen + {extra[i]};
        merged := merged + [extra[i]];
      }
    }
    assert extra[..|extra|] == extra;
  }

  // ----- clean lists -----

  ghost predicate NoDup(xs: seq<string>) {
    forall i, j :: 0 <= i < j < |xs| ==> xs[i] != xs[j]
  }

  ghost predicate CleanName(x: string) {
    x != "" && TrimSpace(x) == x
  }

  ghost predicate Clean(xs: seq<string>) {
    NoDup(xs) && forall x :: x in xs ==> CleanName(x)
  }

  lemma KeepSnoc(xs: seq<string>, x: string, s: set<string>)
    ensures Keep(xs + [x], s) == Keep(xs, s) + if x in s then [x] else []
  {
    assert (xs + [x])[..|xs|] == xs;
  }

  lemma NamesSnoc(xs: seq<string>, x: string)
    ensures Names(xs + [x]) == Names(xs) + {x}
  {
  }

  lemma NamesOfNonEmpty(xs: seq<string>)
    ensures xs != [] ==> Names(xs) != {}
  {
    if xs != [] {
      assert xs[0] in Names(xs);
    }
  }

  ghost predicate MergedUpTo(first: seq<string>, extra: seq<string>, i: nat, seen: set<string>, merged: seq<string>)
    requires i <= |extra|
  {
    && seen == Names(first) + Names(extra[..i])
    && merged == first + Keep(extra[..i], Names(extra) - Names(first))
  }

  lemma MergeStep(first: seq<string>, extra: seq<string>, i: nat, seen: set<string>, merged: seq<string>)
    requires i < |extra| && NoDup(extra) && MergedUpTo(first, extra, i, seen, merged)
    ensures extra[i] in seen ==> MergedUpTo(first, extra, i + 1, seen, merged)
    ensures extra[i] !in seen ==> MergedUpTo(first, extra, i + 1, seen + {extra[i]}, merged + [extra[i]])
  {
    var kept := Keep(extra[..i], Names(extra) - Names(first));
    assert extra[i] in seen <==> extra[i] in Names(first);
    assert extra[..i + 1] == extra[..i] + [extra[i]];
    NamesSnoc(extra[..i], extra[i]);
    KeepSnoc(extra[..i], extra[i], Names(extra) - Names(first));
    assert kept + [] == kept && first + (kept + [extra[i]]) == (first + kept) + [extra[i]];
  }

  lemma {:induction false} KeepMembers(xs: seq<string>, s: set<string>)
    ensures Names(Keep(xs, s)) == Names(xs) * s
  {
    if xs != [] {
      var init, last := xs[..|xs| - 1], xs[|xs| - 1];
      KeepMembers(init, s);
      assert xs == init + [last];
      NamesSnoc(init, last);
      NamesSnoc(Keep(init, s), last);
      assert Keep(init, s) + [] == Keep(init, s);
    }
  }

  lemma {:induction false} KeepNoDup(xs: seq<string>, s: set<string>)
    requires NoDup(xs)
    ensures NoDup(Keep(xs, s))
  {
    if xs != [] {
      var init := xs[..|xs| - 1];
      KeepNoDup(init, s);
      KeepMembers(init, s);
      forall i | 0 <= i < |Keep(init, s)| ensures Keep(init, s)[i] != xs[|xs| - 1] {
        assert Keep(init, s)[i] in Names(Keep(init, s));
      }
    }
  }

  lemma KeepClean(xs: seq<string>, s: set<string>)
    requires Clean(xs)
    ensures Clean(Keep(xs, s))
  {
    KeepNoDup(xs, s);
    KeepMembers(xs, s);
    forall x | x in Keep(xs, s) ensures CleanName(x) {
      assert x in Names(Keep(xs, s));
    }
  }

  /** A filter depends only on which members of the list it admits. */
  lemma {:induction false} KeepCongruent(xs: seq<string>, s: set<string>, t: set<string>)
    requires Names(xs) * s == Names(xs) * t
    ensures Keep(xs, s) == Keep(xs, t)
  {
    if xs != [] {
      var init, last := xs[..|xs| - 1], xs[|xs| - 1];
      assert Names(init) <= Names(xs) && last in Names(xs);
      assert Names(init) * s == Names(init) * (Names(xs) * s);
      assert Names(init) * t == Names(init) * (Names(xs) * t);
      assert last in s <==> last in Names(xs) * s;
      assert last in t <==> last in Names(xs) * t;
      KeepCongruent(init, s, t);
    }
  }

  lemma {:induction false} KeepAll(xs: seq<string>, s: set<string>)
    requires Names(xs) <= s
    ensures Keep(xs, s) == xs
  {
    if xs != [] {
      var init, last := xs[..|xs| - 1], xs[|xs| - 1];
      assert Names(init) <= Names(xs) && last in Names(xs);
      KeepAll(init, s);
      assert xs == init + [last];
    }
  }

  lemma KeepNone(xs: seq<string>, s: set<string>)
    requires Names(xs) !! s
    ensures Keep(xs, s) == []
  {
    KeepMembers(xs, s);
    NamesOfNonEmpty(Keep(xs, s));
  }

  lemma {:induction false} KeepKeep(xs: seq<string>, s: set<string>, t: set<string>)
    ensures Keep(Keep(xs, s), t) == Keep(xs, s * t)
  {
    if xs != [] {
      var init, last := xs[..|xs| - 1], xs[|xs| - 1];
      KeepKeep(init, s, t);
      if last in s {
        KeepSnoc(Keep(init, s), last, t);
      } else {
        assert Keep(init, s) + [] == Keep(init, s);
      }
    }
  }

  lemma {:induction false} KeepConcat(xs: seq<string>, ys: seq<string>, s: set<string>)
    ensures Keep(xs + ys, s) == Keep(xs, s) + Keep(ys, s)
  {
    if ys == [] {
      assert xs + ys == xs;
    } else {
      var init, last := ys[..|ys| - 1], ys[|ys| - 1];
      KeepConcat(xs, init, s);
      assert xs + ys == (xs + init) + [last];
      KeepSnoc(xs + init, last, s);
      assert ys == init + [last];
      KeepSnoc(init, last, s);
    }
  }

  lemma {:induction false} UniqMembers(xs: seq<string>)
    ensures Names(Uniq(xs)) == Names(xs)
  {
    if xs != [] {
      var init, last := xs[..|xs| - 1], xs[|xs| - 1];
      UniqMembers(init);
      assert xs == init + [last];
      NamesSnoc(init, last);
      NamesSnoc(Uniq(init), last);
    }
  }

  lemma {:induction false} UniqNoDup(xs: seq<string>)
    ensures NoDup(Uniq(xs))
  {
    if xs != [] {
      var init, last := xs[..|xs| - 1], xs[|xs| - 1];
      UniqNoDup(init);
      UniqMembers(init);
      if last !in init {
        forall i | 0 <= i < |Uniq(init)| ensures Uniq(init)[i] != last {
          assert Uniq(init)[i] in Names(Uniq(init));
        }
      }
    }
  }

  lemma {:induction false} UniqOfNoDup(xs: seq<string>)
    requires NoDup(xs)
    ensures Uniq(xs) == xs
  {
    if xs != [] {
      var init, last := xs[..|xs| - 1], xs[|xs| - 1];
      UniqOfNoDup(init);
      assert last !in init;
      assert xs == init + [last];
    }
  }

  lemma {:induction false} TrimAllClean(xs: seq<string>)
    ensures forall x :: x in TrimAll(xs) ==> CleanName(x)
  {
    if xs != [] {
      TrimAllClean(xs[..|xs| - 1]);
      var last := TrimSpace(xs[|xs| - 1]);
      TrimIsTight(xs[|xs| - 1], IsSpace);
      TrimOfTight(last, IsSpace);
    }
  }

  lemma {:induction false} TrimAllOfClean(xs: seq<string>)
    requires forall x :: x in xs ==> CleanName(x)
    ensures TrimAll(xs) == xs
  {
    if xs != [] {
      var init, last := xs[..|xs| - 1], xs[|xs| - 1];
      assert CleanName(last);
      assert forall x :: x in init ==> x in xs;
      TrimAllOfClean(init);
      assert xs == init + [last];
    }
  }

  /** Normalising trims, drops empty names and duplicates ... */
  lemma NormalizeIsClean(models: seq<string>)
    ensures Clean(Normalize(models))
  {
    TrimAllClean(models);
    UniqNoDup(TrimAll(models));
    UniqMembers(TrimAll(models));
    forall x | x in Normalize(models) ensures CleanName(x) {
      assert x in Names(Normalize(models));
    }
  }

  /** ... and leaves a clean list as it is. */
  lemma NormalizeOfClean(xs: seq<string>)
    requires Clean(xs)
    ensures Normalize(xs) == xs
  {
    TrimAllOfClean(xs);
    UniqOfNoDup(xs);
  }

  lemma DropMembers(xs: seq<string>, s: set<string>)
    ensures Names(Drop(xs, s)) == Names(xs) - s
  {
    KeepMembers(xs, Names(xs) - s);
  }

  lemma DropNothing(xs: seq<string>, s: set<string>)
    requires Names(xs) !! s
    ensures Drop(xs, s) == xs
  {
    KeepAll(xs, Names(xs) - s);
  }

  lemma SubtractOfClean(base: seq<string>, removed: seq<string>)
    requires Clean(base) && Clean(removed)
    ensures Subtract(base, removed) == Drop(base, Names(removed)) && Clean(Subtract(base, removed))
  {
    NormalizeOfClean(base);
    NormalizeOfClean(removed);
    KeepClean(base, Names(base) - Names(removed));
  }

  lemma IntersectOfClean(base: seq<string>, allowed: seq<string>)
    requires Clean(allowed)
    ensures Clean(Intersect(base, allowed))
    ensures Names(Intersect(base, allowed)) == Names(Normalize(base)) * Names(allowed)
  {
    NormalizeIsClean(base);
    NormalizeOfClean(allowed);
    KeepClean(Normalize(base), Names(allowed));
    KeepMembers(Normalize(base), Names(allowed));
  }

  lemma ConcatClean(xs: seq<string>, ys: seq<string>)
    requires Clean(xs) && Clean(ys) && Names(xs) !! Names(ys)
    ensures Clean(xs + ys)
  {
    forall i, j | 0 <= i < j < |xs + ys| ensures (xs + ys)[i] != (xs + ys)[j] {
      if i < |xs| <= j {
        assert xs[i] in Names(xs) && ys[j - |xs|] in Names(ys);
      }
    }
  }

  lemma MergeOfClean(base: seq<string>, appended: seq<string>)
    requires Clean(base) && Clean(appended)
    ensures Merge(base, appended) == base + Drop(appended, Names(base)) && Clean(Merge(base, appended))
  {
    NormalizeOfClean(base);
    NormalizeOfClean(appended);
    KeepClean(appended, Names(appended) - Names(base));
    DropMembers(appended, Names(base));
    ConcatClean(base, Drop(appended, Names(base)));
  }

  /**
   The selected changes in closed form: the survivors in their old order, then the new names in the
   order they were given.
   */
  lemma ApplySelectedOfClean(origin: seq<string>, add: seq<string>, remove: seq<string>)
    requires Clean(origin) && Clean(add) && Clean(remove) && Names(add) !! Names(remove) && Names(add) !! Names(origin)
    ensures ApplySelected(origin, add, remove) == Drop(origin, Names(remove)) + add
    ensures Clean(ApplySelected(origin, add, remove))
  {
    var r := Names(remove);
    NormalizeOfClean(add);
    NormalizeOfClean(remove);
    SubtractOfClean(remove, add);
    DropNothing(remove, Names(add));
    MergeOfClean(origin, add);
    DropNothing(add, Names(origin));
    var merged := origin + add;
    SubtractOfClean(merged, remove);
    KeepConcat(origin, add, Names(merged) - r);
    KeepCongruent(origin, Names(merged) - r, Names(origin) - r);
    KeepCongruent(add, Names(merged) - r, Names(add) - r);
    DropNothing(add, r);
  }

  // ----- what the operations mean on any lists -----

  lemma NormalizeSnoc(xs: seq<string>, x: string)
    ensures var t := TrimSpace(x);
            Normalize(xs + [x]) == Normalize(xs) + if t == "" || t in Normalize(xs) then [] else [t]
  {
    var t, all := TrimSpace(x), TrimAll(xs);
    assert (xs + [x])[..|xs|] == xs;
    UniqMembers(all);
    assert t in Names(Uniq(all)) <==> t in Names(all);
    if t != "" {
      assert (all + [t])[..|all|] == all;
    } else {
      assert all + [] == all && Normalize(xs) + [] == Normalize(xs);
    }
  }

  /** The normalised names are the trimmed non-empty ones ... */
  lemma {:induction false} NormalizeMeaning(xs: seq<string>, m: string)
    ensures m in Normalize(xs) <==> m != "" && exists i :: 0 <= i < |xs| && TrimSpace(xs[i]) == m
  {
    if xs != [] {
      var init, last := xs[..|xs| - 1], xs[|xs| - 1];
      NormalizeMeaning(init, m);
      assert xs == init + [last];
      NormalizeSnoc(init, last);
      assert forall i :: 0 <= i < |init| ==> xs[i] == init[i];
    }
  }

  /** `m` occurs first at position `i`. */
  ghost predicate FirstAt(xs: seq<string>, m: string, i: nat) {
    i < |xs| && TrimSpace(xs[i]) == m && forall j :: 0 <= j < i ==> TrimSpace(xs[j]) != m
  }

  lemma {:induction false} FirstPosition(xs: seq<string>, b: nat) returns (j: nat)
    requires b < |Normalize(xs)|
    ensures FirstAt(xs, Normalize(xs)[b], j)
  {
    var init, last := xs[..|xs| - 1], xs[|xs| - 1];
    assert xs == init + [last];
    NormalizeSnoc(init, last);
    if b < |Normalize(init)| {
      j := FirstPosition(init, b);
    } else {
      j := |xs| - 1;
      NormalizeMeaning(init, TrimSpace(last));
    }
  }

  /** ... in the order of their first occurrence. */
  lemma {:induction false} NormalizeOrder(xs: seq<string>, a: nat, b: nat) returns (i: nat, j: nat)
    requires a < b < |Normalize(xs)|
    ensures i < j && FirstAt(xs, Normalize(xs)[a], i) && FirstAt(xs, Normalize(xs)[b], j)
  {
    var init, last := xs[..|xs| - 1], xs[|xs| - 1];
    assert xs == init + [last];
    NormalizeSnoc(init, last);
    if b < |Normalize(init)| {
      i, j := NormalizeOrder(init, a, b);
    } else {
      i := FirstPosition(init, a);
      j := |xs| - 1;
      NormalizeMeaning(init, TrimSpace(last));
    }
  }

  /** `xs` is what is left of `ys` when some elements are taken out. */
  ghost predicate Subsequence(xs: seq<string>, ys: seq<string>) {
    if xs == [] then true
    else if ys == [] then false
    else
      var rest := ys[..|ys| - 1];
      Subsequence(xs, rest) || (xs[|xs| - 1] == ys[|ys| - 1] && Subsequence(xs[..|xs| - 1], rest))
  }

  lemma {:induction false} KeepIsSubsequence(xs: seq<string>, s: set<string>)
    ensures Subsequence(Keep(xs, s), xs)
  {
    if xs != [] {
      var init, last := xs[..|xs| - 1], xs[|xs| - 1];
      KeepIsSubsequence(init, s);
      if last in s {
        assert (Keep(init, s) + [last])[..|Keep(init, s)|] == Keep(init, s);
      } else {
        assert Keep(xs, s) == Keep(init, s);
      }
    }
  }

  lemma KeepMeaning(xs: seq<string>, s: set<string>, m: string)
    ensures m in Keep(xs, s) <==> m in xs && m in s
  {
    KeepMembers(xs, s);
    assert m in Names(Keep(xs, s)) <==> m in Names(xs) * s;
  }

  /** The difference and the intersection, name by name, in the order of the first list. */
  lemma FiltersMeaning(base: seq<string>, other: seq<string>, m: string)
    ensures m in Subtract(base, other) <==> m in Normalize(base) && m !in Normalize(other)
    ensures m in Intersect(base, other) <==> m in Normalize(base) && m in Normalize(other)
    ensures Subsequence(Subtract(base, other), Normalize(base)) && Subsequence(Intersect(base, other), Normalize(base))
  {
    var b, o := Normalize(base), Names(Normalize(other));
    KeepMeaning(b, Names(b) - o, m);
    KeepMeaning(b, o, m);
    KeepIsSubsequence(b, Names(b) - o);
    KeepIsSubsequence(b, o);
  }

  /** The union: the first list, then what is new in the second. */
  lemma MergeMeaning(base: seq<string>, appended: seq<string>, m: string)
    ensures m in Merge(base, appended) <==> m in Normalize(base) || m in Normalize(appended)
    ensures Normalize(base) <= Merge(base, appended)
    ensures Subsequence(Merge(base, appended)[|Normalize(base)|..], Normalize(appended))
  {
    var b, a := Normalize(base), Normalize(appended);
    var added := Drop(a, Names(b));
    KeepMeaning(a, Names(a) - Names(b), m);
    KeepIsSubsequence(a, Names(a) - Names(b));
    assert (b + added)[|b|..] == added;
  }
}
