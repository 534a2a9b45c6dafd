/**
 Choosing one price per model from the models.dev catalogue (controller/ratio_sync.go).

 The same model is sold by several providers.  Candidates are compared with a tolerance, which makes
 the comparison non-transitive; providers are folded in sorted order.  Prices are reals.
 */
module ModelsDev {
  import opened Tolerance
  import opened Wrappers

  datatype Cost = Cost(input: Option<real>, output: Option<real>, cacheRead: Option<real>)

  datatype Candidate = Candidate(provider: string, input: real, output: Option<real>, cacheRead: Option<real>)

  /** provider -> model -> cost */
  type Catalogue = map<string, map<string, Cost>>

  /** `buildModelsDevCandidate` */
  function BuildCandidate(provider: string, cost: Cost): Option<Candidate> {
    if cost.input.None? || cost.input.value < 0.0 then None
    else if cost.output.Some? && cost.output.value < 0.0 then None
    else if cost.input.value == 0.0 && cost.output.Some? && cost.output.value > 0.0 then None
    else Some(Candidate(provider, cost.input.value, cost.output,
                        if cost.cacheRead.Some? && cost.cacheRead.value >= 0.0 then cost.cacheRead else None))
  }

  /** `shouldReplaceModelsDevCandidate` */
  predicate ShouldReplace(current: Candidate, next: Candidate) {
    if (current.input > 0.0) != (next.input > 0.0) then next.input > 0.0
    else if next.input > 0.0 && !NearlyEqual(next.input, current.input) then next.input < current.input
    else Less(next.provider, current.provider)
  }

  // ----- string order -----

  predicate Less(a: string, b: string) {
    if b == "" then false
    else if a == "" then true
    else if a[0] != b[0] then a[0] < b[0]
    else Less(a[1..], b[1..])
  }

  lemma {:induction false} LessIsStrict(a: string, b: string)
    ensures !(Less(a, b) && Less(b, a)) && (Less(a, b) || Less(b, a) || a == b) && !Less(a, a)
  {
    if a != "" {
      LessIsStrict(a[1..], if b == "" then "" else b[1..]);
      if b != "" && a[0] == b[0] && a[1..] == b[1..] {
        assert a == [a[0]] + a[1..] && b == [b[0]] + b[1..];
      }
    }
  }

  lemma {:induction false} LessTransitive(a: string, b: string, c: string)
    requires Less(a, b) && Less(b, c)
    ensures Less(a, c)
  {
    if a != "" && a[0] == b[0] == c[0] {
      LessTransitive(a[1..], b[1..], c[1..]);
    }
  }

  ghost predicate Sorted(xs: seq<string>) {
    forall i, j :: 0 <= i < j < |xs| ==> Less(xs[i], xs[j])
  }

  ghost predicate Lists(xs: seq<string>, s: set<string>) {
    Sorted(xs) && forall x :: x in xs <==> x in s
  }

  lemma {:induction false} SortedListingIsUnique(xs: seq<string>, ys: seq<string>, s: set<string>)
    requires Lists(xs, s) && Lists(ys, s)
    ensures xs == ys
  {
    EmptyListing(xs, s);
    EmptyListing(ys, s);
    if s != {} {
      HeadsAgree(xs, ys, s);
      TailLists(xs, s);
      TailLists(ys, s);
      SortedListingIsUnique(xs[1..], ys[1..], s - {xs[0]});
      assert xs == [xs[0]] + xs[1..] && ys == [ys[0]] + ys[1..];
    }
  }

  lemma EmptyListing(xs: seq<string>, s: set<string>)
    requires Lists(xs, s)
    ensures xs == [] <==> s == {}
  {
    if xs != [] {
      assert xs[0] in xs;
    } else {
      assert forall x :: x !in s;
    }
  }

  lemma HeadsAgree(xs: seq<string>, ys: seq<string>, s: set<string>)
    requires Lists(xs, s) && Lists(ys, s) && xs != [] && ys != []
    ensures xs[0] == ys[0]
  {
    var x, y := xs[0], ys[0];
    assert x in ys && y in xs;
    var i :| 0 <= i < |xs| && xs[i] == y;
    var j :| 0 <= j < |ys| && ys[j] == x;
    LessIsStrict(x, y);
    assert i == 0 || Less(x, y);
    assert j == 0 || Less(y, x);
  }

  lemma TailLists(xs: seq<string>, s: set<string>)
    requires Lists(xs, s) && xs != []
    ensures Lists(xs[1..], s - {xs[0]})
  {
    LessIsStrict(xs[0], xs[0]);
    forall x ensures x in xs[1..] <==> x in s - {xs[0]} {
      if x in xs[1..] {
        var i :| 0 <= i < |xs| - 1 && xs[1..][i] == x;
        assert Less(xs[0], xs[i + 1]) && x in xs;
      }
      if x in s && x != xs[0] {
        assert x in xs;
        var i :| 0 <= i < |xs| && xs[i] == x;
        assert xs[1..][i - 1] == x;
      }
    }
  }

  /** `sort.Strings` on the keys of a map. */
  method SortKeys(keys: set<string>) returns (xs: seq<string>)
    ensures Lists(xs, keys)
  {
    xs := [];
    var rest := keys;
    while rest != {}
      invariant rest <= keys && Lists(xs, keys - rest)
      invariant forall x, y :: x in xs && y in rest ==> Less(x, y)
    {
      var least := Least(rest);
      ghost var before := xs;
      xs := xs + [least];
      rest := rest - {least};
      ExtendListing(before, least, keys - rest - {least});
      assert keys - rest == keys - rest - {least} + {least};
    }
    assert keys - {} == keys;
  }

  lemma ExtendListing(xs: seq<string>, last: string, s: set<string>)
    requires Lists(xs, s) && forall x :: x in xs ==> Less(x, last)
    ensures Lists(xs + [last], s + {last})
  {
  }

  method Least(s: set<string>) returns (least: string)
    requires s != {}
    ensures least in s && forall x :: x in s && x != least ==> Less(least, x)
  {
    least :| least in s;
    var rest := s - {least};
    while rest != {}
      invariant rest <= s && least in s - rest
      invariant forall x :: x in s - rest && x != least ==> Less(least, x)
    {
      var x :| x in rest;
      LessIsStrict(x, least);
      if Less(x, least) {
        forall y | y in s - rest && y != least ensures Less(x, y) {
          LessTransitive(x, least, y);
        }
        least := x;
      }
      rest := rest - {x};
    }
  }

  // ----- selection -----

  function Offer(data: Catalogue, provider: string, model: string): Option<Candidate> {
    if provider in data && model in data[provider] then BuildCandidate(provider, data[provider][model]) else None
  }

  function Choose(current: Option<Candidate>, offer: Option<Candidate>): Option<Candidate> {
    if offer.None? then current
    else if current.None? || ShouldReplace(current.value, offer.value) then offer
    else current
  }

  /** The candidate chosen for `model` after folding the providers in the given order. */
  function Chosen(data: Catalogue, providers: seq<string>, model: string): Option<Candidate> {
    if providers == [] then None
    else Choose(Chosen(data, providers[..|providers| - 1], model), Offer(data, providers[|providers| - 1], model))
  }

  ghost predicate Holds(selected: map<string, Candidate>, data: Catalogue, providers: seq<string>) {
    forall m :: (if m in selected then Some(selected[m]) else None) == Chosen(data, providers, m)
  }

  /**
   The selection loop of `convertModelsDevToRatioData`; `None` is either of its two errors.  The outcome
   is a function of the catalogue alone: it does not depend on the order in which maps are iterated.
   */
  method SelectCandidates(data: Catalogue) returns (selected: Option<map<string, Candidate>>)
    ensures forall providers :: Lists(providers, data.Keys) ==>
              && (selected.Some? ==> Holds(selected.value, data, providers))
              && (selected.None? ==> forall m :: Chosen(data, providers, m) == None)
  {
    var providers := SortKeys(data.Keys);
    forall ps | Lists(ps, data.Keys) ensures ps == providers {
      SortedListingIsUnique(ps, providers, data.Keys);
    }
    if |data| == 0 {
      EmptyListing(providers, data.Keys);
      return None;
    }
    var found: map<string, Candidate> := map[];
    for i := 0 to |providers|
      invariant Holds(found, data, providers[..i])
    {
      found := FoldProvider(data, providers, i, found);
    }
    assert providers[..|providers|] == providers;
    if |found| == 0 { return None; }
    return Some(found);
  }

  method FoldProvider(data: Catalogue, providers: seq<string>, i: nat, before: map<string, Candidate>)
    returns (found: map<string, Candidate>)
    requires i < |providers| && providers[i] in data && Holds(before, data, providers[..i])
    ensures Holds(found, data, providers[..i + 1])
  {
    var provider := providers[i];
    var models := data[provider];
    var names := SortKeys(models.Keys);
    found := before;
    for k := 0 to |names|
      invariant forall m :: (if m in found then Some(found[m]) else None) ==
                            Choose(Chosen(data, providers[..i], m), if m in names[..k] then Offer(data, provider, m) else None)
    {
      var name := names[k];
      assert name !in names[..k] by { NotEarlier(names, k); }
      assert names[..k + 1] == names[..k] + [name];
      var candidate := BuildCandidate(provider, models[name]);
      if candidate.Some? {
        if name !in found || ShouldReplace(found[name], candidate.value) {
          found := found[name := candidate.value];
        }
      }
    }
    assert names[..|names|] == names;
    assert providers[..i + 1][..i] == providers[..i];
  }

  lemma NotEarlier(names: seq<string>, k: nat)
    requires Sorted(names) && k < |names|
    ensures names[k] !in names[..k]
  {
    LessIsStrict(names[k], names[k]);
  }

  // ----- what the choice guarantees -----

  /** The valid offers for a model among the given providers. */
  ghost predicate Offered(data: Catalogue, providers: seq<string>, model: string, c: Candidate) {
    exists i :: 0 <= i < |providers| && Offer(data, providers[i], model) == Some(c)
  }

  lemma OfferedLast(data: Catalogue, providers: seq<string>, model: string, c: Candidate)
    requires providers != []
    ensures Offered(data, providers, model, c) <==>
            Offered(data, providers[..|providers| - 1], model, c) || Offer(data, providers[|providers| - 1], model) == Some(c)
  {
    var init := providers[..|providers| - 1];
    if Offered(data, init, model, c) {
      var i :| 0 <= i < |init| && Offer(data, init[i], model) == Some(c);
      assert Offer(data, providers[i], model) == Some(c);
    }
    if Offered(data, providers, model, c) {
      var i :| 0 <= i < |providers| && Offer(data, providers[i], model) == Some(c);
      assert i == |init| || Offer(data, init[i], model) == Some(c);
    }
  }

  lemma OfferProvider(data: Catalogue, provider: string, model: string)
    ensures var c := Offer(data, provider, model); c.Some? ==> c.value.provider == provider && c.value.input >= 0.0
  {
  }

  lemma {:induction false} ChosenIsOffered(data: Catalogue, providers: seq<string>, model: string)
    ensures var c := Chosen(data, providers, model);
            && (c.Some? ==> Offered(data, providers, model, c.value))
            && (c.None? ==> forall o :: !Offered(data, providers, model, o))
  {
    if providers != [] {
      ChosenIsOffered(data, providers[..|providers| - 1], model);
      forall o ensures Offered(data, providers, model, o) <==>
                       Offered(data, providers[..|providers| - 1], model, o) || Offer(data, providers[|providers| - 1], model) == Some(o)
      {
        OfferedLast(data, providers, model, o);
      }
    }
  }

  /** In sorted order a later provider never wins on its name, so near-ties leave the choice alone. */
  lemma LaterNeverWinsTie(data: Catalogue, providers: seq<string>, model: string)
    requires Sorted(providers) && providers != []
    requires Chosen(data, providers[..|providers| - 1], model).Some?
    ensures !Less(providers[|providers| - 1], Chosen(data, providers[..|providers| - 1], model).value.provider)
  {
    var init, last := providers[..|providers| - 1], providers[|providers| - 1];
    ChosenIsOffered(data, init, model);
    var c := Chosen(data, init, model).value;
    var i :| 0 <= i < |init| && Offer(data, init[i], model) == Some(c);
    OfferProvider(data, init[i], model);
    assert Less(providers[i], last);
    LessIsStrict(last, c.provider);
  }

  /** `c` is as cheap as the policy asks, compared with offer `o`. */
  ghost predicate CheapEnough(c: Candidate, o: Candidate) {
    o.input > 0.0 ==> c.input > 0.0 && c.input < o.input + 0.000000001
  }

  lemma StepKeepsCheap(current: Candidate, next: Candidate, o: Candidate)
    requires CheapEnough(current, o) && !Less(next.provider, current.provider)
    ensures ShouldReplace(current, next) ==> CheapEnough(next, o)
    ensures CheapEnough(if ShouldReplace(current, next) then next else current, next)
  {
  }

  /**
   Cheapest non-zero offer, without drift: if any valid offer has a price, the chosen one does too, and
   costs less than each of them plus one epsilon -- however many near-ties were folded.
   */
  lemma {:induction false} ChosenIsCheapest(data: Catalogue, providers: seq<string>, model: string, o: Candidate)
    requires Sorted(providers) && Offered(data, providers, model, o)
    ensures Chosen(data, providers, model).Some? && CheapEnough(Chosen(data, providers, model).value, o)
  {
    var init, last := providers[..|providers| - 1], providers[|providers| - 1];
    var before, offer := Chosen(data, init, model), Offer(data, last, model);
    OfferedLast(data, providers, model, o);
    ChosenIsOffered(data, init, model);
    if Offered(data, init, model, o) {
      ChosenIsCheapest(data, init, model, o);
    }
    if before.Some? && offer.Some? {
      LaterNeverWinsTie(data, providers, model);
      OfferProvider(data, last, model);
      if Offered(data, init, model, o) {
        StepKeepsCheap(before.value, offer.value, o);
      } else {
        StepKeepsCheap(before.value, offer.value, before.value);
      }
    }
  }

  /** A zero price is chosen only when no valid offer has a price. */
  lemma ZeroOnlyIfAllZero(data: Catalogue, providers: seq<string>, model: string, o: Candidate)
    requires Sorted(providers) && Offered(data, providers, model, o)
    requires Chosen(data, providers, model).Some? && Chosen(data, providers, model).value.input == 0.0
    ensures o.input == 0.0
  {
    ChosenIsCheapest(data, providers, model, o);
    var i :| 0 <= i < |providers| && Offer(data, providers[i], model) == Some(o);
    OfferProvider(data, providers[i], model);
  }

  /** The bound needs the sorted order: folded backwards, near-ties walk the price up. */
  lemma UnsortedOrderDrifts()
    ensures var price := (p: real) => Cost(Some(p), None, None);
            var data := map["a" := map["m" := price(1.0 + 0.0000000012)],
                            "b" := map["m" := price(1.0 + 0.0000000006)],
                            "c" := map["m" := price(1.0)]];
            && Chosen(data, ["c", "b", "a"], "m").Some?
            && Chosen(data, ["a", "b", "c"], "m").Some?
            && Chosen(data, ["c", "b", "a"], "m").value.input > 1.0 + EPSILON
            && Chosen(data, ["a", "b", "c"], "m").value.input < 1.0 + EPSILON
  {
    var price := (p: real) => Cost(Some(p), None, None);
    var data: Catalogue := map["a" := map["m" := price(1.0 + 0.0000000012)],
                               "b" := map["m" := price(1.0 + 0.0000000006)],
                               "c" := map["m" := price(1.0)]];
    assert Less("b", "c") && Less("a", "b");
    assert ["c", "b", "a"][..2] == ["c", "b"] && ["c", "b"][..1] == ["c"] && ["c"][..0] == [];
    assert Chosen(data, ["c"], "m") == Offer(data, "c", "m");
    assert Chosen(data, ["c", "b"], "m") == Offer(data, "b", "m");
    assert Chosen(data, ["c", "b", "a"], "m") == Offer(data, "a", "m");
    assert ["a", "b", "c"][..2] == ["a", "b"] && ["a", "b"][..1] == ["a"] && ["a"][..0] == [];
    assert Chosen(data, ["a"], "m") == Offer(data, "a", "m");
    LessIsStrict("a", "b");
    assert Chosen(data, ["a", "b"], "m") == Offer(data, "a", "m");
  }

  /** The catalogue has a price for the model that can be expressed as ratios, and `c` states it. */
  ghost predicate Priced(data: Catalogue, provider: string, model: string, c: Candidate) {
    && provider in data && model in data[provider]
    && var cost := data[provider][model];
       && c.provider == provider && cost.input == Some(c.input) && c.input >= 0.0
       && c.output == cost.output && (c.output.Some? ==> c.output.value >= 0.0)
       && (c.input == 0.0 && c.output.Some? ==> c.output.value == 0.0)
       && c.cacheRead == if cost.cacheRead.Some? && cost.cacheRead.value < 0.0 then None else cost.cacheRead
  }

  /** An offer is exactly what the catalogue prices: negative prices and paid output for free input are no offers. */
  lemma OfferMeaning(data: Catalogue, provider: string, model: string, c: Candidate)
    ensures Offer(data, provider, model) == Some(c) <==> Priced(data, provider, model, c)
  {
  }

  /** So is what is chosen. */
  lemma ChosenMeaning(data: Catalogue, providers: seq<string>, model: string)
    ensures var c := Chosen(data, providers, model);
            && (c.Some? ==> c.value.provider in providers && Priced(data, c.value.provider, model, c.value))
            && (c.None? ==> forall p, o :: p in providers ==> !Priced(data, p, model, o))
  {
    var c := Chosen(data, providers, model);
    ChosenIsOffered(data, providers, model);
    if c.Some? {
      var i :| 0 <= i < |providers| && Offer(data, providers[i], model) == Some(c.value);
      OfferMeaning(data, providers[i], model, c.value);
    } else {
      forall p, o | p in providers ensures !Priced(data, p, model, o) {
        var i :| 0 <= i < |providers| && providers[i] == p;
        OfferMeaning(data, p, model, o);
        assert !Offered(data, providers, model, o);
      }
    }
  }

  /** `o` is no better than `c`: free where `c` has a price, or dearer. */
  ghost predicate NoBetter(o: Candidate, c: Candidate) {
    (o.input == 0.0 && c.input > 0.0) || (o.input > c.input > 0.0)
  }

  /** Among near-ties the first provider in order is kept: whatever comes earlier than the choice is no better. */
  lemma {:induction false} EarlierIsNoBetter(data: Catalogue, providers: seq<string>, model: string, o: Candidate)
    requires Sorted(providers) && Offered(data, providers, model, o) && Chosen(data, providers, model).Some?
    ensures var c := Chosen(data, providers, model).value; Less(o.provider, c.provider) ==> NoBetter(o, c)
  {
    var init, last := providers[..|providers| - 1], providers[|providers| - 1];
    var before, offer := Chosen(data, init, model), Offer(data, last, model);
    OfferedLast(data, providers, model, o);
    ChosenIsOffered(data, init, model);
    OfferProvider(data, last, model);
    if before.Some? {
      ChosenHasProvider(data, init, model);
      LaterNeverWinsTie(data, providers, model);
      if Offered(data, init, model, o) {
        EarlierIsNoBetter(data, init, model, o);
        ChosenIsCheapest(data, init, model, o);
        OfferedHasPrice(data, init, model, o);
        if offer.Some? && ShouldReplace(before.value, offer.value) {
          ReplacedIsNoBetter(before.value, offer.value, o);
        }
      } else {
        LessIsStrict(last, before.value.provider);
      }
    }
    LessIsStrict(last, last);
  }

  lemma OfferedHasPrice(data: Catalogue, providers: seq<string>, model: string, o: Candidate)
    requires Offered(data, providers, model, o)
    ensures o.input >= 0.0 && o.provider in providers
  {
    var i :| 0 <= i < |providers| && Offer(data, providers[i], model) == Some(o);
    OfferProvider(data, providers[i], model);
  }

  lemma ChosenHasProvider(data: Catalogue, providers: seq<string>, model: string)
    requires Chosen(data, providers, model).Some?
    ensures Chosen(data, providers, model).value.input >= 0.0
  {
    ChosenIsOffered(data, providers, model);
    OfferedHasPrice(data, providers, model, Chosen(data, providers, model).value);
  }

  /** A later provider replaces the choice only by being no worse than everything offered before. */
  lemma ReplacedIsNoBetter(current: Candidate, next: Candidate, o: Candidate)
    requires ShouldReplace(current, next) && !Less(next.provider, current.provider)
    requires current.input >= 0.0 && next.input >= 0.0 && o.input >= 0.0 && CheapEnough(current, o)
    ensures NoBetter(o, next)
  {
  }

  /** The order of `sort.Strings`: a proper prefix, or smaller at the first difference. */
  lemma {:induction false} LessMeaning(a: string, b: string)
    ensures Less(a, b) <==> exists i :: 0 <= i <= |a| && i < |b| && a[..i] == b[..i] && (i < |a| ==> a[i] < b[i])
  {
    if a != "" && b != "" && a[0] == b[0] {
      LessMeaning(a[1..], b[1..]);
      if Less(a, b) {
        var i :| 0 <= i <= |a[1..]| && i < |b[1..]| && a[1..][..i] == b[1..][..i] && (i < |a[1..]| ==> a[1..][i] < b[1..][i]);
        assert a[..i + 1] == [a[0]] + a[1..][..i] && b[..i + 1] == [b[0]] + b[1..][..i];
      }
      if exists i :: 0 <= i <= |a| && i < |b| && a[..i] == b[..i] && (i < |a| ==> a[i] < b[i]) {
        var i :| 0 <= i <= |a| && i < |b| && a[..i] == b[..i] && (i < |a| ==> a[i] < b[i]);
        assert i > 0;
        assert a[1..][..i - 1] == a[..i][1..] && b[1..][..i - 1] == b[..i][1..];
      }
    } else if a != "" && b != "" {
      assert a[..0] == b[..0];
      assert forall i :: 0 < i <= |a| && i < |b| ==> a[..i][0] != b[..i][0];
    } else {
      assert a[..0] == b[..0];
    }
  }
}
