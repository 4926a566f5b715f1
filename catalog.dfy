/** buildCatalog: the working catalog of one request, derived from the per-city base catalog
    by removing items per medical condition, diet type, allergy and the global lemon rule. */
module Catalog {
  import opened Wrappers
  import opened Text

  /** A food group split into the general list and the breakfast list. */
  datatype Pools = Pools(all: seq<string>, breakfast: seq<string>)

  /** The catalog record of one city. */
  datatype City = City(
    carbs: Pools,
    proteins: Pools,
    vegetables: seq<string>,
    fruits: seq<string>,
    snacks: seq<string>)

  /** The catalog file: cities by key, plus `common_rules.exclude_fruits_as_lemons`. */
  datatype BaseCatalog = BaseCatalog(cities: map<string, City>, excludeFruitsAsLemons: bool)

  /** The error thrown for an unknown city ("Ciudad no soportada"). */
  datatype CatalogError = UnsupportedCity

  // The regular expressions of the filter, each as the lower-case alternatives it matches.
  const DiabetesCarbs: seq<string> := ["cusc\U{fa}s"]
  const DiabetesBreakfast: seq<string> := ["tortilla de avena"]
  const Gluten: seq<string> := ["trigo", "pasta", "pan", "cusc\U{fa}s"]
  const LactoseBreakfast: seq<string> := ["yogurt", "quesillo"]
  const LactoseSnacks: seq<string> := ["yogurt"]
  const Meat: seq<string> := ["pollo", "pavo", "at\U{fa}n", "jurel"]
  const VeganProteins: seq<string> := ["pollo", "pavo", "at\U{fa}n", "jurel", "huevo", "quesillo"]
  const VeganBreakfast: seq<string> := ["huevo", "quesillo", "yogurt"]
  const Lemons: seq<string> := ["limon", "lim\U{f3}n"]

  /** `item` matches, case-insensitively, one of the lower-case patterns. */
  predicate Hits(item: string, pats: seq<string>)
    decreases |pats|
  {
    pats != [] && (Contains(Lower(item), pats[0]) || Hits(item, pats[1..]))
  }

  /** `r` is `xs` with some elements dropped and the rest in their original order. */
  predicate IsSubsequence(r: seq<string>, xs: seq<string>)
    decreases |xs|
  {
    if xs == [] then r == []
    else IsSubsequence(r, xs[1..]) || (r != [] && r[0] == xs[0] && IsSubsequence(r[1..], xs[1..]))
  }

  lemma {:induction false} SubsequenceTransitive(a: seq<string>, b: seq<string>, c: seq<string>)
    requires IsSubsequence(a, b) && IsSubsequence(b, c)
    ensures IsSubsequence(a, c)
    decreases |c|
  {
    if c != [] {
      if IsSubsequence(b, c[1..]) {
        SubsequenceTransitive(a, b, c[1..]);
      } else {
        assert b != [] && b[0] == c[0] && IsSubsequence(b[1..], c[1..]);
        if IsSubsequence(a, b[1..]) {
          SubsequenceTransitive(a, b[1..], c[1..]);
        } else {
          assert a != [] && a[0] == b[0] && IsSubsequence(a[1..], b[1..]);
          SubsequenceTransitive(a[1..], b[1..], c[1..]);
        }
      }
    }
  }

  /** `xs.filter((x) => !re.test(x))` for a regex matching any of `pats`. */
  function Exclude(xs: seq<string>, pats: seq<string>): seq<string>
    decreases |xs|
  {
    if xs == [] then []
    else if Hits(xs[0], pats) then Exclude(xs[1..], pats)
    else [xs[0]] + Exclude(xs[1..], pats)
  }

  /** The filter keeps exactly the items that match no pattern, each as often as in `xs`, in
      their original order. */
  lemma {:induction false} ExcludeKeeps(xs: seq<string>, pats: seq<string>)
    ensures IsSubsequence(Exclude(xs, pats), xs)
    ensures forall x :: x in Exclude(xs, pats) <==> x in xs && !Hits(x, pats)
    ensures forall x :: multiset(Exclude(xs, pats))[x] == if Hits(x, pats) then 0 else multiset(xs)[x]
    decreases |xs|
  {
    if xs != [] {
      ExcludeKeeps(xs[1..], pats);
      var rest := Exclude(xs[1..], pats);
      assert xs == [xs[0]] + xs[1..];
      if !Hits(xs[0], pats) {
        assert ([xs[0]] + rest)[1..] == rest;
      }
    }
  }

  /** An item occurs in a subsequence at most as often as in the whole. */
  lemma {:induction false} SubsequenceCount(r: seq<string>, xs: seq<string>, x: string)
    requires IsSubsequence(r, xs)
    ensures multiset(r)[x] <= multiset(xs)[x]
    decreases |xs|
  {
    if xs != [] {
      assert xs == [xs[0]] + xs[1..];
      if IsSubsequence(r, xs[1..]) {
        SubsequenceCount(r, xs[1..], x);
      } else {
        assert r == [r[0]] + r[1..];
        SubsequenceCount(r[1..], xs[1..], x);
      }
    }
  }

  /** `(allergies || []).map((a) => (a || "").toLowerCase())`; `None` stands for null. */
  function AllergyKeys(allergies: Option<seq<Option<string>>>): (keys: seq<string>)
    ensures allergies.None? ==> keys == []
    ensures allergies.Some? ==> |keys| == |allergies.value|
    ensures allergies.Some? ==>
      forall i :: 0 <= i < |keys| ==> keys[i] == Lower(allergies.value[i].GetOr(""))
  {
    match allergies
    case None => []
    case Some(xs) => seq(|xs|, i requires 0 <= i < |xs| => Lower(xs[i].GetOr("")))
  }

  /** `item` contains, case-insensitively, one of the allergies (a null allergy is ""). */
  predicate Allergic(item: string, allergies: Option<seq<Option<string>>>) {
    allergies.Some? &&
    exists i :: 0 <= i < |allergies.value| && Contains(Lower(item), Lower(allergies.value[i].GetOr("")))
  }

  /** The recursive pattern test agrees with "some pattern occurs". */
  lemma {:induction false} HitsIff(item: string, pats: seq<string>)
    ensures Hits(item, pats) <==> exists i :: 0 <= i < |pats| && Contains(Lower(item), pats[i])
    decreases |pats|
  {
    if pats != [] {
      HitsIff(item, pats[1..]);
      if Hits(item, pats[1..]) {
        var i :| 0 <= i < |pats[1..]| && Contains(Lower(item), pats[1..][i]);
        assert pats[i + 1] == pats[1..][i];
      }
      if exists i :: 0 <= i < |pats| && Contains(Lower(item), pats[i]) {
        var i :| 0 <= i < |pats| && Contains(Lower(item), pats[i]);
        if i > 0 {
          assert pats[1..][i - 1] == pats[i];
        }
      }
    }
  }

  lemma AllergicIsHit(item: string, allergies: Option<seq<Option<string>>>)
    ensures Allergic(item, allergies) <==> Hits(item, AllergyKeys(allergies))
  {
    var keys := AllergyKeys(allergies);
    HitsIff(item, keys);
    if Hits(item, keys) {
      var i :| 0 <= i < |keys| && Contains(Lower(item), keys[i]);
      assert Contains(Lower(item), Lower(allergies.value[i].GetOr("")));
    }
  }

  // Why an item of each list is dropped: the rules that touch that list.

  predicate DropCarb(x: string, conditions: seq<string>, allergies: Option<seq<Option<string>>>) {
    ("diabetes" in conditions && Hits(x, DiabetesCarbs)) ||
    ("celiac" in conditions && Hits(x, Gluten)) ||
    Allergic(x, allergies)
  }

  predicate DropBreakfastCarb(x: string, conditions: seq<string>, allergies: Option<seq<Option<string>>>) {
    ("diabetes" in conditions && Hits(x, DiabetesBreakfast)) ||
    ("celiac" in conditions && Hits(x, Gluten)) ||
    Allergic(x, allergies)
  }

  predicate DropProtein(x: string, dietType: string, allergies: Option<seq<Option<string>>>) {
    (dietType == "vegetarian" && Hits(x, Meat)) ||
    (dietType == "vegan" && Hits(x, VeganProteins)) ||
    Allergic(x, allergies)
  }

  predicate DropBreakfastProtein(x: string, dietType: string, conditions: seq<string>,
                                 allergies: Option<seq<Option<string>>>) {
    ("lactose" in conditions && Hits(x, LactoseBreakfast)) ||
    (dietType == "vegan" && Hits(x, VeganBreakfast)) ||
    Allergic(x, allergies)
  }

  predicate DropSnack(x: string, conditions: seq<string>, allergies: Option<seq<Option<string>>>) {
    ("lactose" in conditions && Hits(x, LactoseSnacks)) || Allergic(x, allergies)
  }

  predicate DropFruit(x: string, excludeLemons: bool, allergies: Option<seq<Option<string>>>) {
    Allergic(x, allergies) || (excludeLemons && Hits(x, Lemons))
  }

  /** `r` is `xs` minus exactly the items `drop` holds of, every other item as often as in
      `xs`, order kept. */
  ghost predicate Kept(r: seq<string>, xs: seq<string>, drop: string -> bool) {
    && IsSubsequence(r, xs)
    && (forall x :: x in r <==> x in xs && !drop(x))
    && (forall x :: multiset(r)[x] == if drop(x) then 0 else multiset(xs)[x])
  }

  /** Kept describes a single list: the filter of `xs` by `drop`, duplicates included. */
  lemma {:induction false} KeptUnique(r1: seq<string>, r2: seq<string>, xs: seq<string>, drop: string -> bool)
    requires Kept(r1, xs, drop) && Kept(r2, xs, drop)
    ensures r1 == r2
    decreases |xs|
  {
    if xs != [] {
      KeptRest(r1, xs, drop);
      KeptRest(r2, xs, drop);
      if drop(xs[0]) {
        KeptUnique(r1, r2, xs[1..], drop);
      } else {
        KeptUnique(r1[1..], r2[1..], xs[1..], drop);
        assert r1 == [r1[0]] + r1[1..] && r2 == [r2[0]] + r2[1..];
      }
    }
  }

  /** What Kept says about the tail of `xs`: a dropped head is skipped, a kept one is the head
      of `r`. */
  lemma KeptRest(r: seq<string>, xs: seq<string>, drop: string -> bool)
    requires xs != [] && Kept(r, xs, drop)
    ensures drop(xs[0]) ==> Kept(r, xs[1..], drop)
    ensures !drop(xs[0]) ==> r != [] && r[0] == xs[0] && Kept(r[1..], xs[1..], drop)
  {
    var x0 := xs[0];
    assert xs == [x0] + xs[1..];
    if drop(x0) {
      assert x0 !in r;
      assert IsSubsequence(r, xs[1..]);
      forall x ensures x in r <==> x in xs[1..] && !drop(x) {
        assert x in r ==> x in xs;
      }
    } else {
      if IsSubsequence(r, xs[1..]) {
        SubsequenceCount(r, xs[1..], x0);
        assert false;
      }
      assert r == [r[0]] + r[1..];
      forall x ensures multiset(r[1..])[x] == if drop(x) then 0 else multiset(xs[1..])[x] {
        assert multiset(r)[x] == multiset([r[0]])[x] + multiset(r[1..])[x];
      }
      forall x ensures x in r[1..] <==> x in xs[1..] && !drop(x) {
        assert x in r[1..] <==> multiset(r[1..])[x] > 0;
        assert x in xs[1..] <==> multiset(xs[1..])[x] > 0;
      }
    }
  }

  /** The working catalog `r` is the city record `c` after every rule. */
  ghost predicate Filtered(c: City, r: City, dietType: string, conditions: seq<string>,
                           allergies: Option<seq<Option<string>>>, excludeLemons: bool) {
    && Kept(r.carbs.all, c.carbs.all, x => DropCarb(x, conditions, allergies))
    && Kept(r.carbs.breakfast, c.carbs.breakfast, x => DropBreakfastCarb(x, conditions, allergies))
    && Kept(r.proteins.all, c.proteins.all, x => DropProtein(x, dietType, allergies))
    && Kept(r.proteins.breakfast, c.proteins.breakfast,
            x => DropBreakfastProtein(x, dietType, conditions, allergies))
    && Kept(r.vegetables, c.vegetables, x => Allergic(x, allergies))
    && Kept(r.fruits, c.fruits, x => DropFruit(x, excludeLemons, allergies))
    && Kept(r.snacks, c.snacks, x => DropSnack(x, conditions, allergies))
  }

  /** A filter step the source guards by an `if`. */
  function ExcludeIf(xs: seq<string>, cond: bool, pats: seq<string>): seq<string> {
    if cond then Exclude(xs, pats) else xs
  }

  lemma ExcludeIfKeeps(xs: seq<string>, cond: bool, pats: seq<string>)
    ensures IsSubsequence(ExcludeIf(xs, cond, pats), xs)
    ensures forall x :: x in ExcludeIf(xs, cond, pats) <==> x in xs && !(cond && Hits(x, pats))
    ensures forall x ::
      multiset(ExcludeIf(xs, cond, pats))[x] == if cond && Hits(x, pats) then 0 else multiset(xs)[x]
  {
    if cond { ExcludeKeeps(xs, pats); } else { SubsequenceOfSelf(xs); }
  }

  lemma {:induction false} SubsequenceOfSelf(xs: seq<string>)
    ensures IsSubsequence(xs, xs)
    decreases |xs|
  {
    if xs != [] {
      SubsequenceOfSelf(xs[1..]);
    }
  }

  /** Three filter steps in a row keep exactly the items none of them rejects, in order. */
  lemma FilterChain(xs: seq<string>, c1: bool, p1: seq<string>, c2: bool, p2: seq<string>,
                    c3: bool, p3: seq<string>)
    ensures var r := ExcludeIf(ExcludeIf(ExcludeIf(xs, c1, p1), c2, p2), c3, p3);
      && IsSubsequence(r, xs)
      && (forall x :: x in r <==> x in xs && !(c1 && Hits(x, p1)) && !(c2 && Hits(x, p2)) && !(c3 && Hits(x, p3)))
      && (forall x :: multiset(r)[x] ==
            if (c1 && Hits(x, p1)) || (c2 && Hits(x, p2)) || (c3 && Hits(x, p3)) then 0 else multiset(xs)[x])
  {
    var r1 := ExcludeIf(xs, c1, p1);
    var r2 := ExcludeIf(r1, c2, p2);
    ExcludeIfKeeps(xs, c1, p1);
    ExcludeIfKeeps(r1, c2, p2);
    ExcludeIfKeeps(r2, c3, p3);
    SubsequenceTransitive(r2, r1, xs);
    SubsequenceTransitive(ExcludeIf(r2, c3, p3), r2, xs);
  }

  /** The chain of three steps keeps exactly what `drop` spares when `drop` is their union. */
  lemma ChainKept(xs: seq<string>, c1: bool, p1: seq<string>, c2: bool, p2: seq<string>,
                  c3: bool, p3: seq<string>, drop: string -> bool)
    requires forall x :: drop(x) <==> (c1 && Hits(x, p1)) || (c2 && Hits(x, p2)) || (c3 && Hits(x, p3))
    ensures Kept(ExcludeIf(ExcludeIf(ExcludeIf(xs, c1, p1), c2, p2), c3, p3), xs, drop)
  {
    FilterChain(xs, c1, p1, c2, p2, c3, p3);
  }

  // The rules of buildCatalog applied to each list of a city record, in the source's order.

  function CarbsAll(xs: seq<string>, conditions: seq<string>, keys: seq<string>): seq<string> {
    ExcludeIf(ExcludeIf(ExcludeIf(xs, "diabetes" in conditions, DiabetesCarbs), "celiac" in conditions, Gluten), true, keys)
  }

  function CarbsBreakfast(xs: seq<string>, conditions: seq<string>, keys: seq<string>): seq<string> {
    ExcludeIf(ExcludeIf(ExcludeIf(xs, "diabetes" in conditions, DiabetesBreakfast), "celiac" in conditions, Gluten),
              true, keys)
  }

  function ProteinsAll(xs: seq<string>, dietType: string, keys: seq<string>): seq<string> {
    ExcludeIf(ExcludeIf(ExcludeIf(xs, dietType == "vegetarian", Meat), dietType == "vegan", VeganProteins), true, keys)
  }

  function ProteinsBreakfast(xs: seq<string>, dietType: string, conditions: seq<string>, keys: seq<string>): seq<string> {
    ExcludeIf(ExcludeIf(ExcludeIf(xs, "lactose" in conditions, LactoseBreakfast), dietType == "vegan", VeganBreakfast),
              true, keys)
  }

  function Vegetables(xs: seq<string>, keys: seq<string>): seq<string> {
    ExcludeIf(ExcludeIf(ExcludeIf(xs, false, []), false, []), true, keys)
  }

  function Fruits(xs: seq<string>, keys: seq<string>, excludeLemons: bool): seq<string> {
    ExcludeIf(ExcludeIf(ExcludeIf(xs, false, []), true, keys), excludeLemons, Lemons)
  }

  function Snacks(xs: seq<string>, conditions: seq<string>, keys: seq<string>): seq<string> {
    ExcludeIf(ExcludeIf(ExcludeIf(xs, false, []), "lactose" in conditions, LactoseSnacks), true, keys)
  }

  ghost function ApplyRules(c: City, dietType: string, conditions: seq<string>,
                            allergies: Option<seq<Option<string>>>, excludeLemons: bool): City
  {
    var keys := AllergyKeys(allergies);
    City(
      Pools(CarbsAll(c.carbs.all, conditions, keys), CarbsBreakfast(c.carbs.breakfast, conditions, keys)),
      Pools(ProteinsAll(c.proteins.all, dietType, keys),
            ProteinsBreakfast(c.proteins.breakfast, dietType, conditions, keys)),
      Vegetables(c.vegetables, keys),
      Fruits(c.fruits, keys, excludeLemons),
      Snacks(c.snacks, conditions, keys))
  }

  lemma AllergicIsHitEverywhere(allergies: Option<seq<Option<string>>>)
    ensures forall x :: Allergic(x, allergies) <==> Hits(x, AllergyKeys(allergies))
  {
    forall x ensures Allergic(x, allergies) <==> Hits(x, AllergyKeys(allergies)) {
      AllergicIsHit(x, allergies);
    }
  }

  lemma ApplyRulesFilters(c: City, dietType: string, conditions: seq<string>,
                          allergies: Option<seq<Option<string>>>, excludeLemons: bool)
    ensures Filtered(c, ApplyRules(c, dietType, conditions, allergies, excludeLemons),
                     dietType, conditions, allergies, excludeLemons)
  {
    var keys := AllergyKeys(allergies);
    AllergicIsHitEverywhere(allergies);
    var r := ApplyRules(c, dietType, conditions, allergies, excludeLemons);
    ChainKept(c.carbs.all, "diabetes" in conditions, DiabetesCarbs, "celiac" in conditions, Gluten, true, keys,
              x => DropCarb(x, conditions, allergies));
    ChainKept(c.carbs.breakfast, "diabetes" in conditions, DiabetesBreakfast, "celiac" in conditions, Gluten,
              true, keys, x => DropBreakfastCarb(x, conditions, allergies));
    ChainKept(c.proteins.all, dietType == "vegetarian", Meat, dietType == "vegan", VeganProteins, true, keys,
              x => DropProtein(x, dietType, allergies));
    ChainKept(c.proteins.breakfast, "lactose" in conditions, LactoseBreakfast, dietType == "vegan",
              VeganBreakfast, true, keys, x => DropBreakfastProtein(x, dietType, conditions, allergies));
    ChainKept(c.vegetables, false, [], false, [], true, keys, x => Allergic(x, allergies));
    ChainKept(c.fruits, false, [], true, keys, excludeLemons, Lemons, x => DropFruit(x, excludeLemons, allergies));
    ChainKept(c.snacks, false, [], "lactose" in conditions, LactoseSnacks, true, keys,
              x => DropSnack(x, conditions, allergies));
  }

  /** buildCatalog: fails exactly for an unknown city; otherwise every list of the result is
      its base list with exactly the items the rules reject removed, order preserved. */
  method BuildCatalog(base: BaseCatalog, cityKey: string, dietType: string, conditions: seq<string>,
                      allergies: Option<seq<Option<string>>>)
    returns (result: Result<City, CatalogError>)
    ensures result.Failure? <==> cityKey !in base.cities
    ensures result.Failure? ==> result.error == UnsupportedCity
    ensures result.Success? ==>
      Filtered(base.cities[cityKey], result.value, dietType, conditions, allergies, base.excludeFruitsAsLemons)
  {
    if cityKey !in base.cities {
      return Failure(UnsupportedCity);
    }
    var city := base.cities[cityKey];
    var clone := city;
    var diabetes, celiac, lactose := "diabetes" in conditions, "celiac" in conditions, "lactose" in conditions;
    var vegetarian, vegan := dietType == "vegetarian", dietType == "vegan";

    // Each guarded `clone.x = clone.x.filter(...)` of the source is one ExcludeIf step.
    clone := clone.(carbs := Pools(ExcludeIf(clone.carbs.all, diabetes, DiabetesCarbs),
                                   ExcludeIf(clone.carbs.breakfast, diabetes, DiabetesBreakfast)));
    clone := clone.(carbs := Pools(ExcludeIf(clone.carbs.all, celiac, Gluten),
                                   ExcludeIf(clone.carbs.breakfast, celiac, Gluten)));
    clone := clone.(proteins := clone.proteins.(breakfast := ExcludeIf(clone.proteins.breakfast, lactose, LactoseBreakfast)),
                    snacks := ExcludeIf(clone.snacks, lactose, LactoseSnacks));
    // `if vegetarian ... else if vegan ...`: the two diet types exclude each other.
    clone := clone.(proteins := clone.proteins.(all := ExcludeIf(clone.proteins.all, vegetarian, Meat)));
    clone := clone.(proteins := Pools(ExcludeIf(clone.proteins.all, vegan, VeganProteins),
                                      ExcludeIf(clone.proteins.breakfast, vegan, VeganBreakfast)));

    var keys := AllergyKeys(allergies);
    clone := clone.(vegetables := Exclude(clone.vegetables, keys),
                    fruits := Exclude(clone.fruits, keys),
                    snacks := Exclude(clone.snacks, keys));
    clone := clone.(carbs := Pools(Exclude(clone.carbs.all, keys), Exclude(clone.carbs.breakfast, keys)));
    clone := clone.(proteins := Pools(Exclude(clone.proteins.all, keys), Exclude(clone.proteins.breakfast, keys)));

    clone := clone.(fruits := ExcludeIf(clone.fruits, base.excludeFruitsAsLemons, Lemons));

    assert clone.carbs.all == CarbsAll(city.carbs.all, conditions, keys);
    assert clone.carbs.breakfast == CarbsBreakfast(city.carbs.breakfast, conditions, keys);
    assert clone.proteins.all == ProteinsAll(city.proteins.all, dietType, keys);
    assert clone.proteins.breakfast == ProteinsBreakfast(city.proteins.breakfast, dietType, conditions, keys);
    assert clone.vegetables == Vegetables(city.vegetables, keys);
    assert clone.fruits == Fruits(city.fruits, keys, base.excludeFruitsAsLemons);
    assert clone.snacks == Snacks(city.snacks, conditions, keys);
    assert clone == ApplyRules(city, dietType, conditions, allergies, base.excludeFruitsAsLemons);
    ApplyRulesFilters(city, dietType, conditions, allergies, base.excludeFruitsAsLemons);
    return Success(clone);
  }

  // Consequences of the filter contract, stated per rule.

  /** With the celiac condition, no carbohydrate left mentions trigo, pasta, pan or cuscús. */
  lemma CeliacRemovesGluten(c: City, r: City, dietType: string, conditions: seq<string>,
                            allergies: Option<seq<Option<string>>>, excludeLemons: bool)
    requires Filtered(c, r, dietType, conditions, allergies, excludeLemons)
    requires "celiac" in conditions
    ensures forall x, i :: x in r.carbs.all + r.carbs.breakfast && 0 <= i < |Gluten| ==>
      !Contains(Lower(x), Gluten[i])
  {
    forall x, i | x in r.carbs.all + r.carbs.breakfast && 0 <= i < |Gluten|
      ensures !Contains(Lower(x), Gluten[i])
    {
      HitsIff(x, Gluten);
      if x in r.carbs.all {
        assert !DropCarb(x, conditions, allergies);
      } else {
        assert !DropBreakfastCarb(x, conditions, allergies);
      }
    }
  }

  /** With the vegan diet, no general protein mentions pollo, pavo, atún, jurel, huevo or quesillo,
      and no breakfast protein mentions huevo, quesillo or yogurt. */
  lemma VeganRemovesAnimalProducts(c: City, r: City, conditions: seq<string>,
                                   allergies: Option<seq<Option<string>>>, excludeLemons: bool)
    requires Filtered(c, r, "vegan", conditions, allergies, excludeLemons)
    ensures forall x, i :: x in r.proteins.all && 0 <= i < |VeganProteins| ==>
      !Contains(Lower(x), VeganProteins[i])
    ensures forall x, i :: x in r.proteins.breakfast && 0 <= i < |VeganBreakfast| ==>
      !Contains(Lower(x), VeganBreakfast[i])
  {
    forall x | x in r.proteins.all ensures !Hits(x, VeganProteins) {
      assert !DropProtein(x, "vegan", allergies);
    }
    forall x | x in r.proteins.breakfast ensures !Hits(x, VeganBreakfast) {
      assert !DropBreakfastProtein(x, "vegan", conditions, allergies);
    }
    forall x | true ensures Hits(x, VeganProteins) <==> exists i :: 0 <= i < |VeganProteins| && Contains(Lower(x), VeganProteins[i]) {
      HitsIff(x, VeganProteins);
    }
    forall x | true ensures Hits(x, VeganBreakfast) <==> exists i :: 0 <= i < |VeganBreakfast| && Contains(Lower(x), VeganBreakfast[i]) {
      HitsIff(x, VeganBreakfast);
    }
  }

  /** Every list that has the allergy filter: all of them. */
  function AllItems(r: City): seq<string> {
    r.carbs.all + r.carbs.breakfast + r.proteins.all + r.proteins.breakfast + r.vegetables + r.fruits + r.snacks
  }

  /** No item left anywhere contains, case-insensitively, any allergy (null counts as ""). */
  lemma AllergiesRemoved(c: City, r: City, dietType: string, conditions: seq<string>,
                         allergies: Option<seq<Option<string>>>, excludeLemons: bool)
    requires Filtered(c, r, dietType, conditions, allergies, excludeLemons)
    ensures allergies.Some? ==> forall x, i :: x in AllItems(r) && 0 <= i < |allergies.value| ==>
      !Contains(Lower(x), Lower(allergies.value[i].GetOr("")))
  {
    forall x | x in AllItems(r) ensures !Allergic(x, allergies) {
      if x in r.carbs.all {
        assert !DropCarb(x, conditions, allergies);
      } else if x in r.carbs.breakfast {
        assert !DropBreakfastCarb(x, conditions, allergies);
      } else if x in r.proteins.all {
        assert !DropProtein(x, dietType, allergies);
      } else if x in r.proteins.breakfast {
        assert !DropBreakfastProtein(x, dietType, conditions, allergies);
      } else if x in r.vegetables {
        assert !Allergic(x, allergies);
      } else if x in r.fruits {
        assert !DropFruit(x, excludeLemons, allergies);
      } else {
        assert x in r.snacks;
        assert !DropSnack(x, conditions, allergies);
      }
    }
  }

  /** A null or empty allergy is contained in every name, so it empties every list. */
  lemma EmptyAllergyEmptiesCatalog(c: City, r: City, dietType: string, conditions: seq<string>,
                                   allergies: Option<seq<Option<string>>>, excludeLemons: bool, k: nat)
    requires Filtered(c, r, dietType, conditions, allergies, excludeLemons)
    requires allergies.Some? && k < |allergies.value| && allergies.value[k].GetOr("") == ""
    ensures AllItems(r) == []
  {
    AllergiesRemoved(c, r, dietType, conditions, allergies, excludeLemons);
    if AllItems(r) != [] {
      var x := AllItems(r)[0];
      assert Lower(allergies.value[k].GetOr("")) == "";
      EmptyIsEverywhere(Lower(x));
      assert false;
    }
  }
}
