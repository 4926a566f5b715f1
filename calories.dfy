/** computeCalorieDistribution: each selected meal gets a share of the day's calories inside
    its band, taken in the caller's order from what is still unallocated; what is left is the
    flexible margin, and a margin above 10% goes to lunch and dinner. Proportions are `real`. */
module Calories {
  import opened Wrappers

  /** The share of the day's calories a meal may take. */
  datatype Band = Band(lo: real, hi: real)

  const MaxFlex: real := 0.10

  /** The band table. */
  function BandOf(meal: string): (b: Option<Band>)
    ensures b.Some? <==> meal in {"breakfast", "lunch", "dinner", "firstSnack", "secondSnack"}
    ensures b.Some? ==> 0.0 <= b.value.lo <= b.value.hi && b.value.hi - b.value.lo <= 0.10
  {
    if meal == "breakfast" then Some(Band(0.20, 0.25))
    else if meal == "lunch" then Some(Band(0.30, 0.40))
    else if meal == "dinner" then Some(Band(0.20, 0.30))
    else if meal == "firstSnack" then Some(Band(0.05, 0.10))
    else if meal == "secondSnack" then Some(Band(0.00, 0.10))
    else None
  }

  predicate Known(meal: string) {
    BandOf(meal).Some?
  }

  function Min(a: real, b: real): real {
    if a <= b then a else b
  }

  function Max(a: real, b: real): real {
    if a >= b then a else b
  }

  function Mid(b: Band): real {
    (b.lo + b.hi) / 2.0
  }

  /** The share one meal gets when `remaining` is unallocated: the midpoint of
      [lo, min(hi, remaining)], and lo itself when that interval is empty. */
  function Portion(b: Band, remaining: real): (p: real)
    requires b.lo <= b.hi
    ensures b.lo <= p <= b.hi
    ensures remaining >= b.hi ==> p == Mid(b)
    ensures b.lo <= remaining ==> p <= remaining
  {
    var maxPossible := Min(b.hi, remaining);
    Max(b.lo, Min(maxPossible, (b.lo + maxPossible) / 2.0))
  }

  /** The state of the loop: the shares so far and what is still unallocated. */
  datatype Allocation = Allocation(adjusted: map<string, real>, remaining: real)

  /** The result: the shares and the flexible margin. */
  datatype Distribution = Distribution(adjusted: map<string, real>, flex: real)

  /** One pass of the loop; a meal without a band is skipped. */
  function Step(a: Allocation, meal: string): Allocation {
    match BandOf(meal)
    case None => a
    case Some(b) =>
      var p := Portion(b, a.remaining);
      Allocation(a.adjusted[meal := p], a.remaining - p)
  }

  /** The loop over `selected`, in order. */
  function Allocate(selected: seq<string>): Allocation
    decreases |selected|
  {
    if selected == [] then Allocation(map[], 1.0)
    else Step(Allocate(selected[..|selected| - 1]), selected[|selected| - 1])
  }

  /** Those of lunch and dinner that have a share, in that order. */
  function Targets(adjusted: map<string, real>): (ts: seq<string>)
    ensures forall t :: t in ts <==> t in adjusted && t in {"lunch", "dinner"}
    ensures |ts| <= 2 && (|ts| == 2 ==> ts[0] != ts[1])
  {
    (if "lunch" in adjusted then ["lunch"] else []) + (if "dinner" in adjusted then ["dinner"] else [])
  }

  /** `targets.forEach(t => adjusted[t] += per)`. */
  function AddEach(adjusted: map<string, real>, ts: seq<string>, per: real): (r: map<string, real>)
    requires forall t :: t in ts ==> t in adjusted
    ensures r.Keys == adjusted.Keys
    decreases |ts|
  {
    if ts == [] then adjusted
    else AddEach(adjusted[ts[0] := adjusted[ts[0]] + per], ts[1..], per)
  }

  /** After the loop: the margin is what is left (never negative); a margin above 10% is cut
      to 10% and the excess split evenly over the targets, if there are any. */
  function Finish(a: Allocation): Distribution {
    var flex := Max(0.0, a.remaining);
    var ts := Targets(a.adjusted);
    if flex > MaxFlex && ts != [] then
      Distribution(AddEach(a.adjusted, ts, (flex - MaxFlex) / |ts| as real), MaxFlex)
    else Distribution(a.adjusted, flex)
  }

  /** What computeCalorieDistribution returns; the calorie total is not an input. */
  function CalorieDistribution(selected: seq<string>): Distribution {
    Finish(Allocate(selected))
  }

  /** computeCalorieDistribution(calories, selectedMeals). */
  method ComputeCalorieDistribution(calories: real, selectedMeals: seq<string>) returns (result: Distribution)
    ensures result == CalorieDistribution(selectedMeals)
  {
    var adjusted, remaining := AllocateMeals(selectedMeals);
    result := Redistribute(adjusted, remaining);
  }

  /** The `forEach` over the selected meals. */
  method AllocateMeals(selectedMeals: seq<string>) returns (adjusted: map<string, real>, remaining: real)
    ensures Allocation(adjusted, remaining) == Allocate(selectedMeals)
  {
    adjusted, remaining := map[], 1.0;
    for i := 0 to |selectedMeals|
      invariant Allocation(adjusted, remaining) == Allocate(selectedMeals[..i])
    {
      var meal := selectedMeals[i];
      assert selectedMeals[..i + 1][..i] == selectedMeals[..i];
      var band := BandOf(meal);
      if band.Some? {
        var prop := Portion(band.value, remaining);
        adjusted := adjusted[meal := prop];
        remaining := remaining - prop;
      }
    }
    assert selectedMeals[..|selectedMeals|] == selectedMeals;
  }

  /** The margin and its redistribution. */
  method Redistribute(adjusted: map<string, real>, remaining: real) returns (result: Distribution)
    ensures result == Finish(Allocation(adjusted, remaining))
  {
    var flex := Max(0.0, remaining);
    if flex > MaxFlex {
      var extra := flex - MaxFlex;
      var targets := Targets(adjusted);
      if |targets| > 0 {
        var per := extra / |targets| as real;
        var raised := AddToTargets(adjusted, targets, per);
        return Distribution(raised, MaxFlex);
      }
    }
    return Distribution(adjusted, flex);
  }

  /** `targets.forEach(t => adjusted[t] += per)`, updating the shares in place. */
  method AddToTargets(adjusted0: map<string, real>, targets: seq<string>, per: real)
    returns (adjusted: map<string, real>)
    requires forall t :: t in targets ==> t in adjusted0
    ensures adjusted == AddEach(adjusted0, targets, per)
  {
    adjusted := adjusted0;
    for k := 0 to |targets|
      invariant adjusted.Keys == adjusted0.Keys
      invariant AddEach(adjusted, targets[k..], per) == AddEach(adjusted0, targets, per)
    {
      var t := targets[k];
      assert targets[k..][1..] == targets[k + 1..];
      adjusted := adjusted[t := adjusted[t] + per];
    }
  }

  // ---------------------------------------------------------------- properties of the loop

  /** The meals of `s` that have a band, in order. */
  function KnownOnly(s: seq<string>): (r: seq<string>)
    decreases |s|
  {
    if s == [] then []
    else if Known(s[|s| - 1]) then KnownOnly(s[..|s| - 1]) + [s[|s| - 1]]
    else KnownOnly(s[..|s| - 1])
  }

  /** A meal without a band neither gets an entry nor changes `remaining`. */
  lemma {:induction false} AllocateIgnoresUnknown(s: seq<string>)
    ensures Allocate(s) == Allocate(KnownOnly(s))
    decreases |s|
  {
    if s != [] {
      var p, m := s[..|s| - 1], s[|s| - 1];
      AllocateIgnoresUnknown(p);
      if Known(m) {
        var k := KnownOnly(p) + [m];
        assert k[..|k| - 1] == KnownOnly(p);
      }
    }
  }

  /** The meals with an entry are exactly the selected meals that have a band. */
  lemma {:induction false} AllocateKeys(s: seq<string>)
    ensures forall m :: m in Allocate(s).adjusted <==> m in s && Known(m)
    decreases |s|
  {
    if s != [] {
      var p := s[..|s| - 1];
      AllocateKeys(p);
      assert s == p + [s[|s| - 1]];
    }
  }

  /** Every share lies in its meal's band. */
  lemma {:induction false} AllocateInBands(s: seq<string>)
    ensures forall m :: m in Allocate(s).adjusted ==>
      Known(m) && BandOf(m).value.lo <= Allocate(s).adjusted[m] <= BandOf(m).value.hi
    decreases |s|
  {
    if s != [] {
      AllocateInBands(s[..|s| - 1]);
    }
  }

  predicate Distinct(s: seq<string>) {
    forall i, j :: 0 <= i < j < |s| ==> s[i] != s[j]
  }

  /** The sum of the shares of the meals named in `names`. */
  function Total(adjusted: map<string, real>, names: seq<string>): real
    decreases |names|
  {
    if names == [] then 0.0
    else
      var m := names[|names| - 1];
      Total(adjusted, names[..|names| - 1]) + (if m in adjusted then adjusted[m] else 0.0)
  }

  /** The sum of the midpoints of the bands of the meals of `s`, counting each meal once. */
  function MidsOf(s: seq<string>): real {
    (if "breakfast" in s then 0.225 else 0.0) + (if "lunch" in s then 0.35 else 0.0) +
    (if "dinner" in s then 0.25 else 0.0) + (if "firstSnack" in s then 0.075 else 0.0) +
    (if "secondSnack" in s then 0.05 else 0.0)
  }

  lemma {:induction false} TotalFrame(adjusted: map<string, real>, names: seq<string>, m: string, v: real)
    requires m !in names
    ensures Total(adjusted[m := v], names) == Total(adjusted, names)
    decreases |names|
  {
    if names != [] {
      TotalFrame(adjusted, names[..|names| - 1], m, v);
    }
  }

  /** Adding a meal not yet selected adds its midpoint; all five midpoints add up to 95%. */
  lemma MidsAppend(p: seq<string>, m: string)
    requires m !in p
    ensures MidsOf(p + [m]) == MidsOf(p) + (if Known(m) then Mid(BandOf(m).value) else 0.0)
    ensures MidsOf(p + [m]) <= 0.95
  {
    var s := p + [m];
    assert forall x :: x in s <==> x in p || x == m;
  }

  /** With distinct meals the remaining share never drops below a band's top, so every meal
      gets exactly its midpoint and at least 5% is left. */
  lemma {:induction false} AllocateDistinct(s: seq<string>)
    requires Distinct(s)
    ensures forall m :: m in Allocate(s).adjusted ==> Known(m) && Allocate(s).adjusted[m] == Mid(BandOf(m).value)
    ensures Allocate(s).remaining == 1.0 - MidsOf(s)
    ensures Allocate(s).remaining >= 0.05
    decreases |s|
  {
    if s == [] {
      assert MidsOf(s) == 0.0;
    } else {
      var p, m := s[..|s| - 1], s[|s| - 1];
      assert Distinct(p);
      assert m !in p;
      assert s == p + [m];
      AllocateDistinct(p);
      MidsAppend(p, m);
      var a := Allocate(p);
      if Known(m) {
        var b := BandOf(m).value;
        assert a.remaining >= b.hi;
        assert Portion(b, a.remaining) == Mid(b);
      }
    }
  }

  /** For distinct meals the shares and `remaining` add up to exactly 1. */
  lemma {:induction false} AllocateBalanced(s: seq<string>)
    requires Distinct(s)
    ensures Total(Allocate(s).adjusted, s) + Allocate(s).remaining == 1.0
    decreases |s|
  {
    if s != [] {
      var p, m := s[..|s| - 1], s[|s| - 1];
      assert Distinct(p);
      assert m !in p;
      AllocateBalanced(p);
      AllocateKeys(p);
      var a := Allocate(p);
      if Known(m) {
        TotalFrame(a.adjusted, p, m, Portion(BandOf(m).value, a.remaining));
      }
    }
  }

  // ---------------------------------------------------------------- properties of the redistribution

  lemma {:induction false} AddEachValues(adjusted: map<string, real>, ts: seq<string>, per: real)
    requires forall t :: t in ts ==> t in adjusted
    requires forall i, j :: 0 <= i < j < |ts| ==> ts[i] != ts[j]
    ensures forall m :: m in adjusted ==>
      AddEach(adjusted, ts, per)[m] == adjusted[m] + (if m in ts then per else 0.0)
    decreases |ts|
  {
    if ts != [] {
      var adj' := adjusted[ts[0] := adjusted[ts[0]] + per];
      AddEachValues(adj', ts[1..], per);
      assert ts[0] !in ts[1..];
      forall m | m in adjusted
        ensures AddEach(adjusted, ts, per)[m] == adjusted[m] + (if m in ts then per else 0.0)
      {
        assert m in ts <==> m == ts[0] || m in ts[1..];
      }
    }
  }

  /** A margin above 10% with lunch or dinner selected: each of them gains an equal part of the
      excess, every other share is unchanged, and the margin becomes exactly 10%. */
  lemma FinishRedistributes(a: Allocation)
    requires Max(0.0, a.remaining) > MaxFlex && ("lunch" in a.adjusted || "dinner" in a.adjusted)
    ensures Finish(a).flex == MaxFlex
    ensures Finish(a).adjusted.Keys == a.adjusted.Keys
    ensures forall m :: m in a.adjusted ==>
      Finish(a).adjusted[m] == a.adjusted[m] +
        (if m in Targets(a.adjusted) then (a.remaining - MaxFlex) / |Targets(a.adjusted)| as real else 0.0)
  {
    var ts := Targets(a.adjusted);
    AddEachValues(a.adjusted, ts, (Max(0.0, a.remaining) - MaxFlex) / |ts| as real);
  }

  /** A margin of at most 10%, or no lunch and no dinner: the shares are returned as allocated. */
  lemma FinishKeeps(a: Allocation)
    requires Max(0.0, a.remaining) <= MaxFlex || ("lunch" !in a.adjusted && "dinner" !in a.adjusted)
    ensures Finish(a) == Distribution(a.adjusted, Max(0.0, a.remaining))
    ensures Finish(a).flex >= 0.0
  {
    assert Targets(a.adjusted) == [] || Max(0.0, a.remaining) <= MaxFlex;
  }

  lemma {:induction false} TotalBump(adjusted: map<string, real>, names: seq<string>, k: string, v: real)
    requires Distinct(names) && k in names && k in adjusted
    ensures Total(adjusted[k := adjusted[k] + v], names) == Total(adjusted, names) + v
    decreases |names|
  {
    var p := names[..|names| - 1];
    assert Distinct(p);
    if names[|names| - 1] == k {
      assert k !in p;
      TotalFrame(adjusted, p, k, adjusted[k] + v);
    } else {
      assert names == p + [names[|names| - 1]];
      TotalBump(adjusted, p, k, v);
    }
  }

  /** Adding `per` to each of at most two distinct targets adds `per` per target to the total
      over distinct names. */
  lemma TotalAddEach(adjusted: map<string, real>, names: seq<string>, ts: seq<string>, per: real)
    requires Distinct(names)
    requires forall t :: t in ts ==> t in adjusted && t in names
    requires |ts| <= 2 && (|ts| == 2 ==> ts[0] != ts[1])
    ensures Total(AddEach(adjusted, ts, per), names) ==
      Total(adjusted, names) + (if |ts| == 2 then 2.0 * per else if |ts| == 1 then per else 0.0)
  {
    if ts != [] {
      var once := adjusted[ts[0] := adjusted[ts[0]] + per];
      TotalBump(adjusted, names, ts[0], per);
      if |ts| == 2 {
        TotalBump(once, names, ts[1], per);
        assert ts[1..][1..] == [];
      }
    }
  }

  /** Splitting `extra` over one or two targets. */
  lemma SplitEvenly(extra: real, k: nat)
    requires k == 1 || k == 2
    ensures extra / k as real == if k == 1 then extra else extra / 2.0
  {
  }

  /** Redistribution moves the excess from the margin into the shares of the targets. */
  lemma FinishBalanced(a: Allocation, names: seq<string>)
    requires Distinct(names) && a.remaining >= 0.0
    requires forall t :: t in a.adjusted ==> t in names
    ensures Total(Finish(a).adjusted, names) + Finish(a).flex == Total(a.adjusted, names) + a.remaining
  {
    var ts := Targets(a.adjusted);
    if a.remaining > MaxFlex && ts != [] {
      var extra := a.remaining - MaxFlex;
      var per := extra / |ts| as real;
      assert Finish(a) == Distribution(AddEach(a.adjusted, ts, per), MaxFlex);
      TotalAddEach(a.adjusted, names, ts, per);
      SplitEvenly(extra, |ts|);
      if |ts| == 2 {
        assert 2.0 * per == extra;
      }
    } else {
      assert Finish(a) == Distribution(a.adjusted, a.remaining);
    }
  }

  /** For distinct meals the shares and the margin add up to exactly 1 after redistribution too,
      and the margin is at least 5%. */
  lemma DistributionBalanced(s: seq<string>)
    requires Distinct(s)
    ensures Total(CalorieDistribution(s).adjusted, s) + CalorieDistribution(s).flex == 1.0
    ensures CalorieDistribution(s).flex >= 0.05
  {
    AllocateDistinct(s);
    AllocateBalanced(s);
    AllocateKeys(s);
    FinishBalanced(Allocate(s), s);
  }

  /** Without lunch and dinner the excess stays in the margin: for distinct meals at least 65%
      is left, so the margin stays above 10% and the shares are the allocated midpoints. */
  lemma NoMainMealKeepsMargin(s: seq<string>)
    requires Distinct(s) && "lunch" !in s && "dinner" !in s
    ensures CalorieDistribution(s).adjusted == Allocate(s).adjusted
    ensures CalorieDistribution(s).flex == Allocate(s).remaining >= 0.65
    ensures CalorieDistribution(s).flex > MaxFlex
  {
    AllocateDistinct(s);
    AllocateKeys(s);
    FinishKeeps(Allocate(s));
  }

  /** Breakfast, lunch and dinner: 22.5%, 35% and 25% leave 17.5%, and the 7.5% above the margin
      is split over lunch and dinner. */
  lemma ThreeMealsExample()
    ensures CalorieDistribution(["breakfast", "lunch", "dinner"]) ==
      Distribution(map["breakfast" := 0.225, "lunch" := 0.3875, "dinner" := 0.2875], 0.10)
  {
    var s := ["breakfast", "lunch", "dinner"];
    assert s[..2] == ["breakfast", "lunch"] && s[..2][..1] == ["breakfast"] && s[..2][..1][..0] == [];
    var a1 := Allocate(["breakfast"]);
    assert a1 == Allocation(map["breakfast" := 0.225], 0.775);
    var a2 := Allocate(["breakfast", "lunch"]);
    assert a2 == Allocation(map["breakfast" := 0.225, "lunch" := 0.35], 0.425);
    var a3 := Allocate(s);
    assert a3 == Allocation(map["breakfast" := 0.225, "lunch" := 0.35, "dinner" := 0.25], 0.175);
    assert Targets(a3.adjusted) == ["lunch", "dinner"];
  }

  /** Redistribution can push a share above its band: lunch alone ends at 90%. */
  lemma LunchAloneExceedsBand()
    ensures CalorieDistribution(["lunch"]).adjusted["lunch"] == 0.90
    ensures CalorieDistribution(["lunch"]).adjusted["lunch"] > BandOf("lunch").value.hi
  {
    var s := ["lunch"];
    assert s[..0] == [];
    assert Allocate(s) == Allocation(map["lunch" := 0.35], 0.65);
  }
}
