/** mealSignature and generatePlan: a plan of `days` days, each mapping every requested meal
    to a selection drawn at random from the working catalog. A draw is accepted only if the
    same meal did not have the same signature in any of the last seven days and its signature
    has been accepted fewer than three times so far; after 200 rejected draws a fixed fallback
    is used. Math.random is the stream `rand`, read at an increasing cursor. */
module Plan {
  import opened Wrappers
  import opened Text
  import opened Catalog
  import Shuffle

  /** What a meal gets: a snack, or the four optional components of a main meal. */
  datatype Selection =
    | Snack(snack: string)
    | Main(carb: Option<string>, protein: Option<string>, veg: Option<string>, fruit: Option<string>)

  /** One day of the plan: meal name to selection. */
  type Day = map<string, Selection>

  /** The response: the day plans and the working catalog they were drawn from. */
  datatype PlanResult = PlanResult(plans: seq<Day>, catalogUsed: City)

  predicate IsBreakfast(meal: string) {
    meal == "breakfast"
  }

  predicate IsSnack(meal: string) {
    meal == "firstSnack" || meal == "secondSnack"
  }

  // ---------------------------------------------------------------- signatures

  /** The six parts of a signature; a missing component is "". */
  function Parts(meal: string, sel: Selection): (ps: seq<string>)
    ensures |ps| == 6 && ps[0] == meal
  {
    match sel
    case Snack(s) => [meal, "", "", "", "", s]
    case Main(c, p, v, f) => [meal, c.GetOr(""), p.GetOr(""), v.GetOr(""), f.GetOr(""), ""]
  }

  /** Array.prototype.join with the separator "|". */
  function Join(ps: seq<string>): string
    decreases |ps|
  {
    if ps == [] then "" else if |ps| == 1 then ps[0] else ps[0] + "|" + Join(ps[1..])
  }

  /** mealSignature: the parts joined by "|", lower-cased. */
  function Signature(meal: string, sel: Selection): string {
    Lower(Join(Parts(meal, sel)))
  }

  /** A signature has no upper-case letter. */
  lemma SignatureIsLower(meal: string, sel: Selection)
    ensures NoUpper(Signature(meal, sel))
  {
    LowerHasNoUpper(Join(Parts(meal, sel)));
  }

  predicate BarFree(s: string) {
    '|' !in s
  }

  /** Every part of the signature is free of the separator. */
  predicate Separable(meal: string, sel: Selection) {
    forall i :: 0 <= i < 6 ==> BarFree(Parts(meal, sel)[i])
  }

  lemma {:induction false} LowerAppend(a: string, b: string)
    ensures Lower(a + b) == Lower(a) + Lower(b)
  {
    assert |Lower(a + b)| == |Lower(a) + Lower(b)|;
    forall i | 0 <= i < |a + b| ensures Lower(a + b)[i] == (Lower(a) + Lower(b))[i] {
      if i < |a| {
        assert (a + b)[i] == a[i];
      } else {
        assert (a + b)[i] == b[i - |a|];
      }
    }
  }

  function LowerAll(ps: seq<string>): (qs: seq<string>)
    ensures |qs| == |ps| && forall i :: 0 <= i < |ps| ==> qs[i] == Lower(ps[i])
  {
    seq(|ps|, i requires 0 <= i < |ps| => Lower(ps[i]))
  }

  /** Lower-casing a join is joining the lower-cased parts ('|' has no case). */
  lemma {:induction false} LowerJoin(ps: seq<string>)
    ensures Lower(Join(ps)) == Join(LowerAll(ps))
    decreases |ps|
  {
    if |ps| > 1 {
      LowerAppend(ps[0], "|" + Join(ps[1..]));
      LowerAppend("|", Join(ps[1..]));
      LowerJoin(ps[1..]);
      assert LowerAll(ps[1..]) == LowerAll(ps)[1..];
    }
  }

  lemma LowerKeepsBarFree(s: string)
    ensures BarFree(Lower(s)) <==> BarFree(s)
  {
    if !BarFree(s) {
      var i :| 0 <= i < |s| && s[i] == '|';
      assert Lower(s)[i] == '|';
    }
    if !BarFree(Lower(s)) {
      var i :| 0 <= i < |s| && Lower(s)[i] == '|';
      assert s[i] == '|';
    }
  }

  /** The index of the first '|' of `t` (its length when there is none). */
  function FirstBar(t: string): nat
    decreases |t|
  {
    if t == [] || t[0] == '|' then 0 else 1 + FirstBar(t[1..])
  }

  lemma {:induction false} FirstBarAfter(x: string, y: string)
    requires BarFree(x)
    ensures FirstBar(x + "|" + y) == |x|
    decreases |x|
  {
    if x != [] {
      assert (x + "|" + y)[1..] == x[1..] + "|" + y;
      FirstBarAfter(x[1..], y);
    }
  }

  /** A separator that occurs in neither left part splits two joins at the same place. */
  lemma SplitAtBar(x: string, y: string, x': string, y': string)
    requires BarFree(x) && BarFree(x')
    requires x + "|" + y == x' + "|" + y'
    ensures x == x' && y == y'
  {
    var t := x + "|" + y;
    FirstBarAfter(x, y);
    FirstBarAfter(x', y');
    assert x == t[..|x|] == x';
    assert y == t[|x| + 1..] == y';
  }

  lemma {:induction false} JoinInjective(ps: seq<string>, qs: seq<string>)
    requires |ps| == |qs|
    requires forall i :: 0 <= i < |ps| ==> BarFree(ps[i]) && BarFree(qs[i])
    requires Join(ps) == Join(qs)
    ensures ps == qs
    decreases |ps|
  {
    if |ps| > 1 {
      SplitAtBar(ps[0], Join(ps[1..]), qs[0], Join(qs[1..]));
      JoinInjective(ps[1..], qs[1..]);
      assert ps == [ps[0]] + ps[1..] && qs == [qs[0]] + qs[1..];
    }
  }

  /** Two separable selections have the same signature exactly when their six parts
      agree up to case: the signature is a faithful repetition key. */
  lemma SignatureIdentifies(meal: string, a: Selection, meal': string, b: Selection)
    requires Separable(meal, a) && Separable(meal', b)
    ensures Signature(meal, a) == Signature(meal', b) <==>
      forall i :: 0 <= i < 6 ==> Lower(Parts(meal, a)[i]) == Lower(Parts(meal', b)[i])
  {
    var ps, qs := Parts(meal, a), Parts(meal', b);
    LowerJoin(ps);
    LowerJoin(qs);
    forall i | 0 <= i < 6 ensures BarFree(LowerAll(ps)[i]) && BarFree(LowerAll(qs)[i]) {
      LowerKeepsBarFree(ps[i]);
      LowerKeepsBarFree(qs[i]);
    }
    if Signature(meal, a) == Signature(meal', b) {
      JoinInjective(LowerAll(ps), LowerAll(qs));
    }
    if forall i :: 0 <= i < 6 ==> Lower(ps[i]) == Lower(qs[i]) {
      assert LowerAll(ps) == LowerAll(qs);
    }
  }

  // ---------------------------------------------------------------- drawing

  function CarbsPool(cat: City, meal: string): seq<string> {
    if IsBreakfast(meal) then cat.carbs.breakfast else cat.carbs.all
  }

  function ProteinsPool(cat: City, meal: string): seq<string> {
    if IsBreakfast(meal) then cat.proteins.breakfast else cat.proteins.all
  }

  /** `o` is null or a non-empty item of `pool`. */
  predicate OptIn(o: Option<string>, pool: seq<string>) {
    o.Some? ==> o.value in pool && o.value != ""
  }

  /** `pool[Math.floor(Math.random() * Math.max(1, pool.length))] || null`: an empty pool reads
      `pool[0]`, undefined, and an empty item is falsy; both give null. */
  function PickFrom(pool: seq<string>, r: nat): (o: Option<string>)
    ensures OptIn(o, pool)
    ensures o.None? ==> pool == [] || "" in pool
  {
    if pool == [] then None
    else
      var x := pool[Shuffle.Pick(r, |pool|)];
      if x == "" then None else Some(x)
  }

  /** The components a selection may have for `meal` when drawn from `cat`. */
  predicate FromPools(cat: City, meal: string, sel: Selection) {
    match sel
    case Snack(s) => IsSnack(meal) && (s in cat.snacks || (cat.snacks == [] && s == "Fruta fresca"))
    case Main(c, p, v, f) =>
      && !IsSnack(meal)
      && OptIn(c, CarbsPool(cat, meal)) && OptIn(p, ProteinsPool(cat, meal))
      && OptIn(v, cat.vegetables) && (IsBreakfast(meal) ==> v.None?)
      && OptIn(f, cat.fruits)
  }

  /** How many values of the stream one attempt reads: a snack one (none when there are no
      snacks, the conditional skips the call), breakfast three (no vegetable), other meals four. */
  function DrawCost(cat: City, meal: string): nat {
    if IsSnack(meal) then (if cat.snacks == [] then 0 else 1)
    else if IsBreakfast(meal) then 3
    else 4
  }

  /** One attempt of the retry loop, reading the stream from position `c`. */
  function Draw(cat: City, meal: string, rand: nat -> nat, c: nat): (sel: Selection)
    ensures FromPools(cat, meal, sel)
  {
    if IsSnack(meal) then
      if cat.snacks == [] then Snack("Fruta fresca")
      else Snack(cat.snacks[Shuffle.Pick(rand(c), |cat.snacks|)])
    else if IsBreakfast(meal) then
      Main(PickFrom(cat.carbs.breakfast, rand(c)), PickFrom(cat.proteins.breakfast, rand(c + 1)),
           None, PickFrom(cat.fruits, rand(c + 2)))
    else
      Main(PickFrom(cat.carbs.all, rand(c)), PickFrom(cat.proteins.all, rand(c + 1)),
           PickFrom(cat.vegetables, rand(c + 2)), PickFrom(cat.fruits, rand(c + 3)))
  }

  /** The stream position of attempt number `k` (from 0) of a retry loop that starts at
      `cursor`, each attempt reading `cost` entries. */
  function AttemptCursor(cursor: nat, cost: nat, k: nat): nat {
    if k == 0 then cursor else AttemptCursor(cursor, cost, k - 1) + cost
  }

  lemma {:induction false} AttemptCursorIs(cursor: nat, cost: nat, k: nat)
    ensures AttemptCursor(cursor, cost, k) == cursor + k * cost
  {
    if k > 0 {
      AttemptCursorIs(cursor, cost, k - 1);
    }
  }

  lemma {:induction false} AttemptCursorGrows(cursor: nat, cost: nat, k: nat)
    ensures cursor <= AttemptCursor(cursor, cost, k)
  {
    if k > 0 {
      AttemptCursorGrows(cursor, cost, k - 1);
    }
  }

  /** Attempt number `k` (from 0) of a retry loop that starts at cursor `cursor`, where one
      attempt is `draw` at its stream position and reads `cost` entries. */
  function Attempt(draw: nat -> Selection, cost: nat, cursor: nat, k: nat): Selection {
    draw(AttemptCursor(cursor, cost, k))
  }

  /** `o` is `pool[0] || null`: the first item, or null when the pool is empty or starts with "". */
  predicate IsFirstOf(o: Option<string>, pool: seq<string>) {
    o == if pool != [] && pool[0] != "" then Some(pool[0]) else None
  }

  /** `pool?.[0] || null`, as a pick at stream value 0. */
  function First(pool: seq<string>): (o: Option<string>)
    ensures IsFirstOf(o, pool)
  {
    PickFrom(pool, 0)
  }

  /** The selection used when all 200 attempts fail: first items, and for a main meal the
      general pools even at breakfast. */
  function Fallback(cat: City, meal: string): (sel: Selection)
    ensures IsSnack(meal) ==> sel.Snack?
    ensures sel.Snack? ==>
      if cat.snacks != [] && cat.snacks[0] != "" then sel.snack == cat.snacks[0] else sel.snack == "Fruta fresca"
    ensures !IsSnack(meal) ==> sel.Main?
    ensures sel.Main? ==>
      && IsFirstOf(sel.carb, cat.carbs.all) && IsFirstOf(sel.protein, cat.proteins.all)
      && IsFirstOf(sel.fruit, cat.fruits)
      && (if IsBreakfast(meal) then sel.veg.None? else IsFirstOf(sel.veg, cat.vegetables))
  {
    if IsSnack(meal) then Snack(First(cat.snacks).GetOr("Fruta fresca"))
    else Main(First(cat.carbs.all), First(cat.proteins.all),
              if IsBreakfast(meal) then None else First(cat.vegetables), First(cat.fruits))
  }

  // ---------------------------------------------------------------- the repetition rules

  /** `counts30.get(sig) || 0`. */
  function CountOf(counts: map<string, nat>, sig: string): nat {
    if sig in counts then counts[sig] else 0
  }

  /** Day `d` is one of the last seven of a history of `n` days. */
  predicate InWindow(n: nat, d: int) {
    n - 7 <= d < n && 0 <= d
  }

  /** The length of the look-back window: the last seven days, or all of them when fewer. */
  function WindowLength(history: seq<Day>): nat {
    if |history| < 7 then |history| else 7
  }

  /** `meal` had the signature `sig` on day `d` of the history. */
  predicate HadSignature(history: seq<Day>, meal: string, sig: string, d: nat)
    requires d < |history|
  {
    meal in history[d] && Signature(meal, history[d][meal]) == sig
  }

  /** `meal` had the signature `sig` on the day `back` days ago, or on one up to `limit` days ago. */
  predicate SeenBack(history: seq<Day>, meal: string, sig: string, back: nat, limit: nat)
    requires 1 <= back && limit <= |history|
    decreases limit + 1 - back
  {
    if back > limit then false
    else HadSignature(history, meal, sig, |history| - back) || SeenBack(history, meal, sig, back + 1, limit)
  }

  /** Some day of the look-back window gave `meal` the signature `sig`. */
  predicate SeenInWindow(history: seq<Day>, meal: string, sig: string) {
    SeenBack(history, meal, sig, 1, WindowLength(history))
  }

  /** The days `back` to `limit` days ago are the ones from index |history| - limit to |history| - back. */
  lemma {:induction false} SeenBackMeans(history: seq<Day>, meal: string, sig: string, back: nat, limit: nat)
    requires 1 <= back && limit <= |history|
    ensures SeenBack(history, meal, sig, back, limit) <==>
      exists d: nat :: |history| - limit <= d <= |history| - back && HadSignature(history, meal, sig, d)
    decreases limit + 1 - back
  {
    if back <= limit {
      SeenBackMeans(history, meal, sig, back + 1, limit);
      var d0: nat := |history| - back;
      if HadSignature(history, meal, sig, d0) {
        assert |history| - limit <= d0 <= |history| - back;
      } else {
        forall d: nat | |history| - limit <= d <= |history| - back && HadSignature(history, meal, sig, d)
          ensures d <= |history| - (back + 1)
        {
        }
      }
    }
  }

  /** The window is exactly the last seven days of the history (all of them when fewer). */
  lemma SeenInWindowMeans(history: seq<Day>, meal: string, sig: string)
    ensures SeenInWindow(history, meal, sig) <==>
      exists d: nat :: d < |history| && InWindow(|history|, d) && HadSignature(history, meal, sig, d)
  {
    SeenBackMeans(history, meal, sig, 1, WindowLength(history));
  }

  predicate NotRepeated(history: seq<Day>, meal: string, sel: Selection) {
    !SeenInWindow(history, meal, Signature(meal, sel))
  }

  predicate Acceptable(history: seq<Day>, counts: map<string, nat>, meal: string, sel: Selection) {
    NotRepeated(history, meal, sel) && CountOf(counts, Signature(meal, sel)) < 3
  }

  /** The look-back loop: `back` from 1 to min(7, days so far), stopping at the first match. */
  method RepeatedInWindow(dayPlans: seq<Day>, meal: string, sig: string) returns (repeated: bool)
    ensures repeated <==> SeenInWindow(dayPlans, meal, sig)
  {
    var n := |dayPlans|;
    var limit := if n < 7 then n else 7;
    assert limit == WindowLength(dayPlans);
    var back := 1;
    while back <= limit
      invariant 1 <= back <= limit + 1
      invariant SeenInWindow(dayPlans, meal, sig) == SeenBack(dayPlans, meal, sig, back, limit)
    {
      var prev := dayPlans[n - back];
      if meal in prev && Signature(meal, prev[meal]) == sig {
        return true;
      }
      assert !HadSignature(dayPlans, meal, sig, n - back);
      back := back + 1;
    }
    return false;
  }

  /** The test of one candidate: its signature was not used for this meal in the window and
      has been accepted fewer than three times. */
  method Accepts(dayPlans: seq<Day>, counts: map<string, nat>, meal: string, candidate: Selection)
    returns (ok: bool, sig: string)
    ensures sig == Signature(meal, candidate)
    ensures ok <==> Acceptable(dayPlans, counts, meal, candidate)
  {
    sig := Signature(meal, candidate);
    var repeated := RepeatedInWindow(dayPlans, meal, sig);
    ok := !repeated && CountOf(counts, sig) < 3;
  }

  /** The retry loop of one meal: at most 200 attempts, each one `draw` (the picks of
      generatePlan for this meal) at a fresh stream position `cost` entries on; the first
      acceptable draw is taken and counted, otherwise nothing is taken or counted. */
  method ChooseMeal(dayPlans: seq<Day>, counts: map<string, nat>, meal: string,
                    draw: nat -> Selection, cost: nat, cursor: nat)
    returns (found: Option<Selection>, counts': map<string, nat>, next: nat, attempts: nat)
    ensures 1 <= attempts <= 200
    ensures next == AttemptCursor(cursor, cost, attempts) && cursor <= next
    ensures forall k :: 0 <= k < attempts - 1 ==>
      !AcceptableFor(dayPlans, counts, meal)(Attempt(draw, cost, cursor, k))
    ensures found.Some? ==>
      && found.value == Attempt(draw, cost, cursor, attempts - 1)
      && AcceptableFor(dayPlans, counts, meal)(found.value)
      && counts' == counts[Signature(meal, found.value) := CountOf(counts, Signature(meal, found.value)) + 1]
    ensures found.None? ==>
      && attempts == 200
      && (forall k :: 0 <= k < 200 ==> !AcceptableFor(dayPlans, counts, meal)(Attempt(draw, cost, cursor, k)))
      && counts' == counts
  {
    next, attempts := cursor, 0;
    while attempts < 200
      invariant attempts <= 200
      invariant next == AttemptCursor(cursor, cost, attempts) && cursor <= next
      invariant forall k :: 0 <= k < attempts ==>
        !AcceptableFor(dayPlans, counts, meal)(Attempt(draw, cost, cursor, k))
    {
      var candidate := draw(next);
      var ok, sig := Accepts(dayPlans, counts, meal, candidate);
      if ok {
        return Some(candidate), counts[sig := CountOf(counts, sig) + 1], next + cost, attempts + 1;
      }
      next, attempts := next + cost, attempts + 1;
    }
    return None, counts, next, attempts;
  }

  // ---------------------------------------------------------------- the plan

  /** The draw of `meal` as a function of the stream position. */
  function DrawOf(cat: City, meal: string, rand: nat -> nat): nat -> Selection {
    (c: nat) => Draw(cat, meal, rand, c)
  }

  /** The acceptance test of the retry loop of `meal`, as a function of the candidate. */
  function AcceptableFor(history: seq<Day>, counts: map<string, nat>, meal: string): Selection -> bool {
    (sel: Selection) => Acceptable(history, counts, meal, sel)
  }

  /** The index of the first attempt from attempt `k` on, among the 200 allowed, that passes
      the test `ok`: the bound check of the retry loop. */
  function FirstAcceptable(ok: Selection -> bool, draw: nat -> Selection, cost: nat, cursor: nat, k: nat): Option<nat>
    decreases 200 - k, 1
  {
    if k >= 200 then None else TryAttempt(ok, draw, cost, cursor, k)
  }

  /** The test of attempt `k`: taken when it passes, otherwise the search goes on. */
  function TryAttempt(ok: Selection -> bool, draw: nat -> Selection, cost: nat, cursor: nat, k: nat): Option<nat>
    requires k < 200
    decreases 200 - k, 0
  {
    if ok(Attempt(draw, cost, cursor, k)) then Some(k) else FirstAcceptable(ok, draw, cost, cursor, k + 1)
  }

  /** The search finds a passing attempt preceded only by failing ones, or no attempt among the
      rest of the 200 passes. */
  lemma {:induction false} FirstAcceptableMeans(ok: Selection -> bool, draw: nat -> Selection, cost: nat,
                                                cursor: nat, k: nat)
    ensures FirstAcceptable(ok, draw, cost, cursor, k).Some? ==>
      var i := FirstAcceptable(ok, draw, cost, cursor, k).value;
      && k <= i < 200
      && ok(Attempt(draw, cost, cursor, i))
      && forall j :: k <= j < i ==> !ok(Attempt(draw, cost, cursor, j))
    ensures FirstAcceptable(ok, draw, cost, cursor, k).None? ==>
      forall j :: k <= j < 200 ==> !ok(Attempt(draw, cost, cursor, j))
    decreases 200 - k
  {
    if k < 200 {
      assert FirstAcceptable(ok, draw, cost, cursor, k) == TryAttempt(ok, draw, cost, cursor, k);
      if !ok(Attempt(draw, cost, cursor, k)) {
        FirstAcceptableMeans(ok, draw, cost, cursor, k + 1);
      }
    }
  }

  /** The attempt the search finds passes the test. */
  lemma FirstAcceptableIs(ok: Selection -> bool, draw: nat -> Selection, cost: nat, cursor: nat, k: nat)
    requires FirstAcceptable(ok, draw, cost, cursor, 0) == Some(k)
    ensures k < 200 && ok(Attempt(draw, cost, cursor, k))
  {
    FirstAcceptableMeans(ok, draw, cost, cursor, 0);
  }

  /** The outcome of the retry loop is the first passing attempt, or none. */
  lemma ChosenIsFirst(ok: Selection -> bool, draw: nat -> Selection, cost: nat, cursor: nat,
                      found: Option<Selection>, attempts: nat)
    requires 1 <= attempts <= 200
    requires forall k :: 0 <= k < attempts - 1 ==> !ok(Attempt(draw, cost, cursor, k))
    requires found.Some? ==> found.value == Attempt(draw, cost, cursor, attempts - 1) && ok(found.value)
    requires found.None? ==> attempts == 200 && !ok(Attempt(draw, cost, cursor, 199))
    ensures FirstAcceptable(ok, draw, cost, cursor, 0) == if found.Some? then Some(attempts - 1) else None
  {
    FirstAcceptableMeans(ok, draw, cost, cursor, 0);
  }

  /** The state of one day being built: its entries, counts30 and the stream position. */
  datatype DayState = DayState(day: Day, counts: map<string, nat>, cursor: nat)

  /** Storing the outcome `r` of the retry loop of `meal`: attempt `k` when `r` is `Some(k)`,
      counted, or else `fallback`; the stream moves on by the attempts made. */
  function Store(st: DayState, meal: string, draw: nat -> Selection, cost: nat, fallback: Selection,
                 r: Option<nat>): DayState {
    match r
    case Some(k) =>
      var e := Attempt(draw, cost, st.cursor, k);
      var sig := Signature(meal, e);
      DayState(st.day[meal := e], st.counts[sig := CountOf(st.counts, sig) + 1], AttemptCursor(st.cursor, cost, k + 1))
    case None =>
      DayState(st.day[meal := fallback], st.counts, AttemptCursor(st.cursor, cost, 200))
  }

  /** Placing `meal`: the first acceptable of its 200 attempts, counted, or else the fallback. */
  function Place(cat: City, history: seq<Day>, st: DayState, meal: string, rand: nat -> nat): DayState {
    var draw, cost := DrawOf(cat, meal, rand), DrawCost(cat, meal);
    Store(st, meal, draw, cost, Fallback(cat, meal),
          FirstAcceptable(AcceptableFor(history, st.counts, meal), draw, cost, st.cursor, 0))
  }

  /** The meals of a day placed in order. */
  function PlaceAll(cat: City, history: seq<Day>, st: DayState, meals: seq<string>, rand: nat -> nat): DayState
    decreases |meals|
  {
    if meals == [] then st
    else Place(cat, history, PlaceAll(cat, history, st, meals[..|meals| - 1], rand), meals[|meals| - 1], rand)
  }

  /** The days built so far, counts30 and the stream position. */
  datatype PlanState = PlanState(plans: seq<Day>, counts: map<string, nat>, cursor: nat)

  /** The first `n` days of the plan, each built from an empty day against the days before it. */
  function Plans(cat: City, n: nat, meals: seq<string>, rand: nat -> nat): PlanState
    decreases n
  {
    if n == 0 then PlanState([], map[], 0)
    else
      var st := Plans(cat, n - 1, meals, rand);
      var d := PlaceAll(cat, st.plans, DayState(map[], st.counts, st.cursor), meals, rand);
      PlanState(st.plans + [d.day], d.counts, d.cursor)
  }

  /** Storing the outcome of the retry loop gives the state the loop leaves. */
  lemma StoreFromChoice(st: DayState, meal: string, draw: nat -> Selection, cost: nat, fallback: Selection,
                        r: Option<nat>, found: Option<Selection>, counts': map<string, nat>, next: nat,
                        attempts: nat)
    requires 1 <= attempts <= 200
    requires next == AttemptCursor(st.cursor, cost, attempts)
    requires r == if found.Some? then Some(attempts - 1) else None
    requires found.Some? ==>
      && found.value == Attempt(draw, cost, st.cursor, attempts - 1)
      && counts' == st.counts[Signature(meal, found.value) := CountOf(st.counts, Signature(meal, found.value)) + 1]
    requires found.None? ==> attempts == 200 && counts' == st.counts
    ensures Store(st, meal, draw, cost, fallback, r) ==
      DayState(st.day[meal := if found.Some? then found.value else fallback], counts', next)
  {
  }

  /** The meals of `day` in `acc` (the accepted ones) whose signature is `sig`. */
  ghost function Matching(day: Day, acc: set<string>, sig: string): set<string> {
    set m | m in acc && m in day && Signature(m, day[m]) == sig
  }

  ghost function DayTally(day: Day, acc: set<string>, sig: string): nat {
    |Matching(day, acc, sig)|
  }

  /** How many accepted entries of the whole plan have the signature `sig`. */
  ghost function Tally(plans: seq<Day>, accepted: seq<set<string>>, sig: string): nat
    requires |accepted| == |plans|
    decreases |plans|
  {
    if plans == [] then 0
    else Tally(plans[..|plans| - 1], accepted[..|plans| - 1], sig) + DayTally(plans[|plans| - 1], accepted[|plans| - 1], sig)
  }

  /** One day of the plan: an entry for every requested meal and no other; an accepted entry
      was drawn from the catalog and is not repeated from the look-back window; any other
      entry is the fallback. */
  ghost predicate DayOk(cat: City, history: seq<Day>, day: Day, acc: set<string>, meals: seq<string>) {
    (forall m :: m in day <==> m in meals) && EntriesOk(cat, history, day, acc)
  }

  /** Every entry of `day` is either accepted (in `acc`) or the fallback. */
  ghost predicate EntriesOk(cat: City, history: seq<Day>, day: Day, acc: set<string>) {
    && acc <= day.Keys
    && (forall m :: m in acc ==> FromPools(cat, m, day[m]) && NotRepeated(history, m, day[m]))
    && (forall m :: m in day && m !in acc ==> day[m] == Fallback(cat, m))
  }

  lemma SubsetCard(a: set<string>, b: set<string>)
    requires a <= b
    ensures |a| <= |b|
  {
    assert b == a + (b - a);
  }

  /** Without `m`, replacing its entry changes no match. */
  lemma MatchingWithout(day: Day, acc: set<string>, m: string, e: Selection, sig: string)
    ensures Matching(day[m := e], acc - {m}, sig) <= Matching(day, acc, sig)
  {
    forall x | x in Matching(day[m := e], acc - {m}, sig) ensures x in Matching(day, acc, sig) {
      assert day[m := e][x] == day[x];
    }
  }

  /** Replacing the entry of `m` by an unaccepted one does not raise any tally. */
  lemma TallyDrop(day: Day, acc: set<string>, m: string, e: Selection, sig: string)
    ensures DayTally(day[m := e], acc - {m}, sig) <= DayTally(day, acc, sig)
  {
    MatchingWithout(day, acc, m, e, sig);
    SubsetCard(Matching(day[m := e], acc - {m}, sig), Matching(day, acc, sig));
  }

  /** Replacing the entry of `m` by an accepted one raises only its own signature's tally, by one. */
  lemma TallyAdd(day: Day, acc: set<string>, m: string, e: Selection, sig: string)
    ensures DayTally(day[m := e], acc + {m}, sig) <=
      DayTally(day, acc, sig) + (if Signature(m, e) == sig then 1 else 0)
  {
    var day' := day[m := e];
    var rest := Matching(day', acc - {m}, sig);
    var after := Matching(day', acc + {m}, sig);
    MatchingWithout(day, acc, m, e, sig);
    SubsetCard(rest, Matching(day, acc, sig));
    var extra: set<string> := if Signature(m, e) == sig then {m} else {};
    forall x | x in after ensures x in rest + extra {
      if x != m {
        assert x in acc - {m};
      }
    }
    SubsetCard(after, rest + extra);
  }

  /** Storing an accepted draw, or the fallback, keeps every entry accounted for. */
  lemma EntriesOkAfterStore(cat: City, history: seq<Day>, day: Day, acc: set<string>, m: string,
                            e: Selection, taken: bool)
    requires EntriesOk(cat, history, day, acc)
    requires taken ==> FromPools(cat, m, e) && NotRepeated(history, m, e)
    requires !taken ==> e == Fallback(cat, m)
    ensures EntriesOk(cat, history, day[m := e], if taken then acc + {m} else acc - {m})
  {
  }

  /** counts30 (`running`) covers its value at the start of the day (`counts`) plus the
      accepted entries of the day, and no count exceeds 3. */
  ghost predicate CountsCover(counts: map<string, nat>, day: Day, acc: set<string>, running: map<string, nat>) {
    forall s :: CountOf(counts, s) + DayTally(day, acc, s) <= CountOf(running, s) <= 3
  }

  /** Accepting `e` for `m` raises only its signature's count, by one, and only below the cap. */
  lemma CoverAfterAccept(counts: map<string, nat>, day: Day, acc: set<string>, running: map<string, nat>,
                         running': map<string, nat>, m: string, e: Selection)
    requires CountsCover(counts, day, acc, running) && CountOf(running, Signature(m, e)) < 3
    requires running' == running[Signature(m, e) := CountOf(running, Signature(m, e)) + 1]
    ensures CountsCover(counts, day[m := e], acc + {m}, running')
  {
    forall s ensures CountOf(counts, s) + DayTally(day[m := e], acc + {m}, s) <= CountOf(running', s) <= 3 {
      TallyAdd(day, acc, m, e, s);
      assert CountOf(counts, s) + DayTally(day, acc, s) <= CountOf(running, s) <= 3;
    }
  }

  /** Storing the fallback for `m` raises no count. */
  lemma CoverAfterFallback(counts: map<string, nat>, day: Day, acc: set<string>, running: map<string, nat>,
                           m: string, e: Selection)
    requires CountsCover(counts, day, acc, running)
    ensures CountsCover(counts, day[m := e], acc - {m}, running)
  {
    forall s ensures CountOf(counts, s) + DayTally(day[m := e], acc - {m}, s) <= CountOf(running, s) <= 3 {
      TallyDrop(day, acc, m, e, s);
      assert CountOf(counts, s) + DayTally(day, acc, s) <= CountOf(running, s) <= 3;
    }
  }

  /** Whether the retry loop of `meal` accepts one of its 200 attempts. */
  function Taken(cat: City, history: seq<Day>, st: DayState, meal: string, rand: nat -> nat): bool {
    FirstAcceptable(AcceptableFor(history, st.counts, meal), DrawOf(cat, meal, rand), DrawCost(cat, meal), st.cursor, 0).Some?
  }

  /** The entry `Place` stores: when taken, an acceptable attempt among the 200 preceded only by
      unacceptable ones; otherwise the fallback, after 200 unacceptable attempts. */
  lemma PlaceMeans(cat: City, history: seq<Day>, st: DayState, meal: string, rand: nat -> nat)
    ensures Taken(cat, history, st, meal, rand) ==>
      exists k :: 0 <= k < 200
        && Place(cat, history, st, meal, rand).day[meal] == Attempt(DrawOf(cat, meal, rand), DrawCost(cat, meal), st.cursor, k)
        && Acceptable(history, st.counts, meal, Attempt(DrawOf(cat, meal, rand), DrawCost(cat, meal), st.cursor, k))
        && forall j :: 0 <= j < k ==>
             !Acceptable(history, st.counts, meal, Attempt(DrawOf(cat, meal, rand), DrawCost(cat, meal), st.cursor, j))
    ensures !Taken(cat, history, st, meal, rand) ==>
      && Place(cat, history, st, meal, rand).day[meal] == Fallback(cat, meal)
      && forall k :: 0 <= k < 200 ==>
           !Acceptable(history, st.counts, meal, Attempt(DrawOf(cat, meal, rand), DrawCost(cat, meal), st.cursor, k))
  {
    FirstAcceptableMeans(AcceptableFor(history, st.counts, meal), DrawOf(cat, meal, rand), DrawCost(cat, meal), st.cursor, 0);
  }

  /** Going from `st` and `acc` to `st'` and `acc'` stores an entry for `meal` and keeps every
      entry accounted for and the counts covering the accepted entries, with the stream not
      moved back. */
  ghost predicate StepKeeps(cat: City, history: seq<Day>, counts: map<string, nat>, st: DayState, acc: set<string>,
                            meal: string, st': DayState, acc': set<string>) {
    && EntriesOk(cat, history, st'.day, acc') && st'.day.Keys == st.day.Keys + {meal}
    && CountsCover(counts, st'.day, acc', st'.counts)
    && st.cursor <= st'.cursor
  }

  /** Storing an acceptable draw from the pools, counted. */
  lemma AcceptKeeps(cat: City, history: seq<Day>, counts: map<string, nat>, st: DayState, acc: set<string>,
                    meal: string, e: Selection, cursor': nat)
    requires EntriesOk(cat, history, st.day, acc) && CountsCover(counts, st.day, acc, st.counts)
    requires FromPools(cat, meal, e) && Acceptable(history, st.counts, meal, e) && st.cursor <= cursor'
    ensures var sig := Signature(meal, e);
      StepKeeps(cat, history, counts, st, acc, meal,
                DayState(st.day[meal := e], st.counts[sig := CountOf(st.counts, sig) + 1], cursor'), acc + {meal})
  {
    var sig := Signature(meal, e);
    CoverAfterAccept(counts, st.day, acc, st.counts, st.counts[sig := CountOf(st.counts, sig) + 1], meal, e);
    EntriesOkAfterStore(cat, history, st.day, acc, meal, e, true);
  }

  /** Storing the fallback, uncounted. */
  lemma FallbackKeeps(cat: City, history: seq<Day>, counts: map<string, nat>, st: DayState, acc: set<string>,
                      meal: string, cursor': nat)
    requires EntriesOk(cat, history, st.day, acc) && CountsCover(counts, st.day, acc, st.counts)
    requires st.cursor <= cursor'
    ensures StepKeeps(cat, history, counts, st, acc, meal,
                      DayState(st.day[meal := Fallback(cat, meal)], st.counts, cursor'), acc - {meal})
  {
    CoverAfterFallback(counts, st.day, acc, st.counts, meal, Fallback(cat, meal));
    EntriesOkAfterStore(cat, history, st.day, acc, meal, Fallback(cat, meal), false);
  }

  /** Storing an acceptable attempt drawn from the pools keeps StepKeeps. */
  lemma StoreTaken(cat: City, history: seq<Day>, counts: map<string, nat>, st: DayState, acc: set<string>,
                   meal: string, draw: nat -> Selection, cost: nat, k: nat)
    requires EntriesOk(cat, history, st.day, acc)
    requires CountsCover(counts, st.day, acc, st.counts)
    requires Acceptable(history, st.counts, meal, Attempt(draw, cost, st.cursor, k))
    requires FromPools(cat, meal, Attempt(draw, cost, st.cursor, k))
    ensures StepKeeps(cat, history, counts, st, acc, meal, Store(st, meal, draw, cost, Fallback(cat, meal), Some(k)),
                      acc + {meal})
  {
    AttemptCursorGrows(st.cursor, cost, k + 1);
    AcceptKeeps(cat, history, counts, st, acc, meal, Attempt(draw, cost, st.cursor, k), AttemptCursor(st.cursor, cost, k + 1));
  }

  /** Storing the fallback keeps StepKeeps. */
  lemma StoreNone(cat: City, history: seq<Day>, counts: map<string, nat>, st: DayState, acc: set<string>,
                  meal: string, draw: nat -> Selection, cost: nat)
    requires EntriesOk(cat, history, st.day, acc)
    requires CountsCover(counts, st.day, acc, st.counts)
    ensures StepKeeps(cat, history, counts, st, acc, meal, Store(st, meal, draw, cost, Fallback(cat, meal), None),
                      acc - {meal})
  {
    AttemptCursorGrows(st.cursor, cost, 200);
    FallbackKeeps(cat, history, counts, st, acc, meal, AttemptCursor(st.cursor, cost, 200));
  }

  /** `Place` keeps StepKeeps, the entry of `meal` accepted exactly when taken. */
  lemma PlaceKeeps(cat: City, history: seq<Day>, counts: map<string, nat>, st: DayState, acc: set<string>,
                   meal: string, rand: nat -> nat)
    requires EntriesOk(cat, history, st.day, acc)
    requires CountsCover(counts, st.day, acc, st.counts)
    ensures StepKeeps(cat, history, counts, st, acc, meal, Place(cat, history, st, meal, rand),
                      if Taken(cat, history, st, meal, rand) then acc + {meal} else acc - {meal})
  {
    var draw, cost, ok := DrawOf(cat, meal, rand), DrawCost(cat, meal), AcceptableFor(history, st.counts, meal);
    match FirstAcceptable(ok, draw, cost, st.cursor, 0)
    case Some(k) =>
      FirstAcceptableIs(ok, draw, cost, st.cursor, k);
      assert Attempt(draw, cost, st.cursor, k) == Draw(cat, meal, rand, AttemptCursor(st.cursor, cost, k));
      StoreTaken(cat, history, counts, st, acc, meal, draw, cost, k);
    case None =>
      StoreNone(cat, history, counts, st, acc, meal, draw, cost);
  }

  /** The retry loop of `meal` with attempts drawn by `draw`, then `day[meal] = candidate`
      (else `fallback`): the state `Store` gives for the first acceptable attempt. */
  method PlaceFrom(dayPlans: seq<Day>, day: Day, running: map<string, nat>, meal: string,
                   draw: nat -> Selection, cost: nat, fallback: Selection, cursor: nat)
    returns (day': Day, running': map<string, nat>, cursor': nat)
    ensures DayState(day', running', cursor') ==
      Store(DayState(day, running, cursor), meal, draw, cost, fallback,
            FirstAcceptable(AcceptableFor(dayPlans, running, meal), draw, cost, cursor, 0))
  {
    var found, attempts;
    found, running', cursor', attempts := ChooseMeal(dayPlans, running, meal, draw, cost, cursor);
    ChosenIsFirst(AcceptableFor(dayPlans, running, meal), draw, cost, cursor, found, attempts);
    StoreFromChoice(DayState(day, running, cursor), meal, draw, cost, fallback,
                    FirstAcceptable(AcceptableFor(dayPlans, running, meal), draw, cost, cursor, 0),
                    found, running', cursor', attempts);
    day' := day[meal := if found.Some? then found.value else fallback];
  }

  /** `day[meal] = candidate` after the retry loop of `meal`, with counts30 (`running`) and the
      stream position: exactly what `Place` describes. */
  method PlaceMeal(cat: City, dayPlans: seq<Day>, day: Day, running: map<string, nat>, meal: string,
                   rand: nat -> nat, cursor: nat)
    returns (day': Day, running': map<string, nat>, cursor': nat)
    ensures DayState(day', running', cursor') == Place(cat, dayPlans, DayState(day, running, cursor), meal, rand)
  {
    day', running', cursor' := PlaceFrom(dayPlans, day, running, meal, DrawOf(cat, meal, rand), DrawCost(cat, meal),
                                         Fallback(cat, meal), cursor);
  }

  /** The meals of a day whose draw `PlaceAll` accepts, starting from the accepted set `acc`. */
  ghost function PlaceAllAcc(cat: City, history: seq<Day>, st: DayState, acc: set<string>, meals: seq<string>,
                             rand: nat -> nat): set<string>
    decreases |meals|
  {
    if meals == [] then acc
    else
      var prev, m := meals[..|meals| - 1], meals[|meals| - 1];
      var before := PlaceAllAcc(cat, history, st, acc, prev, rand);
      if Taken(cat, history, PlaceAll(cat, history, st, prev, rand), m, rand) then before + {m} else before - {m}
  }

  /** A non-empty sequence is its prefix followed by its last element. */
  lemma SplitLast(xs: seq<string>)
    requires xs != []
    ensures xs == xs[..|xs| - 1] + [xs[|xs| - 1]]
  {
  }

  /** Going from `st` and `acc` to `st'` and `acc'` stores an entry for each of `meals` and no
      other, and keeps every entry accounted for and the counts covering the accepted entries,
      with the stream not moved back. */
  ghost predicate DayKeeps(cat: City, history: seq<Day>, counts: map<string, nat>, st: DayState, acc: set<string>,
                           meals: seq<string>, st': DayState, acc': set<string>) {
    && EntriesOk(cat, history, st'.day, acc')
    && (forall m :: m in st'.day <==> m in st.day || m in meals)
    && CountsCover(counts, st'.day, acc', st'.counts)
    && st.cursor <= st'.cursor
  }

  /** A step after the first meals of a day extends DayKeeps to one more meal. */
  lemma DayKeepsStep(cat: City, history: seq<Day>, counts: map<string, nat>, st: DayState, acc: set<string>,
                     prev: seq<string>, mid: DayState, midAcc: set<string>, m: string, st': DayState,
                     acc': set<string>, meals: seq<string>)
    requires DayKeeps(cat, history, counts, st, acc, prev, mid, midAcc)
    requires StepKeeps(cat, history, counts, mid, midAcc, m, st', acc')
    requires meals == prev + [m]
    ensures DayKeeps(cat, history, counts, st, acc, meals, st', acc')
  {
  }

  /** `PlaceAll` keeps DayKeeps, with the accepted meals `PlaceAllAcc`. */
  lemma {:induction false} PlaceAllKeeps(cat: City, history: seq<Day>, counts: map<string, nat>, st: DayState,
                                         acc: set<string>, meals: seq<string>, rand: nat -> nat)
    requires EntriesOk(cat, history, st.day, acc)
    requires CountsCover(counts, st.day, acc, st.counts)
    ensures DayKeeps(cat, history, counts, st, acc, meals, PlaceAll(cat, history, st, meals, rand),
                     PlaceAllAcc(cat, history, st, acc, meals, rand))
    decreases |meals|
  {
    if meals != [] {
      var prev, m := meals[..|meals| - 1], meals[|meals| - 1];
      PlaceAllKeeps(cat, history, counts, st, acc, prev, rand);
      var mid, midAcc := PlaceAll(cat, history, st, prev, rand), PlaceAllAcc(cat, history, st, acc, prev, rand);
      PlaceKeeps(cat, history, counts, mid, midAcc, m, rand);
      var st', acc' := PlaceAll(cat, history, st, meals, rand), PlaceAllAcc(cat, history, st, acc, meals, rand);
      assert st' == Place(cat, history, mid, m, rand);
      assert acc' == if Taken(cat, history, mid, m, rand) then midAcc + {m} else midAcc - {m};
      SplitLast(meals);
      DayKeepsStep(cat, history, counts, st, acc, prev, mid, midAcc, m, st', acc', meals);
    }
  }

  /** `Place` stores the entry of `meal` and leaves every other entry as it was. */
  lemma PlaceOther(cat: City, history: seq<Day>, st: DayState, meal: string, m: string, rand: nat -> nat)
    ensures Place(cat, history, st, meal, rand).day.Keys == st.day.Keys + {meal}
    ensures m != meal && m in st.day ==> Place(cat, history, st, meal, rand).day[m] == st.day[m]
  {
    var draw, cost, ok := DrawOf(cat, meal, rand), DrawCost(cat, meal), AcceptableFor(history, st.counts, meal);
    match FirstAcceptable(ok, draw, cost, st.cursor, 0)
    case Some(k) =>
    case None =>
  }

  /** The day `PlaceAll` builds has an entry for exactly the meals it started with and `meals`. */
  lemma {:induction false} PlaceAllKeys(cat: City, history: seq<Day>, st: DayState, meals: seq<string>,
                                        rand: nat -> nat)
    ensures forall m :: m in PlaceAll(cat, history, st, meals, rand).day <==> m in st.day || m in meals
    decreases |meals|
  {
    if meals != [] {
      var prev, last := meals[..|meals| - 1], meals[|meals| - 1];
      PlaceAllKeys(cat, history, st, prev, rand);
      PlaceOther(cat, history, PlaceAll(cat, history, st, prev, rand), last, last, rand);
      SplitLast(meals);
    }
  }

  /** The entry of `meals[i]`, when no later meal has that name, is the one `Place` stores for it
      after the meals before it: by PlaceMeans, its first acceptable attempt or the fallback. */
  lemma {:induction false} PlaceAllEntry(cat: City, history: seq<Day>, st: DayState, meals: seq<string>, i: nat,
                                         rand: nat -> nat)
    requires i < |meals| && meals[i] !in meals[i + 1..]
    ensures meals[i] in PlaceAll(cat, history, st, meals, rand).day
    ensures PlaceAll(cat, history, st, meals, rand).day[meals[i]] ==
      Place(cat, history, PlaceAll(cat, history, st, meals[..i], rand), meals[i], rand).day[meals[i]]
    decreases |meals|
  {
    var prev, last := meals[..|meals| - 1], meals[|meals| - 1];
    var mid := PlaceAll(cat, history, st, prev, rand);
    PlaceOther(cat, history, mid, last, meals[i], rand);
    if i < |meals| - 1 {
      assert last in meals[i + 1..];
      assert prev[i] == meals[i] && prev[i + 1..] == meals[i + 1..|meals| - 1];
      assert prev[..i] == meals[..i];
      PlaceAllEntry(cat, history, st, prev, i, rand);
    } else {
      assert prev == meals[..i];
    }
  }

  /** One more meal of the day placed: the state `PlaceAll` describes for the next prefix. */
  lemma PlaceAllNext(cat: City, history: seq<Day>, st: DayState, meals: seq<string>, j: nat, rand: nat -> nat,
                     mid: DayState, next: DayState)
    requires j < |meals|
    requires mid == PlaceAll(cat, history, st, meals[..j], rand)
    requires next == Place(cat, history, mid, meals[j], rand)
    ensures next == PlaceAll(cat, history, st, meals[..j + 1], rand)
  {
    assert meals[..j + 1][..j] == meals[..j];
  }

  /** The loop over the requested meals of one day: the day `PlaceAll` describes, with the
      accepted entries accounted for. */
  method PlanDay(cat: City, dayPlans: seq<Day>, counts: map<string, nat>, meals: seq<string>,
                 rand: nat -> nat, cursor: nat)
    returns (day: Day, ghost acc: set<string>, counts': map<string, nat>, cursor': nat)
    requires forall s :: CountOf(counts, s) <= 3
    ensures DayState(day, counts', cursor') == PlaceAll(cat, dayPlans, DayState(map[], counts, cursor), meals, rand)
    ensures DayOk(cat, dayPlans, day, acc, meals)
    ensures CountsCover(counts, day, acc, counts')
    ensures cursor <= cursor'
  {
    day, counts', cursor' := map[], counts, cursor;
    for j := 0 to |meals|
      invariant DayState(day, counts', cursor') == PlaceAll(cat, dayPlans, DayState(map[], counts, cursor), meals[..j], rand)
    {
      ghost var mid := DayState(day, counts', cursor');
      day, counts', cursor' := PlaceMeal(cat, dayPlans, day, counts', meals[j], rand, cursor');
      PlaceAllNext(cat, dayPlans, DayState(map[], counts, cursor), meals, j, rand, mid, DayState(day, counts', cursor'));
    }
    assert meals[..|meals|] == meals;
    acc := PlaceAllAcc(cat, dayPlans, DayState(map[], counts, cursor), {}, meals, rand);
    PlaceAllKeeps(cat, dayPlans, counts, DayState(map[], counts, cursor), {}, meals, rand);
  }

  /** Appending a day built against the plan so far keeps every day DayOk against the days
      before it, and the tallies of the whole plan covered by counts30. */
  lemma PlanExtends(cat: City, plans: seq<Day>, accepted: seq<set<string>>, counts: map<string, nat>,
                    day: Day, acc: set<string>, counts': map<string, nat>, meals: seq<string>)
    requires |accepted| == |plans|
    requires forall d :: 0 <= d < |plans| ==> DayOk(cat, plans[..d], plans[d], accepted[d], meals)
    requires forall s :: Tally(plans, accepted, s) <= CountOf(counts, s)
    requires DayOk(cat, plans, day, acc, meals)
    requires CountsCover(counts, day, acc, counts')
    ensures forall d :: 0 <= d < |plans| + 1 ==>
      DayOk(cat, (plans + [day])[..d], (plans + [day])[d], (accepted + [acc])[d], meals)
    ensures forall s :: Tally(plans + [day], accepted + [acc], s) <= CountOf(counts', s) <= 3
  {
    var plans', accepted' := plans + [day], accepted + [acc];
    assert plans'[..|plans|] == plans && accepted'[..|plans|] == accepted;
    forall d | 0 <= d < |plans'|
      ensures DayOk(cat, plans'[..d], plans'[d], accepted'[d], meals)
    {
      if d < |plans| {
        assert plans'[..d] == plans[..d];
      }
    }
    forall s ensures Tally(plans', accepted', s) <= CountOf(counts', s) <= 3 {
      assert Tally(plans', accepted', s) == Tally(plans, accepted, s) + DayTally(day, acc, s);
    }
  }

  /** The accepted meals of each day of `Plans`. */
  ghost function PlansAcc(cat: City, n: nat, meals: seq<string>, rand: nat -> nat): seq<set<string>>
    decreases n
  {
    if n == 0 then []
    else
      var st := Plans(cat, n - 1, meals, rand);
      PlansAcc(cat, n - 1, meals, rand) + [PlaceAllAcc(cat, st.plans, DayState(map[], st.counts, st.cursor), {}, meals, rand)]
  }

  /** Every day of `plans` is DayOk against the days before it, and every signature is accepted
      in the whole plan at most counts30 times, which is never above three. */
  ghost predicate PlanInv(cat: City, plans: seq<Day>, accepted: seq<set<string>>, counts: map<string, nat>,
                          meals: seq<string>) {
    && |accepted| == |plans|
    && (forall d :: 0 <= d < |plans| ==> DayOk(cat, plans[..d], plans[d], accepted[d], meals))
    && (forall s :: Tally(plans, accepted, s) <= CountOf(counts, s) <= 3)
  }

  /** Building one more day with `PlaceAll` keeps PlanInv. */
  lemma PlanStep(cat: City, st: PlanState, accepted: seq<set<string>>, meals: seq<string>, rand: nat -> nat)
    requires PlanInv(cat, st.plans, accepted, st.counts, meals)
    ensures var start := DayState(map[], st.counts, st.cursor);
      var d := PlaceAll(cat, st.plans, start, meals, rand);
      PlanInv(cat, st.plans + [d.day], accepted + [PlaceAllAcc(cat, st.plans, start, {}, meals, rand)], d.counts, meals)
  {
    var start := DayState(map[], st.counts, st.cursor);
    PlaceAllKeeps(cat, st.plans, st.counts, start, {}, meals, rand);
    var d := PlaceAll(cat, st.plans, start, meals, rand);
    PlanExtends(cat, st.plans, accepted, st.counts, d.day, PlaceAllAcc(cat, st.plans, start, {}, meals, rand),
                d.counts, meals);
  }

  /** One unfolding of `Plans` and `PlansAcc`. */
  lemma PlansUnfold(cat: City, n: nat, meals: seq<string>, rand: nat -> nat)
    requires n > 0
    ensures var st := Plans(cat, n - 1, meals, rand);
      var start := DayState(map[], st.counts, st.cursor);
      var d := PlaceAll(cat, st.plans, start, meals, rand);
      && Plans(cat, n, meals, rand) == PlanState(st.plans + [d.day], d.counts, d.cursor)
      && PlansAcc(cat, n, meals, rand) ==
           PlansAcc(cat, n - 1, meals, rand) + [PlaceAllAcc(cat, st.plans, start, {}, meals, rand)]
  {
  }

  /** The first `n` days of the plan are `n` days satisfying PlanInv. */
  lemma {:induction false} PlansOk(cat: City, n: nat, meals: seq<string>, rand: nat -> nat)
    ensures |Plans(cat, n, meals, rand).plans| == n
    ensures PlanInv(cat, Plans(cat, n, meals, rand).plans, PlansAcc(cat, n, meals, rand),
                    Plans(cat, n, meals, rand).counts, meals)
    decreases n
  {
    if n > 0 {
      PlansOk(cat, n - 1, meals, rand);
      PlansUnfold(cat, n, meals, rand);
      PlanStep(cat, Plans(cat, n - 1, meals, rand), PlansAcc(cat, n - 1, meals, rand), meals, rand);
    }
  }

  /** `Plans` builds `n` days. */
  lemma {:induction false} PlansLength(cat: City, n: nat, meals: seq<string>, rand: nat -> nat)
    ensures |Plans(cat, n, meals, rand).plans| == n
    decreases n
  {
    if n > 0 {
      PlansLength(cat, n - 1, meals, rand);
      PlansUnfold(cat, n, meals, rand);
    }
  }

  /** Day `d` of the first `n` days is the day `PlaceAll` builds from the first `d` days, their
      counts30 and their stream position. */
  lemma {:induction false} PlansDay(cat: City, n: nat, d: nat, meals: seq<string>, rand: nat -> nat)
    requires d < n
    ensures var st := Plans(cat, d, meals, rand);
      && |Plans(cat, n, meals, rand).plans| == n
      && Plans(cat, n, meals, rand).plans[..d] == st.plans
      && Plans(cat, n, meals, rand).plans[d] == PlaceAll(cat, st.plans, DayState(map[], st.counts, st.cursor), meals, rand).day
    decreases n
  {
    PlansLength(cat, n - 1, meals, rand);
    PlansUnfold(cat, n, meals, rand);
    var all, prev := Plans(cat, n, meals, rand).plans, Plans(cat, n - 1, meals, rand).plans;
    if d < n - 1 {
      PlansDay(cat, n - 1, d, meals, rand);
      assert all[..d] == prev[..d] && all[d] == prev[d];
    } else {
      assert all[..d] == prev;
    }
  }

  /** The loop state after one more day: the day `PlaceAll` builds against the plan so far. */
  lemma PlansNext(cat: City, n: nat, meals: seq<string>, rand: nat -> nat, plans: seq<Day>, counts: map<string, nat>,
                  cursor: nat, day: Day, counts': map<string, nat>, cursor': nat)
    requires PlanState(plans, counts, cursor) == Plans(cat, n, meals, rand)
    requires DayState(day, counts', cursor') == PlaceAll(cat, plans, DayState(map[], counts, cursor), meals, rand)
    ensures PlanState(plans + [day], counts', cursor') == Plans(cat, n + 1, meals, rand)
  {
    PlansUnfold(cat, n + 1, meals, rand);
  }

  /** counts30 never goes above three. */
  lemma PlansCapped(cat: City, n: nat, meals: seq<string>, rand: nat -> nat)
    ensures forall s :: CountOf(Plans(cat, n, meals, rand).counts, s) <= 3
  {
    PlansOk(cat, n, meals, rand);
  }

  /** The loop over the days: the first `days` days of `Plans` (none when `days` is not
      positive), each DayOk against the days before it, with no signature accepted more than
      three times in the whole plan. */
  method PlanDays(cat: City, days: int, meals: seq<string>, rand: nat -> nat)
    returns (dayPlans: seq<Day>, ghost accepted: seq<set<string>>)
    ensures dayPlans == Plans(cat, if days > 0 then days else 0, meals, rand).plans
    ensures |dayPlans| == (if days > 0 then days else 0) && |accepted| == |dayPlans|
    ensures forall d :: 0 <= d < |dayPlans| ==> DayOk(cat, dayPlans[..d], dayPlans[d], accepted[d], meals)
    ensures forall s :: Tally(dayPlans, accepted, s) <= 3
  {
    dayPlans := [];
    var counts: map<string, nat> := map[];
    var cursor: nat := 0;
    ghost var n: nat := 0;
    while |dayPlans| < days
      invariant n == |dayPlans| && n <= (if days > 0 then days else 0)
      invariant PlanState(dayPlans, counts, cursor) == Plans(cat, n, meals, rand)
      decreases days - |dayPlans|
    {
      PlansCapped(cat, n, meals, rand);
      var day, acc, counts', cursor' := PlanDay(cat, dayPlans, counts, meals, rand, cursor);
      PlansNext(cat, n, meals, rand, dayPlans, counts, cursor, day, counts', cursor');
      dayPlans, counts, cursor, n := dayPlans + [day], counts', cursor', n + 1;
    }
    accepted := PlansAcc(cat, |dayPlans|, meals, rand);
    PlansOk(cat, |dayPlans|, meals, rand);
  }

  /** generatePlan: fails exactly when buildCatalog does; otherwise the days `PlanDays`
      builds from the filtered catalog. */
  method GeneratePlan(base: BaseCatalog, days: int, meals: seq<string>, cityKey: string, dietType: string,
                      conditions: seq<string>, allergies: Option<seq<Option<string>>>, rand: nat -> nat)
    returns (result: Result<PlanResult, CatalogError>, ghost accepted: seq<set<string>>)
    ensures result.Failure? <==> cityKey !in base.cities
    ensures result.Success? ==>
      && Filtered(base.cities[cityKey], result.value.catalogUsed, dietType, conditions, allergies,
                  base.excludeFruitsAsLemons)
      && result.value.plans == Plans(result.value.catalogUsed, if days > 0 then days else 0, meals, rand).plans
      && |result.value.plans| == (if days > 0 then days else 0)
      && |accepted| == |result.value.plans|
      && (forall d :: 0 <= d < |result.value.plans| ==>
            DayOk(result.value.catalogUsed, result.value.plans[..d], result.value.plans[d], accepted[d], meals))
      && (forall s :: Tally(result.value.plans, accepted, s) <= 3)
  {
    accepted := [];
    var built := BuildCatalog(base, cityKey, dietType, conditions, allergies);
    if built.Failure? {
      return Failure(built.error), accepted;
    }
    var dayPlans;
    dayPlans, accepted := PlanDays(built.value, days, meals, rand);
    return Success(PlanResult(dayPlans, built.value)), accepted;
  }

  /** `Math.min(30, Math.max(1, days))`: the day count the route passes on, for integer input. */
  function ClampDays(n: int): (r: int)
    ensures 1 <= r <= 30
    ensures 1 <= n <= 30 ==> r == n
    ensures n < 1 ==> r == 1
    ensures n > 30 ==> r == 30
  {
    if n < 1 then 1 else if n > 30 then 30 else n
  }
}
