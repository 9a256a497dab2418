/** Per-stack pricing with included data points per minute (bin/dashboards.py, `_dpm_pricing` and
    `_dpm_regime_savings`), on instant vectors keyed by stack. Values are exact reals. */
module DpmPricing {
  import opened Sums

  /** One sample per stack. */
  type Vector = map<string, real>

  /** The rate card's row for metrics series. */
  datatype Rate = Rate(rate: real, per: real, includedDpm: real)

  /** What the usage datasource holds: active series, data points per minute, and the recommended reduction,
      which many stacks do not have. */
  datatype Usage = Usage(active: Vector, totalDpm: Vector, recommended: Vector)

  predicate Priced(r: Rate) {
    r.rate >= 0.0 && r.per > 0.0 && r.includedDpm > 0.0
  }

  predicate NonNegative(v: Vector) {
    forall s :: s in v ==> v[s] >= 0.0
  }

  // PromQL on such vectors: arithmetic joins on the stack, `or` fills what the left side lacks

  function Minus(a: Vector, b: Vector): Vector {
    map s | s in a && s in b :: a[s] - b[s]
  }

  function Plus(a: Vector, b: Vector): Vector {
    map s | s in a && s in b :: a[s] + b[s]
  }

  function Times(a: Vector, k: real): Vector {
    map s | s in a :: a[s] * k
  }

  function Over(a: Vector, k: real): Vector
    requires k != 0.0
  {
    map s | s in a :: a[s] / k
  }

  function ClampMin(a: Vector, low: real): Vector {
    map s | s in a :: if a[s] < low then low else a[s]
  }

  function Or(a: Vector, b: Vector): Vector {
    b + a
  }

  // The expressions

  function Floor(u: Usage, r: Rate): Vector
    requires Priced(r)
  {
    Over(u.totalDpm, r.includedDpm)
  }

  function Reduction(u: Usage): Vector {
    Or(u.recommended, Times(u.active, 0.0))
  }

  function AfterActive(u: Usage): Vector {
    ClampMin(Minus(u.active, Reduction(u)), 0.0)
  }

  /** `floor + clamp_min(value - floor, 0)`. */
  function Billed(value: Vector, floor: Vector): Vector {
    Plus(floor, ClampMin(Minus(value, floor), 0.0))
  }

  function BeforeUsage(u: Usage, r: Rate): Vector
    requires Priced(r)
  {
    Billed(u.active, Floor(u, r))
  }

  function AfterUsage(u: Usage, r: Rate): Vector
    requires Priced(r)
  {
    Billed(AfterActive(u), Floor(u, r))
  }

  function Cost(usage: Vector, r: Rate): Vector
    requires Priced(r)
  {
    Times(Over(usage, r.per), r.rate)
  }

  function Saving(u: Usage, r: Rate): Vector
    requires Priced(r)
  {
    Cost(ClampMin(Minus(BeforeUsage(u, r), AfterUsage(u, r)), 0.0), r)
  }

  // What they mean

  function Max(a: real, b: real): real {
    if a < b then b else a
  }

  /** The two-step form is the element-wise maximum, on the stacks both sides have. */
  lemma BilledIsMax(value: Vector, floor: Vector)
    ensures Billed(value, floor) == map s | s in value && s in floor :: Max(value[s], floor[s])
  {
  }

  /** No stack falls out of the after side: the stacks priced after are those priced before. */
  lemma SameStacks(u: Usage, r: Rate)
    requires Priced(r)
    ensures BeforeUsage(u, r).Keys == AfterUsage(u, r).Keys == Saving(u, r).Keys == u.active.Keys * u.totalDpm.Keys
  {
  }

  ghost predicate Sane(u: Usage) {
    NonNegative(u.active) && NonNegative(u.totalDpm) && NonNegative(u.recommended)
  }

  lemma AfterAt(u: Usage, s: string)
    requires Sane(u) && s in u.active
    ensures s in AfterActive(u) && s in Reduction(u)
    ensures Reduction(u)[s] == if s in u.recommended then u.recommended[s] else 0.0
    ensures AfterActive(u)[s] == Max(u.active[s] - Reduction(u)[s], 0.0) <= u.active[s]
  {
  }

  function Price(usage: real, r: Rate): real
    requires Priced(r)
  {
    usage / r.per * r.rate
  }

  lemma PriceLinear(a: real, b: real, r: Rate)
    requires Priced(r)
    ensures Price(a - b, r) == Price(a, r) - Price(b, r)
    ensures a >= 0.0 ==> Price(a, r) >= 0.0
  {
    assert (a - b) / r.per == a / r.per - b / r.per;
  }

  lemma MaxShrinks(a: real, b: real, f: real)
    requires b <= a
    ensures 0.0 <= Max(a, f) - Max(b, f) <= a - b
  {
  }

  lemma UsageAt(u: Usage, r: Rate, s: string)
    requires Priced(r) && s in u.active && s in u.totalDpm
    ensures s in BeforeUsage(u, r) && BeforeUsage(u, r)[s] == Max(u.active[s], u.totalDpm[s] / r.includedDpm)
    ensures s in AfterUsage(u, r) && AfterUsage(u, r)[s] == Max(AfterActive(u)[s], u.totalDpm[s] / r.includedDpm)
  {
    BilledIsMax(u.active, Floor(u, r));
    BilledIsMax(AfterActive(u), Floor(u, r));
  }

  lemma CostAt(usage: Vector, r: Rate, s: string)
    requires Priced(r) && s in usage
    ensures s in Cost(usage, r) && Cost(usage, r)[s] == Price(usage[s], r)
  {
    assert Over(usage, r.per)[s] == usage[s] / r.per;
  }

  lemma ClampedDifferenceAt(a: Vector, b: Vector, s: string)
    requires s in a && s in b
    ensures s in ClampMin(Minus(a, b), 0.0) && ClampMin(Minus(a, b), 0.0)[s] == Max(a[s] - b[s], 0.0)
  {
  }

  lemma SavingAt(u: Usage, r: Rate, s: string)
    requires Priced(r) && s in BeforeUsage(u, r) && s in AfterUsage(u, r)
    ensures s in Saving(u, r)
    ensures Saving(u, r)[s] == Price(Max(BeforeUsage(u, r)[s] - AfterUsage(u, r)[s], 0.0), r)
    ensures s in Cost(BeforeUsage(u, r), r) && s in Cost(AfterUsage(u, r), r)
    ensures Cost(BeforeUsage(u, r), r)[s] == Price(BeforeUsage(u, r)[s], r)
    ensures Cost(AfterUsage(u, r), r)[s] == Price(AfterUsage(u, r)[s], r)
  {
    var before, after := BeforeUsage(u, r), AfterUsage(u, r);
    ClampedDifferenceAt(before, after, s);
    CostAt(ClampMin(Minus(before, after), 0.0), r, s);
    CostAt(before, r, s);
    CostAt(after, r, s);
  }

  /** A difference between nothing and a bound prices between nothing and the bound's price. */
  lemma PriceBetween(d: real, bound: real, r: Rate)
    requires Priced(r) && 0.0 <= d <= bound
    ensures 0.0 <= Price(d, r) <= Price(bound, r)
  {
    PriceLinear(d, 0.0, r);
    PriceLinear(bound, d, r);
    PriceLinear(bound - d, 0.0, r);
  }

  lemma UsageShrinks(u: Usage, r: Rate, s: string)
    requires Priced(r) && Sane(u) && s in u.active && s in u.totalDpm
    ensures s in BeforeUsage(u, r) && s in AfterUsage(u, r) && s in Reduction(u)
    ensures 0.0 <= BeforeUsage(u, r)[s] - AfterUsage(u, r)[s] <= Reduction(u)[s]
    ensures Reduction(u)[s] == if s in u.recommended then u.recommended[s] else 0.0
  {
    UsageAt(u, r, s);
    AfterAt(u, s);
    MaxShrinks(u.active[s], AfterActive(u)[s], u.totalDpm[s] / r.includedDpm);
  }

  /** The saving shown for a stack is its cost before minus its cost after, and lies between nothing and the
      price of the whole reduction. */
  lemma SavingIsDifference(u: Usage, r: Rate, s: string)
    requires Priced(r) && Sane(u) && s in u.active && s in u.totalDpm
    ensures s in Saving(u, r) && s in Cost(BeforeUsage(u, r), r) && s in Cost(AfterUsage(u, r), r)
    ensures Saving(u, r)[s] == Cost(BeforeUsage(u, r), r)[s] - Cost(AfterUsage(u, r), r)[s]
    ensures 0.0 <= Saving(u, r)[s] <= Price(if s in u.recommended then u.recommended[s] else 0.0, r)
  {
    UsageShrinks(u, r, s);
    SavingAt(u, r, s);
    DifferencePrices(BeforeUsage(u, r)[s], AfterUsage(u, r)[s], Reduction(u)[s], r);
  }

  lemma DifferencePrices(before: real, after: real, bound: real, r: Rate)
    requires Priced(r) && 0.0 <= before - after <= bound
    ensures Price(Max(before - after, 0.0), r) == Price(before, r) - Price(after, r)
    ensures 0.0 <= Price(Max(before - after, 0.0), r) <= Price(bound, r)
  {
    PriceLinear(before, after, r);
    PriceBetween(before - after, bound, r);
  }

  lemma {:induction false} SumDifference(d: Vector, a: Vector, b: Vector)
    requires d.Keys == a.Keys == b.Keys && forall s :: s in d ==> d[s] == a[s] - b[s]
    ensures RealSum(d) == RealSum(a) - RealSum(b)
    decreases |d|
  {
    if d != map[] {
      var s :| s in d;
      RealSumRemove(d, s);
      RealSumRemove(a, s);
      RealSumRemove(b, s);
      SumDifference(d - {s}, a - {s}, b - {s});
    } else {
      assert a == map[] && b == map[];
    }
  }

  /** The savings of all stacks add up to the estate's cost before minus its cost after. */
  lemma SavingsAddUp(u: Usage, r: Rate)
    requires Priced(r) && Sane(u)
    ensures RealSum(Saving(u, r)) == RealSum(Cost(BeforeUsage(u, r), r)) - RealSum(Cost(AfterUsage(u, r), r))
  {
    SameStacks(u, r);
    forall s | s in Saving(u, r)
      ensures Saving(u, r)[s] == Cost(BeforeUsage(u, r), r)[s] - Cost(AfterUsage(u, r), r)[s]
    {
      SavingIsDifference(u, r, s);
    }
    SumDifference(Saving(u, r), Cost(BeforeUsage(u, r), r), Cost(AfterUsage(u, r), r));
  }

  /** Billing the estate as one stack never comes to more than billing it stack by stack, which is why the
      maximum is taken before summing. */
  lemma {:induction false} SummingFirstUnderbills(value: Vector, floor: Vector)
    requires value.Keys == floor.Keys
    ensures Max(RealSum(value), RealSum(floor)) <= RealSum(Billed(value, floor))
    decreases |value|
  {
    BilledIsMax(value, floor);
    if value == map[] {
      assert floor == map[];
    } else {
      var s :| s in value;
      RealSumRemove(value, s);
      RealSumRemove(floor, s);
      RealSumRemove(Billed(value, floor), s);
      BilledIsMax(value - {s}, floor - {s});
      assert Billed(value, floor) - {s} == Billed(value - {s}, floor - {s});
      SummingFirstUnderbills(value - {s}, floor - {s});
    }
  }

  /** What a stack costs before and after, from its data: the larger of its active series and the series its data points
      per minute pay for, at the card's rate. */
  lemma CostByData(u: Usage, r: Rate, s: string)
    requires Priced(r) && Sane(u) && s in u.active && s in u.totalDpm
    ensures var paid := u.totalDpm[s] / r.includedDpm;
            var left := u.active[s] - if s in u.recommended then u.recommended[s] else 0.0;
            var after := if left < 0.0 then 0.0 else left;
            && s in Cost(BeforeUsage(u, r), r) && s in Cost(AfterUsage(u, r), r)
            && Cost(BeforeUsage(u, r), r)[s] == Max(u.active[s], paid) / r.per * r.rate
            && Cost(AfterUsage(u, r), r)[s] == Max(after, paid) / r.per * r.rate
  {
    UsageByData(u, r, s);
    var before, after := BeforeUsage(u, r), AfterUsage(u, r);
    var paid := u.totalDpm[s] / r.includedDpm;
    var left := u.active[s] - if s in u.recommended then u.recommended[s] else 0.0;
    PriceAt(before, r, s, Max(u.active[s], paid));
    PriceAt(after, r, s, Max(if left < 0.0 then 0.0 else left, paid));
  }

  lemma PriceAt(usage: Vector, r: Rate, s: string, x: real)
    requires Priced(r) && s in usage && usage[s] == x
    ensures s in Cost(usage, r) && Cost(usage, r)[s] == x / r.per * r.rate
  {
    CostAt(usage, r, s);
  }

  lemma UsageByData(u: Usage, r: Rate, s: string)
    requires Priced(r) && Sane(u) && s in u.active && s in u.totalDpm
    ensures var paid := u.totalDpm[s] / r.includedDpm;
            var left := u.active[s] - if s in u.recommended then u.recommended[s] else 0.0;
            var after := if left < 0.0 then 0.0 else left;
            && s in BeforeUsage(u, r) && BeforeUsage(u, r)[s] == Max(u.active[s], paid)
            && s in AfterUsage(u, r) && AfterUsage(u, r)[s] == Max(after, paid)
  {
    UsageAt(u, r, s);
    AfterAt(u, s);
  }

  /** Pricing the sums instead: the saving of the estate as if it were one stack. */
  ghost function SavingOfSums(u: Usage, r: Rate): real
    requires Priced(r)
  {
    var floor := RealSum(Floor(u, r));
    Price(Max(Max(RealSum(u.active), floor) - Max(RealSum(AfterActive(u)), floor), 0.0), r)
  }

  const UNIT := Rate(1.0, 1.0, 1.0)

  function Pair(a: real, b: real): Vector {
    map["a" := a, "b" := b]
  }

  lemma PairSum(a: real, b: real)
    ensures RealSum(Pair(a, b)) == a + b
  {
    RealSumRemove(Pair(a, b), "a");
    assert Pair(a, b) - {"a"} == map["b" := b];
    RealSumRemove(map["b" := b], "b");
    assert map["b" := b] - {"b"} == map[];
  }

  lemma SumOfTwo(v: Vector, a: real, b: real)
    requires v.Keys == {"a", "b"} && v["a"] == a && v["b"] == b
    ensures RealSum(v) == a + b
  {
    assert v == Pair(a, b);
    PairSum(a, b);
  }

  /** Two stacks at unit price, of which the first is recommended to reduce its series. */
  function TwoStacks(active: real, floor: real, other: real, otherFloor: real, reduction: real): Usage {
    Usage(Pair(active, other), Pair(floor, otherFloor), map["a" := reduction])
  }

  lemma TwoStacksVectors(active: real, floor: real, other: real, otherFloor: real, reduction: real)
    requires other >= 0.0 && 0.0 <= reduction <= active
    ensures var u := TwoStacks(active, floor, other, otherFloor, reduction);
            AfterActive(u) == Pair(active - reduction, other) && Floor(u, UNIT) == Pair(floor, otherFloor)
  {
    var u := TwoStacks(active, floor, other, otherFloor, reduction);
    assert Reduction(u) == Pair(reduction, 0.0);
  }

  lemma UnitSaving(u: Usage, s: string)
    requires s in u.active && s in u.totalDpm
    ensures s in Saving(u, UNIT) && s in AfterActive(u)
    ensures Saving(u, UNIT)[s]
            == Max(Max(u.active[s], u.totalDpm[s]) - Max(AfterActive(u)[s], u.totalDpm[s]), 0.0)
  {
    UsageAt(u, UNIT, s);
    SavingAt(u, UNIT, s);
  }

  lemma TwoStacksSaving(active: real, floor: real, other: real, otherFloor: real, reduction: real)
    requires other >= 0.0 && 0.0 <= reduction <= active
    ensures var u := TwoStacks(active, floor, other, otherFloor, reduction);
            RealSum(Saving(u, UNIT)) == Max(active, floor) - Max(active - reduction, floor)
  {
    var u := TwoStacks(active, floor, other, otherFloor, reduction);
    TwoStacksVectors(active, floor, other, otherFloor, reduction);
    assert u.active == Pair(active, other) && u.totalDpm == Pair(floor, otherFloor);
    UnitSaving(u, "a");
    UnitSaving(u, "b");
    SameStacks(u, UNIT);
    SumOfTwo(Saving(u, UNIT), Max(active, floor) - Max(active - reduction, floor), 0.0);
  }

  lemma TwoStacksOfSums(active: real, floor: real, other: real, otherFloor: real, reduction: real)
    requires other >= 0.0 && 0.0 <= reduction <= active
    ensures SavingOfSums(TwoStacks(active, floor, other, otherFloor, reduction), UNIT)
            == Max(active + other, floor + otherFloor) - Max(active - reduction + other, floor + otherFloor)
  {
    TwoStacksVectors(active, floor, other, otherFloor, reduction);
    PairSum(active, other);
    PairSum(active - reduction, other);
    PairSum(floor, otherFloor);
  }

  /** Summing first misstates the saving in both directions: it counts a reduction that the stack's own floor makes
      worthless, and it loses one that another stack's floor hides. */
  lemma SummingFirstMisstates()
    ensures var u := TwoStacks(100.0, 100.0, 100.0, 0.0, 100.0);
            RealSum(Saving(u, UNIT)) == 0.0 && SavingOfSums(u, UNIT) == 100.0
    ensures var u := TwoStacks(100.0, 0.0, 0.0, 200.0, 100.0);
            RealSum(Saving(u, UNIT)) == 100.0 && SavingOfSums(u, UNIT) == 0.0
  {
    TwoStacksSaving(100.0, 100.0, 100.0, 0.0, 100.0);
    TwoStacksOfSums(100.0, 100.0, 100.0, 0.0, 100.0);
    TwoStacksSaving(100.0, 0.0, 0.0, 200.0, 100.0);
    TwoStacksOfSums(100.0, 0.0, 0.0, 200.0, 100.0);
  }

  // Regimes

  datatype Regime = ActiveToActive | ActiveToBalanced | ActiveToDpm | BalancedToBalanced | BalancedToDpm | DpmToDpm

  const TRANSITIONS := [ActiveToActive, ActiveToBalanced, ActiveToDpm, BalancedToBalanced, BalancedToDpm, DpmToDpm]

  /** The two predicates of a regime, on what a stack had before and has after. */
  predicate Selected(regime: Regime, before: real, after: real, floor: real) {
    match regime
    case ActiveToActive => before > floor && after > floor
    case ActiveToBalanced => before > floor && after == floor
    case ActiveToDpm => before > floor && after < floor
    case BalancedToBalanced => before == floor && after == floor
    case BalancedToDpm => before == floor && after < floor
    case DpmToDpm => before < floor && after < floor
  }

  datatype Labelled = Labelled(stack: string, regime: Regime)

  /** The regime selects the stack, by what it has before and after and by its floor. */
  predicate SelectedBy(u: Usage, r: Rate, g: Regime, s: string)
    requires Priced(r)
  {
    && s in u.active && s in AfterActive(u) && s in Floor(u, r)
    && Selected(g, u.active[s], AfterActive(u)[s], Floor(u, r)[s])
  }

  /** The ranked stacks under the given regimes. */
  function LabelledBy(u: Usage, r: Rate, ranked: set<string>, regimes: seq<Regime>): set<Labelled>
    requires Priced(r)
  {
    set s, g | s in ranked && g in regimes && SelectedBy(u, r, g, s) :: Labelled(s, g)
  }

  /** The union over the table: each ranked stack under every regime that selects it. */
  method LabelRegimes(u: Usage, r: Rate, ranked: set<string>) returns (labelled: set<Labelled>)
    requires Priced(r)
    ensures labelled == LabelledBy(u, r, ranked, TRANSITIONS)
  {
    labelled := {};
    for i := 0 to |TRANSITIONS|
      invariant labelled == LabelledBy(u, r, ranked, TRANSITIONS[..i])
    {
      var g := TRANSITIONS[i];
      assert forall x :: x in TRANSITIONS[..i + 1] <==> x in TRANSITIONS[..i] || x == g;
      labelled := labelled + set s | s in ranked && SelectedBy(u, r, g, s) :: Labelled(s, g);
    }
    assert TRANSITIONS[..|TRANSITIONS|] == TRANSITIONS;
  }

  /** Every stack that has a saving is under exactly one regime of the table. */
  lemma ExactlyOneRegime(u: Usage, r: Rate, s: string)
    requires Priced(r) && Sane(u) && s in u.active && s in u.totalDpm
    ensures exists g :: g in TRANSITIONS && SelectedBy(u, r, g, s)
    ensures forall g, h :: SelectedBy(u, r, g, s) && SelectedBy(u, r, h, s) ==> g == h
  {
    AfterAt(u, s);
    var before, after, floor := u.active[s], AfterActive(u)[s], Floor(u, r)[s];
    assert TRANSITIONS[0] == ActiveToActive && TRANSITIONS[1] == ActiveToBalanced && TRANSITIONS[2] == ActiveToDpm;
    assert TRANSITIONS[3] == BalancedToBalanced && TRANSITIONS[4] == BalancedToDpm && TRANSITIONS[5] == DpmToDpm;
    var g :=
      if before > floor then
        if after > floor then ActiveToActive else if after == floor then ActiveToBalanced else ActiveToDpm
      else if before == floor then
        if after == floor then BalancedToBalanced else BalancedToDpm
      else DpmToDpm;
    assert g in TRANSITIONS && SelectedBy(u, r, g, s);
  }

  /** Which regime a ranked stack is labelled with, from its data: how its active series, before and after the
      recommended reduction, stand to the series its data points per minute pay for. */
  lemma RegimeByData(u: Usage, r: Rate, ranked: set<string>, s: string)
    requires Priced(r) && Sane(u) && s in ranked && s in u.active && s in u.totalDpm
    ensures var paid := u.totalDpm[s] / r.includedDpm;
            var left := u.active[s] - if s in u.recommended then u.recommended[s] else 0.0;
            var after := if left < 0.0 then 0.0 else left;
            var labelled := LabelledBy(u, r, ranked, TRANSITIONS);
            && (Labelled(s, ActiveToActive) in labelled <==> u.active[s] > paid && after > paid)
            && (Labelled(s, ActiveToBalanced) in labelled <==> u.active[s] > paid && after == paid)
            && (Labelled(s, ActiveToDpm) in labelled <==> u.active[s] > paid && after < paid)
            && (Labelled(s, BalancedToBalanced) in labelled <==> u.active[s] == paid && after == paid)
            && (Labelled(s, BalancedToDpm) in labelled <==> u.active[s] == paid && after < paid)
            && (Labelled(s, DpmToDpm) in labelled <==> u.active[s] < paid && after < paid)
  {
    AfterAt(u, s);
    assert TRANSITIONS[0] == ActiveToActive && TRANSITIONS[1] == ActiveToBalanced && TRANSITIONS[2] == ActiveToDpm;
    assert TRANSITIONS[3] == BalancedToBalanced && TRANSITIONS[4] == BalancedToDpm && TRANSITIONS[5] == DpmToDpm;
    assert Floor(u, r)[s] == u.totalDpm[s] / r.includedDpm;
  }

  predicate LabelledOnce(labelled: set<Labelled>, s: string) {
    exists g :: Labelled(s, g) in labelled && forall h :: Labelled(s, h) in labelled ==> h == g
  }

  /** The table shows every ranked stack exactly once and no other: the ranking ranks savings, so each ranked stack
      has one. */
  lemma RankedOnce(u: Usage, r: Rate, ranked: set<string>)
    requires Priced(r) && Sane(u) && ranked <= Saving(u, r).Keys
    ensures var labelled := LabelledBy(u, r, ranked, TRANSITIONS);
            (forall s :: s in ranked ==> LabelledOnce(labelled, s))
            && (forall x :: x in labelled ==> x.stack in ranked)
            && |labelled| == |ranked|
  {
    SameStacks(u, r);
    var labelled := LabelledBy(u, r, ranked, TRANSITIONS);
    forall s | s in ranked ensures LabelledOnce(labelled, s) {
      ExactlyOneRegime(u, r, s);
      var g :| g in TRANSITIONS && SelectedBy(u, r, g, s);
      assert Labelled(s, g) in labelled;
    }
    OnceEach(labelled, ranked);
  }

  lemma {:induction false} OnceEach(labelled: set<Labelled>, ranked: set<string>)
    requires forall s :: s in ranked ==> LabelledOnce(labelled, s)
    requires forall x :: x in labelled ==> x.stack in ranked
    ensures |labelled| == |ranked|
    decreases |ranked|
  {
    if s :| s in ranked {
      assert LabelledOnce(labelled, s);
      var g :| Labelled(s, g) in labelled && forall h :: Labelled(s, h) in labelled ==> h == g;
      var rest, others := labelled - {Labelled(s, g)}, ranked - {s};
      forall x | x in rest ensures x.stack in others {
        assert x == Labelled(x.stack, x.regime);
      }
      forall t | t in others ensures LabelledOnce(rest, t) {
        assert LabelledOnce(labelled, t);
        var k :| Labelled(t, k) in labelled && forall h :: Labelled(t, h) in labelled ==> h == k;
        assert Labelled(t, k) in rest;
      }
      OnceEach(rest, others);
    } else {
      assert labelled == {};
    }
  }
}
