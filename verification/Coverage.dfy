/** Coverage accounting of one scan (collector/coverage.py). */
module CoverageAccounting {
  import opened Sums

  /** `collections.Counter`: an absent key counts zero. */
  type Counter = map<string, int>

  function Get(c: Counter, k: string): int {
    if k in c then c[k] else 0
  }

  function Increment(c: Counter, k: string): Counter {
    c[k := Get(c, k) + 1]
  }

  /** `c[k] -= 1`, then delete the key when it is no longer positive. */
  function Decrement(c: Counter, k: string): Counter {
    var n := Get(c, k) - 1;
    if n <= 0 then c - {k} else c[k := n]
  }

  lemma SumSplit(c: Counter, k: string)
    ensures IntSum(c) == Get(c, k) + IntSum(c - {k})
  {
    if k in c {
      IntSumRemove(c, k);
    } else {
      assert c - {k} == c;
    }
  }

  lemma SumIncrement(c: Counter, k: string)
    ensures IntSum(Increment(c, k)) == IntSum(c) + 1
  {
    SumSplit(c, k);
    SumSplit(Increment(c, k), k);
    assert Increment(c, k) - {k} == c - {k};
  }

  lemma SumDecrement(c: Counter, k: string)
    requires Get(c, k) >= 1
    ensures IntSum(Decrement(c, k)) == IntSum(c) - 1
  {
    SumSplit(c, k);
    SumSplit(Decrement(c, k), k);
    assert Decrement(c, k) - {k} == c - {k};
  }

  // Histories

  datatype Event =
    | Ok(stack: string)
    | Failure(stack: string, reason: string)
    | Skipped(stack: string, reason: string)

  datatype Tally = Tally(
    scanned: int, failures: Counter, skipped: Counter,
    failedStacks: map<string, string>, skippedStacks: map<string, string>)

  const EMPTY := Tally(0, map[], map[], map[], map[])

  function Apply(t: Tally, e: Event): Tally {
    match e
    case Ok(stack) =>
      var t := t.(scanned := t.scanned + 1);
      if stack in t.failedStacks then
        t.(failures := Decrement(t.failures, t.failedStacks[stack]), failedStacks := t.failedStacks - {stack})
      else t
    case Failure(stack, reason) =>
      t.(failures := Increment(t.failures, reason), failedStacks := t.failedStacks[stack := reason])
    case Skipped(stack, reason) =>
      t.(skipped := Increment(t.skipped, reason), skippedStacks := t.skippedStacks[stack := reason])
  }

  function Replay(events: seq<Event>): Tally {
    if events == [] then EMPTY else Apply(Replay(events[..|events| - 1]), events[|events| - 1])
  }

  ghost function Failed(t: Tally): int {
    IntSum(t.failures)
  }

  ghost function SkippedCount(t: Tally): int {
    IntSum(t.skipped)
  }

  ghost function Scannable(t: Tally, total: nat): nat {
    if total > SkippedCount(t) then total - SkippedCount(t) else 0
  }

  /** More than a tenth of the scannable stacks failed; the ratio is compared exactly. */
  ghost predicate AboveAbortRatio(failed: int, scannable: nat) {
    scannable > 0 && 10 * failed > scannable
  }

  // What the counters count

  /** The stacks currently failed with a reason. */
  ghost function Marked(t: Tally, reason: string): set<string> {
    set s | s in t.failedStacks && t.failedStacks[s] == reason
  }

  /** The failures of a stack that was still marked failed, by the reason that mark carried. */
  function Refailures(events: seq<Event>, reason: string): nat {
    if events == [] then 0
    else
      var before, e := events[..|events| - 1], events[|events| - 1];
      var marks := Replay(before).failedStacks;
      Refailures(before, reason)
      + if e.Failure? && e.stack in marks && marks[e.stack] == reason then 1 else 0
  }

  function AllRefailures(events: seq<Event>): nat {
    if events == [] then 0
    else
      var before, e := events[..|events| - 1], events[|events| - 1];
      AllRefailures(before) + if e.Failure? && e.stack in Replay(before).failedStacks then 1 else 0
  }

  /** The successes of a stack that was marked failed. */
  function Heals(events: seq<Event>): nat {
    if events == [] then 0
    else
      var before, e := events[..|events| - 1], events[|events| - 1];
      Heals(before) + if e.Ok? && e.stack in Replay(before).failedStacks then 1 else 0
  }

  ghost predicate PositiveEntries(c: Counter) {
    forall r :: r in c ==> c[r] > 0
  }

  lemma MarkedAfterFailure(t: Tally, stack: string, reason: string, r: string)
    ensures var marked := Marked(Apply(t, Failure(stack, reason)), r);
            |marked| == |Marked(t, r)|
              + (if r == reason && stack !in Marked(t, r) then 1 else 0)
              - (if r != reason && stack in Marked(t, r) then 1 else 0)
  {
    var marked := Marked(Apply(t, Failure(stack, reason)), r);
    if r == reason {
      assert marked == Marked(t, r) + {stack};
    } else {
      assert marked == Marked(t, r) - {stack};
    }
  }

  lemma MarkedAfterOk(t: Tally, stack: string, r: string)
    ensures Marked(Apply(t, Ok(stack)), r) == Marked(t, r) - {stack}
  {
  }

  /** Every failure counter is exactly the stacks now failed with that reason plus the failures that hit a
      stack already marked with it. */
  lemma {:induction false} CountersAreExact(events: seq<Event>, r: string)
    ensures var t := Replay(events);
            PositiveEntries(t.failures) && Get(t.failures, r) == |Marked(t, r)| + Refailures(events, r)
  {
    if events == [] {
      assert Marked(EMPTY, r) == {};
    } else {
      var before, e := events[..|events| - 1], events[|events| - 1];
      CountersAreExact(before, r);
      CountStep(Replay(before), e, r);
    }
  }

  predicate Refails(t: Tally, e: Event, r: string) {
    e.Failure? && e.stack in t.failedStacks && t.failedStacks[e.stack] == r
  }

  /** What one record call does to a counter and its marks. */
  lemma CountStep(t: Tally, e: Event, r: string)
    requires PositiveEntries(t.failures) && Get(t.failures, r) >= |Marked(t, r)|
    ensures var t' := Apply(t, e);
            && PositiveEntries(t'.failures)
            && Get(t'.failures, r) - |Marked(t', r)|
               == Get(t.failures, r) - |Marked(t, r)| + if Refails(t, e, r) then 1 else 0
  {
    match e
    case Ok(stack) =>
      OkStep(t, stack, r);
    case Failure(stack, reason) =>
      MarkedAfterFailure(t, stack, reason, r);
    case Skipped(_, _) =>
      assert Marked(Apply(t, e), r) == Marked(t, r);
  }

  lemma OkStep(t: Tally, stack: string, r: string)
    requires PositiveEntries(t.failures) && Get(t.failures, r) >= |Marked(t, r)|
    ensures var t' := Apply(t, Ok(stack));
            && PositiveEntries(t'.failures)
            && Get(t'.failures, r) - |Marked(t', r)| == Get(t.failures, r) - |Marked(t, r)|
  {
    MarkedAfterOk(t, stack, r);
    if stack in Marked(t, r) {
      assert |Marked(t, r) - {stack}| == |Marked(t, r)| - 1;
    } else {
      assert Marked(t, r) - {stack} == Marked(t, r);
    }
  }

  /** Record calls are replayed one at a time. */
  lemma ReplaySnoc(events: seq<Event>, e: Event)
    ensures Replay(events + [e]) == Apply(Replay(events), e)
  {
    assert (events + [e])[..|events|] == events;
  }

  /** A success never decrements a counter that is not there. */
  lemma HealedReasonIsCounted(events: seq<Event>, stack: string)
    requires stack in Replay(events).failedStacks
    ensures Get(Replay(events).failures, Replay(events).failedStacks[stack]) >= 1
  {
    var t := Replay(events);
    CountersAreExact(events, t.failedStacks[stack]);
    assert stack in Marked(t, t.failedStacks[stack]);
  }

  lemma {:induction false} FailedIsExact(events: seq<Event>)
    ensures Failed(Replay(events)) == |Replay(events).failedStacks| + AllRefailures(events)
  {
    if events != [] {
      var before, e := events[..|events| - 1], events[|events| - 1];
      FailedIsExact(before);
      var t := Replay(before);
      match e
      case Ok(stack) =>
        if stack in t.failedStacks {
          HealedReasonIsCounted(before, stack);
          SumDecrement(t.failures, t.failedStacks[stack]);
        }
      case Failure(stack, reason) =>
        SumIncrement(t.failures, reason);
      case Skipped(_, _) =>
    }
  }

  lemma {:induction false} RefailuresBound(events: seq<Event>, r: string)
    ensures Refailures(events, r) <= AllRefailures(events)
    ensures AllRefailures(events) > 0 ==> exists q :: Refailures(events, q) > 0
  {
    if events != [] {
      var before, e := events[..|events| - 1], events[|events| - 1];
      RefailuresBound(before, r);
      var marks := Replay(before).failedStacks;
      if e.Failure? && e.stack in marks {
        assert Refailures(events, marks[e.stack]) > 0;
      } else if AllRefailures(before) > 0 {
        var q :| Refailures(before, q) > 0;
        assert Refailures(events, q) > 0;
      }
    }
  }

  ghost predicate CountsMarks(t: Tally, r: string) {
    Get(t.failures, r) == |Marked(t, r)|
  }

  /** The counters agree with the marks exactly when no stack failed while it was still marked failed. */
  lemma AgreementIffNoRefailure(events: seq<Event>)
    ensures (forall r :: CountsMarks(Replay(events), r)) <==> AllRefailures(events) == 0
  {
    if AllRefailures(events) == 0 {
      forall r ensures CountsMarks(Replay(events), r) {
        CountersAreExact(events, r);
        RefailuresBound(events, r);
      }
    } else {
      RefailuresBound(events, "");
      var q :| Refailures(events, q) > 0;
      CountersAreExact(events, q);
      assert !CountsMarks(Replay(events), q);
    }
  }

  /** The abort ratio is a tenth of the scannable stacks: more aborts, exactly a tenth does not. */
  lemma AbortIsAboveATenth(failed: nat, scannable: nat)
    ensures AboveAbortRatio(failed, scannable) <==> scannable > 0 && failed as real / scannable as real > 0.1
  {
    if scannable > 0 {
      var ratio := failed as real / scannable as real;
      Scale(ratio - 0.1, scannable as real);
      Scale(0.1 - ratio, scannable as real);
      assert (ratio - 0.1) * scannable as real == failed as real - 0.1 * scannable as real;
      assert failed as real > 0.1 * scannable as real <==> 10 * failed > scannable;
    }
  }

  lemma Scale(x: real, k: real)
    requires k > 0.0
    ensures x > 0.0 ==> x * k > 0.0
    ensures x >= 0.0 ==> x * k >= 0.0
    ensures (0.0 - x) * k == 0.0 - x * k
  {
  }

  /** The skips recorded with a reason. */
  function SkipsOf(events: seq<Event>, reason: string): nat {
    if events == [] then 0
    else
      var e := events[|events| - 1];
      SkipsOf(events[..|events| - 1], reason) + if e.Skipped? && e.reason == reason then 1 else 0
  }

  /** The skip counters are those, whatever else happened to the stacks, and the scannable stacks are the estate less
      all skips. */
  lemma {:induction false} SkipsAreExact(events: seq<Event>, reason: string)
    ensures Get(Replay(events).skipped, reason) == SkipsOf(events, reason)
  {
    if events != [] {
      SkipsAreExact(events[..|events| - 1], reason);
    }
  }

  /** The abort decision counts at least every stack that is failed at the end. */
  lemma AbortNeverUndercounts(events: seq<Event>, total: nat)
    requires AboveAbortRatio(|Replay(events).failedStacks|, Scannable(Replay(events), total))
    ensures AboveAbortRatio(Failed(Replay(events)), Scannable(Replay(events), total))
  {
    FailedIsExact(events);
  }

  /** Every record call is counted once, except that a heal takes one failure back. */
  lemma {:induction false} Balance(events: seq<Event>)
    ensures var t := Replay(events);
            t.scanned + Failed(t) + SkippedCount(t) + Heals(events) == |events|
            && 0 <= Heals(events) <= t.scanned && Failed(t) >= 0 && SkippedCount(t) >= 0
  {
    if events != [] {
      var before, e := events[..|events| - 1], events[|events| - 1];
      Balance(before);
      FailedIsExact(events);
      var t := Replay(before);
      match e
      case Ok(stack) =>
        if stack in t.failedStacks {
          HealedReasonIsCounted(before, stack);
          SumDecrement(t.failures, t.failedStacks[stack]);
        }
      case Failure(_, reason) =>
        SumIncrement(t.failures, reason);
      case Skipped(_, reason) =>
        SumIncrement(t.skipped, reason);
    }
  }

  function StackOf(e: Event): string {
    e.stack
  }

  /** Every record call is about a stack of the estate, and no two are about one stack. */
  ghost predicate OncePerStack(events: seq<Event>, estate: set<string>) {
    && (forall e :: e in events ==> StackOf(e) in estate)
    && (forall i, j :: 0 <= i < j < |events| ==> StackOf(events[i]) != StackOf(events[j]))
  }

  lemma {:induction false} AtMostOnePerStack(events: seq<Event>, estate: set<string>)
    requires OncePerStack(events, estate)
    ensures |events| <= |estate|
    decreases |events|
  {
    if events != [] {
      var n := |events| - 1;
      assert events[n] in events;
      AtMostOnePerStack(events[..n], estate - {StackOf(events[n])});
    }
  }

  /** A tier that makes at most one record call per stack keeps failed plus skipped within the estate,
      and covers no more than the scannable estate. */
  lemma OneRecordPerStack(events: seq<Event>, estate: set<string>, total: nat)
    requires OncePerStack(events, estate) && |estate| <= total
    ensures var t := Replay(events);
            && Failed(t) + SkippedCount(t) <= total
            && 0 <= Failed(t) <= Scannable(t, total)
            && t.scanned + Failed(t) <= Scannable(t, total)
  {
    AtMostOnePerStack(events, estate);
    Balance(events);
  }

  /** Two records for one stack break the bound: a skipped stack that also failed. */
  lemma TwoRecordsBreakTheBound()
    ensures var t := Replay([Skipped("a", "paused"), Failure("a", "timeout")]);
            Failed(t) + SkippedCount(t) == 2 && Scannable(t, 1) == 0 && Failed(t) == 1
  {
    var events := [Skipped("a", "paused"), Failure("a", "timeout")];
    assert events[..1] == [Skipped("a", "paused")];
    assert events[..1][..0] == [];
    SumIncrement(map[], "paused");
    SumIncrement(map[], "timeout");
  }

  /** `failures[reason] -= 1`, and the entry goes when nothing is left of it. */
  method TakeBack(failures: Counter, reason: string) returns (remaining: Counter)
    requires Get(failures, reason) >= 1
    ensures remaining == Decrement(failures, reason) && IntSum(remaining) == IntSum(failures) - 1
  {
    remaining := failures[reason := Get(failures, reason) - 1];
    if remaining[reason] <= 0 {
      remaining := remaining - {reason};
    }
    assert remaining == Decrement(failures, reason);
    SumDecrement(failures, reason);
  }

  // The object

  class Coverage {
    const tier: string
    const total: nat
    var scanned: int
    var failures: Counter
    var skipped: Counter
    var failedStacks: map<string, string>
    var skippedStacks: map<string, string>
    ghost var events: seq<Event>

    ghost function Snapshot(): Tally
      reads this
    {
      Tally(scanned, failures, skipped, failedStacks, skippedStacks)
    }

    /** The fields are what the record calls made so far leave. */
    ghost predicate Valid()
      reads this
    {
      Snapshot() == Replay(events)
    }

    constructor (tier: string, total: nat)
      ensures Valid() && events == [] && this.tier == tier && this.total == total
    {
      this.tier, this.total := tier, total;
      scanned, failures, skipped := 0, map[], map[];
      failedStacks, skippedStacks := map[], map[];
      events := [];
    }

    method RecordOk(stack: string)
      requires Valid()
      modifies this
      ensures Valid() && events == old(events) + [Ok(stack)]
      ensures stack !in failedStacks
      ensures IntSum(failures) == old(IntSum(failures)) - if old(stack in failedStacks) then 1 else 0
    {
      ReplaySnoc(events, Ok(stack));
      scanned := scanned + 1;
      if stack in failedStacks {
        var reason := failedStacks[stack];
        HealedReasonIsCounted(events, stack);
        failedStacks := failedStacks - {stack};
        failures := TakeBack(failures, reason);
      }
      events := events + [Ok(stack)];
    }

    method RecordFailure(stack: string, reason: string)
      requires Valid()
      modifies this
      ensures Valid() && events == old(events) + [Failure(stack, reason)]
      ensures failedStacks == old(failedStacks)[stack := reason]
      ensures IntSum(failures) == old(IntSum(failures)) + 1
    {
      SumIncrement(failures, reason);
      ReplaySnoc(events, Failure(stack, reason));
      failures := failures[reason := Get(failures, reason) + 1];
      failedStacks := failedStacks[stack := reason];
      events := events + [Failure(stack, reason)];
    }

    method RecordSkipped(stack: string, reason: string)
      requires Valid()
      modifies this
      ensures Valid() && events == old(events) + [Skipped(stack, reason)]
      ensures failures == old(failures) && failedStacks == old(failedStacks)
      ensures IntSum(skipped) == old(IntSum(skipped)) + 1
    {
      SumIncrement(skipped, reason);
      ReplaySnoc(events, Skipped(stack, reason));
      skipped := skipped[reason := Get(skipped, reason) + 1];
      skippedStacks := skippedStacks[stack := reason];
      events := events + [Skipped(stack, reason)];
    }
  }

  datatype Stack = Stack(slug: string, paused: bool)

  function InventoryEvents(stacks: seq<Stack>): seq<Event> {
    seq(|stacks|, i requires 0 <= i < |stacks| =>
      if stacks[i].paused then Skipped(stacks[i].slug, "paused") else Ok(stacks[i].slug))
  }

  /** The hourly tier's loop (scan.py, `run_t1`): it fails no stack and scans all that are scannable. */
  method RecordInventory(stacks: seq<Stack>) returns (coverage: Coverage)
    ensures fresh(coverage) && coverage.Valid() && coverage.total == |stacks|
    ensures coverage.events == InventoryEvents(stacks)
    ensures coverage.failedStacks == map[] && IntSum(coverage.failures) == 0
    ensures coverage.scanned == Scannable(coverage.Snapshot(), coverage.total)
  {
    coverage := new Coverage("t1", |stacks|);
    for i := 0 to |stacks|
      invariant fresh(coverage) && coverage.Valid() && coverage.total == |stacks|
      invariant coverage.events == InventoryEvents(stacks)[..i]
      invariant coverage.failedStacks == map[] && coverage.failures == map[]
      invariant coverage.scanned + IntSum(coverage.skipped) == i
    {
      if stacks[i].paused {
        coverage.RecordSkipped(stacks[i].slug, "paused");
      } else {
        coverage.RecordOk(stacks[i].slug);
      }
    }
    Balance(coverage.events);
  }
}
