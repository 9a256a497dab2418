/** `project_metric_domains` (scan.py): bounds the open labels of two metric families and sums the
    series that collide afterwards. Values are exact reals here. */
module MetricProjection {
  import opened Ordering
  import opened Sums

  type Labels = map<string, string>

  datatype Series = Series(name: string, labels: Labels, value: real)

  /** What identifies a series; its order is Python's order on `(name, tuple(sorted(labels.items())))`. */
  datatype Key = Key(name: string, labels: Labels)

  const AI_MESSAGES := "gcinsight_ai_estate_messages"
  const STACKS_FAILED := "gcinsight_scan_stacks_failed"

  const METRIC_CATEGORIES: set<string> :=
    {"Investigate", "Observe", "Dashboard", "Learn", "Other", "Errors", "other"}
  const METRIC_SURFACES: set<string> :=
    {"web", "cli", "a2a", "automation", "slack", "lodestone", "unknown", "other"}
  const SCAN_FAILURE_REASONS: set<string> :=
    {"RuntimeError", "KeyError", "ValueError", "MethodNotAllowed", "JSONDecodeError", "DeadlineExceeded", "other"}

  function Bound(vocabulary: set<string>, value: string): string {
    if value in vocabulary then value else "other"
  }

  predicate IsProjected(name: string) {
    name == AI_MESSAGES || name == STACKS_FAILED
  }

  /** The labels the projection reads. A missing one is the source's KeyError. */
  predicate HasLabels(s: Series) {
    && (s.name == AI_MESSAGES ==> "category" in s.labels && "surface" in s.labels)
    && (s.name == STACKS_FAILED ==> "reason" in s.labels)
  }

  predicate WellLabelled(ms: seq<Series>) {
    forall s :: s in ms ==> HasLabels(s)
  }

  function ProjectKey(s: Series): Key
    requires IsProjected(s.name) && HasLabels(s)
  {
    if s.name == AI_MESSAGES then
      Key(s.name, s.labels["category" := Bound(METRIC_CATEGORIES, s.labels["category"])]
                          ["surface" := Bound(METRIC_SURFACES, s.labels["surface"])])
    else
      Key(s.name, s.labels["reason" := Bound(SCAN_FAILURE_REASONS, s.labels["reason"])])
  }

  // The order of the emitted series

  function Items(labels: Labels): seq<(string, string)> {
    PairLessTotal();
    SortedSeq(PairLess, set k | k in labels :: (k, labels[k]))
  }

  predicate KeyLess(a: Key, b: Key) {
    StringLess(a.name, b.name) || (a.name == b.name && ItemsLess(Items(a.labels), Items(b.labels)))
  }

  lemma ItemsInjective(a: Labels, b: Labels)
    requires Items(a) == Items(b)
    ensures a == b
  {
    PairLessTotal();
    var sa := set k | k in a :: (k, a[k]);
    var sb := set k | k in b :: (k, b[k]);
    assert sa == Elements(Items(a)) == Elements(Items(b)) == sb;
    forall k ensures k in a <==> k in b
    ensures k in a && k in b ==> a[k] == b[k]
    {
      if k in a { assert (k, a[k]) in sb; }
      if k in b { assert (k, b[k]) in sa; }
    }
  }

  lemma KeyLessTotal()
    ensures StrictTotal(KeyLess)
  {
    StringLessTotal();
    ItemsLessTotal();
    forall a: Key, b: Key, c: Key | KeyLess(a, b) && KeyLess(b, c) ensures KeyLess(a, c) {
      assert StringLess(a.name, b.name) && StringLess(b.name, c.name) ==> StringLess(a.name, c.name);
      var x, y, z := Items(a.labels), Items(b.labels), Items(c.labels);
      assert ItemsLess(x, y) && ItemsLess(y, z) ==> ItemsLess(x, z);
    }
    forall a: Key, b: Key ensures a == b || KeyLess(a, b) || KeyLess(b, a) {
      assert a.name == b.name || StringLess(a.name, b.name) || StringLess(b.name, a.name);
      var x, y := Items(a.labels), Items(b.labels);
      assert x == y || ItemsLess(x, y) || ItemsLess(y, x);
      if x == y { ItemsInjective(a.labels, b.labels); }
    }
  }

  // The projection as a function of the batch

  /** The series of every other family, in order. */
  function Others(ms: seq<Series>): seq<Series> {
    if ms == [] then []
    else
      var s := ms[|ms| - 1];
      Others(ms[..|ms| - 1]) + if IsProjected(s.name) then [] else [s]
  }

  function Add(totals: map<Key, real>, k: Key, v: real): map<Key, real> {
    totals[k := (if k in totals then totals[k] else 0.0) + v]
  }

  /** The summed value of every projected key. */
  function Totals(ms: seq<Series>): map<Key, real>
    requires WellLabelled(ms)
  {
    if ms == [] then map[]
    else
      var s := ms[|ms| - 1];
      var before := Totals(ms[..|ms| - 1]);
      if IsProjected(s.name) then Add(before, ProjectKey(s), s.value) else before
  }

  function Rendered(ks: seq<Key>, totals: map<Key, real>): seq<Series>
    requires forall k :: k in ks ==> k in totals
  {
    seq(|ks|, i requires 0 <= i < |ks| => Series(ks[i].name, ks[i].labels, totals[ks[i]]))
  }

  function SortedKeys(totals: map<Key, real>): (ks: seq<Key>)
    ensures Sorted(KeyLess, ks)
    ensures forall k :: k in ks <==> k in totals
    ensures forall i, j :: 0 <= i < j < |ks| ==> ks[i] != ks[j]
  {
    KeyLessTotal();
    var ks := SortedSeq(KeyLess, totals.Keys);
    assert forall k :: k in ks <==> k in Elements(ks);
    ks
  }

  function Project(ms: seq<Series>): seq<Series>
    requires WellLabelled(ms)
  {
    Others(ms) + Rendered(SortedKeys(Totals(ms)), Totals(ms))
  }

  /** The loop of the source: one output list, one dict of running sums, then the sorted items. */
  method ProjectMetricDomains(ms: seq<Series>) returns (ok: bool, out: seq<Series>)
    ensures ok <==> WellLabelled(ms)
    ensures ok ==> out == Project(ms)
    ensures ok ==> forall s :: s in ms ==> exists t :: t in out && Carries(s, t)
    ensures ok ==> forall t :: t in out ==> exists s :: s in ms && Carries(s, t)
  {
    ok, out := true, [];
    var projected: map<Key, real> := map[];
    for i := 0 to |ms|
      invariant ok && WellLabelled(ms[..i])
      invariant out == Others(ms[..i])
      invariant projected == Totals(ms[..i])
    {
      var s := ms[i];
      assert ms[..i + 1][..i] == ms[..i] && ms[..i + 1][i] == s;
      if !HasLabels(s) {
        assert s in ms;
        return false, [];
      }
      assert WellLabelled(ms[..i + 1]) by {
        assert forall t :: t in ms[..i + 1] ==> t in ms[..i] || t == s;
      }
      if IsProjected(s.name) {
        projected := Add(projected, ProjectKey(s), s.value);
      } else {
        out := out + [s];
      }
    }
    assert ms[..|ms|] == ms;
    out := out + Rendered(SortedKeys(projected), projected);
    forall s
      ensures s in ms ==> exists t :: t in out && Carries(s, t)
      ensures s in out ==> exists t :: t in ms && Carries(t, s)
    {
      ProjectCarries(ms, s);
    }
  }

  // What the projection means

  /** The projection is idempotent on one key: projected labels stay as they are. */
  lemma ProjectKeyFixpoint(s: Series)
    requires IsProjected(s.name) && HasLabels(s)
    ensures var k := ProjectKey(s); HasLabels(Series(k.name, k.labels, 0.0))
                                    && ProjectKey(Series(k.name, k.labels, 0.0)) == k
  {
    var k := ProjectKey(s);
    var again := ProjectKey(Series(k.name, k.labels, 0.0));
    assert again.labels == k.labels;
  }

  ghost predicate ClosedKey(k: Key) {
    && IsProjected(k.name)
    && HasLabels(Series(k.name, k.labels, 0.0))
    && ProjectKey(Series(k.name, k.labels, 0.0)) == k
  }

  lemma {:induction false} TotalsClosed(ms: seq<Series>)
    requires WellLabelled(ms)
    ensures forall k :: k in Totals(ms) ==> ClosedKey(k)
  {
    if ms != [] {
      TotalsClosed(ms[..|ms| - 1]);
      var s := ms[|ms| - 1];
      if IsProjected(s.name) {
        ProjectKeyFixpoint(s);
      }
    }
  }

  function Merge(a: map<Key, real>, b: map<Key, real>): map<Key, real> {
    map k | k in a.Keys + b.Keys :: (if k in a then a[k] else 0.0) + (if k in b then b[k] else 0.0)
  }

  lemma MergeAdd(a: map<Key, real>, b: map<Key, real>, k: Key, v: real)
    ensures Add(Merge(a, b), k, v) == Merge(a, Add(b, k, v))
  {
  }

  lemma {:induction false} TotalsSnoc(ms: seq<Series>, s: Series)
    requires WellLabelled(ms) && HasLabels(s)
    ensures WellLabelled(ms + [s])
    ensures Totals(ms + [s]) == if IsProjected(s.name) then Add(Totals(ms), ProjectKey(s), s.value) else Totals(ms)
  {
    assert (ms + [s])[..|ms|] == ms;
  }

  lemma {:induction false} TotalsAppend(a: seq<Series>, b: seq<Series>)
    requires WellLabelled(a) && WellLabelled(b)
    ensures WellLabelled(a + b)
    ensures Totals(a + b) == Merge(Totals(a), Totals(b))
  {
    if b == [] {
      assert a + b == a;
      assert Merge(Totals(a), map[]) == Totals(a);
    } else {
      var b', s := b[..|b| - 1], b[|b| - 1];
      TotalsAppend(a, b');
      TotalsSnoc(a + b', s);
      TotalsSnoc(b', s);
      assert b' + [s] == b && a + b' + [s] == a + b;
      if IsProjected(s.name) {
        MergeAdd(Totals(a), Totals(b'), ProjectKey(s), s.value);
      }
    }
  }

  lemma {:induction false} OthersAppend(a: seq<Series>, b: seq<Series>)
    ensures Others(a + b) == Others(a) + Others(b)
  {
    if b == [] {
      assert a + b == a;
    } else {
      OthersAppend(a, b[..|b| - 1]);
      assert (a + b)[..|a + b| - 1] == a + b[..|b| - 1];
    }
  }

  lemma {:induction false} OthersAreNotProjected(ms: seq<Series>)
    ensures forall s :: s in Others(ms) ==> !IsProjected(s.name)
    ensures WellLabelled(Others(ms))
  {
    if ms != [] {
      OthersAreNotProjected(ms[..|ms| - 1]);
    }
  }

  lemma {:induction false} OthersOfUnprojected(ms: seq<Series>)
    requires forall i :: 0 <= i < |ms| ==> !IsProjected(ms[i].name)
    ensures Others(ms) == ms
  {
    if ms != [] {
      var before, s := ms[..|ms| - 1], ms[|ms| - 1];
      OthersOfUnprojected(before);
      OthersSnoc(before, s);
      assert ms == before + [s];
    }
  }

  lemma {:induction false} TotalsOfUnprojected(ms: seq<Series>)
    requires forall i :: 0 <= i < |ms| ==> !IsProjected(ms[i].name)
    requires WellLabelled(ms)
    ensures Totals(ms) == map[]
  {
    if ms != [] {
      var before, s := ms[..|ms| - 1], ms[|ms| - 1];
      TotalsOfUnprojected(before);
      assert s in ms;
      TotalsSnoc(before, s);
      assert ms == before + [s];
    }
  }

  lemma UnprojectedBatch(ms: seq<Series>)
    requires forall s :: s in ms ==> !IsProjected(s.name)
    ensures WellLabelled(ms) && Others(ms) == ms && Totals(ms) == map[]
  {
    assert forall i :: 0 <= i < |ms| ==> ms[i] in ms;
    OthersOfUnprojected(ms);
    TotalsOfUnprojected(ms);
  }

  lemma OthersSnoc(ms: seq<Series>, s: Series)
    ensures Others(ms + [s]) == Others(ms) + if IsProjected(s.name) then [] else [s]
  {
    assert (ms + [s])[..|ms|] == ms;
  }

  /** A batch seen through the projection: its untouched series and its sums. */
  ghost predicate SplitsInto(ms: seq<Series>, others: seq<Series>, totals: map<Key, real>) {
    WellLabelled(ms) && Others(ms) == others && Totals(ms) == totals
  }

  lemma SnocSplits(ms: seq<Series>, s: Series, others: seq<Series>, totals: map<Key, real>)
    requires SplitsInto(ms, others, totals) && IsProjected(s.name) && HasLabels(s)
    ensures SplitsInto(ms + [s], others, Add(totals, ProjectKey(s), s.value))
  {
    TotalsSnoc(ms, s);
    assert (ms + [s])[..|ms|] == ms;
    assert others + [] == others;
  }

  lemma RestrictSnoc(ks: seq<Key>, totals: map<Key, real>)
    requires ks != [] && forall k :: k in ks ==> k in totals
    requires forall i, j :: 0 <= i < j < |ks| ==> ks[i] != ks[j]
    ensures var n := |ks| - 1;
            Add(map k | k in ks[..n] :: totals[k], ks[n], totals[ks[n]]) == map k | k in ks :: totals[k]
  {
    var n := |ks| - 1;
    assert ks[n] !in ks[..n];
    assert forall k :: k in ks <==> k in ks[..n] || k == ks[n];
  }

  lemma {:induction false} RenderedBatch(ks: seq<Key>, totals: map<Key, real>)
    requires forall k :: k in ks ==> k in totals && ClosedKey(k)
    requires forall i, j :: 0 <= i < j < |ks| ==> ks[i] != ks[j]
    ensures SplitsInto(Rendered(ks, totals), [], map k | k in ks :: totals[k])
  {
    if ks != [] {
      var n := |ks| - 1;
      var s := Series(ks[n].name, ks[n].labels, totals[ks[n]]);
      RenderedBatch(ks[..n], totals);
      ClosedSeries(ks[n], totals[ks[n]]);
      SnocSplits(Rendered(ks[..n], totals), s, [], map k | k in ks[..n] :: totals[k]);
      RestrictSnoc(ks, totals);
      RenderedSnoc(ks, totals);
    }
  }

  lemma RenderedSnoc(ks: seq<Key>, totals: map<Key, real>)
    requires ks != [] && forall k :: k in ks ==> k in totals
    ensures var n := |ks| - 1;
            Rendered(ks, totals) == Rendered(ks[..n], totals) + [Series(ks[n].name, ks[n].labels, totals[ks[n]])]
  {
  }

  lemma ClosedSeries(k: Key, v: real)
    requires ClosedKey(k)
    ensures IsProjected(k.name) && HasLabels(Series(k.name, k.labels, v))
    ensures ProjectKey(Series(k.name, k.labels, v)) == k
  {
  }

  lemma JoinParts(others: seq<Series>, summed: seq<Series>, totals: map<Key, real>)
    requires SplitsInto(others, others, map[]) && SplitsInto(summed, [], totals)
    ensures SplitsInto(others + summed, others, totals)
  {
    OthersAppend(others, summed);
    TotalsAppend(others, summed);
    assert Merge(map[], totals) == totals;
    assert others + [] == others;
  }

  lemma RenderedSplits(ks: seq<Key>, totals: map<Key, real>)
    requires forall k :: k in totals ==> ClosedKey(k)
    requires forall k :: k in ks <==> k in totals
    requires forall i, j :: 0 <= i < j < |ks| ==> ks[i] != ks[j]
    ensures SplitsInto(Rendered(ks, totals), [], totals)
  {
    RenderedBatch(ks, totals);
    assert (map k | k in ks :: totals[k]) == totals;
  }

  /** The two observations the projection depends on are the two it preserves. */
  lemma ProjectPreserves(ms: seq<Series>)
    requires WellLabelled(ms)
    ensures SplitsInto(Project(ms), Others(ms), Totals(ms))
  {
    TotalsClosed(ms);
    OthersAreNotProjected(ms);
    UnprojectedBatch(Others(ms));
    RenderedSplits(SortedKeys(Totals(ms)), Totals(ms));
    JoinParts(Others(ms), Rendered(SortedKeys(Totals(ms)), Totals(ms)), Totals(ms));
  }

  lemma ProjectIdempotent(ms: seq<Series>)
    requires WellLabelled(ms)
    ensures WellLabelled(Project(ms)) && Project(Project(ms)) == Project(ms)
  {
    ProjectPreserves(ms);
  }

  /** Projecting at one seam and again at the next is projecting once. */
  lemma ProjectAtSeams(a: seq<Series>, b: seq<Series>)
    requires WellLabelled(a) && WellLabelled(b)
    ensures WellLabelled(Project(a) + Project(b)) && WellLabelled(a + b)
    ensures Project(Project(a) + Project(b)) == Project(a + b)
    ensures Project(Project(a) + b) == Project(a + b) == Project(a + Project(b))
  {
    ProjectPreserves(a);
    ProjectPreserves(b);
    TotalsAppend(a, b);
    TotalsAppend(Project(a), Project(b));
    TotalsAppend(Project(a), b);
    TotalsAppend(a, Project(b));
    OthersAppend(a, b);
    OthersAppend(Project(a), Project(b));
    OthersAppend(Project(a), b);
    OthersAppend(a, Project(b));
  }

  function Keys(ms: seq<Series>): seq<Key> {
    seq(|ms|, i requires 0 <= i < |ms| => Key(ms[i].name, ms[i].labels))
  }

  ghost function ProjectedKeys(ms: seq<Series>): set<Key>
    requires WellLabelled(ms)
  {
    set s | s in ms && IsProjected(s.name) :: ProjectKey(s)
  }

  lemma {:induction false} TotalsKeys(ms: seq<Series>)
    requires WellLabelled(ms)
    ensures Totals(ms).Keys == ProjectedKeys(ms)
  {
    if ms != [] {
      var before, s := ms[..|ms| - 1], ms[|ms| - 1];
      TotalsKeys(before);
      assert forall t :: t in ms <==> t in before || t == s;
    }
  }

  lemma RenderedKeys(ks: seq<Key>, totals: map<Key, real>)
    requires forall k :: k in ks ==> k in totals
    ensures Keys(Rendered(ks, totals)) == ks
  {
  }

  /** The sum of a batch's values at one projected identity. */
  ghost function SumAt(ms: seq<Series>, k: Key): real
    requires WellLabelled(ms)
  {
    if ms == [] then 0.0
    else
      var s := ms[|ms| - 1];
      SumAt(ms[..|ms| - 1], k) + if IsProjected(s.name) && ProjectKey(s) == k then s.value else 0.0
  }

  lemma {:induction false} TotalsAreSums(ms: seq<Series>, k: Key)
    requires WellLabelled(ms)
    ensures k in Totals(ms) ==> Totals(ms)[k] == SumAt(ms, k)
    ensures k !in Totals(ms) ==> SumAt(ms, k) == 0.0
  {
    if ms != [] {
      TotalsAreSums(ms[..|ms| - 1], k);
    }
  }

  /** What a projection of the batch is: every other series in order, then each projected identity of the batch
      exactly once, in increasing order, with the sum of its values. */
  ghost predicate IsProjectionOf(out: seq<Series>, ms: seq<Series>)
    requires WellLabelled(ms)
  {
    var n := |Others(ms)|;
    && n <= |out| && out[..n] == Others(ms)
    && Sorted(KeyLess, Keys(out[n..])) && Elements(Keys(out[n..])) == ProjectedKeys(ms)
    && forall s :: s in out[n..] ==> s.value == SumAt(ms, Key(s.name, s.labels))
  }

  lemma RenderedSums(ms: seq<Series>, ks: seq<Key>, s: Series)
    requires WellLabelled(ms) && (forall k :: k in ks ==> k in Totals(ms)) && s in Rendered(ks, Totals(ms))
    ensures s.value == SumAt(ms, Key(s.name, s.labels))
  {
    var i :| 0 <= i < |ks| && Rendered(ks, Totals(ms))[i] == s;
    assert ks[i] in ks && Key(s.name, s.labels) == ks[i];
    TotalsAreSums(ms, ks[i]);
  }

  lemma ProjectIsAProjection(ms: seq<Series>)
    requires WellLabelled(ms)
    ensures IsProjectionOf(Project(ms), ms)
  {
    var totals, others := Totals(ms), Others(ms);
    var ks := SortedKeys(totals);
    var summed := Rendered(ks, totals);
    TotalsKeys(ms);
    RenderedKeys(ks, totals);
    assert (others + summed)[..|others|] == others && (others + summed)[|others|..] == summed;
    assert Elements(ks) == totals.Keys;
    forall s | s in summed ensures s.value == SumAt(ms, Key(s.name, s.labels)) {
      RenderedSums(ms, ks, s);
    }
  }

  /** Increasing keys of the totals, all of them, are the sorted keys. */
  lemma OnlySortedKeys(totals: map<Key, real>, ks: seq<Key>)
    requires Sorted(KeyLess, ks) && Elements(ks) == totals.Keys
    ensures ks == SortedKeys(totals)
  {
    KeyLessTotal();
    var sorted := SortedKeys(totals);
    assert forall k :: k in Elements(sorted) <==> k in totals;
    SortedUnique(KeyLess, ks, sorted);
  }

  /** The output of the loop is the one list that is a projection of the batch. */
  lemma ProjectIsTheProjection(ms: seq<Series>, out: seq<Series>)
    requires WellLabelled(ms)
    ensures IsProjectionOf(out, ms) <==> out == Project(ms)
  {
    ProjectIsAProjection(ms);
    if IsProjectionOf(out, ms) {
      var n := |Others(ms)|;
      TotalsKeys(ms);
      OnlySortedKeys(Totals(ms), Keys(out[n..]));
      SameRendering(ms, out[n..], SortedKeys(Totals(ms)));
      assert out == out[..n] + out[n..];
    }
  }

  lemma SameRendering(ms: seq<Series>, summed: seq<Series>, ks: seq<Key>)
    requires WellLabelled(ms) && Keys(summed) == ks && forall k :: k in ks ==> k in Totals(ms)
    requires forall s :: s in summed ==> s.value == SumAt(ms, Key(s.name, s.labels))
    ensures summed == Rendered(ks, Totals(ms))
  {
    forall i | 0 <= i < |ks| ensures summed[i] == Rendered(ks, Totals(ms))[i] {
      assert Keys(summed)[i] == ks[i] && summed[i] in summed;
      TotalsAreSums(ms, ks[i]);
    }
  }

  // What the projection leaves alone

  /** A batch the projection leaves as it is. */
  ghost predicate Stable(ms: seq<Series>) {
    WellLabelled(ms) && Project(ms) == ms
  }

  /** Series outside the projected families, then projected ones with closed labels in increasing order. */
  ghost predicate Shaped(others: seq<Series>, summed: seq<Series>) {
    && (forall s :: s in others ==> !IsProjected(s.name))
    && (forall s :: s in summed ==> ClosedKey(Key(s.name, s.labels)))
    && Sorted(KeyLess, Keys(summed))
  }

  lemma SortedIsDistinct(ks: seq<Key>)
    requires Sorted(KeyLess, ks)
    ensures forall i, j :: 0 <= i < j < |ks| ==> ks[i] != ks[j]
  {
    KeyLessTotal();
  }

  /** The values of the summed series by their keys. */
  lemma {:induction false} ValuesByKey(summed: seq<Series>) returns (totals: map<Key, real>)
    requires forall i, j :: 0 <= i < j < |summed| ==> Keys(summed)[i] != Keys(summed)[j]
    ensures forall k :: k in totals <==> k in Keys(summed)
    ensures forall i :: 0 <= i < |summed| ==> Keys(summed)[i] in totals && totals[Keys(summed)[i]] == summed[i].value
  {
    if summed == [] {
      totals := map[];
    } else {
      var n := |summed| - 1;
      var k := Keys(summed)[n];
      assert Keys(summed)[..n] == Keys(summed[..n]);
      assert Keys(summed) == Keys(summed[..n]) + [k];
      totals := ValuesByKey(summed[..n]);
      totals := totals[k := summed[n].value];
    }
  }

  /** Projected series with increasing keys are the rendering of their own sums. */
  lemma SumsOfShaped(summed: seq<Series>) returns (totals: map<Key, real>)
    requires Shaped([], summed)
    ensures SplitsInto(summed, [], totals) && totals.Keys == Elements(Keys(summed))
    ensures Rendered(SortedKeys(totals), totals) == summed
  {
    var ks := Keys(summed);
    SortedIsDistinct(ks);
    totals := ValuesByKey(summed);
    RenderedByKey(summed, totals);
    ClosedKeys(summed);
    RenderedSplits(ks, totals);
    assert totals.Keys == Elements(ks);
    OnlySortedKeys(totals, ks);
  }

  lemma RenderedByKey(summed: seq<Series>, totals: map<Key, real>)
    requires forall i :: 0 <= i < |summed| ==> Keys(summed)[i] in totals && totals[Keys(summed)[i]] == summed[i].value
    ensures forall k :: k in Keys(summed) ==> k in totals
    ensures Rendered(Keys(summed), totals) == summed
  {
  }

  lemma ClosedKeys(summed: seq<Series>)
    requires Shaped([], summed)
    ensures forall k :: k in Keys(summed) ==> ClosedKey(k)
  {
    forall k | k in Keys(summed) ensures ClosedKey(k) {
      var i :| 0 <= i < |summed| && Keys(summed)[i] == k;
      assert summed[i] in summed;
    }
  }

  lemma ShapedIsStable(others: seq<Series>, summed: seq<Series>)
    requires Shaped(others, summed)
    ensures Stable(others + summed)
  {
    var totals := SumsOfShaped(summed);
    UnprojectedBatch(others);
    JoinParts(others, summed, totals);
  }

  lemma StableIsShaped(ms: seq<Series>)
    requires Stable(ms)
    ensures var n := |Others(ms)|; n <= |ms| && Shaped(ms[..n], ms[n..])
  {
    var totals, n := Totals(ms), |Others(ms)|;
    var ks := SortedKeys(totals);
    OthersAreNotProjected(ms);
    TotalsClosed(ms);
    RenderedKeys(ks, totals);
    assert ms[..n] == Others(ms) && ms[n..] == Rendered(ks, totals);
    forall s | s in ms[n..] ensures ClosedKey(Key(s.name, s.labels)) {
      RenderedMember(ks, totals, s);
    }
  }

  function Filter(ms: seq<Series>, keep: Series -> bool): seq<Series> {
    if ms == [] then [] else (if keep(ms[0]) then [ms[0]] else []) + Filter(ms[1..], keep)
  }

  lemma FilterFirst(s: Series, rest: seq<Series>, keep: Series -> bool)
    ensures Filter([s] + rest, keep) == (if keep(s) then [s] else []) + Filter(rest, keep)
  {
    assert ([s] + rest)[1..] == rest;
  }

  lemma {:induction false} FilterAppend(a: seq<Series>, b: seq<Series>, keep: Series -> bool)
    ensures Filter(a + b, keep) == Filter(a, keep) + Filter(b, keep)
  {
    if a == [] {
      assert a + b == b;
    } else {
      FilterAppend(a[1..], b, keep);
      FilterFirst(a[0], a[1..], keep);
      FilterFirst(a[0], a[1..] + b, keep);
      assert [a[0]] + a[1..] == a && [a[0]] + (a[1..] + b) == a + b;
    }
  }

  lemma {:induction false} FilterMember(ms: seq<Series>, keep: Series -> bool, s: Series)
    ensures s in Filter(ms, keep) <==> s in ms && keep(s)
  {
    if ms != [] {
      FilterMember(ms[1..], keep, s);
    }
  }

  lemma {:induction false} FilterSorted(ms: seq<Series>, keep: Series -> bool)
    requires Sorted(KeyLess, Keys(ms))
    ensures Sorted(KeyLess, Keys(Filter(ms, keep)))
  {
    if ms != [] {
      assert Keys(ms)[1..] == Keys(ms[1..]);
      FilterSorted(ms[1..], keep);
      var rest := Filter(ms[1..], keep);
      forall i | 0 <= i < |rest| ensures KeyLess(Keys(ms)[0], Keys(rest)[i]) {
        FilterMember(ms[1..], keep, rest[i]);
        var j :| 0 <= j < |ms[1..]| && ms[1..][j] == rest[i];
        assert Keys(ms)[j + 1] == Keys(rest)[i];
      }
      assert Keys([ms[0]] + rest) == [Keys(ms)[0]] + Keys(rest);
      assert [] + rest == rest;
    }
  }

  /** Every part of a stable batch is stable: nothing that drops series makes it need projecting again. */
  lemma FilterStable(ms: seq<Series>, keep: Series -> bool)
    requires Stable(ms)
    ensures Stable(Filter(ms, keep))
  {
    StableIsShaped(ms);
    var n := |Others(ms)|;
    var others, summed := Filter(ms[..n], keep), Filter(ms[n..], keep);
    FilterSorted(ms[n..], keep);
    forall s ensures s in others ==> s in ms[..n]
    ensures s in summed ==> s in ms[n..]
    {
      FilterMember(ms[..n], keep, s);
      FilterMember(ms[n..], keep, s);
    }
    ShapedIsStable(others, summed);
    FilterAppend(ms[..n], ms[n..], keep);
    assert ms[..n] + ms[n..] == ms;
  }

  /** Series t is series s as it leaves the projection: a label of a closed vocabulary keeps a value the vocabulary has
      and becomes "other" otherwise; every other label is as it was. */
  ghost predicate Carries(s: Series, t: Series) {
    && t.name == s.name && t.labels.Keys == s.labels.Keys
    && forall l :: l in s.labels && l in t.labels ==>
         t.labels[l] ==
           if s.name == "gcinsight_ai_estate_messages" && l == "category"
              && s.labels[l] !in {"Investigate", "Observe", "Dashboard", "Learn", "Other", "Errors"} then "other"
           else if s.name == "gcinsight_ai_estate_messages" && l == "surface"
              && s.labels[l] !in {"web", "cli", "a2a", "automation", "slack", "lodestone", "unknown"} then "other"
           else if s.name == "gcinsight_scan_stacks_failed" && l == "reason"
              && s.labels[l] !in {"RuntimeError", "KeyError", "ValueError", "MethodNotAllowed", "JSONDecodeError",
                                  "DeadlineExceeded"} then "other"
           else s.labels[l]
  }

  lemma ProjectKeyCarries(s: Series)
    requires IsProjected(s.name) && HasLabels(s)
    ensures var k := ProjectKey(s); forall v :: Carries(s, Series(k.name, k.labels, v))
  {
    BoundIsClosed(s);
  }

  lemma BoundIsClosed(s: Series)
    requires HasLabels(s)
    ensures s.name == AI_MESSAGES ==>
      && Bound(METRIC_CATEGORIES, s.labels["category"])
         == (if s.labels["category"] !in {"Investigate", "Observe", "Dashboard", "Learn", "Other", "Errors"}
             then "other" else s.labels["category"])
      && Bound(METRIC_SURFACES, s.labels["surface"])
         == (if s.labels["surface"] !in {"web", "cli", "a2a", "automation", "slack", "lodestone", "unknown"}
             then "other" else s.labels["surface"])
    ensures s.name == STACKS_FAILED ==>
      Bound(SCAN_FAILURE_REASONS, s.labels["reason"])
      == if s.labels["reason"] !in {"RuntimeError", "KeyError", "ValueError", "MethodNotAllowed", "JSONDecodeError",
                                    "DeadlineExceeded"} then "other" else s.labels["reason"]
  {
  }

  /** Every series of the batch is in the output under its own name and its bounded labels, and every series of the
      output comes from one of the batch; the families that are not bounded keep their series and values. */
  lemma ProjectCarries(ms: seq<Series>, s: Series)
    requires WellLabelled(ms)
    ensures s in ms ==> exists t :: t in Project(ms) && Carries(s, t) && (!IsProjected(s.name) ==> t == s)
    ensures s in Project(ms) ==> exists t :: t in ms && Carries(t, s)
  {
    var ks, totals := SortedKeys(Totals(ms)), Totals(ms);
    TotalsKeys(ms);
    OthersMembers(ms, s);
    OthersAreNotProjected(ms);
    if s in ms && IsProjected(s.name) {
      var k := ProjectKey(s);
      assert k in ProjectedKeys(ms);
      assert k in ks;
      var i :| 0 <= i < |ks| && ks[i] == k;
      var t := Rendered(ks, totals)[i];
      ProjectKeyCarries(s);
      assert t in Rendered(ks, totals) && t == Series(k.name, k.labels, totals[k]);
      assert t in Project(ms) && Carries(s, t);
    } else if s in ms {
      assert s in Project(ms) && Carries(s, s);
    }
    if s in Project(ms) && s !in Others(ms) {
      RenderedMember(ks, totals, s);
      var t :| t in ms && IsProjected(t.name) && ProjectKey(t) == Key(s.name, s.labels);
      ProjectKeyCarries(t);
      assert Carries(t, s);
    } else if s in Project(ms) {
      assert Carries(s, s);
    }
  }

  lemma {:induction false} OthersMembers(ms: seq<Series>, s: Series)
    ensures s in Others(ms) <==> s in ms && !IsProjected(s.name)
  {
    if ms != [] {
      var before, last := ms[..|ms| - 1], ms[|ms| - 1];
      OthersMembers(before, s);
      assert s in ms <==> s in before || s == last;
    }
  }

  /** The projection neither adds nor drops a series of another family. */
  lemma UnprojectedStay(ms: seq<Series>, s: Series)
    requires WellLabelled(ms) && !IsProjected(s.name)
    ensures s in Project(ms) <==> s in ms
  {
    var ks, totals := SortedKeys(Totals(ms)), Totals(ms);
    OthersMembers(ms, s);
    if s in Rendered(ks, totals) {
      RenderedMember(ks, totals, s);
      TotalsClosed(ms);
    }
  }

  /** One known value of each vocabulary stays what it is. */
  lemma KnownValuesStay(ms: seq<Series>, v: real)
    requires WellLabelled(ms)
    ensures var labels := map["category" := "Investigate", "surface" := "web"];
            Series("gcinsight_ai_estate_messages", labels, v) in ms ==>
              exists t :: t in Project(ms) && t.name == "gcinsight_ai_estate_messages" && t.labels == labels
    ensures var labels := map["reason" := "KeyError"];
            Series("gcinsight_scan_stacks_failed", labels, v) in ms ==>
              exists t :: t in Project(ms) && t.name == "gcinsight_scan_stacks_failed" && t.labels == labels
  {
    var chat := Series("gcinsight_ai_estate_messages", map["category" := "Investigate", "surface" := "web"], v);
    var failed := Series("gcinsight_scan_stacks_failed", map["reason" := "KeyError"], v);
    KnownStays(ms, chat);
    KnownStays(ms, failed);
  }

  lemma KnownStays(ms: seq<Series>, s: Series)
    requires WellLabelled(ms) && forall t :: Carries(s, t) ==> forall l :: l in s.labels ==> t.labels[l] == s.labels[l]
    ensures s in ms ==> exists t :: t in Project(ms) && t.name == s.name && t.labels == s.labels
  {
    ProjectCarries(ms, s);
    if s in ms {
      var t :| t in Project(ms) && Carries(s, t);
      assert t.labels == s.labels;
    }
  }

  /** The labels the projection bounds take values of their closed vocabularies only. */
  ghost predicate BoundedLabels(s: Series) {
    && (s.name == AI_MESSAGES ==> HasLabels(s) && s.labels["category"] in METRIC_CATEGORIES
                                  && s.labels["surface"] in METRIC_SURFACES)
    && (s.name == STACKS_FAILED ==> HasLabels(s) && s.labels["reason"] in SCAN_FAILURE_REASONS)
  }

  lemma ClosedIsBounded(k: Key, v: real)
    requires ClosedKey(k)
    ensures BoundedLabels(Series(k.name, k.labels, v))
  {
    var s := Series(k.name, k.labels, 0.0);
    assert ProjectKey(s).labels == k.labels;
  }

  /** Whatever names the estate invents, every series that leaves the projection has bounded labels. */
  lemma ProjectBoundsLabels(ms: seq<Series>)
    requires WellLabelled(ms)
    ensures forall s :: s in Project(ms) ==> BoundedLabels(s)
  {
    var totals := Totals(ms);
    var ks := SortedKeys(totals);
    TotalsClosed(ms);
    OthersAreNotProjected(ms);
    forall s | s in Project(ms) ensures BoundedLabels(s) {
      if s !in Others(ms) {
        RenderedMember(ks, totals, s);
        ClosedIsBounded(Key(s.name, s.labels), s.value);
      }
    }
  }

  lemma RenderedMember(ks: seq<Key>, totals: map<Key, real>, s: Series)
    requires (forall k :: k in ks ==> k in totals) && s in Rendered(ks, totals)
    ensures Key(s.name, s.labels) in ks
  {
  }

  // Conservation

  /** The total of one metric family in a batch. */
  function FamilyTotal(name: string, ms: seq<Series>): real {
    if ms == [] then 0.0
    else
      var s := ms[|ms| - 1];
      FamilyTotal(name, ms[..|ms| - 1]) + if s.name == name then s.value else 0.0
  }

  /** The summed values of one family. */
  function FamilyValues(name: string, totals: map<Key, real>): map<Key, real> {
    map k | k in totals && k.name == name :: totals[k]
  }

  ghost function KeySum(name: string, totals: map<Key, real>): real {
    RealSum(FamilyValues(name, totals))
  }

  lemma KeySumAdd(name: string, totals: map<Key, real>, k: Key, v: real)
    ensures KeySum(name, Add(totals, k, v)) == KeySum(name, totals) + if k.name == name then v else 0.0
  {
    var before, after := FamilyValues(name, totals), FamilyValues(name, Add(totals, k, v));
    assert after - {k} == before - {k};
    if k.name == name {
      RealSumRemove(after, k);
    }
    if k in before {
      RealSumRemove(before, k);
    } else {
      assert before - {k} == before;
    }
    if k.name != name {
      assert after == before;
    }
  }

  lemma {:induction false} FamilyTotalIsKeySum(name: string, ms: seq<Series>)
    requires WellLabelled(ms) && IsProjected(name)
    ensures FamilyTotal(name, ms) == KeySum(name, Totals(ms))
  {
    if ms != [] {
      FamilyTotalIsKeySum(name, ms[..|ms| - 1]);
      var s := ms[|ms| - 1];
      if IsProjected(s.name) {
        KeySumAdd(name, Totals(ms[..|ms| - 1]), ProjectKey(s), s.value);
      }
    }
  }

  lemma {:induction false} FamilyTotalOfOthers(name: string, ms: seq<Series>)
    requires !IsProjected(name)
    ensures FamilyTotal(name, ms) == FamilyTotal(name, Others(ms))
  {
    if ms != [] {
      FamilyTotalOfOthers(name, ms[..|ms| - 1]);
      var s := ms[|ms| - 1];
      var before := Others(ms[..|ms| - 1]);
      assert (before + [s])[..|before|] == before;
      assert before + [] == before;
    }
  }

  /** The projection moves value between series of a family and never changes the family's total. */
  lemma ProjectConservesTotals(name: string, ms: seq<Series>)
    requires WellLabelled(ms)
    ensures WellLabelled(Project(ms))
    ensures FamilyTotal(name, Project(ms)) == FamilyTotal(name, ms)
  {
    ProjectPreserves(ms);
    if IsProjected(name) {
      FamilyTotalIsKeySum(name, ms);
      FamilyTotalIsKeySum(name, Project(ms));
    } else {
      FamilyTotalOfOthers(name, ms);
      FamilyTotalOfOthers(name, Project(ms));
    }
  }

  lemma {:induction false} FamilyTotalAppend(name: string, a: seq<Series>, b: seq<Series>)
    ensures FamilyTotal(name, a + b) == FamilyTotal(name, a) + FamilyTotal(name, b)
  {
    if b == [] {
      assert a + b == a;
    } else {
      FamilyTotalAppend(name, a, b[..|b| - 1]);
      assert (a + b)[..|a + b| - 1] == a + b[..|b| - 1];
    }
  }

  lemma {:induction false} FamilyTotalFilter(name: string, ms: seq<Series>, keep: Series -> bool)
    requires forall s :: s in ms && s.name == name ==> keep(s)
    ensures FamilyTotal(name, Filter(ms, keep)) == FamilyTotal(name, ms)
  {
    if ms != [] {
      var head := if keep(ms[0]) then [ms[0]] else [];
      FamilyTotalFilter(name, ms[1..], keep);
      FamilyTotalAppend(name, head, Filter(ms[1..], keep));
      FamilyTotalAppend(name, [ms[0]], ms[1..]);
      assert [ms[0]] + ms[1..] == ms;
      assert ms[0] in ms;
      FamilyTotalOne(name, ms[0]);
    }
  }

  lemma FamilyTotalOne(name: string, s: Series)
    ensures FamilyTotal(name, [s]) == if s.name == name then s.value else 0.0
  {
    assert [s][..0] == [];
  }
}
