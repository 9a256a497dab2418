/** One scan run against the publication store (scan.py, `run_t2`, `run` and `_run_admitted`): early
    side-writes, refusals, the writes in their order, and the exit code. */
module Publication {
  import opened Optional
  import opened SourceHealth
  import M = MetricProjection
  import C = CoverageAccounting

  type View = string

  // A run

  /** The command line and the place it runs in: `subset` for a limit or a single stack, `bucket` for a
      configured bucket name. */
  datatype Config = Config(tier: Tier, dryRun: bool, subset: bool, out: bool, verified: bool, bucket: bool)

  datatype Card = CardRead | CardUnreadable

  /** An S3 write is done, or raises before or after its effect. */
  datatype Write = Written | RaisedBefore | RaisedAfter

  predicate TakesEffect(w: Write) {
    !w.RaisedBefore?
  }

  /** One update of the gap stamps: the gaps seen, the run's stamp, whether the stamps so far could be read, and
      whether the new ones were stored. A failed read counts as no stamps, and a failed write goes unnoticed. */
  datatype Update = Update(missing: set<string>, stamp: string, read: bool, written: bool)

  /** What a runner gathered and composed. `total`, `failed` and `skipped` are its coverage counters, `history`
      how its billing history write ends, `gaps` its update of the credential gaps, `extras` the completion,
      finding and provenance series, and `withheld` the views whose inputs are unsatisfied. */
  datatype Observation = Observation(
    inventory: nat, facts: Facts, total: nat, failed: nat, skipped: nat,
    gathered: map<Name, Payload>, history: Write, card: Card, gaps: Update,
    metrics: seq<M.Series>, extras: seq<M.Series>, maturityUnsatisfied: bool,
    views: map<string, View>, withheld: set<string>)

  /** A push is done; it fails in the way the run survives (an HTTP error); or it raises out of the run. A push
      that is not done may have stored some of its series or lines. */
  datatype Push<+T> = Pushed | Failed(landed: T) | Broken(landed: T)

  /** How the publication seams behave: `views` is None when all views are written, else those written
      before one raised. */
  datatype Seams = Seams(carry: Write, guardPasses: bool, views: Option<set<string>>, mimir: Push<set<M.Series>>,
                         loki: Push<bool>, scan: Write)

  /** What a push leaves in Mimir. */
  function Samples(batch: seq<M.Series>, push: Push<set<M.Series>>): seq<seq<M.Series>> {
    if push.Pushed? then [batch]
    else
      var part := M.Filter(batch, s => s in push.landed);
      if part == [] then [] else [part]
  }

  /** Whether a push leaves lines in Loki. */
  function Lines(push: Push<bool>): nat {
    if push.Pushed? || push.landed then 1 else 0
  }

  datatype Envelope = Envelope(data: map<Name, Payload>, facts: Facts, total: nat, failed: nat, subset: bool)

  datatype Store = Store(
    views: map<string, View>, latest: map<Tier, Envelope>, carry: seq<M.Series>,
    history: nat, gaps: map<string, string>, mimir: seq<seq<M.Series>>, loki: nat)

  datatype Outcome = Returned(code: int) | Raised

  /** The scannable stacks, as coverage counts them. */
  predicate Counted(o: Observation) {
    o.facts.scannable == if o.total > o.skipped then o.total - o.skipped else 0
  }

  /** The scannable stacks and the skipped ones make up the estate, or none is scannable. */
  lemma CountedAreTheRest(o: Observation)
    ensures Counted(o) <==>
              o.facts.scannable + o.skipped == o.total || (o.facts.scannable == 0 && o.total <= o.skipped)
  {
  }

  predicate AboveTenth(failed: nat, population: nat) {
    population > 0 && 10 * failed > population
  }

  // The runner

  predicate AiBillingAvailable(gathered: map<Name, Payload>) {
    AiBilling in gathered && "org" in gathered[AiBilling] && Available in gathered[AiBilling]["org"]
  }

  /** The daily tier's history write waits for every ordinary publication guard. */
  predicate HistoryAdmitted(cfg: Config, o: Observation) {
    && cfg.tier == T2 && o.inventory > 0 && o.total > 0
    && Blocking(T2, Failures(Sources(T2, o.facts, o.gathered))) == {}
    && !AboveTenth(o.failed, o.facts.scannable) && !cfg.subset && AiBillingAvailable(o.gathered) && cfg.bucket
  }

  /** After a failed history write the billing input is withheld like any input below its floor. */
  function GatheredFor(cfg: Config, o: Observation): map<Name, Payload> {
    if HistoryAdmitted(cfg, o) && o.history != Written then o.gathered[AiBilling := map[]] else o.gathered
  }

  function SourcesFor(cfg: Config, o: Observation): map<Name, Report> {
    var sources := Sources(cfg.tier, o.facts, o.gathered);
    if HistoryAdmitted(cfg, o) && o.history != Written then sources[AiBilling := SourceReport(1, 0)] else sources
  }

  function PublishableFor(cfg: Config, o: Observation): map<Name, Payload> {
    Accepted(GatheredFor(cfg, o), SourcesFor(cfg, o))
  }

  /** The gap stamps are updated by the tier that measured the estate, and only when it will publish. */
  predicate GapsAdmitted(cfg: Config, o: Observation) {
    && cfg.tier == T2 && o.inventory > 0 && o.total > 0
    && Blocking(T2, Failures(SourcesFor(cfg, o))) == {}
    && !AboveTenth(o.failed, o.facts.scannable) && (cfg.dryRun || !cfg.subset)
    && Assistant in PublishableFor(cfg, o) && PublishableFor(cfg, o)[Assistant] != map[]
  }

  /** A persisting gap keeps its first stamp, a new one gets this run's, a healed one is dropped. */
  function Restamped(gaps: map<string, string>, missing: set<string>, stamp: string): map<string, string> {
    map slug | slug in missing :: if slug in gaps && gaps[slug] != "" then gaps[slug] else stamp
  }

  predicate WritesHistory(cfg: Config, o: Observation) {
    HistoryAdmitted(cfg, o) && TakesEffect(o.history) && !cfg.dryRun
  }

  /** Read, merge, write. */
  function Updated(gaps: map<string, string>, u: Update): map<string, string> {
    if u.written then Restamped(if u.read then gaps else map[], u.missing, u.stamp) else gaps
  }

  predicate WritesGaps(cfg: Config, o: Observation) {
    GapsAdmitted(cfg, o) && !cfg.dryRun
  }

  function WithHistory(s: Store, writes: bool): Store {
    if writes then s.(history := s.history + 1) else s
  }

  function WithGaps(s: Store, o: Observation, writes: bool): Store {
    if writes then s.(gaps := Updated(s.gaps, o.gaps)) else s
  }

  /** The history is written before the rate card is read, the gaps after. */
  function SideWrites(s: Store, cfg: Config, o: Observation, writesHistory: bool, writesGaps: bool): (Store, bool) {
    var s1 := WithHistory(s, writesHistory);
    if cfg.tier != T4 && o.card == CardUnreadable then (s1, false) else (WithGaps(s1, o, writesGaps), true)
  }

  /** The store after the runner, and whether the rate card let it finish. */
  function RunnerOn(s: Store, cfg: Config, o: Observation): (Store, bool) {
    SideWrites(s, cfg, o, WritesHistory(cfg, o), WritesGaps(cfg, o))
  }

  function UpdateAll(gaps: map<string, string>, updates: seq<Update>): map<string, string>
    decreases |updates|
  {
    if updates == [] then gaps else UpdateAll(Updated(gaps, updates[0]), updates[1..])
  }

  predicate Stamped(gaps: map<string, string>, slug: string) {
    slug in gaps && gaps[slug] != ""
  }

  /** The update stored stamps it could not base on the earlier ones. */
  predicate Resets(u: Update) {
    u.written && !u.read
  }

  /** While no update resets the stamps, a gap all of them see keeps its stamp. */
  lemma {:induction false} StampKept(gaps: map<string, string>, updates: seq<Update>, slug: string)
    requires forall u :: u in updates ==> slug in u.missing && u.stamp != "" && !Resets(u)
    ensures Stamped(gaps, slug) ==> slug in UpdateAll(gaps, updates) && UpdateAll(gaps, updates)[slug] == gaps[slug]
    decreases |updates|
  {
    if updates != [] {
      StampKept(Updated(gaps, updates[0]), updates[1..], slug);
    }
  }

  lemma {:induction false} UpdatesAppend(gaps: map<string, string>, first: seq<Update>, second: seq<Update>)
    ensures UpdateAll(gaps, first + second) == UpdateAll(UpdateAll(gaps, first), second)
    decreases |first|
  {
    if first == [] {
      assert first + second == second;
    } else {
      UpdatesAppend(Updated(gaps, first[0]), first[1..], second);
      assert (first + second)[1..] == first[1..] + second;
    }
  }

  /** The stamp of a gap that all updates see is that of the last update that reset the stamps. */
  lemma StampOfLastReset(gaps: map<string, string>, updates: seq<Update>, slug: string, last: nat)
    requires last < |updates| && Resets(updates[last])
    requires forall u :: u in updates ==> slug in u.missing && u.stamp != ""
    requires forall i :: last < i < |updates| ==> !Resets(updates[i])
    ensures slug in UpdateAll(gaps, updates) && UpdateAll(gaps, updates)[slug] == updates[last].stamp
  {
    var before, after := updates[..last], updates[last + 1..];
    var reset := Updated(UpdateAll(gaps, before), updates[last]);
    assert updates == before + ([updates[last]] + after);
    UpdatesAppend(gaps, before, [updates[last]] + after);
    assert ([updates[last]] + after)[1..] == after;
    StampKept(reset, after, slug);
  }

  lemma LastReset(updates: seq<Update>) returns (last: nat)
    requires exists i :: 0 <= i < |updates| && Resets(updates[i])
    ensures last < |updates| && Resets(updates[last]) && forall i :: last < i < |updates| ==> !Resets(updates[i])
  {
    last := |updates| - 1;
    while !Resets(updates[last])
      invariant last < |updates| && forall i :: last < i < |updates| ==> !Resets(updates[i])
      decreases last
    {
      last := last - 1;
    }
  }

  /** The stamp of a gap's first sighting survives a sequence of later updates, all of which see the gap, exactly
      when none of them stored its stamps after a failed read. */
  lemma FirstStampSurvives(gaps: map<string, string>, updates: seq<Update>, slug: string)
    requires Stamped(gaps, slug)
    requires forall u :: u in updates ==> slug in u.missing && u.stamp != "" && u.stamp != gaps[slug]
    ensures slug in UpdateAll(gaps, updates)
    ensures UpdateAll(gaps, updates)[slug] == gaps[slug] <==> forall u :: u in updates ==> !Resets(u)
  {
    if exists i :: 0 <= i < |updates| && Resets(updates[i]) {
      var last := LastReset(updates);
      StampOfLastReset(gaps, updates, slug, last);
      assert updates[last] in updates;
    } else {
      StampKept(gaps, updates, slug);
    }
  }

  /** A stamp is only ever one that was there or one of the updates'. */
  lemma {:induction false} StampIsNotInvented(
    gaps: map<string, string>, updates: seq<Update>, slug: string, stamp: string)
    requires slug in gaps ==> gaps[slug] != stamp
    requires forall u :: u in updates ==> u.stamp != stamp
    ensures slug in UpdateAll(gaps, updates) ==> UpdateAll(gaps, updates)[slug] != stamp
    decreases |updates|
  {
    if updates != [] {
      StampIsNotInvented(Updated(gaps, updates[0]), updates[1..], slug, stamp);
    }
  }

  /** A gap that persists from its first sighting on is dated to that sighting exactly when the first update was
      stored and no later one stored its stamps after a failed read. */
  lemma GapKeepsFirstStamp(gaps: map<string, string>, first: Update, later: seq<Update>, slug: string)
    requires slug !in gaps && slug in first.missing && first.stamp != ""
    requires forall u :: u in later ==> slug in u.missing && u.stamp != "" && u.stamp != first.stamp
    ensures var gaps' := UpdateAll(gaps, [first] + later);
            slug in gaps' && gaps'[slug] == first.stamp <==> first.written && forall u :: u in later ==> !Resets(u)
  {
    assert ([first] + later)[1..] == later;
    var next := Updated(gaps, first);
    if first.written {
      FirstStampSurvives(next, later, slug);
    } else {
      StampIsNotInvented(next, later, slug, first.stamp);
    }
  }

  /** A gap is on record exactly when the last update that was stored saw it. */
  lemma {:induction false} HealedGapIsDropped(gaps: map<string, string>, updates: seq<Update>, slug: string, last: nat)
    requires last < |updates| && updates[last].written
    requires forall i :: last < i < |updates| ==> !updates[i].written
    ensures slug in UpdateAll(gaps, updates) <==> slug in updates[last].missing
    decreases |updates|
  {
    var next := Updated(gaps, updates[0]);
    if last > 0 {
      HealedGapIsDropped(next, updates[1..], slug, last - 1);
    } else {
      NothingStored(next, updates[1..]);
    }
  }

  lemma {:induction false} NothingStored(gaps: map<string, string>, updates: seq<Update>)
    requires forall i :: 0 <= i < |updates| ==> !updates[i].written
    ensures UpdateAll(gaps, updates) == gaps
    decreases |updates|
  {
    if updates != [] {
      NothingStored(gaps, updates[1..]);
    }
  }

  const FIRST_DAYS := [Update({"a"}, "day 1", true, true), Update({"a"}, "day 2", true, true)]
  const FAILED_READ := Update({"a"}, "day 3", false, true)

  lemma UpdateTwice(gaps: map<string, string>, u: Update, v: Update)
    ensures UpdateAll(gaps, [u, v]) == Updated(Updated(gaps, u), v)
    ensures UpdateAll(gaps, [u]) == Updated(gaps, u)
  {
    assert [u][1..] == [] && [v][1..] == [] && [u, v][1..] == [v];
    assert UpdateAll(Updated(gaps, u), [v]) == Updated(Updated(gaps, u), v);
  }

  /** One failed read is enough: a gap first seen on the first day is dated to the third. */
  lemma OneFailedReadLosesTheStamp()
    ensures UpdateAll(map[], FIRST_DAYS) == map["a" := "day 1"]
    ensures UpdateAll(map[], FIRST_DAYS + [FAILED_READ]) == map["a" := "day 3"]
  {
    UpdateTwice(map[], FIRST_DAYS[0], FIRST_DAYS[1]);
    UpdatesAppend(map[], FIRST_DAYS, [FAILED_READ]);
    UpdateTwice(map["a" := "day 1"], FAILED_READ, FAILED_READ);
    assert Updated(map[], FIRST_DAYS[0]) == map["a" := "day 1"];
    assert Updated(map["a" := "day 1"], FIRST_DAYS[1]) == map["a" := "day 1"];
    assert Updated(map["a" := "day 1"], FAILED_READ) == map["a" := "day 3"];
  }

  // The admitted part

  const MATURITY := "gcinsight_maturity_"

  predicate IsMaturity(s: M.Series) {
    MATURITY <= s.name
    || (s.name == "gcinsight_value_benchmark" && "kind" in s.labels && s.labels["kind"] == "maturity_score")
  }

  function Without(ms: seq<M.Series>, drop: bool): seq<M.Series> {
    M.Filter(ms, s => !(drop && IsMaturity(s)))
  }

  /** The refusals, in their order; None admits the run to the publication seams. */
  function Refusal(cfg: Config, o: Observation): Option<int> {
    if cfg.tier != T4 && o.total == 0 then Some(1)
    else if AboveTenth(o.failed, o.facts.scannable) then Some(1)
    else if Blocking(cfg.tier, Failures(SourcesFor(cfg, o))) != {} then Some(1)
    else if cfg.subset && !cfg.dryRun then Some(2)
    else None
  }

  /** The batch that goes to Mimir, or None when a label the projection reads is missing. */
  function Batch(o: Observation): Option<seq<M.Series>> {
    if !M.WellLabelled(o.metrics) then None
    else
      var merged := Without(M.Project(o.metrics) + o.extras, o.maturityUnsatisfied);
      if M.WellLabelled(merged) then Some(M.Project(merged)) else None
  }

  function PublishedViews(o: Observation, seams: Seams): map<string, View> {
    map v | v in o.views && v !in o.withheld && (seams.views.Some? ==> v in seams.views.value) :: o.views[v]
  }

  /** What an admitted run has to write: its accepted payloads, its batch for Mimir, and the carry state
      (None when a label the projection reads is missing). */
  datatype Product = Product(data: map<Name, Payload>, carry: Option<seq<M.Series>>, batch: Option<seq<M.Series>>)

  function ProductOf(cfg: Config, o: Observation): Product {
    Product(PublishableFor(cfg, o),
            if M.WellLabelled(o.metrics) then Some(Without(M.Project(o.metrics), o.maturityUnsatisfied)) else None,
            Batch(o))
  }

  /** The exit code of a run that reached its end. */
  function Code(o: Observation, seams: Seams): Outcome {
    Returned(if AboveTenth(o.failed, o.total) then 1 else if seams.mimir.Failed? || seams.loki.Failed? then 3 else 0)
  }

  /** `_run_admitted` after a runner that finished, for a run no refusal stops. */
  function PublishOn(s: Store, cfg: Config, o: Observation, p: Product, seams: Seams): (Store, Outcome) {
    if p.carry.None? then (s, Raised)
    else
      var saves := cfg.tier == T3 && !cfg.dryRun;
      var s1 := if saves && TakesEffect(seams.carry) then s.(carry := p.carry.value) else s;
      if saves && seams.carry != Written then (s1, Raised)
      else if p.batch.None? || !seams.guardPasses then (s1, Raised)
      else if cfg.dryRun then
        (s1, if seams.mimir.Broken? || seams.loki.Broken? then Raised else Code(o, seams))
      else
        var s2 := s1.(views := s1.views + PublishedViews(o, seams));
        if seams.views.Some? then (s2, Raised)
        else
          var s3 := s2.(mimir := s2.mimir + Samples(p.batch.value, seams.mimir));
          if seams.mimir.Broken? then (s3, Raised)
          else
            var s4 := s3.(loki := s3.loki + Lines(seams.loki));
            if seams.loki.Broken? then (s4, Raised)
            else
              var envelope := Envelope(p.data, o.facts, o.total, o.failed, cfg.subset);
              var s5 := if TakesEffect(seams.scan) then s4.(latest := s4.latest[cfg.tier := envelope]) else s4;
              (s5, if seams.scan != Written then Raised else Code(o, seams))
  }

  function RunOn(s: Store, cfg: Config, o: Observation, seams: Seams): (Store, Outcome) {
    if !cfg.dryRun && (cfg.out || !cfg.verified) then (s, Returned(2))
    else
      var (s1, finished) := RunnerOn(s, cfg, o);
      if !finished then (s1, Returned(2))
      else if Refusal(cfg, o).Some? then (s1, Returned(Refusal(cfg, o).value))
      else PublishOn(s1, cfg, o, ProductOf(cfg, o), seams)
  }

  // Exit codes

  /** No view, envelope, carry state, metric batch or log batch was written. */
  predicate NothingPublished(s: Store, s': Store) {
    s'.views == s.views && s'.latest == s.latest && s'.carry == s.carry && s'.mimir == s.mimir && s'.loki == s.loki
  }

  /** The last check on the whole estate can contradict the first one, on the scannable stacks, only when
      nothing is scannable. */
  lemma LateCheck(o: Observation)
    requires Counted(o) && !AboveTenth(o.failed, o.facts.scannable)
    ensures AboveTenth(o.failed, o.total) <==> o.facts.scannable == 0 && AboveTenth(o.failed, o.total)
    ensures o.failed + o.skipped <= o.total ==> !AboveTenth(o.failed, o.total)
  {
  }

  /** The runner's own writes are the two side-writes. */
  lemma RunnerPublishesNothing(s: Store, cfg: Config, o: Observation)
    ensures NothingPublished(s, RunnerOn(s, cfg, o).0)
  {
  }

  /** Everything of a product reached the store, up to the pushes that failed. */
  predicate FullyPublished(s: Store, s': Store, cfg: Config, o: Observation, p: Product, seams: Seams) {
    && (forall v :: v in o.views && v !in o.withheld ==> v in s'.views && s'.views[v] == o.views[v])
    && cfg.tier in s'.latest && s'.latest[cfg.tier] == Envelope(p.data, o.facts, o.total, o.failed, cfg.subset)
    && p.batch.Some?
    && s'.mimir == s.mimir + Samples(p.batch.value, seams.mimir)
    && s'.loki == s.loki + Lines(seams.loki)
  }

  /** The publication seams let a run come to its end: the labels are there, the guard passes, every write is
      done and no push raises. */
  predicate SeamsComplete(cfg: Config, p: Product, seams: Seams) {
    && p.carry.Some? && p.batch.Some? && seams.guardPasses && seams.views.None? && seams.scan == Written
    && !seams.mimir.Broken? && !seams.loki.Broken? && (cfg.tier == T3 ==> seams.carry == Written)
  }

  /** The run is admitted and publishes to its end. */
  predicate Completes(cfg: Config, o: Observation, seams: Seams) {
    && !cfg.dryRun && !cfg.out && cfg.verified && (cfg.tier == T4 || o.card == CardRead)
    && Refusal(cfg, o).None? && SeamsComplete(cfg, ProductOf(cfg, o), seams)
  }

  /** A publish that comes to its end has published everything, whatever its exit code; one that does not never
      returns a code. */
  lemma PublishCompletes(s: Store, cfg: Config, o: Observation, p: Product, seams: Seams)
    requires !cfg.dryRun
    ensures var (s', out) := PublishOn(s, cfg, o, p, seams);
            if SeamsComplete(cfg, p, seams) then FullyPublished(s, s', cfg, o, p, seams) && out == Code(o, seams)
            else out == Raised
  {
  }

  lemma DryPublish(s: Store, cfg: Config, o: Observation, p: Product, seams: Seams)
    requires cfg.dryRun
    ensures PublishOn(s, cfg, o, p, seams).0 == s && PublishOn(s, cfg, o, p, seams).1 != Returned(2)
  {
  }

  /** Exit code 2 means nothing was published, and so does exit code 1 unless the run published to its end. A run
      that did has published everything, and then returns 1 exactly when no stack was scannable and more than a
      tenth of the estate failed. */
  lemma RefusalPublishesNothing(s: Store, cfg: Config, o: Observation, seams: Seams)
    requires Counted(o)
    ensures var (s', out) := RunOn(s, cfg, o, seams);
            && (out == Returned(2) ==> NothingPublished(s, s'))
            && (out == Returned(1) ==> NothingPublished(s, s') || Completes(cfg, o, seams))
            && (Completes(cfg, o, seams) ==>
                  FullyPublished(s, s', cfg, o, ProductOf(cfg, o), seams)
                  && (out == Returned(1) <==> o.facts.scannable == 0 && AboveTenth(o.failed, o.total)))
  {
    RunnerPublishesNothing(s, cfg, o);
    var s1 := RunnerOn(s, cfg, o).0;
    if cfg.dryRun {
      DryPublish(s1, cfg, o, ProductOf(cfg, o), seams);
    } else {
      PublishCompletes(s1, cfg, o, ProductOf(cfg, o), seams);
    }
    if Refusal(cfg, o).None? {
      LateCheck(o);
    }
  }

  /** One stack, counted as skipped and as failed. */
  const SIX_HOURLY := Config(T3, false, false, false, true, true)
  const COUNTED_TWICE := Observation(
    1, Facts({}, 0, 0, {}), 1, 1, 1, map[], Written, CardRead, Update({}, "", true, true), [], [], false, map[], {})
  const ALL_DONE := Seams(Written, true, None, Pushed, Pushed, Written)

  /** The gate alone does not exclude such a run. */
  lemma LateRefusalWitness(s: Store)
    ensures Counted(COUNTED_TWICE) && Completes(SIX_HOURLY, COUNTED_TWICE, ALL_DONE)
    ensures RunOn(s, SIX_HOURLY, COUNTED_TWICE, ALL_DONE).1 == Returned(1)
    ensures RunOn(s, SIX_HOURLY, COUNTED_TWICE, ALL_DONE).0.loki == s.loki + 1
  {
    assert Sources(T3, COUNTED_TWICE.facts, map[]) == map[];
    assert Failures(map[]) == {} && Blocking(T3, {}) == {};
    RefusalPublishesNothing(s, SIX_HOURLY, COUNTED_TWICE, ALL_DONE);
  }

  /** When coverage keeps failed plus skipped within the estate, 1 and 2 always mean nothing was published. */
  lemma BoundedCoveragePublishesNothing(s: Store, cfg: Config, o: Observation, seams: Seams)
    requires Counted(o) && o.failed + o.skipped <= o.total
    ensures var (s', out) := RunOn(s, cfg, o, seams);
            out == Returned(1) || out == Returned(2) ==> NothingPublished(s, s')
  {
    RefusalPublishesNothing(s, cfg, o, seams);
  }

  /** That bound holds for every tier that records each stack of its estate at most once. */
  lemma CoverageBoundsObservation(events: seq<C.Event>, estate: set<string>, o: Observation)
    requires C.OncePerStack(events, estate) && |estate| <= o.total
    requires o.failed == C.Failed(C.Replay(events)) && o.skipped == C.SkippedCount(C.Replay(events))
    ensures o.failed + o.skipped <= o.total
  {
    C.OneRecordPerStack(events, estate, o.total);
  }

  /** Exit code 3 of a publishing run: every admitted view and the envelope were written, and a push failed.
      Exit code 0: the pushes went through as well. */
  lemma PublishedCodes(s: Store, cfg: Config, o: Observation, seams: Seams)
    requires !cfg.dryRun
    ensures var (s', out) := RunOn(s, cfg, o, seams);
            out == Returned(3) || out == Returned(0) ==>
              FullyPublished(s, s', cfg, o, ProductOf(cfg, o), seams)
              && (out == Returned(3) <==> seams.mimir.Failed? || seams.loki.Failed?)
  {
    RunnerPublishesNothing(s, cfg, o);
    PublishCompletes(RunnerOn(s, cfg, o).0, cfg, o, ProductOf(cfg, o), seams);
  }

  predicate SameView(s: Store, s': Store, v: string) {
    (v in s'.views <==> v in s.views) && (v in s.views ==> s'.views[v] == s.views[v])
  }

  lemma WithheldByPublish(s: Store, cfg: Config, o: Observation, p: Product, seams: Seams, v: string)
    requires v in o.withheld || v !in o.views
    ensures SameView(s, PublishOn(s, cfg, o, p, seams).0, v)
  {
  }

  /** A view whose inputs are unsatisfied keeps its last good copy, whatever the outcome. */
  lemma WithheldViewsKept(s: Store, cfg: Config, o: Observation, seams: Seams, v: string)
    requires v in o.withheld || v !in o.views
    ensures SameView(s, RunOn(s, cfg, o, seams).0, v)
  {
    RunnerPublishesNothing(s, cfg, o);
    WithheldByPublish(RunnerOn(s, cfg, o).0, cfg, o, ProductOf(cfg, o), seams, v);
  }

  /** A dry run leaves the store as it is. */
  lemma DryRunWritesNothing(s: Store, cfg: Config, o: Observation, seams: Seams)
    requires cfg.dryRun
    ensures RunOn(s, cfg, o, seams).0 == s
  {
  }

  // Side-writes

  lemma HistoryKeepsBlocking(cfg: Config, o: Observation)
    requires HistoryAdmitted(cfg, o)
    ensures Blocking(T2, Failures(SourcesFor(cfg, o))) == {}
  {
    var sources, after := Sources(T2, o.facts, o.gathered), SourcesFor(cfg, o);
    assert forall name :: name !in Blocking(T2, Failures(sources));
    assert forall name :: name in Failures(after) && name != AiBilling ==> name in Failures(sources);
  }

  lemma SideStateKept(s: Store, cfg: Config, o: Observation, p: Product, seams: Seams)
    ensures PublishOn(s, cfg, o, p, seams).0.gaps == s.gaps && PublishOn(s, cfg, o, p, seams).0.history == s.history
  {
  }

  /** An admitted side-write passes every later refusal. */
  lemma SideWritesAreAdmitted(cfg: Config, o: Observation)
    ensures GapsAdmitted(cfg, o) && !cfg.dryRun ==> Refusal(cfg, o).None?
    ensures HistoryAdmitted(cfg, o) ==> Refusal(cfg, o).None?
  {
    if HistoryAdmitted(cfg, o) {
      HistoryKeepsBlocking(cfg, o);
    }
  }

  /** The gap stamps change only in a run that no later refusal stops. */
  lemma GapsOnlyWhenAdmitted(s: Store, cfg: Config, o: Observation, seams: Seams)
    requires RunOn(s, cfg, o, seams).0.gaps != s.gaps
    ensures cfg.tier == T2 && Refusal(cfg, o).None?
    ensures RunOn(s, cfg, o, seams) == PublishOn(RunnerOn(s, cfg, o).0, cfg, o, ProductOf(cfg, o), seams)
  {
    SideWritesAreAdmitted(cfg, o);
    SideStateKept(RunnerOn(s, cfg, o).0, cfg, o, ProductOf(cfg, o), seams);
    assert RunnerOn(s, cfg, o).0.gaps != s.gaps;
  }

  /** The billing history grows only in a run that no later refusal stops, unless its rate card is unreadable:
      the history is written before the card is read. */
  lemma HistoryOnlyWhenAdmitted(s: Store, cfg: Config, o: Observation, seams: Seams)
    requires RunOn(s, cfg, o, seams).0.history != s.history
    ensures cfg.tier == T2 && Refusal(cfg, o).None?
    ensures o.card == CardUnreadable <==> RunOn(s, cfg, o, seams).1 == Returned(2)
    ensures o.card == CardUnreadable ==> NothingPublished(s, RunOn(s, cfg, o, seams).0)
  {
    SideWritesAreAdmitted(cfg, o);
    var s1 := RunnerOn(s, cfg, o).0;
    SideStateKept(s1, cfg, o, ProductOf(cfg, o), seams);
    PublishCompletes(s1, cfg, o, ProductOf(cfg, o), seams);
    assert s1.history != s.history;
    RunnerPublishesNothing(s, cfg, o);
  }

  /** One stack, paused, with a readable billing source and an unreadable rate card. */
  const DAILY := Config(T2, false, false, false, true, true)
  const ANSWERED: Payload := map["org" := {Available}]
  const PAUSED_ESTATE := Observation(
    1, Facts({}, 0, 0, {AiBilling}), 1, 0, 1, map[AiBilling := ANSWERED, CapabilityAdoption := ANSWERED],
    Written, CardUnreadable, Update({}, "", true, true), [], [], false, map[], {})

  /** An estate of paused stacks expects nothing of its stacks, only the answers of the org. */
  lemma PausedEstateIsHealthy(facts: Facts, name: Name, p: Payload)
    requires facts == Facts({}, 0, 0, {AiBilling}) && HasRow(T2, name)
    requires name == AiBilling || name == CapabilityAdoption ==> Count(p, Available) == 1
    ensures RowOf(facts, name, p).healthy
  {
  }

  lemma PausedEstateIsAdmitted()
    ensures HistoryAdmitted(DAILY, PAUSED_ESTATE)
  {
    assert (set t | t in ANSWERED && Available in ANSWERED[t]) == {"org"};
    assert Count(ANSWERED, Available) == 1;
    var facts, gathered := PAUSED_ESTATE.facts, PAUSED_ESTATE.gathered;
    forall name | HasRow(T2, name) ensures RowOf(facts, name, PayloadOf(gathered, name)).healthy {
      PausedEstateIsHealthy(facts, name, PayloadOf(gathered, name));
    }
    assert Failures(Sources(T2, facts, gathered)) == {};
    assert Blocking(T2, {}) == {};
  }

  lemma CardAfterHistory(s: Store, cfg: Config, o: Observation)
    requires WritesHistory(cfg, o) && o.card == CardUnreadable
    ensures RunnerOn(s, cfg, o) == (s.(history := s.history + 1), false)
  {
  }

  /** Such a run exists: its history is written, its rate card is not read, and it ends with code 2. */
  lemma HistoryBeforeCardWitness(s: Store, seams: Seams)
    ensures Counted(PAUSED_ESTATE)
    ensures RunOn(s, DAILY, PAUSED_ESTATE, seams) == (s.(history := s.history + 1), Returned(2))
  {
    PausedEstateIsAdmitted();
    CardAfterHistory(s, DAILY, PAUSED_ESTATE);
  }

  // The gate, in its own terms

  /** The estate is known and its coverage is healthy: at most a tenth of the scannable stacks failed. */
  ghost predicate EstateHealthy(cfg: Config, o: Observation) {
    && (cfg.tier == T4 || o.total > 0)
    && (o.facts.scannable > 0 ==> o.failed as real / o.facts.scannable as real <= 0.1)
  }

  ghost predicate Healthy(cfg: Config, o: Observation) {
    EstateHealthy(cfg, o) && InputsHealthy(cfg.tier, o.facts, o.gathered)
  }

  lemma TenthIsReal(failed: nat, population: nat)
    ensures AboveTenth(failed, population) <==> population > 0 && failed as real / population as real > 0.1
  {
    if population > 0 {
      RatioAboveTenth(failed as real, population as real);
      assert failed as real > 0.1 * population as real <==> 10 * failed > population;
    }
  }

  lemma RatioAboveTenth(failed: real, population: real)
    requires population > 0.0
    ensures failed / population > 0.1 <==> failed > 0.1 * population
  {
    var ratio := failed / population;
    assert ratio * population == failed;
    if ratio > 0.1 {
      Scaled(ratio - 0.1, population);
    } else {
      Scaled(0.1 - ratio, population);
    }
    assert (ratio - 0.1) * population == failed - 0.1 * population;
  }

  lemma Scaled(x: real, k: real)
    requires k > 0.0
    ensures x > 0.0 ==> x * k > 0.0
    ensures x >= 0.0 ==> x * k >= 0.0
  {
  }

  lemma BlockingIgnoresBilling(cfg: Config, o: Observation)
    ensures Blocking(cfg.tier, Failures(SourcesFor(cfg, o))) == {} <==> InputsHealthy(cfg.tier, o.facts, o.gathered)
  {
    UnblockedMeansHealthy(cfg.tier, o.facts, o.gathered);
    if HistoryAdmitted(cfg, o) {
      HistoryKeepsBlocking(cfg, o);
    }
  }

  lemma RefusalByHealth(cfg: Config, o: Observation)
    ensures Refusal(cfg, o)
            == if !Healthy(cfg, o) then Some(1) else if cfg.subset && !cfg.dryRun then Some(2) else None
  {
    BlockingIgnoresBilling(cfg, o);
    TenthIsReal(o.failed, o.facts.scannable);
  }

  /** What a run comes to once its command line and its rate card let it: an unknown estate, more than a tenth of the
      scannable stacks failed, or an input below its floor that must meet it, and it writes nothing at all and
      returns 1; else a subset writes nothing and returns 2; else the run publishes. The label inventory and the
      billing preview refuse nothing. */
  lemma GateIsExact(s: Store, cfg: Config, o: Observation, seams: Seams)
    requires cfg.dryRun || (!cfg.out && cfg.verified)
    requires cfg.tier == T4 || o.card == CardRead
    ensures !Healthy(cfg, o) ==> RunOn(s, cfg, o, seams) == (s, Returned(1))
    ensures Healthy(cfg, o) && cfg.subset && !cfg.dryRun ==> RunOn(s, cfg, o, seams) == (s, Returned(2))
    ensures Healthy(cfg, o) && !cfg.subset && !cfg.dryRun && SeamsComplete(cfg, ProductOf(cfg, o), seams) ==>
              FullyPublished(s, RunOn(s, cfg, o, seams).0, cfg, o, ProductOf(cfg, o), seams)
              && RunOn(s, cfg, o, seams).1
                 == Returned(if o.total > 0 && o.failed as real / o.total as real > 0.1 then 1
                             else if seams.mimir.Failed? || seams.loki.Failed? then 3 else 0)
  {
    RefusalByHealth(cfg, o);
    TenthIsReal(o.failed, o.total);
    SideWritesAreAdmitted(cfg, o);
    RunnerPublishesNothing(s, cfg, o);
    if !cfg.dryRun {
      PublishCompletes(RunnerOn(s, cfg, o).0, cfg, o, ProductOf(cfg, o), seams);
    }
  }

  /** Before that, a run that publishes needs the verified runtime and no diagnostic output, and then its rate card. */
  lemma GateBeforeRun(s: Store, cfg: Config, o: Observation, seams: Seams)
    requires !cfg.dryRun
    ensures cfg.out || !cfg.verified ==> RunOn(s, cfg, o, seams) == (s, Returned(2))
    ensures !cfg.out && cfg.verified && cfg.tier != T4 && o.card == CardUnreadable ==>
              RunOn(s, cfg, o, seams).1 == Returned(2) && NothingPublished(s, RunOn(s, cfg, o, seams).0)
              && RunOn(s, cfg, o, seams).0.gaps == s.gaps
  {
    RunnerPublishesNothing(s, cfg, o);
  }

  /** One input of the daily or the hourly tier below its floor is enough. */
  lemma FailedInputRefuses(s: Store, cfg: Config, o: Observation, seams: Seams, name: Name)
    requires (cfg.dryRun || (!cfg.out && cfg.verified)) && o.card == CardRead && (cfg.tier == T1 || cfg.tier == T2)
    requires if cfg.tier == T1 then name == OrgMembers || name == Fleet
             else name !in {AccessPolicies, OrgMembers, Fleet, Dataplane, LokiConfig, LabelInventory, AiBilling}
    requires !SwitchedOff(o.facts, name) && !FloorByName(o.facts, name, ReadBy(o.gathered, name))
    ensures RunOn(s, cfg, o, seams) == (s, Returned(1))
  {
    assert MustMeetFloor(cfg.tier, name);
    GateIsExact(s, cfg, o, seams);
  }

  /** When the billing history grows. */
  lemma HistoryExactly(s: Store, cfg: Config, o: Observation, seams: Seams)
    requires !cfg.dryRun && !cfg.out && cfg.verified
    ensures RunOn(s, cfg, o, seams).0.history
            == if cfg.tier == T2 && Healthy(cfg, o) && o.inventory > 0 && !cfg.subset && cfg.bucket
                  && AiBilling in o.gathered && "org" in o.gathered[AiBilling]
                  && Available in o.gathered[AiBilling]["org"] && o.history != RaisedBefore
               then s.history + 1 else s.history
  {
    AdmittedMeansHealthy(cfg, o);
    SideStateKept(RunnerOn(s, cfg, o).0, cfg, o, ProductOf(cfg, o), seams);
  }

  lemma AdmittedMeansHealthy(cfg: Config, o: Observation)
    ensures HistoryAdmitted(cfg, o) <==>
              cfg.tier == T2 && Healthy(cfg, o) && o.inventory > 0 && !cfg.subset && cfg.bucket
              && AiBillingAvailable(o.gathered)
  {
    UnblockedMeansHealthy(cfg.tier, o.facts, o.gathered);
    TenthIsReal(o.failed, o.facts.scannable);
  }

  /** When the gap stamps are updated, and with what. */
  lemma GapsExactly(s: Store, cfg: Config, o: Observation, seams: Seams)
    requires !cfg.dryRun && !cfg.out && cfg.verified && (cfg.tier == T4 || o.card == CardRead)
    ensures var measured := cfg.tier == T2 && Healthy(cfg, o) && o.inventory > 0 && !cfg.subset
                            && Assistant in o.gathered && o.gathered[Assistant] != map[];
            RunOn(s, cfg, o, seams).0.gaps == if measured then Updated(s.gaps, o.gaps) else s.gaps
  {
    BlockingIgnoresBilling(cfg, o);
    TenthIsReal(o.failed, o.facts.scannable);
    SideStateKept(RunnerOn(s, cfg, o).0, cfg, o, ProductOf(cfg, o), seams);
    if cfg.tier == T2 && Healthy(cfg, o) {
      AssistantAccepted(cfg, o);
    }
  }

  /** A healthy run publishes the assistant input it gathered. */
  lemma AssistantAccepted(cfg: Config, o: Observation)
    requires cfg.tier == T2 && InputsHealthy(T2, o.facts, o.gathered)
    ensures Assistant in PublishableFor(cfg, o) <==> Assistant in o.gathered
    ensures Assistant in o.gathered ==> PublishableFor(cfg, o)[Assistant] == o.gathered[Assistant]
  {
    if Assistant in o.gathered {
      assert MustMeetFloor(T2, Assistant);
      AcceptedByName(o.facts, o.gathered, Assistant);
      if HistoryAdmitted(cfg, o) && o.history != Written {
        OthersAccepted(cfg, o, Assistant);
      }
    }
  }

  /** What the envelope of a daily run holds of each gathered input that reports: nothing below its floor, an empty
      payload of an input that is switched off, and all of the others; after a failed history write the billing is
      withheld. */
  lemma EnvelopeByName(cfg: Config, o: Observation, name: Name)
    requires cfg.tier == T2 && Healthy(cfg, o) && name in o.gathered && HasRow(T2, name)
    ensures var data := ProductOf(cfg, o).data;
            if name == AiBilling && HistoryAdmitted(cfg, o) && o.history != Written then name !in data
            else if SwitchedOff(o.facts, name) then name in data && data[name] == map[]
            else if FloorByName(o.facts, name, ReadBy(o.gathered, name)) then
              name in data && data[name] == o.gathered[name]
            else name !in data
  {
    AcceptedByName(o.facts, o.gathered, name);
    if HistoryAdmitted(cfg, o) && o.history != Written {
      OthersAccepted(cfg, o, name);
    }
  }

  lemma OthersAccepted(cfg: Config, o: Observation, name: Name)
    requires HistoryAdmitted(cfg, o) && o.history != Written && name in o.gathered
    ensures name == AiBilling ==> name !in PublishableFor(cfg, o)
    ensures var before := Accepted(o.gathered, Sources(T2, o.facts, o.gathered));
            name != AiBilling ==>
              (name in PublishableFor(cfg, o) <==> name in before)
              && (name in before ==> PublishableFor(cfg, o)[name] == before[name])
  {
  }

  /** The maturity series of the source. */
  ghost predicate Maturity(x: M.Series) {
    "gcinsight_maturity_" <= x.name
    || (x.name == "gcinsight_value_benchmark" && "kind" in x.labels && x.labels["kind"] == "maturity_score")
  }

  lemma ProjectedIsNotMaturity(x: M.Series)
    requires M.IsProjected(x.name)
    ensures !Maturity(x)
  {
    assert MATURITY[10] == 'm' && M.AI_MESSAGES[10] == 'a' && M.STACKS_FAILED[10] == 's';
  }

  /** Dropping the maturity series from a batch keeps every other series and all of the bounded families. */
  lemma WithoutContent(ms: seq<M.Series>, drop: bool, x: M.Series)
    ensures x in Without(ms, drop) <==> x in ms && !(drop && Maturity(x))
    ensures M.IsProjected(x.name) ==> M.FamilyTotal(x.name, Without(ms, drop)) == M.FamilyTotal(x.name, ms)
  {
    var keep := (y: M.Series) => !(drop && IsMaturity(y));
    M.FilterMember(ms, keep, x);
    if M.IsProjected(x.name) {
      forall y | y in ms && y.name == x.name ensures keep(y) {
        ProjectedIsNotMaturity(y);
      }
      M.FamilyTotalFilter(x.name, ms, keep);
    }
  }

  /** Of the two bounded families the batch holds their totals; of every other series it holds those the runner composed
      and those added to them, without the maturity series when their input is unsatisfied. */
  lemma BatchContent(o: Observation, x: M.Series)
    requires Batch(o).Some?
    ensures !M.IsProjected(x.name) ==>
              (x in Batch(o).value <==> (x in o.metrics || x in o.extras) && !(o.maturityUnsatisfied && Maturity(x)))
    ensures M.IsProjected(x.name) ==>
              M.FamilyTotal(x.name, Batch(o).value)
              == M.FamilyTotal(x.name, o.metrics) + M.FamilyTotal(x.name, o.extras)
  {
    var merged := M.Project(o.metrics) + o.extras;
    WithoutContent(merged, o.maturityUnsatisfied, x);
    if M.IsProjected(x.name) {
      M.ProjectConservesTotals(x.name, o.metrics);
      M.ProjectConservesTotals(x.name, Without(merged, o.maturityUnsatisfied));
      M.FamilyTotalAppend(x.name, M.Project(o.metrics), o.extras);
    } else {
      M.UnprojectedStay(o.metrics, x);
      M.UnprojectedStay(Without(merged, o.maturityUnsatisfied), x);
    }
  }

  /** What a six-hourly run saves of its series, before those added for its own publication. */
  lemma SavedContent(ms: seq<M.Series>, drop: bool, x: M.Series)
    requires M.WellLabelled(ms)
    ensures !M.IsProjected(x.name) ==> (x in Without(M.Project(ms), drop) <==> x in ms && !(drop && Maturity(x)))
    ensures M.IsProjected(x.name) ==>
              M.FamilyTotal(x.name, Without(M.Project(ms), drop)) == M.FamilyTotal(x.name, ms)
  {
    WithoutContent(M.Project(ms), drop, x);
    if M.IsProjected(x.name) {
      M.ProjectConservesTotals(x.name, ms);
    } else {
      M.UnprojectedStay(ms, x);
    }
  }

  /** What the pushes of a run that comes to its end leave: Mimir gets the batch, or of a failed push one batch of the
      series that landed, or nothing; Loki gets its lines unless the push failed before any landed. */
  lemma PushesExactly(s: Store, cfg: Config, o: Observation, seams: Seams)
    requires Completes(cfg, o, seams)
    ensures var s' := RunOn(s, cfg, o, seams).0;
            var batch := ProductOf(cfg, o).batch.value;
            && (seams.mimir.Pushed? ==> s'.mimir == s.mimir + [batch])
            && (seams.mimir.Failed? && (forall x :: x in batch ==> x !in seams.mimir.landed) ==> s'.mimir == s.mimir)
            && (seams.mimir.Failed? && (exists x :: x in batch && x in seams.mimir.landed) ==>
                  |s'.mimir| == |s.mimir| + 1 && s'.mimir[..|s.mimir|] == s.mimir
                  && forall x :: x in s'.mimir[|s.mimir|] <==> x in batch && x in seams.mimir.landed)
            && s'.loki == s.loki + if seams.loki.Failed? && !seams.loki.landed then 0 else 1
  {
    RunnerPublishesNothing(s, cfg, o);
    PublishCompletes(RunnerOn(s, cfg, o).0, cfg, o, ProductOf(cfg, o), seams);
    if !seams.mimir.Pushed? {
      SamplesContent(ProductOf(cfg, o).batch.value, seams.mimir);
    }
  }

  lemma SamplesContent(batch: seq<M.Series>, push: Push<set<M.Series>>)
    requires !push.Pushed?
    ensures if exists x :: x in batch && x in push.landed
            then |Samples(batch, push)| == 1
                 && forall x :: x in Samples(batch, push)[0] <==> x in batch && x in push.landed
            else Samples(batch, push) == []
  {
    var part := M.Filter(batch, s => s in push.landed);
    forall x ensures x in part <==> x in batch && x in push.landed {
      M.FilterMember(batch, s => s in push.landed, x);
    }
    if part != [] {
      assert part[0] in part;
    }
  }

  lemma CarryByPublish(s: Store, cfg: Config, o: Observation, p: Product, seams: Seams)
    ensures var s' := PublishOn(s, cfg, o, p, seams).0;
            && (cfg.tier != T3 || cfg.dryRun ==> s'.carry == s.carry)
            && (cfg.tier == T3 && !cfg.dryRun && SeamsComplete(cfg, p, seams) ==> s'.carry == p.carry.value)
  {
  }

  /** The carry state is replaced by a six-hourly run that publishes; it then holds what that run composed. */
  lemma CarryExactly(s: Store, cfg: Config, o: Observation, seams: Seams, x: M.Series)
    ensures cfg.tier != T3 || cfg.dryRun ==> RunOn(s, cfg, o, seams).0.carry == s.carry
    ensures cfg.tier == T3 && Completes(cfg, o, seams) ==>
              var carry := RunOn(s, cfg, o, seams).0.carry;
              && (!M.IsProjected(x.name) ==>
                    (x in carry <==> x in o.metrics && !(o.maturityUnsatisfied && Maturity(x))))
              && (M.IsProjected(x.name) ==> M.FamilyTotal(x.name, carry) == M.FamilyTotal(x.name, o.metrics))
  {
    RunnerPublishesNothing(s, cfg, o);
    CarryByPublish(RunnerOn(s, cfg, o).0, cfg, o, ProductOf(cfg, o), seams);
    if M.WellLabelled(o.metrics) {
      SavedContent(o.metrics, o.maturityUnsatisfied, x);
    }
  }

  // Sequences of runs

  datatype Run = Run(cfg: Config, o: Observation, seams: Seams)

  function RunAll(s: Store, runs: seq<Run>): Store
    decreases |runs|
  {
    if runs == [] then s else RunAll(RunOn(s, runs[0].cfg, runs[0].o, runs[0].seams).0, runs[1..])
  }

  /** One more run starts from the store the ones before it left. */
  lemma {:induction false} RunOneMore(s: Store, runs: seq<Run>, last: Run)
    ensures RunAll(s, []) == s
    ensures RunAll(s, runs + [last]) == RunOn(RunAll(s, runs), last.cfg, last.o, last.seams).0
    decreases |runs|
  {
    if runs != [] {
      assert (runs + [last])[1..] == runs[1..] + [last];
      RunOneMore(RunOn(s, runs[0].cfg, runs[0].o, runs[0].seams).0, runs[1..], last);
    }
  }

  /** A persisted payload was at or above its floor, or belongs to a disabled input and is empty. */
  ghost predicate FloorsHold(tier: Tier, e: Envelope) {
    forall name :: name in e.data && (tier == T1 || tier == T2) ==>
      AtFloor(e.facts, name, e.data[name]) || (Disabled(e.facts, name) && e.data[name] == map[])
  }

  /** The envelope was made by a whole-estate run whose coverage was healthy. */
  predicate FullEstate(tier: Tier, e: Envelope) {
    !e.subset && !AboveTenth(e.failed, e.facts.scannable) && (tier != T4 ==> e.total > 0)
  }

  /** What every reader of the store relies on: envelopes carry only trustworthy payloads, and each batch in
      Mimir and the carry state have bounded labels, so projecting them again changes nothing. */
  ghost predicate Trustworthy(s: Store) {
    && (forall tier :: tier in s.latest ==> FloorsHold(tier, s.latest[tier]) && FullEstate(tier, s.latest[tier]))
    && (forall i :: 0 <= i < |s.mimir| ==> M.Stable(s.mimir[i]))
    && M.Stable(s.carry)
  }

  /** The inputs a tier gathers are the ones its table reports on. */
  predicate GathersOwn(run: Run) {
    forall name :: name in run.o.gathered ==>
      match run.cfg.tier
      case T1 => HasRow(T1, name)
      case T2 =>
        name == LokiConfig || (HasRow(T2, name) && name != LokiConfigLimits && name != LokiConfigChangeRequests)
      case _ => true
  }

  /** Every gathered input but the four another tier gathers, and the two domains, which are reports of one input. */
  lemma GathersByName(run: Run)
    ensures run.cfg.tier == T1 ==> (GathersOwn(run) <==> run.o.gathered.Keys <= {OrgMembers, Fleet})
    ensures run.cfg.tier == T2 ==>
              (GathersOwn(run) <==>
               run.o.gathered.Keys
               !! {AccessPolicies, OrgMembers, Fleet, Dataplane, LokiConfigLimits, LokiConfigChangeRequests})
  {
  }

  /** After a failed history write the split treats billing as withheld and everything else as before. */
  lemma HistoryFailureWithholds(cfg: Config, o: Observation, name: Name)
    requires HistoryAdmitted(cfg, o) && o.history != Written && name in PublishableFor(cfg, o)
    ensures name != AiBilling && name in Accepted(o.gathered, Sources(T2, o.facts, o.gathered))
    ensures PublishableFor(cfg, o)[name] == Accepted(o.gathered, Sources(T2, o.facts, o.gathered))[name]
  {
  }

  lemma PublishableMeetsFloor(run: Run, name: Name)
    requires run.cfg.tier == T1 || run.cfg.tier == T2
    requires GathersOwn(run) && name in PublishableFor(run.cfg, run.o)
    requires Blocking(run.cfg.tier, Failures(SourcesFor(run.cfg, run.o))) == {}
    ensures var p := PublishableFor(run.cfg, run.o)[name];
            AtFloor(run.o.facts, name, p) || (Disabled(run.o.facts, name) && p == map[])
  {
    if HistoryAdmitted(run.cfg, run.o) && run.o.history != Written {
      HistoryFailureWithholds(run.cfg, run.o, name);
    }
    AcceptedMeetsFloor(run.cfg.tier, run.o.facts, run.o.gathered, name);
  }

  lemma BatchIsStable(o: Observation)
    requires Batch(o).Some?
    ensures M.Stable(Batch(o).value)
  {
    var merged := Without(M.Project(o.metrics) + o.extras, o.maturityUnsatisfied);
    M.ProjectIdempotent(merged);
  }

  /** What an admitted product must be for the store to stay trustworthy. */
  ghost predicate TrustworthyProduct(cfg: Config, o: Observation, p: Product) {
    var e := Envelope(p.data, o.facts, o.total, o.failed, cfg.subset);
    && FloorsHold(cfg.tier, e) && (cfg.dryRun || FullEstate(cfg.tier, e))
    && (p.batch.Some? ==> M.Stable(p.batch.value)) && (p.carry.Some? ==> M.Stable(p.carry.value))
  }

  lemma PublishKeepsTrust(s: Store, cfg: Config, o: Observation, p: Product, seams: Seams)
    requires Trustworthy(s) && TrustworthyProduct(cfg, o, p)
    ensures Trustworthy(PublishOn(s, cfg, o, p, seams).0)
  {
    PublishedParts(s, cfg, o, p, seams);
    var s' := PublishOn(s, cfg, o, p, seams).0;
    if s'.mimir != s.mimir {
      SamplesAreStable(p.batch.value, seams.mimir);
      forall i | 0 <= i < |s'.mimir| ensures M.Stable(s'.mimir[i]) {
        assert s'.mimir[i] in s.mimir || s'.mimir[i] in Samples(p.batch.value, seams.mimir);
      }
    }
  }

  /** The envelopes and batches a publish can leave. */
  lemma PublishedParts(s: Store, cfg: Config, o: Observation, p: Product, seams: Seams)
    ensures var s' := PublishOn(s, cfg, o, p, seams).0;
            && (s'.latest == s.latest || (!cfg.dryRun
                  && s'.latest == s.latest[cfg.tier := Envelope(p.data, o.facts, o.total, o.failed, cfg.subset)]))
            && (s'.mimir == s.mimir || (p.batch.Some? && s'.mimir == s.mimir + Samples(p.batch.value, seams.mimir)))
            && (s'.carry == s.carry || (p.carry.Some? && s'.carry == p.carry.value && cfg.tier == T3 && !cfg.dryRun))
  {
  }

  /** Dropping the maturity series from a projected batch leaves a batch the projection does not change. */
  lemma CarryIsStable(ms: seq<M.Series>, drop: bool)
    requires M.WellLabelled(ms)
    ensures M.Stable(Without(M.Project(ms), drop))
  {
    M.ProjectIdempotent(ms);
    M.FilterStable(M.Project(ms), s => !(drop && IsMaturity(s)));
  }

  /** However little of a batch a failed push stored, projecting what it stored changes nothing. */
  lemma SamplesAreStable(batch: seq<M.Series>, push: Push<set<M.Series>>)
    requires M.Stable(batch)
    ensures forall b :: b in Samples(batch, push) ==> M.Stable(b)
  {
    if !push.Pushed? {
      M.FilterStable(batch, s => s in push.landed);
    }
  }

  lemma AdmittedProduct(run: Run)
    requires GathersOwn(run) && Refusal(run.cfg, run.o).None?
    ensures TrustworthyProduct(run.cfg, run.o, ProductOf(run.cfg, run.o))
  {
    if M.WellLabelled(run.o.metrics) {
      CarryIsStable(run.o.metrics, run.o.maturityUnsatisfied);
    }
    if Batch(run.o).Some? {
      BatchIsStable(run.o);
    }
    forall name | name in PublishableFor(run.cfg, run.o) && (run.cfg.tier == T1 || run.cfg.tier == T2)
      ensures var p := PublishableFor(run.cfg, run.o)[name];
              AtFloor(run.o.facts, name, p) || (Disabled(run.o.facts, name) && p == map[])
    {
      PublishableMeetsFloor(run, name);
    }
  }

  lemma RunKeepsTrust(s: Store, run: Run)
    requires Trustworthy(s) && GathersOwn(run)
    ensures Trustworthy(RunOn(s, run.cfg, run.o, run.seams).0)
  {
    RunnerPublishesNothing(s, run.cfg, run.o);
    var s1 := RunnerOn(s, run.cfg, run.o).0;
    assert Trustworthy(s1);
    if Refusal(run.cfg, run.o).None? {
      AdmittedProduct(run);
      PublishKeepsTrust(s1, run.cfg, run.o, ProductOf(run.cfg, run.o), run.seams);
    }
  }

  /** Over every sequence of runs of all tiers, whatever fails, the store stays trustworthy. */
  lemma {:induction false} RunsKeepTrust(s: Store, runs: seq<Run>)
    requires Trustworthy(s) && forall r :: r in runs ==> GathersOwn(r)
    ensures Trustworthy(RunAll(s, runs))
    decreases |runs|
  {
    if runs != [] {
      RunKeepsTrust(s, runs[0]);
      RunsKeepTrust(RunOn(s, runs[0].cfg, runs[0].o, runs[0].seams).0, runs[1..]);
    }
  }

  // The stores behind one deployment

  class PublicationStore {
    var views: map<string, View>
    var latest: map<Tier, Envelope>
    var carry: seq<M.Series>
    var history: nat
    var gaps: map<string, string>
    var mimir: seq<seq<M.Series>>
    var loki: nat

    constructor ()
      ensures Contents() == Store(map[], map[], [], 0, map[], [], 0)
    {
      views, latest, carry, history, gaps, mimir, loki := map[], map[], [], 0, map[], [], 0;
    }

    function Contents(): Store
      reads this
    {
      Store(views, latest, carry, history, gaps, mimir, loki)
    }

    /** The billing history write, and what its failure makes of the inputs. */
    method WriteHistory(cfg: Config, o: Observation) returns (accepted: map<Name, Payload>, failures: set<Name>)
      modifies this
      ensures accepted == PublishableFor(cfg, o) && failures == Failures(SourcesFor(cfg, o))
      ensures Contents() == WithHistory(old(Contents()), WritesHistory(cfg, o))
    {
      var gathered := o.gathered;
      var sources := Sources(cfg.tier, o.facts, gathered);
      if HistoryAdmitted(cfg, o) {
        if TakesEffect(o.history) && !cfg.dryRun {
          history := history + 1;
        }
        if o.history != Written {
          sources := sources[AiBilling := SourceReport(1, 0)];
          gathered := gathered[AiBilling := map[]];
        }
      }
      accepted, failures := Accepted(gathered, sources), Failures(sources);
    }

    /** The credential-gap stamps, written only by a run that measured the estate and will publish. */
    method UpdateGaps(cfg: Config, o: Observation, accepted: map<Name, Payload>, failures: set<Name>)
      requires accepted == PublishableFor(cfg, o) && failures == Failures(SourcesFor(cfg, o))
      modifies this
      ensures Contents() == WithGaps(old(Contents()), o, WritesGaps(cfg, o))
    {
      if Assistant in accepted && accepted[Assistant] != map[] {
        var measured := cfg.tier == T2 && o.inventory > 0 && o.total > 0 && Blocking(T2, failures) == {}
                        && !AboveTenth(o.failed, o.facts.scannable) && (cfg.dryRun || !cfg.subset);
        if measured && !cfg.dryRun {
          gaps := Updated(gaps, o.gaps);
        }
      }
    }

    /** The side-writes of the daily tier and the rate card read between them (`run_t2`). */
    method Compose(cfg: Config, o: Observation) returns (finished: bool, failures: set<Name>)
      modifies this
      ensures (Contents(), finished) == RunnerOn(old(Contents()), cfg, o)
      ensures failures == Failures(SourcesFor(cfg, o))
    {
      var accepted;
      accepted, failures := WriteHistory(cfg, o);
      finished := !(cfg.tier != T4 && o.card == CardUnreadable);
      if finished {
        UpdateGaps(cfg, o, accepted, failures);
      }
    }

    /** The publication seams in their order: carry state, views, Mimir, Loki, envelope. */
    method Publish(cfg: Config, o: Observation, p: Product, seams: Seams) returns (out: Outcome)
      modifies this
      ensures (Contents(), out) == PublishOn(old(Contents()), cfg, o, p, seams)
    {
      if p.carry.None? {
        return Raised;
      }
      if cfg.tier == T3 && !cfg.dryRun {
        if TakesEffect(seams.carry) {
          carry := p.carry.value;
        }
        if seams.carry != Written {
          return Raised;
        }
      }
      if p.batch.None? || !seams.guardPasses {
        return Raised;
      }
      if !cfg.dryRun {
        views := views + PublishedViews(o, seams);
        if seams.views.Some? {
          return Raised;
        }
        mimir := mimir + Samples(p.batch.value, seams.mimir);
      }
      if seams.mimir.Broken? {
        return Raised;
      }
      if !cfg.dryRun {
        loki := loki + Lines(seams.loki);
      }
      if seams.loki.Broken? {
        return Raised;
      }
      if !cfg.dryRun {
        if TakesEffect(seams.scan) {
          latest := latest[cfg.tier := Envelope(p.data, o.facts, o.total, o.failed, cfg.subset)];
        }
        if seams.scan != Written {
          return Raised;
        }
      }
      if AboveTenth(o.failed, o.total) {
        return Returned(1);
      }
      out := Returned(if seams.mimir.Failed? || seams.loki.Failed? then 3 else 0);
    }

    /** `run`, for an implemented tier with its lock held. */
    method Run(cfg: Config, o: Observation, seams: Seams) returns (out: Outcome)
      modifies this
      ensures (Contents(), out) == RunOn(old(Contents()), cfg, o, seams)
    {
      if !cfg.dryRun && cfg.out {
        return Returned(2);
      }
      if !cfg.dryRun && !cfg.verified {
        return Returned(2);
      }
      var finished, failures := Compose(cfg, o);
      if !finished {
        return Returned(2);
      }
      if cfg.tier != T4 && o.total == 0 {
        return Returned(1);
      }
      var primaryUnhealthy := AboveTenth(o.failed, o.facts.scannable);
      if primaryUnhealthy || Blocking(cfg.tier, failures) != {} {
        return Returned(1);
      }
      if cfg.subset && !cfg.dryRun {
        return Returned(2);
      }
      out := Publish(cfg, o, ProductOf(cfg, o), seams);
    }
  }
}
