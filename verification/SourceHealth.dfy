/** Per-source health and the publication floor (scan.py): which of a tier's gathered inputs may be published. */
module SourceHealth {

  datatype Tier = T1 | T2 | T3 | T4

  /** The gathered inputs, and the two read domains of `loki_config`, which have reports of their own. */
  datatype Name =
    | AccessPolicies | OrgMembers | Fleet | Dataplane
    | StackDetail | ServiceAccounts | Assistant | Insights | DashboardInventory | DatasourceQueryCost
    | AdaptiveLogs | AdaptiveTraces | PublicDashboards | AlertRouting | SignalInventory | LabelRisk
    | SloInventory | SyntheticInventory | IrmIntegrations | IrmAlertGroups | FaroApps | MlJobs | CloudAccounts
    | PdcNetworks | ReportsInventory | PlaylistsInventory | LibraryPanelsInventory
    | LabelInventory | LokiVolume | RuleInventory
    | AiBilling | CapabilityAdoption
    | LokiConfig | LokiConfigLimits | LokiConfigChangeRequests

  /** What a record can answer: being there, being available, one of its read domains, one signal, one route. */
  datatype Facet =
    | Present | Available | Limits | ChangeRequests | Complete | NoDatasource
    | Metrics | Logs | Traces | Profiles
    | MimirRules | MimirAlerts | LokiRules | AlertmanagerAlerts | AlertmanagerSilences

  const SIGNALS := [Metrics, Logs, Traces, Profiles]
  const ROUTES := [MimirRules, MimirAlerts, LokiRules, AlertmanagerAlerts, AlertmanagerSilences]

  /** A payload: for each stack (or the one org) the facets its record answers. */
  type Payload = map<string, set<Facet>>

  /** What one run knows about its estate and its configuration. `live` are the selected stacks that are not
      paused, `scannable` the stacks its coverage expects, `fleetExpected` those with a Fleet endpoint. */
  datatype Facts = Facts(live: set<string>, scannable: nat, fleetExpected: nat, enabled: set<Name>)

  function Count(p: Payload, f: Facet): nat {
    |set s | s in p && f in p[s]|
  }

  /** The payload left-joined to the live stacks. */
  function Joined(facts: Facts, p: Payload): Payload {
    map s | s in facts.live :: if s in p then p[s] else {}
  }

  // Reports

  datatype Report = Report(expected: nat, available: nat, healthy: bool, disabled: bool)

  /** `source_report`: healthy when at most a tenth of the expected records is missing. */
  function SourceReport(expected: nat, available: nat): Report {
    var measured := if available < expected then available else expected;
    var missing := expected - measured;
    Report(expected, measured, expected == 0 || 10 * missing <= expected, false)
  }

  function SumOver(expected: nat, p: Payload, facets: seq<Facet>): nat {
    if facets == [] then 0
    else SourceReport(expected, Count(p, facets[0])).available + SumOver(expected, p, facets[1..])
  }

  function AllHealthy(expected: nat, p: Payload, facets: seq<Facet>): bool {
    facets == [] || (SourceReport(expected, Count(p, facets[0])).healthy && AllHealthy(expected, p, facets[1..]))
  }

  /** `label_inventory_source_report`: one fifth of the stack-signals may be missing. */
  function LabelInventoryReport(facts: Facts, p: Payload): Report {
    var expected := |facts.live| * |SIGNALS|;
    var report := SourceReport(expected, SumOver(|facts.live|, Joined(facts, p), SIGNALS));
    report.(healthy := expected == 0 || 5 * (expected - report.available) <= expected)
  }

  /** `producer_source_report`: an empty estate is never healthy, and every route clears the floor itself. */
  function ProducerReport(facts: Facts, name: Name, p: Payload): Report {
    var live := |facts.live|;
    var joined := Joined(facts, p);
    if name == LokiVolume then
      var report := SourceReport(live, Count(joined, Complete));
      report.(healthy := live > 0 && report.healthy)
    else
      var report := SourceReport(live * |ROUTES|, SumOver(live, joined, ROUTES));
      report.(healthy := live > 0 && AllHealthy(live, joined, ROUTES))
  }

  /** The inputs a deployment can switch off. */
  predicate Optional(name: Name) {
    name.SloInventory? || name.SyntheticInventory? || name.IrmIntegrations? || name.IrmAlertGroups? || name.FaroApps?
    || name.MlJobs? || name.CloudAccounts? || name.PdcNetworks? || name.ReportsInventory? || name.PlaylistsInventory?
    || name.LibraryPanelsInventory? || name.LabelInventory? || name.LokiVolume? || name.RuleInventory?
    || name.AiBilling?
  }

  /** `disabled_inputs`. */
  predicate Disabled(facts: Facts, name: Name) {
    Optional(name) && name !in facts.enabled
  }

  /** The names of a tier's `sources` table. The daily tier's are its inputs, with `loki_config` split in two;
      the other two tiers report no sources. */
  predicate HasRow(tier: Tier, name: Name) {
    match tier
    case T1 => name.OrgMembers? || name.Fleet?
    case T2 => !(name.AccessPolicies? || name.OrgMembers? || name.Fleet? || name.Dataplane? || name.LokiConfig?)
    case _ => false
  }

  /** How an input's population and answers are counted. */
  datatype Kind =
    | PerStack(facet: Facet)  // every scannable stack
    | PerOrg                  // one response for the whole org
    | PerFleet                // every stack with a Fleet endpoint
    | PerApplicable           // every scannable stack that has the optional datasource
    | PerSignal               // four signals of every live stack
    | PerLive                 // every live stack
    | PerRoute                // five routes of every live stack
    | BothDomains             // two read domains, reported under their own names
    | Unfloored

  function KindOf(name: Name): Kind {
    match name
    case StackDetail => PerStack(Present)
    case LokiConfigLimits => PerStack(Limits)
    case LokiConfigChangeRequests => PerStack(ChangeRequests)
    case OrgMembers => PerOrg
    case AiBilling => PerOrg
    case CapabilityAdoption => PerOrg
    case Fleet => PerFleet
    case SyntheticInventory => PerApplicable
    case LabelInventory => PerSignal
    case LokiVolume => PerLive
    case RuleInventory => PerRoute
    case LokiConfig => BothDomains
    case AccessPolicies => Unfloored
    case Dataplane => Unfloored
    case _ => PerStack(Available)
  }

  /** One row of the `sources` table for an input that is on, from the payload it reads. */
  function RowFor(facts: Facts, kind: Kind, p: Payload): Report {
    match kind
    case PerStack(facet) => SourceReport(facts.scannable, Count(p, facet))
    case PerOrg => SourceReport(1, Count(p, Available))
    case PerFleet => SourceReport(facts.fleetExpected, Count(p, Available))
    case PerApplicable =>
      var absent := if Count(p, NoDatasource) < facts.scannable then Count(p, NoDatasource) else facts.scannable;
      SourceReport(facts.scannable - absent, Count(p, Available))
    case PerSignal => LabelInventoryReport(facts, p)
    case PerLive => ProducerReport(facts, LokiVolume, p)
    case PerRoute => ProducerReport(facts, RuleInventory, p)
    case BothDomains => SourceReport(0, 0)
    case Unfloored => SourceReport(0, 0)
  }

  /** A switched-off input expects nothing. */
  function RowOf(facts: Facts, name: Name, p: Payload): Report {
    if Disabled(facts, name) then SourceReport(0, 0) else RowFor(facts, KindOf(name), p)
  }

  /** The gathered payload a row reads. */
  function PayloadOf(gathered: map<Name, Payload>, name: Name): Payload {
    var key := if name == LokiConfigLimits || name == LokiConfigChangeRequests then LokiConfig else name;
    if key in gathered then gathered[key] else map[]
  }

  /** The whole table, disabled rows marked. */
  function Sources(tier: Tier, facts: Facts, gathered: map<Name, Payload>): map<Name, Report> {
    map name: Name | HasRow(tier, name) ::
      RowOf(facts, name, PayloadOf(gathered, name)).(disabled := tier == T2 && Disabled(facts, name))
  }

  /** No input is reported to have answered more than was expected of it. */
  lemma MeasuredAtMostExpected(tier: Tier, facts: Facts, gathered: map<Name, Payload>, name: Name)
    requires name in Sources(tier, facts, gathered)
    ensures Sources(tier, facts, gathered)[name].available <= Sources(tier, facts, gathered)[name].expected
  {
    RowAtMost(facts, KindOf(name), PayloadOf(gathered, name));
  }

  lemma RowAtMost(facts: Facts, kind: Kind, p: Payload)
    ensures RowFor(facts, kind, p).available <= RowFor(facts, kind, p).expected
  {
    match kind
    case PerSignal => SumAtMost(|facts.live|, Joined(facts, p), SIGNALS);
    case PerRoute => SumAtMost(|facts.live|, Joined(facts, p), ROUTES);
    case _ =>
  }

  lemma {:induction false} SumAtMost(expected: nat, p: Payload, facets: seq<Facet>)
    ensures SumOver(expected, p, facets) <= expected * |facets|
  {
    if facets != [] {
      var n := |facets[1..]|;
      SumAtMost(expected, p, facets[1..]);
      assert SourceReport(expected, Count(p, facets[0])).available <= expected;
      assert expected + expected * n == expected * (n + 1);
    }
  }

  function Failures(sources: map<Name, Report>): set<Name> {
    set name | name in sources && !sources[name].healthy
  }

  predicate NonBlocking(tier: Tier, name: Name) {
    tier == T2 && (name.LabelInventory? || name.AiBilling?)
  }

  /** `blocking_source_failures`. */
  function Blocking(tier: Tier, failures: set<Name>): set<Name> {
    set name | name in failures && !NonBlocking(tier, name)
  }

  // The split

  /** `publication_inputs`: what may be published. An input without a report of its own name passes, and a
      disabled one passes as an empty payload. */
  function Accepted(gathered: map<Name, Payload>, sources: map<Name, Report>): map<Name, Payload> {
    map name | name in gathered && (name in sources ==> sources[name].disabled || sources[name].healthy) ::
      if name in sources && sources[name].disabled then map[] else gathered[name]
  }

  datatype Unavailability = DisabledInput | Partial | Unavailable

  function Withheld(gathered: map<Name, Payload>, sources: map<Name, Report>): map<Name, Unavailability> {
    map name | name in gathered && name in sources && (sources[name].disabled || !sources[name].healthy) ::
      if sources[name].disabled then DisabledInput else if sources[name].available > 0 then Partial else Unavailable
  }

  /** Every gathered input is accepted or withheld with a reason, and both only when it is disabled. */
  lemma SplitIsTotal(gathered: map<Name, Payload>, sources: map<Name, Report>, name: Name)
    requires name in gathered
    ensures name in Accepted(gathered, sources) || name in Withheld(gathered, sources)
    ensures name in Accepted(gathered, sources) && name in Withheld(gathered, sources)
            <==> name in sources && sources[name].disabled
    ensures name in Accepted(gathered, sources) && name !in Withheld(gathered, sources) ==>
              Accepted(gathered, sources)[name] == gathered[name]
  {
  }

  ghost function Only<V>(m: map<Name, V>, names: seq<Name>): map<Name, V> {
    map n | n in m && n in names :: m[n]
  }

  lemma OnlyStep<V>(m: map<Name, V>, names: seq<Name>, n: Name)
    ensures Only(m, names + [n]) == if n in m then Only(m, names)[n := m[n]] else Only(m, names)
  {
  }

  lemma OnlyAll<V>(m: map<Name, V>, names: seq<Name>)
    requires forall n :: n in m ==> n in names
    ensures Only(m, names) == m
  {
  }

  /** The loop of `publication_inputs`, over the inputs in any order. */
  method PublicationInputs(names: seq<Name>, gathered: map<Name, Payload>, sources: map<Name, Report>)
    returns (accepted: map<Name, Payload>, unavailable: map<Name, Unavailability>)
    requires forall n :: n in names <==> n in gathered
    ensures accepted == Accepted(gathered, sources)
    ensures unavailable == Withheld(gathered, sources)
  {
    accepted, unavailable := map[], map[];
    ghost var accepts, withholds := Accepted(gathered, sources), Withheld(gathered, sources);
    for i := 0 to |names|
      invariant accepted == Only(accepts, names[..i])
      invariant unavailable == Only(withholds, names[..i])
    {
      var name := names[i];
      assert name in names;
      assert names[..i + 1] == names[..i] + [name];
      OnlyStep(accepts, names[..i], name);
      OnlyStep(withholds, names[..i], name);
      if name in sources && sources[name].disabled {
        accepted := accepted[name := map[]];
        unavailable := unavailable[name := DisabledInput];
      } else if name !in sources || sources[name].healthy {
        accepted := accepted[name := gathered[name]];
      } else {
        unavailable := unavailable[name := if sources[name].available > 0 then Partial else Unavailable];
      }
    }
    assert names[..|names|] == names;
    OnlyAll(accepts, names);
    OnlyAll(withholds, names);
  }

  // Floors

  /** At least nine tenths of an expected population answered. */
  predicate NineTenths(answered: nat, expected: nat) {
    10 * answered >= 9 * expected
  }

  ghost function Answered(facts: Facts, p: Payload, f: Facet): nat {
    |set s | s in facts.live && s in p && f in p[s]|
  }

  /** The floor an input must meet to be published, in its own terms. */
  ghost predicate MeetsFloor(facts: Facts, kind: Kind, p: Payload) {
    match kind
    case PerStack(facet) => NineTenths(Count(p, facet), facts.scannable)
    case PerOrg => NineTenths(Count(p, Available), 1)
    case PerFleet => NineTenths(Count(p, Available), facts.fleetExpected)
    case PerApplicable =>
      NineTenths(Count(p, Available), facts.scannable - Min(Count(p, NoDatasource), facts.scannable))
    case PerSignal =>
      5 * (Answered(facts, p, Metrics) + Answered(facts, p, Logs) + Answered(facts, p, Traces)
           + Answered(facts, p, Profiles)) >= 4 * (4 * |facts.live|)
    case PerLive => facts.live != {} && NineTenths(Answered(facts, p, Complete), |facts.live|)
    case PerRoute => facts.live != {} && forall f :: f in ROUTES ==> NineTenths(Answered(facts, p, f), |facts.live|)
    case BothDomains =>
      NineTenths(Count(p, Limits), facts.scannable) && NineTenths(Count(p, ChangeRequests), facts.scannable)
    case Unfloored => true
  }

  ghost predicate AtFloor(facts: Facts, name: Name, p: Payload) {
    MeetsFloor(facts, KindOf(name), p)
  }

  function Min(a: nat, b: nat): nat {
    if a < b then a else b
  }

  lemma JoinedCount(facts: Facts, p: Payload, f: Facet)
    ensures Count(Joined(facts, p), f) == Answered(facts, p, f) <= |facts.live|
  {
    var answered := set s | s in facts.live && s in p && f in p[s];
    var joined := Joined(facts, p);
    assert answered == set s | s in joined && f in joined[s];
    Subset(answered, facts.live);
  }

  lemma {:induction false} Subset<T>(a: set<T>, b: set<T>)
    requires a <= b
    ensures |a| <= |b|
    decreases a
  {
    if x :| x in a {
      Subset(a - {x}, b - {x});
    }
  }

  /** A row of the `sources` table is healthy exactly when the payload it reads meets the floor. */
  lemma HealthyMeansFloor(facts: Facts, kind: Kind, p: Payload)
    requires kind != BothDomains
    ensures RowFor(facts, kind, p).healthy <==> MeetsFloor(facts, kind, p)
  {
    match kind
    case PerLive =>
      JoinedCount(facts, p, Complete);
      assert |facts.live| == 0 <==> facts.live == {};
    case PerRoute =>
      RouteFloor(facts, p);
    case PerSignal =>
      SignalsSum(facts, p);
    case _ =>
  }

  lemma RouteFloor(facts: Facts, p: Payload)
    ensures ProducerReport(facts, RuleInventory, p).healthy
            <==> facts.live != {} && forall f :: f in ROUTES ==> NineTenths(Answered(facts, p, f), |facts.live|)
  {
    RoutesFloor(facts, p, ROUTES);
    assert |facts.live| == 0 <==> facts.live == {};
  }

  lemma {:induction false} RoutesFloor(facts: Facts, p: Payload, facets: seq<Facet>)
    ensures AllHealthy(|facts.live|, Joined(facts, p), facets)
            <==> forall f :: f in facets ==> NineTenths(Answered(facts, p, f), |facts.live|)
  {
    if facets != [] {
      JoinedCount(facts, p, facets[0]);
      RoutesFloor(facts, p, facets[1..]);
      assert forall f :: f in facets <==> f == facets[0] || f in facets[1..];
    }
  }

  lemma SignalsSum(facts: Facts, p: Payload)
    ensures SumOver(|facts.live|, Joined(facts, p), SIGNALS) ==
            Answered(facts, p, Metrics) + Answered(facts, p, Logs)
            + Answered(facts, p, Traces) + Answered(facts, p, Profiles)
    ensures SumOver(|facts.live|, Joined(facts, p), SIGNALS) <= 4 * |facts.live|
  {
    var live, joined := |facts.live|, Joined(facts, p);
    JoinedCount(facts, p, Metrics);
    JoinedCount(facts, p, Logs);
    JoinedCount(facts, p, Traces);
    JoinedCount(facts, p, Profiles);
    assert SumOver(live, joined, SIGNALS[3..]) == Answered(facts, p, Profiles);
    assert SIGNALS[2..][1..] == SIGNALS[3..];
    assert SumOver(live, joined, SIGNALS[2..]) == Answered(facts, p, Traces) + Answered(facts, p, Profiles);
    assert SIGNALS[1..][1..] == SIGNALS[2..];
    assert SumOver(live, joined, SIGNALS[1..]) ==
           Answered(facts, p, Logs) + Answered(facts, p, Traces) + Answered(facts, p, Profiles);
  }

  // The floors by name

  /** The records of a payload that answer a facet. */
  ghost function Answers(p: Payload, f: Facet): real {
    |set s | s in p && f in p[s]| as real
  }

  /** The records of live stacks that do. */
  ghost function LiveAnswers(facts: Facts, p: Payload, f: Facet): real {
    |set s | s in facts.live && s in p && f in p[s]| as real
  }

  /** What the published figures promise of each input: nine tenths of its population answered, four fifths for the
      label inventory, and a live estate for the two producers. */
  ghost predicate FloorByName(facts: Facts, name: Name, p: Payload) {
    var stacks, live := facts.scannable as real, |facts.live| as real;
    match name
    case OrgMembers | AiBilling | CapabilityAdoption => Answers(p, Available) >= 1.0
    case Fleet => Answers(p, Available) >= 0.9 * facts.fleetExpected as real
    case StackDetail => Answers(p, Present) >= 0.9 * stacks
    case LokiConfigLimits => Answers(p, Limits) >= 0.9 * stacks
    case LokiConfigChangeRequests => Answers(p, ChangeRequests) >= 0.9 * stacks
    case LokiConfig => Answers(p, Limits) >= 0.9 * stacks && Answers(p, ChangeRequests) >= 0.9 * stacks
    case SyntheticInventory =>
      Answers(p, NoDatasource) >= stacks || Answers(p, Available) >= 0.9 * (stacks - Answers(p, NoDatasource))
    case LabelInventory =>
      LiveAnswers(facts, p, Metrics) + LiveAnswers(facts, p, Logs) + LiveAnswers(facts, p, Traces)
      + LiveAnswers(facts, p, Profiles) >= 0.8 * (4.0 * live)
    case LokiVolume => live > 0.0 && LiveAnswers(facts, p, Complete) >= 0.9 * live
    case RuleInventory =>
      live > 0.0
      && LiveAnswers(facts, p, MimirRules) >= 0.9 * live && LiveAnswers(facts, p, MimirAlerts) >= 0.9 * live
      && LiveAnswers(facts, p, LokiRules) >= 0.9 * live
      && LiveAnswers(facts, p, AlertmanagerAlerts) >= 0.9 * live
      && LiveAnswers(facts, p, AlertmanagerSilences) >= 0.9 * live
    case AccessPolicies | Dataplane => true
    case ServiceAccounts | Assistant | Insights | DashboardInventory | DatasourceQueryCost
       | AdaptiveLogs | AdaptiveTraces | PublicDashboards | AlertRouting | SignalInventory | LabelRisk
       | SloInventory | IrmIntegrations | IrmAlertGroups | FaroApps | MlJobs | CloudAccounts
       | PdcNetworks | ReportsInventory | PlaylistsInventory | LibraryPanelsInventory =>
      Answers(p, Available) >= 0.9 * stacks
  }

  lemma TenthsAreReal(answered: nat, expected: nat)
    ensures NineTenths(answered, expected) <==> answered as real >= 0.9 * expected as real
  {
  }

  /** The floor the model works with is that one. */
  lemma FloorsByName(facts: Facts, name: Name, p: Payload)
    ensures AtFloor(facts, name, p) <==> FloorByName(facts, name, p)
  {
    match KindOf(name)
    case PerStack(facet) =>
      StackFloor(facts, name, p);
    case PerSignal =>
    case PerLive =>
      VolumeFloor(facts, p);
    case PerRoute =>
      RulesFloor(facts, p);
    case PerApplicable =>
      SyntheticFloor(facts, p);
    case BothDomains =>
      TenthsAreReal(Count(p, Limits), facts.scannable);
      TenthsAreReal(Count(p, ChangeRequests), facts.scannable);
    case _ =>
  }

  lemma StackFloor(facts: Facts, name: Name, p: Payload)
    requires KindOf(name).PerStack?
    ensures AtFloor(facts, name, p) <==> FloorByName(facts, name, p)
  {
    TenthsAreReal(Count(p, KindOf(name).facet), facts.scannable);
  }

  lemma VolumeFloor(facts: Facts, p: Payload)
    ensures AtFloor(facts, LokiVolume, p) <==> FloorByName(facts, LokiVolume, p)
  {
    assert |facts.live| == 0 <==> facts.live == {};
    TenthsAreReal(Answered(facts, p, Complete), |facts.live|);
  }

  lemma SyntheticFloor(facts: Facts, p: Payload)
    ensures AtFloor(facts, SyntheticInventory, p) <==> FloorByName(facts, SyntheticInventory, p)
  {
    var absent := Min(Count(p, NoDatasource), facts.scannable);
    TenthsAreReal(Count(p, Available), facts.scannable - absent);
  }

  lemma RulesFloor(facts: Facts, p: Payload)
    ensures AtFloor(facts, RuleInventory, p) <==> FloorByName(facts, RuleInventory, p)
  {
    RoutesByName(facts, p);
    assert |facts.live| == 0 <==> facts.live == {};
    TenthsAreReal(Answered(facts, p, MimirRules), |facts.live|);
    TenthsAreReal(Answered(facts, p, MimirAlerts), |facts.live|);
    TenthsAreReal(Answered(facts, p, LokiRules), |facts.live|);
    TenthsAreReal(Answered(facts, p, AlertmanagerAlerts), |facts.live|);
    TenthsAreReal(Answered(facts, p, AlertmanagerSilences), |facts.live|);
  }

  lemma RoutesByName(facts: Facts, p: Payload)
    ensures (forall f :: f in ROUTES ==> NineTenths(Answered(facts, p, f), |facts.live|)) <==>
      && NineTenths(Answered(facts, p, MimirRules), |facts.live|)
      && NineTenths(Answered(facts, p, MimirAlerts), |facts.live|)
      && NineTenths(Answered(facts, p, LokiRules), |facts.live|)
      && NineTenths(Answered(facts, p, AlertmanagerAlerts), |facts.live|)
      && NineTenths(Answered(facts, p, AlertmanagerSilences), |facts.live|)
  {
    assert ROUTES[0] == MimirRules && ROUTES[1] == MimirAlerts && ROUTES[2] == LokiRules;
    assert ROUTES[3] == AlertmanagerAlerts && ROUTES[4] == AlertmanagerSilences;
  }

  /** The inputs a deployment can leave out. */
  ghost predicate SwitchedOff(facts: Facts, name: Name) {
    && name in {SloInventory, SyntheticInventory, IrmIntegrations, IrmAlertGroups, FaroApps, MlJobs, CloudAccounts,
                PdcNetworks, ReportsInventory, PlaylistsInventory, LibraryPanelsInventory, LabelInventory, LokiVolume,
                RuleInventory, AiBilling}
    && name !in facts.enabled
  }

  /** The payload an input's report reads: the two domains of `loki_config` read one payload. */
  ghost function ReadBy(gathered: map<Name, Payload>, name: Name): Payload {
    if name == LokiConfigLimits || name == LokiConfigChangeRequests
    then if LokiConfig in gathered then gathered[LokiConfig] else map[]
    else if name in gathered then gathered[name] else map[]
  }

  /** The inputs that keep a tier from publishing when they fail: of the hourly tier its two, of the daily tier all that
      report but the label inventory and the billing preview, of the others none. */
  ghost predicate MustMeetFloor(tier: Tier, name: Name) {
    match tier
    case T1 => name == OrgMembers || name == Fleet
    case T2 => name !in {AccessPolicies, OrgMembers, Fleet, Dataplane, LokiConfig, LabelInventory, AiBilling}
    case _ => false
  }

  /** Each input that must is switched off or meets its floor. */
  ghost predicate InputsHealthy(tier: Tier, facts: Facts, gathered: map<Name, Payload>) {
    forall name :: MustMeetFloor(tier, name) ==>
      SwitchedOff(facts, name) || FloorByName(facts, name, ReadBy(gathered, name))
  }

  lemma DisabledByName(facts: Facts, gathered: map<Name, Payload>, name: Name)
    ensures Disabled(facts, name) <==> SwitchedOff(facts, name)
    ensures PayloadOf(gathered, name) == ReadBy(gathered, name)
  {
  }

  lemma RowMeansAtFloor(tier: Tier, facts: Facts, gathered: map<Name, Payload>, name: Name)
    requires HasRow(tier, name)
    ensures var p := PayloadOf(gathered, name);
            Sources(tier, facts, gathered)[name].healthy
            <==> Disabled(facts, name) || MeetsFloor(facts, KindOf(name), p)
  {
    assert KindOf(name) != BothDomains;
    var row := RowOf(facts, name, PayloadOf(gathered, name));
    assert Sources(tier, facts, gathered)[name].healthy == row.healthy;
    HealthyMeansFloor(facts, KindOf(name), PayloadOf(gathered, name));
  }

  lemma RowMeansFloor(tier: Tier, facts: Facts, gathered: map<Name, Payload>, name: Name)
    requires HasRow(tier, name)
    ensures Sources(tier, facts, gathered)[name].healthy
            <==> SwitchedOff(facts, name) || FloorByName(facts, name, ReadBy(gathered, name))
  {
    DisabledByName(facts, gathered, name);
    RowMeansAtFloor(tier, facts, gathered, name);
    FloorsByName(facts, name, PayloadOf(gathered, name));
  }

  /** No failure blocks exactly when the inputs that must meet their floors do. */
  lemma UnblockedMeansHealthy(tier: Tier, facts: Facts, gathered: map<Name, Payload>)
    ensures Blocking(tier, Failures(Sources(tier, facts, gathered))) == {} <==> InputsHealthy(tier, facts, gathered)
  {
    var sources := Sources(tier, facts, gathered);
    forall name | HasRow(tier, name)
      ensures sources[name].healthy <==> SwitchedOff(facts, name) || FloorByName(facts, name, ReadBy(gathered, name))
    {
      RowMeansFloor(tier, facts, gathered, name);
    }
    forall name ensures MustMeetFloor(tier, name) <==> HasRow(tier, name) && !NonBlocking(tier, name) {
    }
    if Blocking(tier, Failures(sources)) == {} {
      forall name | MustMeetFloor(tier, name) ensures sources[name].healthy {
        assert name !in Blocking(tier, Failures(sources));
      }
    }
  }

  /** What is accepted of a gathered input, by name: nothing of one below its floor, an empty payload of one that is
      switched off, and all of the others. */
  lemma AcceptedByName(facts: Facts, gathered: map<Name, Payload>, name: Name)
    requires name in gathered && HasRow(T2, name)
    ensures var accepted := Accepted(gathered, Sources(T2, facts, gathered));
            if SwitchedOff(facts, name) then name in accepted && accepted[name] == map[]
            else if FloorByName(facts, name, ReadBy(gathered, name)) then
              name in accepted && accepted[name] == gathered[name]
            else name !in accepted
  {
    RowMeansFloor(T2, facts, gathered, name);
    DisabledByName(facts, gathered, name);
    AcceptedByReport(gathered, Sources(T2, facts, gathered), name);
    assert Sources(T2, facts, gathered)[name].disabled <==> Disabled(facts, name);
  }

  lemma AcceptedByReport(gathered: map<Name, Payload>, sources: map<Name, Report>, name: Name)
    requires name in gathered && name in sources
    ensures var accepted := Accepted(gathered, sources);
            if sources[name].disabled then name in accepted && accepted[name] == map[]
            else if sources[name].healthy then name in accepted && accepted[name] == gathered[name]
            else name !in accepted
  {
  }

  /** A withheld input of the scannable stacks is reported as partial exactly when a stack answered. */
  lemma WithheldByName(facts: Facts, gathered: map<Name, Payload>, name: Name)
    requires name in gathered && HasRow(T2, name) && KindOf(name).PerStack?
    requires name != LokiConfigLimits && name != LokiConfigChangeRequests
    requires !SwitchedOff(facts, name) && !FloorByName(facts, name, gathered[name])
    ensures var withheld := Withheld(gathered, Sources(T2, facts, gathered));
            name in withheld
            && (withheld[name] == Partial <==>
                  exists s :: s in gathered[name] && KindOf(name).facet in gathered[name][s])
            && (withheld[name] == Unavailable <==> withheld[name] != Partial)
  {
    RowMeansFloor(T2, facts, gathered, name);
    DisabledByName(facts, gathered, name);
    var f, p := KindOf(name).facet, gathered[name];
    var answering := set s | s in p && f in p[s];
    if s :| s in p && f in p[s] {
      assert s in answering;
    } else {
      assert answering == {};
    }
  }

  /** The split alone lets an input below its floor through, because nothing reports under `loki_config`. */
  lemma SplitAloneIsNotEnough(p: Payload, facts: Facts)
    requires facts.scannable == 10 && Count(p, Limits) == 1
    ensures var gathered := map[LokiConfig := p];
            LokiConfig in Accepted(gathered, Sources(T2, facts, gathered)) && !AtFloor(facts, LokiConfig, p)
  {
  }

  /** When a tier has no blocking failure, every accepted payload of a floored input meets its floor, or is the
      empty payload of a disabled input. */
  lemma AcceptedMeetsFloor(tier: Tier, facts: Facts, gathered: map<Name, Payload>, name: Name)
    requires tier == T1 || tier == T2
    requires Blocking(tier, Failures(Sources(tier, facts, gathered))) == {}
    requires name in Accepted(gathered, Sources(tier, facts, gathered))
    requires (HasRow(tier, name) && !name.LokiConfigLimits? && !name.LokiConfigChangeRequests?)
             || (name.LokiConfig? && tier == T2)
    ensures var accepted := Accepted(gathered, Sources(tier, facts, gathered));
            AtFloor(facts, name, accepted[name]) || (Disabled(facts, name) && accepted[name] == map[])
  {
    if name.LokiConfig? {
      AcceptedDomains(facts, gathered);
    } else {
      AcceptedRow(tier, facts, gathered, name);
    }
  }

  lemma AcceptedDomains(facts: Facts, gathered: map<Name, Payload>)
    requires Blocking(T2, Failures(Sources(T2, facts, gathered))) == {} && LokiConfig in gathered
    ensures LokiConfig in Accepted(gathered, Sources(T2, facts, gathered))
    ensures AtFloor(facts, LokiConfig, Accepted(gathered, Sources(T2, facts, gathered))[LokiConfig])
  {
    DomainMeetsFloor(facts, gathered, LokiConfigLimits, Limits);
    DomainMeetsFloor(facts, gathered, LokiConfigChangeRequests, ChangeRequests);
  }

  /** An input accepted under its own row is healthy there, or disabled and emptied. */
  lemma AcceptedRow(tier: Tier, facts: Facts, gathered: map<Name, Payload>, name: Name)
    requires name in Accepted(gathered, Sources(tier, facts, gathered))
    requires HasRow(tier, name) && !name.LokiConfigLimits? && !name.LokiConfigChangeRequests?
    ensures var accepted := Accepted(gathered, Sources(tier, facts, gathered));
            AtFloor(facts, name, accepted[name]) || (Disabled(facts, name) && accepted[name] == map[])
  {
    var row := Sources(tier, facts, gathered)[name];
    assert PayloadOf(gathered, name) == gathered[name];
    assert row.disabled ==> Disabled(facts, name);
    if !Disabled(facts, name) {
      assert row.healthy && row == RowFor(facts, KindOf(name), gathered[name]).(disabled := false);
      HealthyMeansFloor(facts, KindOf(name), gathered[name]);
    } else {
      assert tier == T2;
    }
  }

  /** What protects `loki_config`: a failing read domain blocks the whole run. */
  lemma DomainMeetsFloor(facts: Facts, gathered: map<Name, Payload>, domain: Name, facet: Facet)
    requires (domain.LokiConfigLimits? && facet.Limits?) || (domain.LokiConfigChangeRequests? && facet.ChangeRequests?)
    requires Blocking(T2, Failures(Sources(T2, facts, gathered))) == {} && LokiConfig in gathered
    ensures NineTenths(Count(gathered[LokiConfig], facet), facts.scannable)
  {
    UnblockedRow(facts, gathered, domain);
    HealthyMeansFloor(facts, PerStack(facet), gathered[LokiConfig]);
  }

  lemma UnblockedRow(facts: Facts, gathered: map<Name, Payload>, name: Name)
    requires HasRow(T2, name) && !NonBlocking(T2, name)
    requires Blocking(T2, Failures(Sources(T2, facts, gathered))) == {}
    ensures RowOf(facts, name, PayloadOf(gathered, name)).healthy
  {
    var sources := Sources(T2, facts, gathered);
    assert name !in Blocking(T2, Failures(sources));
  }
}
