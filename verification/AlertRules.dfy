/** Publishing the platform's own alert rules into a rule store shared with other teams (bin/alerts.py). */
module AlertRules {
  import opened Optional
  import L = RevisionLens

  /** Where a rule notifies. Inherit is an explicit null, the stack's own notification policy; Absent and
      Malformed are what an incomplete live payload can hold. */
  datatype Routing = Inherit | Receiver(name: string) | Absent | Malformed

  /** A live rule; paused is None when the payload has no boolean for it. */
  datatype Rule = Rule(
    folder: string, group: string, title: string, paused: Option<bool>, routing: Routing, body: string)

  /** One rule the source builds: its stable uid, its title and everything else. */
  datatype Spec = Spec(uid: string, title: string, body: string)

  /** The fixed tables of one deployment: our folder and group, the rules, and the historical renames. */
  datatype Config = Config(folder: string, group: string, specs: seq<Spec>, renames: seq<(string, string)>)

  type Rules = map<string, Rule>

  ghost predicate WellFormed(c: Config) {
    && (forall i :: 0 <= i < |c.specs| ==> c.specs[i].title != "" && c.specs[i].uid != "")
    && (forall i, j :: 0 <= i < j < |c.specs| ==> c.specs[i].title != c.specs[j].title)
    && (forall i :: 0 <= i < |c.renames| ==> c.renames[i].1 != "")
    && (forall i, j :: 0 <= i < j < |c.renames| ==>
          c.renames[i].0 != c.renames[j].0 && c.renames[i].1 != c.renames[j].1)
    && (forall i, j :: 0 <= i < |c.renames| && 0 <= j < |c.renames| ==> c.renames[i].0 != c.renames[j].1)
  }

  ghost predicate DistinctUids(c: Config) {
    forall i, j :: 0 <= i < j < |c.specs| ==> c.specs[i].uid != c.specs[j].uid
  }

  predicate IsOurs(c: Config, r: Rule) {
    r.folder == c.folder && r.group == c.group
  }

  predicate Ours(c: Config, rules: Rules, uid: string) {
    uid in rules && IsOurs(c, rules[uid])
  }

  // The indexes

  predicate KnownRouting(r: Routing) {
    r.Inherit? || (r.Receiver? && !L.AllSpace(r.name))
  }

  predicate TitlesUnique(c: Config, rules: Rules) {
    forall u, v :: u in rules && v in rules && Ours(c, rules, u) && Ours(c, rules, v) && u != v ==>
      rules[u].title != rules[v].title
  }

  /** `_rule_indexes` accepts the live state: usable uids, and for our rules a known pause state, a known
      routing, and usable titles that are unique. */
  predicate Indexable(c: Config, rules: Rules) {
    && "" !in rules
    && (forall u :: u in rules && Ours(c, rules, u) ==>
          rules[u].paused.Some? && KnownRouting(rules[u].routing) && rules[u].title != "")
    && TitlesUnique(c, rules)
  }

  /** The uid of our rule with a title. */
  function ByTitle(c: Config, rules: Rules, title: string): (r: Option<string>)
    requires TitlesUnique(c, rules)
    ensures r.Some? ==> Ours(c, rules, r.value) && rules[r.value].title == title
    ensures r.None? ==> forall u :: Ours(c, rules, u) ==> rules[u].title != title
  {
    if exists u :: u in rules && Ours(c, rules, u) && rules[u].title == title then
      var u :| u in rules && Ours(c, rules, u) && rules[u].title == title;
      Some(u)
    else None
  }

  // Preflight

  predicate IsRenamedTo(c: Config, title: string) {
    exists i :: 0 <= i < |c.renames| && c.renames[i].1 == title
  }

  /** The rule keeps the live uid a title migration left it with: only for a migrated title, and only while
      its canonical uid does not exist. */
  predicate Adopts(c: Config, rules: Rules, i: nat)
    requires i < |c.specs| && TitlesUnique(c, rules)
  {
    var live := ByTitle(c, rules, c.specs[i].title);
    live.Some? && live.value != c.specs[i].uid && IsRenamedTo(c, c.specs[i].title) && c.specs[i].uid !in rules
  }

  function ExpectedUid(c: Config, rules: Rules, i: nat): string
    requires i < |c.specs| && TitlesUnique(c, rules)
  {
    if Adopts(c, rules, i) then ByTitle(c, rules, c.specs[i].title).value else c.specs[i].uid
  }

  /** Every refusal of `publish`, all before the first write. */
  predicate Preflight(c: Config, rules: Rules) {
    && Indexable(c, rules)
    && (forall i, j :: 0 <= i < j < |c.specs| ==> ExpectedUid(c, rules, i) != ExpectedUid(c, rules, j))
    && (forall i :: 0 <= i < |c.specs| && ExpectedUid(c, rules, i) in rules ==>
          Ours(c, rules, ExpectedUid(c, rules, i)))
    && (forall u :: u in rules && Ours(c, rules, u) ==> exists i :: 0 <= i < |c.specs| && ExpectedUid(c, rules, i) == u)
    && (forall i :: 0 <= i < |c.specs| ==>
          var live := ByTitle(c, rules, c.specs[i].title); live.Some? ==> live.value == ExpectedUid(c, rules, i))
  }

  // What the preflight lets through

  /** Our live rule u stands at the wrong uid for spec k, but a title migration left it there: its title is one the
      rename table gives, and the configured uid does not exist. */
  ghost predicate LeftByMigration(c: Config, rules: Rules, u: string, k: nat)
    requires u in rules && k < |c.specs|
  {
    && rules[u].title == c.specs[k].title
    && (exists i :: 0 <= i < |c.renames| && c.renames[i].1 == c.specs[k].title)
    && c.specs[k].uid !in rules
  }

  /** The live state the indexes accept, field by field. */
  ghost predicate KnownState(c: Config, rules: Rules) {
    && "" !in rules
    && (forall u :: u in rules && rules[u].folder == c.folder && rules[u].group == c.group ==>
          && rules[u].title != "" && rules[u].paused.Some?
          && (rules[u].routing.Inherit?
              || (rules[u].routing.Receiver?
                  && exists n :: 0 <= n < |rules[u].routing.name| && !L.IsSpace(rules[u].routing.name[n]))))
    && (forall u, v :: u in rules && v in rules && u != v ==>
          rules[u].folder == rules[v].folder == c.folder && rules[u].group == rules[v].group == c.group ==>
          rules[u].title != rules[v].title)
  }

  /** A publish is not refused exactly when the live state is known; each of our rules is at a spec's uid or was left by
      a migration; none has a spec's title anywhere else; no spec's uid belongs to another team; no uid a migration left
      is some spec's own; and of two specs with one uid a migration left a rule for one. */
  lemma PreflightMeans(c: Config, rules: Rules)
    requires WellFormed(c)
    ensures Preflight(c, rules) <==>
      && KnownState(c, rules)
      && (forall u :: u in rules && Ours(c, rules, u) ==>
            exists k :: 0 <= k < |c.specs| && (u == c.specs[k].uid || LeftByMigration(c, rules, u, k)))
      && (forall u, k :: u in rules && Ours(c, rules, u) && 0 <= k < |c.specs| && rules[u].title == c.specs[k].title ==>
            u == c.specs[k].uid || LeftByMigration(c, rules, u, k))
      && (forall k :: 0 <= k < |c.specs| && c.specs[k].uid in rules ==> Ours(c, rules, c.specs[k].uid))
      && (forall u, k, m :: u in rules && Ours(c, rules, u) && 0 <= k < |c.specs| && 0 <= m < |c.specs| ==>
            LeftByMigration(c, rules, u, k) ==> c.specs[m].uid != u)
      && (forall k, m :: 0 <= k < m < |c.specs| && c.specs[k].uid == c.specs[m].uid ==>
            IsLeft(c, rules, k) || IsLeft(c, rules, m))
  {
    StateMeans(c, rules);
    if Indexable(c, rules) {
      forall k | 0 <= k < |c.specs|
        ensures forall u :: u in rules && Ours(c, rules, u) ==>
                  (ByTitle(c, rules, c.specs[k].title) == Some(u) <==> rules[u].title == c.specs[k].title)
                  && (Adopts(c, rules, k) && ExpectedUid(c, rules, k) == u <==> LeftByMigration(c, rules, u, k))
        ensures Adopts(c, rules, k) <==> IsLeft(c, rules, k)
        ensures !Adopts(c, rules, k) ==> ExpectedUid(c, rules, k) == c.specs[k].uid
      {
        ExpectedMeans(c, rules, k);
      }
      if Preflight(c, rules) {
        forall u, k, m | u in rules && Ours(c, rules, u) && 0 <= k < |c.specs| && 0 <= m < |c.specs|
          ensures LeftByMigration(c, rules, u, k) ==> c.specs[m].uid != u
        {
          assert c.specs[m].uid in rules ==> !Adopts(c, rules, m);
          assert k != m ==> ExpectedUid(c, rules, k) != ExpectedUid(c, rules, m);
        }
      }
    }
  }

  ghost predicate IsLeft(c: Config, rules: Rules, k: nat)
    requires k < |c.specs|
  {
    exists u :: u in rules && Ours(c, rules, u) && LeftByMigration(c, rules, u, k)
  }

  lemma StateMeans(c: Config, rules: Rules)
    ensures Indexable(c, rules) <==> KnownState(c, rules)
  {
  }

  lemma ExpectedMeans(c: Config, rules: Rules, k: nat)
    requires WellFormed(c) && Indexable(c, rules) && k < |c.specs|
    ensures forall u :: u in rules && Ours(c, rules, u) ==>
              (ByTitle(c, rules, c.specs[k].title) == Some(u) <==> rules[u].title == c.specs[k].title)
              && (Adopts(c, rules, k) && ExpectedUid(c, rules, k) == u <==> LeftByMigration(c, rules, u, k))
    ensures Adopts(c, rules, k) <==> IsLeft(c, rules, k)
    ensures !Adopts(c, rules, k) ==> ExpectedUid(c, rules, k) == c.specs[k].uid
  {
    var live := ByTitle(c, rules, c.specs[k].title);
    if live.Some? && Adopts(c, rules, k) {
      assert LeftByMigration(c, rules, live.value, k);
    }
  }

  /** When a publish is not refused, a rule of ours with a spec's title at another uid has a title of the rename table,
      and the spec's own uid does not exist: arbitrary matching titles are never adopted. */
  lemma OnlyMigratedTitlesAreAdopted(c: Config, rules: Rules, u: string, k: nat)
    requires Preflight(c, rules) && k < |c.specs| && u in rules && u != c.specs[k].uid
    requires rules[u].folder == c.folder && rules[u].group == c.group && rules[u].title == c.specs[k].title
    ensures (exists i :: 0 <= i < |c.renames| && c.renames[i].1 == c.specs[k].title) && c.specs[k].uid !in rules
  {
    assert ByTitle(c, rules, c.specs[k].title) == Some(u);
  }

  // Writes

  /** What a write request comes to: applied and acknowledged, applied but answered with an error, or not
      applied. A broken connection raises out of the loop, whether or not the request was applied. */
  datatype Reply = Acknowledged | Lost | NotApplied | Broken(applied: bool)

  predicate AllAcknowledged(replies: seq<Reply>) {
    forall i :: 0 <= i < |replies| ==> replies[i].Acknowledged?
  }

  predicate AnyBroken(replies: seq<Reply>) {
    exists i :: 0 <= i < |replies| && replies[i].Broken?
  }

  predicate Applied(r: Reply) {
    r.Acknowledged? || r.Lost? || (r.Broken? && r.applied)
  }

  /** Request i was sent, because no earlier one broke the loop, and it was applied. */
  predicate Landed(replies: seq<Reply>, i: nat)
    requires i < |replies|
  {
    Applied(replies[i]) && forall j :: 0 <= j < i ==> !replies[j].Broken?
  }

  /** The flags a publish runs with; an empty receiver is no receiver. */
  datatype Mode = Mode(paused: bool, receiver: string, preserve: bool)

  function Built(c: Config, mode: Mode, i: nat): Rule
    requires i < |c.specs|
  {
    Rule(c.folder, c.group, c.specs[i].title, Some(mode.paused),
         if mode.receiver != "" then Receiver(mode.receiver) else Inherit, c.specs[i].body)
  }

  /** The body sent for rule i: rebuilt, with the live pause and routing kept when preserving. */
  function Sent(c: Config, rules: Rules, mode: Mode, i: nat): Rule
    requires i < |c.specs| && TitlesUnique(c, rules)
  {
    var uid := ExpectedUid(c, rules, i);
    if mode.preserve && Ours(c, rules, uid) then
      Built(c, mode, i).(paused := rules[uid].paused, routing := rules[uid].routing)
    else Built(c, mode, i)
  }

  /** The store after the first n write requests of a publish that started from `rules`. */
  function AfterWrites(c: Config, rules: Rules, mode: Mode, replies: seq<Reply>, n: nat): Rules
    requires n <= |c.specs| == |replies| && TitlesUnique(c, rules)
  {
    if n == 0 then rules
    else
      var before := AfterWrites(c, rules, mode, replies, n - 1);
      if Landed(replies, n - 1) then before[ExpectedUid(c, rules, n - 1) := Sent(c, rules, mode, n - 1)] else before
  }

  /** The store after a publish. */
  function Published(c: Config, rules: Rules, mode: Mode, replies: seq<Reply>): Rules
    requires |c.specs| == |replies|
  {
    if Preflight(c, rules) then AfterWrites(c, rules, mode, replies, |c.specs|) else rules
  }

  function AllApplied(n: nat): (replies: seq<Reply>)
    ensures |replies| == n && forall i :: 0 <= i < n ==> Landed(replies, i)
  {
    seq(n, _ => Acknowledged)
  }

  /** What a completed publish leaves, rule by rule. */
  lemma {:induction false} AfterWritesAt(c: Config, rules: Rules, mode: Mode, replies: seq<Reply>, n: nat, u: string)
    requires Preflight(c, rules) && n <= |c.specs| == |replies|
    ensures var after := AfterWrites(c, rules, mode, replies, n);
            && (forall i :: 0 <= i < n && ExpectedUid(c, rules, i) == u && Landed(replies, i) ==>
                  u in after && after[u] == Sent(c, rules, mode, i))
            && ((forall i :: 0 <= i < n && ExpectedUid(c, rules, i) == u ==> !Landed(replies, i)) ==>
                  (u in after <==> u in rules) && (u in rules ==> after[u] == rules[u]))
  {
    if n > 0 {
      AfterWritesAt(c, rules, mode, replies, n - 1, u);
    }
  }

  /** The rule at u is the one sent for u when that write was applied, and untouched otherwise. */
  lemma Landing(c: Config, rules: Rules, mode: Mode, replies: seq<Reply>, u: string)
    requires Preflight(c, rules) && |c.specs| == |replies|
    ensures var after := Published(c, rules, mode, replies);
            && (forall i :: 0 <= i < |c.specs| && ExpectedUid(c, rules, i) == u ==>
                  (if Landed(replies, i) then u in after && after[u] == Sent(c, rules, mode, i)
                   else (u in after <==> u in rules) && (u in rules ==> after[u] == rules[u])))
            && ((forall i :: 0 <= i < |c.specs| ==> ExpectedUid(c, rules, i) != u) ==>
                  (u in after <==> u in rules) && (u in rules ==> after[u] == rules[u]))
  {
    AfterWritesAt(c, rules, mode, replies, |c.specs|, u);
  }

  /** Every expected uid is one of ours or free. */
  lemma ExpectedIsOursOrFree(c: Config, rules: Rules, i: nat)
    requires Preflight(c, rules) && i < |c.specs|
    ensures Ours(c, rules, ExpectedUid(c, rules, i)) || ExpectedUid(c, rules, i) !in rules
  {
  }

  /** A publish creates or changes rules of our folder and group only; every other rule stays as it was. */
  lemma OthersUntouched(c: Config, rules: Rules, mode: Mode, replies: seq<Reply>, u: string)
    requires |c.specs| == |replies|
    ensures var after := Published(c, rules, mode, replies);
            && (u in rules && (rules[u].folder != c.folder || rules[u].group != c.group) ==>
                  u in after && after[u] == rules[u])
            && (u in after && (after[u].folder != c.folder || after[u].group != c.group) ==>
                  u in rules && rules[u] == after[u])
  {
    if Preflight(c, rules) {
      Landing(c, rules, mode, replies, u);
      if i :| 0 <= i < |c.specs| && ExpectedUid(c, rules, i) == u {
        ExpectedIsOursOrFree(c, rules, i);
      }
    }
  }

  /** Which rules are ours after a publish, and the spec each belongs to. */
  lemma OursAfter(c: Config, rules: Rules, mode: Mode, replies: seq<Reply>, u: string)
    requires Preflight(c, rules) && |c.specs| == |replies| && Ours(c, Published(c, rules, mode, replies), u)
    ensures exists i :: 0 <= i < |c.specs| && ExpectedUid(c, rules, i) == u && (Landed(replies, i) || Ours(c, rules, u))
  {
    Landing(c, rules, mode, replies, u);
    OthersUntouched(c, rules, mode, replies, u);
    if forall i :: 0 <= i < |c.specs| ==> ExpectedUid(c, rules, i) != u {
      assert Ours(c, rules, u);
    }
  }

  /** The title of a rule of ours after a publish is its spec's, or its old one, which no other spec has. */
  lemma TitleAfter(c: Config, rules: Rules, mode: Mode, replies: seq<Reply>, i: nat)
    requires WellFormed(c) && Preflight(c, rules) && |c.specs| == |replies| && i < |c.specs|
    requires Ours(c, Published(c, rules, mode, replies), ExpectedUid(c, rules, i))
    ensures var title := Published(c, rules, mode, replies)[ExpectedUid(c, rules, i)].title;
            && title != ""
            && (if Landed(replies, i) then title == c.specs[i].title
                else Ours(c, rules, ExpectedUid(c, rules, i)) && title == rules[ExpectedUid(c, rules, i)].title)
            && (forall j :: 0 <= j < |c.specs| && title == c.specs[j].title ==> j == i)
  {
    var u := ExpectedUid(c, rules, i);
    Landing(c, rules, mode, replies, u);
    if !Landed(replies, i) {
      forall j | 0 <= j < |c.specs| && rules[u].title == c.specs[j].title ensures j == i {
        assert ByTitle(c, rules, c.specs[j].title) == Some(u);
        assert ExpectedUid(c, rules, j) == u;
      }
    }
  }

  ghost predicate UsableReceiver(mode: Mode) {
    mode.receiver != "" ==> !L.AllSpace(mode.receiver)
  }

  /** Whatever subset of the writes is applied, the indexes still build. */
  lemma IndexableAfter(c: Config, rules: Rules, mode: Mode, replies: seq<Reply>)
    requires WellFormed(c) && Preflight(c, rules) && |c.specs| == |replies| && UsableReceiver(mode)
    ensures Indexable(c, Published(c, rules, mode, replies))
  {
    var after := Published(c, rules, mode, replies);
    Landing(c, rules, mode, replies, "");
    forall i | 0 <= i < |c.specs| ensures ExpectedUid(c, rules, i) != "" {
      assert Adopts(c, rules, i) ==> Ours(c, rules, ByTitle(c, rules, c.specs[i].title).value);
    }
    forall u | u in after && Ours(c, after, u)
      ensures after[u].paused.Some? && KnownRouting(after[u].routing) && after[u].title != ""
    {
      OursAfter(c, rules, mode, replies, u);
      var i :| 0 <= i < |c.specs| && ExpectedUid(c, rules, i) == u && (Landed(replies, i) || Ours(c, rules, u));
      Landing(c, rules, mode, replies, u);
      TitleAfter(c, rules, mode, replies, i);
    }
    forall u, v | u in after && v in after && Ours(c, after, u) && Ours(c, after, v) && u != v
      ensures after[u].title != after[v].title
    {
      TitlesApart(c, rules, mode, replies, u, v);
    }
  }

  lemma TitlesApart(c: Config, rules: Rules, mode: Mode, replies: seq<Reply>, u: string, v: string)
    requires WellFormed(c) && Preflight(c, rules) && |c.specs| == |replies| && u != v
    requires Ours(c, Published(c, rules, mode, replies), u) && Ours(c, Published(c, rules, mode, replies), v)
    ensures Published(c, rules, mode, replies)[u].title != Published(c, rules, mode, replies)[v].title
  {
    OursAfter(c, rules, mode, replies, u);
    OursAfter(c, rules, mode, replies, v);
    var i :| 0 <= i < |c.specs| && ExpectedUid(c, rules, i) == u;
    var j :| 0 <= j < |c.specs| && ExpectedUid(c, rules, j) == v;
    TitleAfter(c, rules, mode, replies, i);
    TitleAfter(c, rules, mode, replies, j);
  }

  /** After a publish our rule with a spec's title, if there is one, is at the uid expected before. */
  lemma ByTitleAfter(c: Config, rules: Rules, mode: Mode, replies: seq<Reply>, i: nat)
    requires WellFormed(c) && Preflight(c, rules) && |c.specs| == |replies| && UsableReceiver(mode) && i < |c.specs|
    ensures var after := Published(c, rules, mode, replies);
            Indexable(c, after)
            && ByTitle(c, after, c.specs[i].title) ==
               if Landed(replies, i) || ByTitle(c, rules, c.specs[i].title).Some?
               then Some(ExpectedUid(c, rules, i)) else None
  {
    IndexableAfter(c, rules, mode, replies);
    var after := Published(c, rules, mode, replies);
    var u := ExpectedUid(c, rules, i);
    var live := ByTitle(c, after, c.specs[i].title);
    if live.Some? {
      OursAfter(c, rules, mode, replies, live.value);
      var j :| 0 <= j < |c.specs| && ExpectedUid(c, rules, j) == live.value
        && (Landed(replies, j) || Ours(c, rules, live.value));
      TitleAfter(c, rules, mode, replies, j);
      assert j == i;
    }
    Landing(c, rules, mode, replies, u);
  }

  // Re-running

  /** An adopted rule's canonical uid came into being, created for another spec that shares it. */
  ghost predicate CanonicalAppeared(c: Config, rules: Rules, after: Rules)
    requires TitlesUnique(c, rules)
  {
    exists i :: 0 <= i < |c.specs| && Adopts(c, rules, i) && c.specs[i].uid in after
  }

  lemma SameExpectation(c: Config, rules: Rules, mode: Mode, replies: seq<Reply>, i: nat)
    requires WellFormed(c) && Preflight(c, rules) && |c.specs| == |replies| && UsableReceiver(mode) && i < |c.specs|
    ensures var after := Published(c, rules, mode, replies);
            Indexable(c, after)
            && (Adopts(c, rules, i) && c.specs[i].uid in after ==>
                  ExpectedUid(c, after, i) == c.specs[i].uid != ExpectedUid(c, rules, i)
                  && ByTitle(c, after, c.specs[i].title) == Some(ExpectedUid(c, rules, i)))
            && (!(Adopts(c, rules, i) && c.specs[i].uid in after) ==>
                  ExpectedUid(c, after, i) == ExpectedUid(c, rules, i))
  {
    ByTitleAfter(c, rules, mode, replies, i);
  }

  /** An adopted rule and a plain one are configured with one uid. */
  ghost predicate SharedWithAdopted(c: Config, rules: Rules, i: nat, j: nat)
    requires TitlesUnique(c, rules)
  {
    i < |c.specs| && j < |c.specs| && Adopts(c, rules, i) && !Adopts(c, rules, j) && c.specs[i].uid == c.specs[j].uid
  }

  ghost predicate SharedUid(c: Config, rules: Rules)
    requires TitlesUnique(c, rules)
  {
    exists i, j :: SharedWithAdopted(c, rules, i, j)
  }

  /** The only way an adopted rule's canonical uid comes into being: a plain rule configured with it is created. */
  lemma AppearsWhenShared(c: Config, rules: Rules, mode: Mode, replies: seq<Reply>)
    requires Preflight(c, rules) && |c.specs| == |replies|
    ensures CanonicalAppeared(c, rules, Published(c, rules, mode, replies))
            <==> exists i, j :: SharedWithAdopted(c, rules, i, j) && Landed(replies, j)
  {
    var after := Published(c, rules, mode, replies);
    if i :| 0 <= i < |c.specs| && Adopts(c, rules, i) && c.specs[i].uid in after {
      Landing(c, rules, mode, replies, c.specs[i].uid);
      var j :| 0 <= j < |c.specs| && ExpectedUid(c, rules, j) == c.specs[i].uid && Landed(replies, j);
      assert SharedWithAdopted(c, rules, i, j);
    }
    if i: nat, j: nat :| SharedWithAdopted(c, rules, i, j) && Landed(replies, j) {
      Landing(c, rules, mode, replies, c.specs[j].uid);
    }
  }

  /** After a publish of which any subset of the writes was applied, a re-run passes preflight exactly when no
      rule was created at the uid of an adopted one. */
  lemma RerunPasses(c: Config, rules: Rules, mode: Mode, replies: seq<Reply>)
    requires WellFormed(c) && Preflight(c, rules) && |c.specs| == |replies| && UsableReceiver(mode)
    ensures Preflight(c, Published(c, rules, mode, replies))
            <==> !exists i, j :: SharedWithAdopted(c, rules, i, j) && Landed(replies, j)
  {
    var after := Published(c, rules, mode, replies);
    AppearsWhenShared(c, rules, mode, replies);
    IndexableAfter(c, rules, mode, replies);
    if i :| 0 <= i < |c.specs| && Adopts(c, rules, i) && c.specs[i].uid in after {
      SameExpectation(c, rules, mode, replies, i);
    } else {
      RerunChecks(c, rules, mode, replies);
    }
  }

  ghost predicate RerunPassesAfter(c: Config, rules: Rules, mode: Mode, replies: seq<Reply>) {
    |replies| == |c.specs| ==> Preflight(c, Published(c, rules, mode, replies))
  }

  /** A re-run passes after every possible interruption exactly when, before the publish, no adopted rule shares
      its configured uid with a plain one. */
  lemma RerunAlwaysPasses(c: Config, rules: Rules, mode: Mode)
    requires WellFormed(c) && Preflight(c, rules) && UsableReceiver(mode)
    ensures (forall replies :: RerunPassesAfter(c, rules, mode, replies)) <==> !SharedUid(c, rules)
  {
    if SharedUid(c, rules) {
      var i, j :| SharedWithAdopted(c, rules, i, j);
      var all := AllApplied(|c.specs|);
      assert Landed(all, j);
      RerunPasses(c, rules, mode, all);
      assert !RerunPassesAfter(c, rules, mode, all);
    } else {
      forall replies ensures RerunPassesAfter(c, rules, mode, replies) {
        if |replies| == |c.specs| {
          RerunPasses(c, rules, mode, replies);
        }
      }
    }
  }

  lemma RerunChecks(c: Config, rules: Rules, mode: Mode, replies: seq<Reply>)
    requires WellFormed(c) && Preflight(c, rules) && |c.specs| == |replies| && UsableReceiver(mode)
    requires !CanonicalAppeared(c, rules, Published(c, rules, mode, replies))
    ensures Preflight(c, Published(c, rules, mode, replies))
    ensures forall i :: 0 <= i < |c.specs| ==>
              ExpectedUid(c, Published(c, rules, mode, replies), i) == ExpectedUid(c, rules, i)
  {
    var after := Published(c, rules, mode, replies);
    IndexableAfter(c, rules, mode, replies);
    forall i | 0 <= i < |c.specs|
      ensures ExpectedUid(c, after, i) == ExpectedUid(c, rules, i)
      ensures ByTitle(c, after, c.specs[i].title).Some? ==>
                ByTitle(c, after, c.specs[i].title).value == ExpectedUid(c, rules, i)
      ensures ExpectedUid(c, rules, i) in after ==> Ours(c, after, ExpectedUid(c, rules, i))
    {
      SameExpectation(c, rules, mode, replies, i);
      ByTitleAfter(c, rules, mode, replies, i);
      Landing(c, rules, mode, replies, ExpectedUid(c, rules, i));
    }
    forall u | u in after && Ours(c, after, u)
      ensures exists i :: 0 <= i < |c.specs| && ExpectedUid(c, after, i) == u
    {
      OursAfter(c, rules, mode, replies, u);
      var i :| 0 <= i < |c.specs| && ExpectedUid(c, rules, i) == u;
      assert ExpectedUid(c, after, i) == u;
    }
  }

  /** Distinct configured uids are never shared. */
  lemma DistinctUidsRerun(c: Config, rules: Rules, mode: Mode, replies: seq<Reply>)
    requires WellFormed(c) && DistinctUids(c) && Preflight(c, rules) && |c.specs| == |replies| && UsableReceiver(mode)
    ensures !SharedUid(c, rules) && Preflight(c, Published(c, rules, mode, replies))
  {
    RerunPasses(c, rules, mode, replies);
  }

  /** A re-run with the same flags whose writes all apply reaches the store of an uninterrupted publish. */
  lemma RerunConverges(c: Config, rules: Rules, mode: Mode, replies: seq<Reply>)
    requires WellFormed(c) && Preflight(c, rules) && |c.specs| == |replies| && UsableReceiver(mode)
    requires !exists i, j :: SharedWithAdopted(c, rules, i, j) && Landed(replies, j)
    ensures var all := AllApplied(|c.specs|);
            Published(c, Published(c, rules, mode, replies), mode, all) == Published(c, rules, mode, all)
  {
    var all := AllApplied(|c.specs|);
    var partial := Published(c, rules, mode, replies);
    AppearsWhenShared(c, rules, mode, replies);
    RerunChecks(c, rules, mode, replies);
    var again, once := Published(c, partial, mode, all), Published(c, rules, mode, all);
    forall u
      ensures u in again <==> u in once
      ensures u in again && u in once ==> again[u] == once[u]
    {
      ConvergesAt(c, rules, mode, replies, u);
    }
  }

  lemma ConvergesAt(c: Config, rules: Rules, mode: Mode, replies: seq<Reply>, u: string)
    requires Preflight(c, rules) && |c.specs| == |replies| && Preflight(c, Published(c, rules, mode, replies))
    requires forall i :: 0 <= i < |c.specs| ==>
               ExpectedUid(c, Published(c, rules, mode, replies), i) == ExpectedUid(c, rules, i)
    ensures var all := AllApplied(|c.specs|);
            var again := Published(c, Published(c, rules, mode, replies), mode, all);
            var once := Published(c, rules, mode, all);
            (u in again <==> u in once) && (u in again && u in once ==> again[u] == once[u])
  {
    var all := AllApplied(|c.specs|);
    var partial := Published(c, rules, mode, replies);
    Landing(c, rules, mode, replies, u);
    Landing(c, rules, mode, all, u);
    Landing(c, partial, mode, all, u);
    if i :| 0 <= i < |c.specs| && ExpectedUid(c, rules, i) == u {
      assert ExpectedUid(c, partial, i) == u;
      assert Sent(c, partial, mode, i) == Sent(c, rules, mode, i);
    } else {
      assert forall j :: 0 <= j < |c.specs| ==> ExpectedUid(c, partial, j) != u;
    }
  }

  /** Such deployments exist: repeated uids pass preflight while one of their rules is adopted. Two rules
      configured with one uid, and only the first one live, under a uid a title migration kept. */
  lemma SharedUidPasses(c: Config, rules: Rules, u: string)
    requires WellFormed(c) && |c.specs| == 2 && c.specs[0].uid == c.specs[1].uid
    requires rules.Keys == {u} && u != "" && u != c.specs[0].uid && Ours(c, rules, u)
    requires rules[u].paused.Some? && KnownRouting(rules[u].routing)
    requires rules[u].title == c.specs[0].title && IsRenamedTo(c, c.specs[0].title)
    ensures Preflight(c, rules) && SharedWithAdopted(c, rules, 0, 1)
  {
    assert ByTitle(c, rules, c.specs[0].title) == Some(u);
    assert ByTitle(c, rules, c.specs[1].title) == None;
    assert ExpectedUid(c, rules, 0) == u && ExpectedUid(c, rules, 1) == c.specs[1].uid;
  }

  lemma SharedUidRefuses(c: Config, rules: Rules, mode: Mode, i: nat, j: nat)
    requires WellFormed(c) && Preflight(c, rules) && UsableReceiver(mode) && SharedWithAdopted(c, rules, i, j)
    ensures !Preflight(c, Published(c, rules, mode, AllApplied(|c.specs|)))
  {
    var all := AllApplied(|c.specs|);
    assert Landed(all, j);
    RerunPasses(c, rules, mode, all);
  }

  const PLAIN := Mode(true, "", true)
  const SHARED := Config("f", "g", [Spec("x", "n", "a"), Spec("x", "t", "b")], [("o", "n")])
  const MIGRATED := map["u" := Rule("f", "g", "n", Some(true), Inherit, "a")]

  lemma SharedUidWitness()
    ensures WellFormed(SHARED) && Preflight(SHARED, MIGRATED)
    ensures !Preflight(SHARED, Published(SHARED, MIGRATED, PLAIN, AllApplied(|SHARED.specs|)))
  {
    assert SHARED.renames[0].1 == "n";
    SharedUidPasses(SHARED, MIGRATED, "u");
    SharedUidRefuses(SHARED, MIGRATED, PLAIN, 0, 1);
  }

  // Title migration

  /** Rename i has something to rename and a free title to give it. */
  predicate Renamable(c: Config, rules: Rules, i: nat)
    requires i < |c.renames| && TitlesUnique(c, rules)
  {
    ByTitle(c, rules, c.renames[i].0).Some? && ByTitle(c, rules, c.renames[i].1).None?
  }

  /** Its request was sent, because no earlier request broke the loop, and it was applied. */
  predicate RenameLanded(c: Config, rules: Rules, replies: seq<Reply>, i: nat)
    requires i < |c.renames| == |replies| && TitlesUnique(c, rules)
  {
    Renamable(c, rules, i) && Applied(replies[i])
    && forall j :: 0 <= j < i && Renamable(c, rules, j) ==> !replies[j].Broken?
  }

  /** The store after the first n renames of a migration that started from `rules`: the live body goes back
      with only its title changed; a title that exists on both sides is left alone. */
  function AfterRenames(c: Config, rules: Rules, replies: seq<Reply>, n: nat): Rules
    requires n <= |c.renames| == |replies| && TitlesUnique(c, rules)
  {
    if n == 0 then rules
    else
      var before := AfterRenames(c, rules, replies, n - 1);
      if RenameLanded(c, rules, replies, n - 1) then
        var uid := ByTitle(c, rules, c.renames[n - 1].0).value;
        before[uid := rules[uid].(title := c.renames[n - 1].1)]
      else before
  }

  function Migrated(c: Config, rules: Rules, replies: seq<Reply>): Rules
    requires |c.renames| == |replies|
  {
    if Indexable(c, rules) then AfterRenames(c, rules, replies, |c.renames|) else rules
  }

  /** Rename i takes effect on u. */
  predicate Renames(c: Config, rules: Rules, replies: seq<Reply>, i: nat, u: string)
    requires |c.renames| == |replies| && TitlesUnique(c, rules)
  {
    i < |c.renames| && RenameLanded(c, rules, replies, i) && ByTitle(c, rules, c.renames[i].0) == Some(u)
  }

  lemma {:induction false} AfterRenamesAt(c: Config, rules: Rules, replies: seq<Reply>, n: nat, u: string)
    requires WellFormed(c) && Indexable(c, rules) && n <= |c.renames| == |replies|
    ensures var after := AfterRenames(c, rules, replies, n);
            && (u in after <==> u in rules)
            && (forall i :: 0 <= i < n && Renames(c, rules, replies, i, u) ==>
                  after[u] == rules[u].(title := c.renames[i].1))
            && ((forall i :: 0 <= i < n ==> !Renames(c, rules, replies, i, u)) ==> u in rules ==> after[u] == rules[u])
  {
    if n > 0 {
      AfterRenamesAt(c, rules, replies, n - 1, u);
      if Renames(c, rules, replies, n - 1, u) {
        forall i | 0 <= i < n && Renames(c, rules, replies, i, u) ensures i == n - 1 {
          assert rules[u].title == c.renames[i].0 == c.renames[n - 1].0;
        }
      }
    }
  }

  /** A migration changes titles of our rules only: no rule appears, disappears, or changes its pause state,
      its routing or its body, and no foreign rule changes at all. */
  lemma MigrationFrame(c: Config, rules: Rules, replies: seq<Reply>, u: string)
    requires WellFormed(c) && |c.renames| == |replies|
    ensures var after := Migrated(c, rules, replies);
            && (u in after <==> u in rules)
            && (u in rules ==> after[u] == rules[u].(title := after[u].title))
            && (u in rules && !Ours(c, rules, u) ==> after[u] == rules[u])
  {
    if Indexable(c, rules) {
      AfterRenamesAt(c, rules, replies, |c.renames|, u);
      if i :| 0 <= i < |c.renames| && Renames(c, rules, replies, i, u) {
        assert Ours(c, rules, u);
      }
    }
  }

  /** Rename i counts no failure: there is nothing to rename, or the new title is free and the write is
      acknowledged. */
  predicate RenameSucceeds(c: Config, rules: Rules, dryRun: bool, reply: Reply, i: nat)
    requires i < |c.renames| && TitlesUnique(c, rules)
  {
    ByTitle(c, rules, c.renames[i].0).None?
    || (ByTitle(c, rules, c.renames[i].1).None? && (dryRun || reply.Acknowledged?))
  }

  /** The indexes still build after a migration, so titles stay unique. */
  lemma MigratedIndexable(c: Config, rules: Rules, replies: seq<Reply>)
    requires WellFormed(c) && |c.renames| == |replies| && Indexable(c, rules)
    ensures Indexable(c, Migrated(c, rules, replies))
  {
    var after := Migrated(c, rules, replies);
    MigrationFrame(c, rules, replies, "");
    forall u | u in after && Ours(c, after, u)
      ensures after[u].paused.Some? && KnownRouting(after[u].routing) && after[u].title != ""
    {
      MigrationFrame(c, rules, replies, u);
      AfterRenamesAt(c, rules, replies, |c.renames|, u);
    }
    forall u, v | u in after && v in after && Ours(c, after, u) && Ours(c, after, v) && u != v
      ensures after[u].title != after[v].title
    {
      MigrationFrame(c, rules, replies, u);
      MigrationFrame(c, rules, replies, v);
      AfterRenamesAt(c, rules, replies, |c.renames|, u);
      AfterRenamesAt(c, rules, replies, |c.renames|, v);
      if i :| 0 <= i < |c.renames| && Renames(c, rules, replies, i, u) {
        if j :| 0 <= j < |c.renames| && Renames(c, rules, replies, j, v) {
          assert i != j;
        } else {
          assert ByTitle(c, rules, c.renames[i].1).None?;
        }
      } else if j :| 0 <= j < |c.renames| && Renames(c, rules, replies, j, v) {
        assert ByTitle(c, rules, c.renames[j].1).None?;
      }
    }
  }

  /** A migrated rule survives the next plain publish, whichever of its writes apply and whatever receiver it names for
      new rules: it keeps its uid, its new title, its pause state and its routing, and stays the only one with its
      title. */
  lemma MigratedSurvives(
    c: Config, rules: Rules, replies: seq<Reply>, i: nat, u: string, k: nat, mode: Mode, writes: seq<Reply>)
    requires k < |c.specs| && i < |c.renames| && c.specs[k].title == c.renames[i].1
    requires WellFormed(c) && |c.renames| == |replies| && |c.specs| == |writes| && Indexable(c, rules)
    requires Renames(c, rules, replies, i, u)
    requires mode.preserve && UsableReceiver(mode)
    ensures var published := Published(c, Migrated(c, rules, replies), mode, writes);
            && Ours(c, published, u) && published[u].title == c.renames[i].1
            && published[u].paused == rules[u].paused && published[u].routing == rules[u].routing
            && (forall v :: Ours(c, published, v) && published[v].title == c.renames[i].1 ==> v == u)
  {
    var migrated := Migrated(c, rules, replies);
    AfterRenamesAt(c, rules, replies, |c.renames|, u);
    MigratedIndexable(c, rules, replies);
    assert ByTitle(c, migrated, c.specs[k].title) == Some(u);
    if Preflight(c, migrated) {
      Landing(c, migrated, mode, writes, u);
      IndexableAfter(c, migrated, mode, writes);
    }
  }

  /** After a migration and a complete publish a further one with the same flags changes nothing. It passes its
      preflight exactly when the first did and no adopted rule shared its configured uid with a plain one. */
  lemma MigrationThenPublish(c: Config, rules: Rules, replies: seq<Reply>, mode: Mode)
    requires WellFormed(c) && |c.renames| == |replies| && UsableReceiver(mode)
    ensures var all := AllApplied(|c.specs|);
            var migrated := Migrated(c, rules, replies);
            var published := Published(c, migrated, mode, all);
            && Published(c, published, mode, all) == published
            && (Preflight(c, published) <==> Preflight(c, migrated) && !SharedUid(c, migrated))
  {
    var all := AllApplied(|c.specs|);
    var migrated := Migrated(c, rules, replies);
    if Preflight(c, migrated) {
      FurtherPublish(c, migrated, mode);
    }
  }

  lemma FurtherPublish(c: Config, migrated: Rules, mode: Mode)
    requires WellFormed(c) && Preflight(c, migrated) && UsableReceiver(mode)
    ensures var all := AllApplied(|c.specs|);
            var published := Published(c, migrated, mode, all);
            && Published(c, published, mode, all) == published
            && (Preflight(c, published) <==> !SharedUid(c, migrated))
  {
    var all := AllApplied(|c.specs|);
    if SharedUid(c, migrated) {
      var i: nat, j: nat :| SharedWithAdopted(c, migrated, i, j);
      SharedUidRefuses(c, migrated, mode, i, j);
    } else {
      RerunPasses(c, migrated, mode, all);
      RerunConverges(c, migrated, mode, all);
    }
  }

  /** The title our rule u has after a migration whose renames all apply. */
  ghost predicate Gets(c: Config, rules: Rules, u: string, title: string)
    requires u in rules && TitlesUnique(c, rules)
  {
    || (exists i :: 0 <= i < |c.renames| && c.renames[i] == (rules[u].title, title) && Renamable(c, rules, i))
    || (title == rules[u].title
        && forall i :: 0 <= i < |c.renames| && c.renames[i].0 == title ==> !Renamable(c, rules, i))
  }

  lemma GetsTitle(c: Config, rules: Rules, u: string, title: string)
    requires WellFormed(c) && Indexable(c, rules) && Ours(c, rules, u)
    ensures var after := Migrated(c, rules, AllApplied(|c.renames|));
            Ours(c, after, u) && (after[u].title == title <==> Gets(c, rules, u, title))
  {
    var all := AllApplied(|c.renames|);
    MigrationFrame(c, rules, all, u);
    AfterRenamesAt(c, rules, all, |c.renames|, u);
    if i :| 0 <= i < |c.renames| && c.renames[i].0 == rules[u].title && Renamable(c, rules, i) {
      assert ByTitle(c, rules, c.renames[i].0) == Some(u);
      assert Renames(c, rules, all, i, u);
      assert forall j :: 0 <= j < |c.renames| && c.renames[j].0 == rules[u].title ==> j == i;
      assert rules[u].title != c.renames[i].1;
    } else {
      assert forall i :: 0 <= i < |c.renames| ==> !Renames(c, rules, all, i, u);
    }
  }

  /** After the migration spec k keeps the uid of our rule u. */
  ghost predicate Keeps(c: Config, rules: Rules, u: string, k: nat)
    requires u in rules && k < |c.specs| && TitlesUnique(c, rules)
  {
    && Gets(c, rules, u, c.specs[k].title) && c.specs[k].uid !in rules
    && exists i :: 0 <= i < |c.renames| && c.renames[i].1 == c.specs[k].title
  }

  /** When a publish passes after a complete migration, in terms of the rules before it: each of ours is at a spec's
      uid or will be kept by one, none has a spec's title anywhere else, no spec's uid is taken by another team, and
      no two specs come to one uid. */
  ghost predicate Publishable(c: Config, rules: Rules) {
    && Indexable(c, rules)
    && (forall u :: u in rules && Ours(c, rules, u) ==>
          exists k :: 0 <= k < |c.specs| && (u == c.specs[k].uid || Keeps(c, rules, u, k)))
    && (forall u, k :: u in rules && Ours(c, rules, u) && 0 <= k < |c.specs| && Gets(c, rules, u, c.specs[k].title) ==>
          u == c.specs[k].uid || Keeps(c, rules, u, k))
    && (forall k :: 0 <= k < |c.specs| && c.specs[k].uid in rules ==> Ours(c, rules, c.specs[k].uid))
    && (forall u, k, m :: u in rules && Ours(c, rules, u) && 0 <= k < |c.specs| && 0 <= m < |c.specs| ==>
          Keeps(c, rules, u, k) ==> c.specs[m].uid != u)
    && (forall k, m :: 0 <= k < m < |c.specs| && c.specs[k].uid == c.specs[m].uid ==>
          IsKept(c, rules, k) || IsKept(c, rules, m))
  }

  ghost predicate IsKept(c: Config, rules: Rules, k: nat)
    requires k < |c.specs| && TitlesUnique(c, rules)
  {
    exists u :: u in rules && Ours(c, rules, u) && Keeps(c, rules, u, k)
  }

  /** What spec k expects after the migration. */
  lemma ExpectedAfterMigration(c: Config, rules: Rules, k: nat)
    requires WellFormed(c) && Indexable(c, rules) && k < |c.specs|
    ensures var after := Migrated(c, rules, AllApplied(|c.renames|));
            && Indexable(c, after)
            && (forall u :: u in rules && Ours(c, rules, u) ==>
                  (ByTitle(c, after, c.specs[k].title) == Some(u) <==> Gets(c, rules, u, c.specs[k].title))
                  && (Adopts(c, after, k) && ExpectedUid(c, after, k) == u <==> Keeps(c, rules, u, k)))
            && (Adopts(c, after, k) <==> IsKept(c, rules, k))
            && (!Adopts(c, after, k) ==> ExpectedUid(c, after, k) == c.specs[k].uid)
  {
    var all := AllApplied(|c.renames|);
    var after := Migrated(c, rules, all);
    MigratedIndexable(c, rules, all);
    var live := ByTitle(c, after, c.specs[k].title);
    MigrationFrame(c, rules, all, c.specs[k].uid);
    forall u | u in rules && Ours(c, rules, u)
      ensures live == Some(u) <==> Gets(c, rules, u, c.specs[k].title)
    {
      GetsTitle(c, rules, u, c.specs[k].title);
    }
    if live.Some? {
      MigrationFrame(c, rules, all, live.value);
    }
  }

  /** The publish after a migration whose renames all apply passes its preflight exactly when the rules before the
      migration are publishable. */
  lemma MigrationUnblocksPublish(c: Config, rules: Rules)
    requires WellFormed(c)
    ensures Preflight(c, Migrated(c, rules, AllApplied(|c.renames|))) <==> Publishable(c, rules)
  {
    if Indexable(c, rules) {
      if Publishable(c, rules) {
        PublishablePasses(c, rules);
      }
      if Preflight(c, Migrated(c, rules, AllApplied(|c.renames|))) {
        PassingIsPublishable(c, rules);
      }
    }
  }

  /** A migration moves no rule in or out of our group. */
  lemma SameOurs(c: Config, rules: Rules)
    requires WellFormed(c)
    ensures var after := Migrated(c, rules, AllApplied(|c.renames|));
            forall u :: (u in after <==> u in rules) && (Ours(c, after, u) <==> Ours(c, rules, u))
  {
    forall u {
      MigrationFrame(c, rules, AllApplied(|c.renames|), u);
    }
  }

  lemma PublishablePasses(c: Config, rules: Rules)
    requires WellFormed(c) && Publishable(c, rules)
    ensures Preflight(c, Migrated(c, rules, AllApplied(|c.renames|)))
  {
    var after := Migrated(c, rules, AllApplied(|c.renames|));
    SameOurs(c, rules);
    MigratedIndexable(c, rules, AllApplied(|c.renames|));
    forall u | u in after && Ours(c, after, u) ensures exists k :: 0 <= k < |c.specs| && ExpectedUid(c, after, k) == u {
      var k :| 0 <= k < |c.specs| && (u == c.specs[k].uid || Keeps(c, rules, u, k));
      ExpectedAfterMigration(c, rules, k);
    }
    forall k | 0 <= k < |c.specs|
      ensures ExpectedUid(c, after, k) in after ==> Ours(c, after, ExpectedUid(c, after, k))
      ensures ByTitle(c, after, c.specs[k].title).Some? ==>
                ByTitle(c, after, c.specs[k].title).value == ExpectedUid(c, after, k)
    {
      ExpectedAfterMigration(c, rules, k);
    }
    forall k, m | 0 <= k < m < |c.specs| ensures ExpectedUid(c, after, k) != ExpectedUid(c, after, m) {
      ExpectedApart(c, rules, k, m);
    }
  }

  lemma ExpectedApart(c: Config, rules: Rules, k: nat, m: nat)
    requires WellFormed(c) && Publishable(c, rules) && k < m < |c.specs|
    ensures var after := Migrated(c, rules, AllApplied(|c.renames|));
            Indexable(c, after) && ExpectedUid(c, after, k) != ExpectedUid(c, after, m)
  {
    var after := Migrated(c, rules, AllApplied(|c.renames|));
    SameOurs(c, rules);
    ExpectedAfterMigration(c, rules, k);
    ExpectedAfterMigration(c, rules, m);
    if Adopts(c, after, k) {
      assert Ours(c, rules, ExpectedUid(c, after, k));
    } else if Adopts(c, after, m) {
      assert Ours(c, rules, ExpectedUid(c, after, m));
    }
  }

  lemma PassingIsPublishable(c: Config, rules: Rules)
    requires WellFormed(c) && Indexable(c, rules)
    requires Preflight(c, Migrated(c, rules, AllApplied(|c.renames|)))
    ensures Publishable(c, rules)
  {
    var after := Migrated(c, rules, AllApplied(|c.renames|));
    SameOurs(c, rules);
    forall u | u in rules && Ours(c, rules, u)
      ensures exists k :: 0 <= k < |c.specs| && (u == c.specs[k].uid || Keeps(c, rules, u, k))
    {
      assert Ours(c, after, u);
      var k :| 0 <= k < |c.specs| && ExpectedUid(c, after, k) == u;
      ExpectedAfterMigration(c, rules, k);
    }
    forall k | 0 <= k < |c.specs| ensures c.specs[k].uid in rules ==> Ours(c, rules, c.specs[k].uid) {
      ExpectedAfterMigration(c, rules, k);
    }
    forall u, k | u in rules && Ours(c, rules, u) && 0 <= k < |c.specs|
      ensures Gets(c, rules, u, c.specs[k].title) ==> u == c.specs[k].uid || Keeps(c, rules, u, k)
    {
      ExpectedAfterMigration(c, rules, k);
    }
    forall u, k, m | u in rules && Ours(c, rules, u) && 0 <= k < |c.specs| && 0 <= m < |c.specs|
      ensures Keeps(c, rules, u, k) ==> c.specs[m].uid != u
    {
      ExpectedAfterMigration(c, rules, k);
      ExpectedAfterMigration(c, rules, m);
    }
    forall k, m | 0 <= k < m < |c.specs| && c.specs[k].uid == c.specs[m].uid
      ensures IsKept(c, rules, k) || IsKept(c, rules, m)
    {
      ExpectedAfterMigration(c, rules, k);
      ExpectedAfterMigration(c, rules, m);
    }
  }

  // The command line

  datatype Args = Args(
    activate: bool, deactivate: bool, publish: bool, migrateTitles: bool, dryRun: bool,
    contactPoints: bool, list: bool, out: bool, receiver: string)

  /** What the deployment and the stack supply. */
  datatype Context = Context(verified: bool, base: bool, token: bool, contactPoints: set<string>)

  /** What a command line comes to; Exit(2) is a refusal before any network call that could write. */
  datatype Action = Exit(code: int) | Show | Migrate(dryRun: bool) | Publish(mode: Mode)

  /** The mode logic of `main`. */
  function Decide(c: Config, a: Args, ctx: Context): Action {
    var publishes := a.publish || a.activate || a.deactivate;
    if !ctx.verified then Exit(2)
    else if a.activate && a.deactivate then Exit(2)
    else if a.deactivate && a.receiver != "" then Exit(2)
    else if a.dryRun && publishes then Exit(2)
    else if a.activate && a.receiver == "" then Exit(2)
    else if (publishes || a.migrateTitles || a.contactPoints) && !ctx.base then Exit(2)
    else if (publishes || a.migrateTitles) && c.folder == "" then Exit(2)
    else if a.migrateTitles then (if ctx.token then Migrate(a.dryRun) else Exit(2))
    else if a.contactPoints then (if ctx.token then Show else Exit(2))
    else if a.list || !(a.out || publishes) then Show
    else if a.out then Show
    else if !ctx.token then Exit(2)
    else if a.receiver != "" && a.receiver !in ctx.contactPoints then Exit(2)
    else Publish(Mode(!a.activate, a.receiver, !a.activate && !a.deactivate))
  }

  /** No command line unpauses a rule without an existing receiver named for it, and live state is kept
      exactly by the publishes that neither activate nor deactivate. */
  lemma DecideIsSafe(c: Config, a: Args, ctx: Context)
    requires Decide(c, a, ctx).Publish?
    ensures var mode := Decide(c, a, ctx).mode;
            && (!mode.paused ==>
                  a.activate && mode.receiver != "" && mode.receiver in ctx.contactPoints && !mode.preserve)
            && (mode.preserve <==> !a.activate && !a.deactivate)
            && (a.deactivate ==> mode == Mode(true, "", false))
            && (mode.receiver != "" ==> mode.receiver in ctx.contactPoints)
            && c.folder != ""
  {
  }

  /** A dry run writes nothing: with a publishing flag it is refused, and a title migration only reports. */
  lemma DryRunsNeverWrite(c: Config, a: Args, ctx: Context)
    requires a.dryRun
    ensures !Decide(c, a, ctx).Publish?
    ensures a.publish || a.activate || a.deactivate ==> Decide(c, a, ctx) == Exit(2)
    ensures Decide(c, a, ctx).Migrate? ==> Decide(c, a, ctx) == Migrate(true)
  {
  }

  /** Which command lines publish, migrate, show or are refused. */
  lemma CommandLines(c: Config, a: Args, ctx: Context)
    ensures var publishes := a.publish || a.activate || a.deactivate;
            var consistent := !(a.activate && a.deactivate) && !(a.deactivate && a.receiver != "")
                              && !(a.activate && a.receiver == "") && !(a.dryRun && publishes);
            && (Decide(c, a, ctx) == Migrate(a.dryRun) <==>
                  a.migrateTitles && consistent && ctx.verified && ctx.base && ctx.token && c.folder != "")
            && Decide(c, a, ctx) != Migrate(!a.dryRun)
            && (Decide(c, a, ctx).Publish? <==>
                  publishes && consistent && !a.migrateTitles && !a.contactPoints && !a.list && !a.out
                  && ctx.verified && ctx.base && ctx.token && c.folder != ""
                  && (a.receiver == "" || a.receiver in ctx.contactPoints))
            && (Decide(c, a, ctx).Publish? ==> Decide(c, a, ctx).mode.receiver == a.receiver)
            && (Decide(c, a, ctx).Show? <==>
                  consistent && !a.migrateTitles && ctx.verified && (publishes || a.contactPoints ==> ctx.base)
                  && (publishes ==> c.folder != "")
                  && if a.contactPoints then ctx.token else a.list || a.out || !publishes)
            && (Decide(c, a, ctx).Exit? ==> Decide(c, a, ctx) == Exit(2))
  {
  }

  /** What a completed publish leaves of each spec's rule, by mode: a plain publish keeps the live pause and
      routing of a rule that was there and creates a new one paused; activating unpauses every rule and routes
      it to the named receiver; deactivating pauses every rule and drops its routing. */
  lemma ModesAsDocumented(c: Config, rules: Rules, a: Args, ctx: Context, i: nat)
    requires Preflight(c, rules) && i < |c.specs| && Decide(c, a, ctx).Publish?
    ensures var u := ExpectedUid(c, rules, i);
            var after := Invoke(c, rules, Invocation(a, ctx, AllApplied(|c.specs|), AllApplied(|c.renames|)));
            && Ours(c, after, u) && after[u].title == c.specs[i].title && after[u].body == c.specs[i].body
            && (a.activate ==> after[u].paused == Some(false) && after[u].routing == Receiver(a.receiver))
            && (a.deactivate ==> after[u].paused == Some(true) && after[u].routing == Inherit)
            && (!a.activate && !a.deactivate ==>
                  if Ours(c, rules, u) then after[u].paused == rules[u].paused && after[u].routing == rules[u].routing
                  else after[u].paused == Some(true)
                       && after[u].routing == if a.receiver == "" then Inherit else Receiver(a.receiver))
  {
    var mode := Decide(c, a, ctx).mode;
    Landing(c, rules, mode, AllApplied(|c.specs|), ExpectedUid(c, rules, i));
  }

  /** One invocation and the answers its writes get. */
  datatype Invocation = Invocation(args: Args, ctx: Context, ruleReplies: seq<Reply>, renameReplies: seq<Reply>)

  predicate Answers(c: Config, i: Invocation) {
    |i.ruleReplies| == |c.specs| && |i.renameReplies| == |c.renames|
  }

  function Invoke(c: Config, rules: Rules, i: Invocation): Rules
    requires Answers(c, i)
  {
    match Decide(c, i.args, i.ctx)
    case Publish(mode) => Published(c, rules, mode, i.ruleReplies)
    case Migrate(false) => Migrated(c, rules, i.renameReplies)
    case _ => rules
  }

  /** A completed migration gives our rule with an old title the new one, and changes nothing else of it, unless a
      rule of ours has the new title already; then it leaves both alone. */
  lemma InvokedMigration(c: Config, rules: Rules, a: Args, ctx: Context, i: nat, u: string)
    requires WellFormed(c) && Indexable(c, rules) && Decide(c, a, ctx) == Migrate(false)
    requires i < |c.renames| && u in rules && Ours(c, rules, u) && rules[u].title == c.renames[i].0
    ensures var after := Invoke(c, rules, Invocation(a, ctx, AllApplied(|c.specs|), AllApplied(|c.renames|)));
            u in after
            && after[u] == if exists v :: v in rules && Ours(c, rules, v) && rules[v].title == c.renames[i].1
                           then rules[u] else rules[u].(title := c.renames[i].1)
  {
    AfterRenamesAt(c, rules, AllApplied(|c.renames|), |c.renames|, u);
    assert ByTitle(c, rules, c.renames[i].0) == Some(u);
    assert Renames(c, rules, AllApplied(|c.renames|), i, u) <==> ByTitle(c, rules, c.renames[i].1).None?;
    forall j | 0 <= j < |c.renames| && Renames(c, rules, AllApplied(|c.renames|), j, u) ensures j == i {
      assert rules[u].title == c.renames[j].0;
    }
  }

  lemma DryInvocation(c: Config, rules: Rules, i: Invocation)
    requires Answers(c, i) && i.args.dryRun
    ensures Invoke(c, rules, i) == rules
  {
    DryRunsNeverWrite(c, i.args, i.ctx);
  }

  function InvokeAll(c: Config, rules: Rules, history: seq<Invocation>): Rules
    requires forall i :: i in history ==> Answers(c, i)
    decreases |history|
  {
    if history == [] then rules else InvokeAll(c, Invoke(c, rules, history[0]), history[1..])
  }

  /** One more invocation starts from what the ones before it left. */
  lemma {:induction false} InvokeOneMore(c: Config, rules: Rules, history: seq<Invocation>, last: Invocation)
    requires Answers(c, last) && forall i :: i in history ==> Answers(c, i)
    ensures InvokeAll(c, rules, []) == rules
    ensures InvokeAll(c, rules, history + [last]) == Invoke(c, InvokeAll(c, rules, history), last)
    decreases |history|
  {
    if history != [] {
      assert (history + [last])[1..] == history[1..] + [last];
      InvokeOneMore(c, Invoke(c, rules, history[0]), history[1..], last);
    }
  }

  /** Every unpaused rule of ours names its receiver, so none can reach the stack's own policy. */
  ghost predicate ExplicitlyRouted(c: Config, rules: Rules) {
    forall u :: u in rules && Ours(c, rules, u) && rules[u].paused == Some(false) ==> rules[u].routing.Receiver?
  }

  lemma PublishKeepsRouting(c: Config, rules: Rules, mode: Mode, replies: seq<Reply>)
    requires |c.specs| == |replies| && ExplicitlyRouted(c, rules)
    requires !mode.paused ==> mode.receiver != ""
    ensures ExplicitlyRouted(c, Published(c, rules, mode, replies))
  {
    if Preflight(c, rules) {
      var after := Published(c, rules, mode, replies);
      forall u | u in after && Ours(c, after, u) && after[u].paused == Some(false) ensures after[u].routing.Receiver? {
        OursAfter(c, rules, mode, replies, u);
        Landing(c, rules, mode, replies, u);
      }
    }
  }

  lemma MigrationKeepsRouting(c: Config, rules: Rules, replies: seq<Reply>)
    requires WellFormed(c) && |c.renames| == |replies| && ExplicitlyRouted(c, rules)
    ensures ExplicitlyRouted(c, Migrated(c, rules, replies))
  {
    var after := Migrated(c, rules, replies);
    forall u | u in after && Ours(c, after, u) && after[u].paused == Some(false) ensures after[u].routing.Receiver? {
      MigrationFrame(c, rules, replies, u);
    }
  }

  /** Over every history of invocations with arbitrary lost or failed writes, our unpaused rules stay
      explicitly routed and no rule outside our folder and group changes. */
  lemma {:induction false} HistoriesAreSafe(c: Config, rules: Rules, history: seq<Invocation>)
    requires WellFormed(c) && ExplicitlyRouted(c, rules)
    requires forall i :: i in history ==> Answers(c, i)
    ensures ExplicitlyRouted(c, InvokeAll(c, rules, history))
    ensures forall u :: u in rules && !Ours(c, rules, u) ==>
              u in InvokeAll(c, rules, history) && InvokeAll(c, rules, history)[u] == rules[u]
    ensures forall u :: u in InvokeAll(c, rules, history) && !Ours(c, InvokeAll(c, rules, history), u) ==>
              u in rules && !Ours(c, rules, u)
    decreases |history|
  {
    if history != [] {
      var i := history[0];
      var next := Invoke(c, rules, i);
      forall u
        ensures u in rules && !Ours(c, rules, u) ==> u in next && next[u] == rules[u]
        ensures u in next && !Ours(c, next, u) ==> u in rules && !Ours(c, rules, u)
      {
        MigrationFrame(c, rules, i.renameReplies, u);
        if Decide(c, i.args, i.ctx).Publish? {
          OthersUntouched(c, rules, Decide(c, i.args, i.ctx).mode, i.ruleReplies, u);
        }
      }
      MigrationKeepsRouting(c, rules, i.renameReplies);
      if Decide(c, i.args, i.ctx).Publish? {
        DecideIsSafe(c, i.args, i.ctx);
        PublishKeepsRouting(c, rules, Decide(c, i.args, i.ctx).mode, i.ruleReplies);
      }
      HistoriesAreSafe(c, next, history[1..]);
    }
  }

  // The store

  /** Our rule with a spec's title is at another uid, and no migration explains it. */
  ghost predicate Misplaced(c: Config, rules: Rules, u: string, k: nat)
    requires u in rules && k < |c.specs|
  {
    && rules[u].folder == c.folder && rules[u].group == c.group && rules[u].title == c.specs[k].title
    && u != c.specs[k].uid
    && ((forall i :: 0 <= i < |c.renames| ==> c.renames[i].1 != c.specs[k].title) || c.specs[k].uid in rules)
  }

  lemma MisplacedIsRefused(c: Config, rules: Rules)
    requires exists u, k :: u in rules && 0 <= k < |c.specs| && Misplaced(c, rules, u, k)
    ensures !Preflight(c, rules)
  {
    var u, k :| u in rules && 0 <= k < |c.specs| && Misplaced(c, rules, u, k);
    if Preflight(c, rules) {
      OnlyMigratedTitlesAreAdopted(c, rules, u, k);
    }
  }

  /** A broken connection is the end of the loop. */
  lemma {:induction false} NothingLandsAfter(
    c: Config, rules: Rules, mode: Mode, replies: seq<Reply>, i: nat, n: nat)
    requires i < n <= |c.specs| == |replies| && TitlesUnique(c, rules) && replies[i].Broken?
    ensures AfterWrites(c, rules, mode, replies, n) == AfterWrites(c, rules, mode, replies, i + 1)
  {
    if n > i + 1 {
      NothingLandsAfter(c, rules, mode, replies, i, n - 1);
    }
  }

  lemma {:induction false} NoRenameLandsAfter(c: Config, rules: Rules, replies: seq<Reply>, i: nat, n: nat)
    requires i < n <= |c.renames| == |replies| && TitlesUnique(c, rules)
    requires Renamable(c, rules, i) && replies[i].Broken?
    ensures AfterRenames(c, rules, replies, n) == AfterRenames(c, rules, replies, i + 1)
  {
    if n > i + 1 {
      NoRenameLandsAfter(c, rules, replies, i, n - 1);
    }
  }

  const GROUP_INTERVAL_SECONDS := 300

  /** The provisioning API of one stack, with the write requests it has been sent. */
  class RuleStore {
    var rules: Rules
    var interval: int
    var requests: nat

    constructor (rules: Rules, interval: int)
      ensures this.rules == rules && this.interval == interval && requests == 0
    {
      this.rules, this.interval, requests := rules, interval, 0;
    }

    /** A PUT or POST of one rule. */
    method Put(uid: string, rule: Rule, reply: Reply) returns (acknowledged: bool, raised: bool)
      modifies this
      ensures rules == if Applied(reply) then old(rules)[uid := rule] else old(rules)
      ensures interval == old(interval) && requests == old(requests) + 1
      ensures acknowledged <==> reply.Acknowledged?
      ensures raised <==> reply.Broken?
    {
      requests := requests + 1;
      if Applied(reply) {
        rules := rules[uid := rule];
      }
      acknowledged, raised := reply.Acknowledged?, reply.Broken?;
    }

    /** `publish`. A refused preflight sends nothing. Otherwise one request goes out per rule, up to the first
        broken connection, and the group's interval is set only when all were acknowledged. */
    method Publish(c: Config, mode: Mode, replies: seq<Reply>, intervalReply: Reply)
      returns (refused: bool, raised: bool, failures: nat)
      requires |c.specs| == |replies|
      modifies this
      ensures refused <==> !Preflight(c, old(rules))
      ensures rules == Published(c, old(rules), mode, replies)
      ensures refused ==>
                !raised && requests == old(requests) && rules == old(rules) && interval == old(interval)
      ensures (exists u, k :: u in old(rules) && 0 <= k < |c.specs| && Misplaced(c, old(rules), u, k)) ==> refused
      ensures raised <==> !refused && (if AllAcknowledged(replies) then intervalReply.Broken? else AnyBroken(replies))
      ensures !refused && !raised ==> (failures == 0 <==> AllAcknowledged(replies))
      ensures !refused && !raised ==>
                requests == old(requests) + |c.specs| + if AllAcknowledged(replies) then 1 else 0
      ensures raised && AnyBroken(replies) ==>
                && old(requests) < requests <= old(requests) + |c.specs|
                && replies[requests - old(requests) - 1].Broken?
                && (forall i :: 0 <= i < requests - old(requests) - 1 ==> !replies[i].Broken?)
      ensures interval == if !refused && AllAcknowledged(replies) && Applied(intervalReply) then 300 else old(interval)
    {
      failures, raised := 0, false;
      if exists u, k :: u in rules && 0 <= k < |c.specs| && Misplaced(c, rules, u, k) {
        MisplacedIsRefused(c, rules);
      }
      if !Preflight(c, rules) {
        return true, false, 0;
      }
      refused := false;
      raised, failures := WriteRules(c, mode, replies);
      if !raised && failures == 0 {
        requests := requests + 1;
        if Applied(intervalReply) {
          interval := GROUP_INTERVAL_SECONDS;
        }
        raised := intervalReply.Broken?;
      }
    }

    /** The loop of `publish`, after its preflight: one PUT or POST per rule. */
    method WriteRules(c: Config, mode: Mode, replies: seq<Reply>) returns (raised: bool, failures: nat)
      requires |c.specs| == |replies| && Preflight(c, rules)
      modifies this
      ensures rules == Published(c, old(rules), mode, replies) && interval == old(interval)
      ensures raised <==> AnyBroken(replies)
      ensures !raised ==> requests == old(requests) + |c.specs| && (failures == 0 <==> AllAcknowledged(replies))
      ensures raised ==>
                && old(requests) < requests <= old(requests) + |c.specs|
                && replies[requests - old(requests) - 1].Broken?
                && (forall i :: 0 <= i < requests - old(requests) - 1 ==> !replies[i].Broken?)
    {
      failures, raised := 0, false;
      var have := rules;
      for i := 0 to |c.specs|
        invariant rules == AfterWrites(c, have, mode, replies, i)
        invariant interval == old(interval) && requests == old(requests) + i
        invariant !raised && forall j :: 0 <= j < i ==> !replies[j].Broken?
        invariant failures == 0 <==> forall j :: 0 <= j < i ==> replies[j].Acknowledged?
      {
        var uid := ExpectedUid(c, have, i);
        var rule := Built(c, mode, i);
        if mode.preserve && Ours(c, have, uid) {
          rule := rule.(paused := have[uid].paused, routing := have[uid].routing);
        }
        var acknowledged;
        acknowledged, raised := Put(uid, rule, replies[i]);
        if raised {
          NothingLandsAfter(c, have, mode, replies, i, |c.specs|);
          return;
        }
        if !acknowledged {
          failures := failures + 1;
        }
      }
    }

    /** `migrate_titles`. A dry run sends nothing; a broken connection ends the loop. */
    method MigrateTitles(c: Config, dryRun: bool, replies: seq<Reply>)
      returns (refused: bool, raised: bool, failures: nat)
      requires |c.renames| == |replies|
      modifies this
      ensures refused <==> !Indexable(c, old(rules))
      ensures rules == if dryRun then old(rules) else Migrated(c, old(rules), replies)
      ensures interval == old(interval)
      ensures refused || dryRun ==> !raised && requests == old(requests)
      ensures raised <==>
                && !refused && !dryRun
                && exists i :: 0 <= i < |c.renames| && Renamable(c, old(rules), i) && replies[i].Broken?
      ensures !refused && !raised ==>
        (failures == 0 <==> forall i :: 0 <= i < |c.renames| ==> RenameSucceeds(c, old(rules), dryRun, replies[i], i))
    {
      failures, raised := 0, false;
      if !Indexable(c, rules) {
        return true, false, 0;
      }
      refused := false;
      var have := rules;
      for i := 0 to |c.renames|
        invariant !raised && rules == if dryRun then have else AfterRenames(c, have, replies, i)
        invariant interval == old(interval)
        invariant dryRun ==> requests == old(requests)
        invariant !dryRun ==> forall j :: 0 <= j < i && Renamable(c, have, j) ==> !replies[j].Broken?
        invariant failures == 0 <==> forall j :: 0 <= j < i ==> RenameSucceeds(c, have, dryRun, replies[j], j)
      {
        ghost var before := failures;
        var live := ByTitle(c, have, c.renames[i].0);
        if live.Some? {
          if ByTitle(c, have, c.renames[i].1).Some? {
            failures := failures + 1;
          } else if !dryRun {
            var acknowledged;
            acknowledged, raised := Put(live.value, have[live.value].(title := c.renames[i].1), replies[i]);
            if raised {
              NoRenameLandsAfter(c, have, replies, i, |c.renames|);
              return;
            }
            if !acknowledged {
              failures := failures + 1;
            }
          }
        }
        assert failures == before + if RenameSucceeds(c, have, dryRun, replies[i], i) then 0 else 1;
      }
    }
  }
}
