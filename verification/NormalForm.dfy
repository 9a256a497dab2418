/** The consumer manifest's normal form (bin/consumer_manifest.py): filling omitted keys with module
    defaults, pruning default-equal keys, and the digests that bind an image to its configuration. */
module NormalForm {
  import opened Optional

  /** A JSON scalar of the aws section. */
  datatype Value = Str(text: string) | Bool(on: bool) | Null | Other(json: string)

  type Env = map<string, string>
  type Aws = map<string, Value>

  datatype Runtime = Runtime(scan: Env, provisioner: Env, dashboards: Env, alerts: Env)

  datatype Source = Source(repository: string, revision: string)

  datatype Digests = Digests(overlay: string, projections: seq<string>)

  datatype Manifest = Manifest(
    schemaVersion: int, source: Source, digests: Digests, runtime: Runtime, aws: Aws, policy: Aws)

  /** What one module revision and the identity helpers fix: the default render of each key (no entry: the
      key has no default), the keys both projections carry, the label group with its marker, the two kinds of
      additive keys, and the keys `validate` compares between the projections. */
  datatype Contract = Contract(
    scan: Env, provisioner: Env, aws: Aws, shared: set<string>,
    labels: Env, marker: string, additiveScan: set<string>, additiveAws: Aws,
    productReads: string, agreed: set<string>)

  const NAME_PREFIX := "name_prefix"
  const TEMPLATE := "{name_prefix}"

  /** What terraform/consumer_manifest.tf and collector/identity.py guarantee about the tables. The name prefix
      has no default. The label marker has one. A key both projections carry is either required (no default) or
      has one default for both sides and is compared by `validate`. Additive aws keys default to what their
      absence means. */
  ghost predicate WellFormed(c: Contract) {
    && NAME_PREFIX !in c.aws
    && c.marker in c.labels && c.marker in c.scan && c.marker !in c.additiveScan
    && c.labels.Keys !! c.shared
    && c.productReads in c.shared
    && (forall k :: k in c.shared && (k in c.scan || k in c.provisioner) ==>
          k in c.scan && k in c.provisioner && c.scan[k] == c.provisioner[k] && k in c.agreed && k !in c.additiveScan)
    && (forall k :: k in c.aws && k in c.additiveAws ==> c.aws[k] == c.additiveAws[k])
    && (forall k :: k in c.additiveAws ==> c.additiveAws[k].Bool?)
    && NAME_PREFIX !in c.additiveAws && "create_bucket" !in c.additiveAws && "create_secret" !in c.additiveAws
  }

  // Filling

  /** `text.replace(pattern, by)`. */
  function ReplaceAll(text: string, pattern: string, with: string): string
    requires pattern != ""
  {
    if |text| < |pattern| then text
    else if text[..|pattern|] == pattern then with + ReplaceAll(text[|pattern|..], pattern, with)
    else [text[0]] + ReplaceAll(text[1..], pattern, with)
  }

  predicate Contains(text: string, pattern: string) {
    |pattern| <= |text| && (text[..|pattern|] == pattern || (text != "" && Contains(text[1..], pattern)))
  }

  predicate IsTemplate(v: Value) {
    v.Str? && Contains(v.text, TEMPLATE)
  }

  /** A template follows the manifest's own name prefix and has no render without a usable one. */
  function Resolved(v: Value, aws: Aws): Option<Value> {
    if !IsTemplate(v) then Some(v)
    else if NAME_PREFIX in aws && aws[NAME_PREFIX].Str? && aws[NAME_PREFIX].text != "" then
      Some(Str(ReplaceAll(v.text, TEMPLATE, aws[NAME_PREFIX].text)))
    else None
  }

  predicate LabelPresent(c: Contract, scan: Env) {
    exists k :: k in c.labels && k in scan
  }

  predicate FillsScan(c: Contract, r: Runtime, k: string) {
    && k in c.scan && k !in r.scan
    && k !in c.additiveScan
    && (k in c.labels ==> LabelPresent(c, r.scan))
    && !(k in c.shared && k in r.provisioner)
  }

  predicate FillsProvisioner(c: Contract, r: Runtime, k: string) {
    k in c.provisioner && k !in r.provisioner && !(k in c.shared && k in r.scan)
  }

  predicate FillsAws(c: Contract, aws: Aws, k: string) {
    k in c.aws && k !in aws && k !in c.additiveAws && Resolved(c.aws[k], aws).Some?
  }

  function ScanFills(c: Contract, r: Runtime): Env {
    map k | k in c.scan && FillsScan(c, r, k) :: c.scan[k]
  }

  function ProvisionerFills(c: Contract, r: Runtime): Env {
    map k | k in c.provisioner && FillsProvisioner(c, r, k) :: c.provisioner[k]
  }

  function AwsFills(c: Contract, aws: Aws): Aws {
    map k | k in c.aws && FillsAws(c, aws, k) :: Resolved(c.aws[k], aws).value
  }

  function EffectiveRuntime(c: Contract, r: Runtime): Runtime {
    r.(scan := r.scan + ScanFills(c, r), provisioner := r.provisioner + ProvisionerFills(c, r))
  }

  function EffectiveAws(c: Contract, aws: Aws): Aws {
    aws + AwsFills(c, aws)
  }

  /** The manifest with every omitted key that has a default render filled with it. */
  function Effective(c: Contract, m: Manifest): Manifest {
    m.(runtime := EffectiveRuntime(c, m.runtime), aws := EffectiveAws(c, m.aws))
  }

  /** Filling adds keys and changes none: every added value is the key's default render, and the three
      deliberate omissions stay omitted (an absent label group, one side of a key both projections carry, an
      additive key). */
  lemma EffectiveAddsDefaultsOnly(c: Contract, m: Manifest, k: string)
    ensures var full := Effective(c, m);
            && (k in m.runtime.scan ==> k in full.runtime.scan && full.runtime.scan[k] == m.runtime.scan[k])
            && (k in m.runtime.provisioner ==>
                  k in full.runtime.provisioner && full.runtime.provisioner[k] == m.runtime.provisioner[k])
            && (k in m.aws ==> k in full.aws && full.aws[k] == m.aws[k])
            && (k in full.runtime.scan && k !in m.runtime.scan ==> Lookup(c.scan, k) == Some(full.runtime.scan[k]))
            && (k in full.runtime.provisioner && k !in m.runtime.provisioner ==>
                  Lookup(c.provisioner, k) == Some(full.runtime.provisioner[k]))
            && (k in full.aws && k !in m.aws ==> k in c.aws && Resolved(c.aws[k], m.aws) == Some(full.aws[k]))
            && (k in c.labels && !LabelPresent(c, m.runtime.scan) ==> k !in full.runtime.scan)
            && (k in c.shared && k in m.runtime.scan && k !in m.runtime.provisioner ==> k !in full.runtime.provisioner)
            && (k in c.shared && k in m.runtime.provisioner && k !in m.runtime.scan ==> k !in full.runtime.scan)
            && (k in c.additiveScan && k !in m.runtime.scan ==> k !in full.runtime.scan)
            && (k in c.additiveAws && k !in m.aws ==> k !in full.aws)
  {
  }

  /** Everything else with a default is filled, and nothing is but that. */
  lemma EffectiveIsComplete(c: Contract, m: Manifest, k: string)
    ensures var full := Effective(c, m);
            && (k in full.runtime.scan <==>
                  k in m.runtime.scan
                  || (k in c.scan && k !in c.additiveScan && !(k in c.shared && k in m.runtime.provisioner)
                      && (k in c.labels ==> exists l :: l in c.labels && l in m.runtime.scan)))
            && (k in full.runtime.provisioner <==>
                  k in m.runtime.provisioner || (k in c.provisioner && !(k in c.shared && k in m.runtime.scan)))
            && (k in full.aws <==>
                  k in m.aws || (k in c.aws && k !in c.additiveAws && Resolved(c.aws[k], m.aws).Some?))
            && full == m.(runtime := m.runtime.(scan := full.runtime.scan, provisioner := full.runtime.provisioner),
                          aws := full.aws)
  {
  }

  // What a template renders as

  /** The parts with a separator between them. */
  function Joined(parts: seq<string>, separator: string): string
    requires parts != []
  {
    if |parts| == 1 then parts[0] else parts[0] + separator + Joined(parts[1..], separator)
  }

  /** The text "{name_prefix}" stands nowhere in the part. */
  ghost predicate TemplateFree(part: string) {
    forall i, j :: 0 <= i <= j <= |part| ==> part[i..j] != "{name_prefix}"
  }

  lemma {:induction false} FreeKept(part: string, with: string)
    requires TemplateFree(part)
    ensures !Contains(part, TEMPLATE) && ReplaceAll(part, TEMPLATE, with) == part
  {
    if |part| >= 13 {
      assert part[..13] == part[0..13];
    }
    if part != "" {
      FreeTail(part);
      FreeKept(part[1..], with);
      assert [part[0]] + part[1..] == part;
    }
  }

  lemma FreeTail(part: string)
    requires TemplateFree(part) && part != ""
    ensures TemplateFree(part[1..])
  {
    forall i, j | 0 <= i <= j <= |part[1..]| ensures part[1..][i..j] != "{name_prefix}" {
      assert part[1..][i..j] == part[i + 1..j + 1];
    }
  }

  /** No template starts inside a free part, not even one that runs into the next template. */
  lemma FreeStart(part: string, rest: string)
    requires TemplateFree(part) && part != ""
    ensures var text := part + TEMPLATE + rest; text[..13] != TEMPLATE
  {
    var text := part + TEMPLATE + rest;
    if |part| >= 13 {
      assert part[0..13] != TEMPLATE;
      assert text[..13] == part[0..13];
    } else {
      assert text[..13][|part|] == '{';
      assert TEMPLATE[|part|] != '{';
    }
  }

  lemma {:induction false} FirstReplaced(part: string, rest: string, with: string)
    requires TemplateFree(part)
    ensures var text := part + (TEMPLATE + rest);
            Contains(text, TEMPLATE)
            && ReplaceAll(text, TEMPLATE, with) == part + (with + ReplaceAll(rest, TEMPLATE, with))
  {
    var tail := TEMPLATE + rest;
    var text := part + tail;
    if part == "" {
      assert text == tail;
      StartReplaced(rest, with);
    } else {
      FreeTail(part);
      FreeStart(part, rest);
      FirstReplaced(part[1..], rest, with);
      assert text == part + TEMPLATE + rest;
      StepReplaced(text, with);
      UnconsText(part, tail);
      UnconsText(part, with + ReplaceAll(rest, TEMPLATE, with));
    }
  }

  lemma UnconsText(part: string, tail: string)
    requires part != ""
    ensures (part + tail)[0] == part[0] && (part + tail)[1..] == part[1..] + tail
    ensures [part[0]] + (part[1..] + tail) == part + tail
  {
  }

  lemma StartReplaced(rest: string, with: string)
    ensures var text := TEMPLATE + rest;
            Contains(text, TEMPLATE) && ReplaceAll(text, TEMPLATE, with) == with + ReplaceAll(rest, TEMPLATE, with)
  {
    var text := TEMPLATE + rest;
    assert text[..13] == TEMPLATE && text[13..] == rest;
  }

  lemma StepReplaced(text: string, with: string)
    requires |text| >= 13 && text[..13] != TEMPLATE
    ensures ReplaceAll(text, TEMPLATE, with) == [text[0]] + ReplaceAll(text[1..], TEMPLATE, with)
    ensures Contains(text, TEMPLATE) <==> Contains(text[1..], TEMPLATE)
  {
  }

  lemma {:induction false} AllReplaced(parts: seq<string>, with: string)
    requires parts != [] && forall p :: p in parts ==> TemplateFree(p)
    ensures ReplaceAll(Joined(parts, TEMPLATE), TEMPLATE, with) == Joined(parts, with)
    ensures Contains(Joined(parts, TEMPLATE), TEMPLATE) <==> |parts| > 1
  {
    if |parts| == 1 {
      FreeKept(parts[0], with);
    } else {
      AllReplaced(parts[1..], with);
      var rest, replaced := Joined(parts[1..], TEMPLATE), Joined(parts[1..], with);
      FirstReplaced(parts[0], rest, with);
      assert parts[0] + TEMPLATE + rest == parts[0] + (TEMPLATE + rest);
      assert parts[0] + with + replaced == parts[0] + (with + replaced);
    }
  }

  /** An omitted key whose default is template-free parts joined by "{name_prefix}" is filled with the same parts
      joined by the manifest's own prefix. */
  lemma TemplateIsFilled(c: Contract, m: Manifest, k: string, parts: seq<string>, prefix: string)
    requires parts != [] && forall p :: p in parts ==> TemplateFree(p)
    requires k in c.aws && k !in m.aws && k !in c.additiveAws && c.aws[k] == Str(Joined(parts, "{name_prefix}"))
    requires "name_prefix" in m.aws && m.aws["name_prefix"] == Str(prefix) && prefix != ""
    ensures k in Effective(c, m).aws && Effective(c, m).aws[k] == Str(Joined(parts, prefix))
  {
    AllReplaced(parts, prefix);
    assert Resolved(c.aws[k], m.aws) == Some(Str(Joined(parts, prefix)));
  }

  /** With one template in the default. */
  lemma OneTemplateIsFilled(c: Contract, m: Manifest, k: string, a: string, b: string, prefix: string)
    requires TemplateFree(a) && TemplateFree(b)
    requires k in c.aws && k !in m.aws && k !in c.additiveAws && c.aws[k] == Str(a + "{name_prefix}" + b)
    requires "name_prefix" in m.aws && m.aws["name_prefix"] == Str(prefix) && prefix != ""
    ensures k in Effective(c, m).aws && Effective(c, m).aws[k] == Str(a + prefix + b)
  {
    assert [a, b][1..] == [b];
    assert Joined([b], prefix) == b && Joined([b], "{name_prefix}") == b;
    assert Joined([a, b], prefix) == a + prefix + b;
    assert Joined([a, b], "{name_prefix}") == a + "{name_prefix}" + b;
    TemplateIsFilled(c, m, k, [a, b], prefix);
  }

  /** Without a usable prefix it stays omitted, unless there is nothing to replace. */
  lemma TemplateStaysOut(c: Contract, m: Manifest, k: string, parts: seq<string>)
    requires parts != [] && forall p :: p in parts ==> TemplateFree(p)
    requires k in c.aws && k !in m.aws && k !in c.additiveAws && c.aws[k] == Str(Joined(parts, "{name_prefix}"))
    requires "name_prefix" in m.aws && m.aws["name_prefix"].Str? ==> m.aws["name_prefix"].text == ""
    ensures if |parts| > 1 then k !in Effective(c, m).aws
            else k in Effective(c, m).aws && Effective(c, m).aws[k] == Str(parts[0])
  {
    UnresolvedParts(m.aws, parts);
    OmittedKey(c, m, k);
  }

  lemma OmittedKey(c: Contract, m: Manifest, k: string)
    requires k in c.aws && k !in m.aws && k !in c.additiveAws
    ensures Lookup(Effective(c, m).aws, k) == Resolved(c.aws[k], m.aws)
  {
  }

  lemma UnresolvedParts(aws: Aws, parts: seq<string>)
    requires parts != [] && forall p :: p in parts ==> TemplateFree(p)
    requires "name_prefix" in aws && aws["name_prefix"].Str? ==> aws["name_prefix"].text == ""
    ensures Resolved(Str(Joined(parts, TEMPLATE)), aws) == if |parts| > 1 then None else Some(Str(parts[0]))
  {
    JoinedIsTemplate(parts);
    assert |parts| == 1 ==> Joined(parts, TEMPLATE) == parts[0];
  }

  lemma JoinedIsTemplate(parts: seq<string>)
    requires parts != [] && forall p :: p in parts ==> TemplateFree(p)
    ensures IsTemplate(Str(Joined(parts, TEMPLATE))) <==> |parts| > 1
  {
    AllReplaced(parts, "");
  }

  /** A default that is no string is filled as it is. */
  lemma PlainDefaultIsFilled(c: Contract, m: Manifest, k: string)
    requires k in c.aws && k !in m.aws && k !in c.additiveAws && !c.aws[k].Str?
    ensures Lookup(Effective(c, m).aws, k) == Some(c.aws[k])
  {
  }

  function Lookup<V>(m: map<string, V>, k: string): Option<V> {
    if k in m then Some(m[k]) else None
  }

  datatype Section = Scan | Provisioner | AwsSection

  datatype Entry = Entry(section: Section, key: string)

  /** The entries are the keys of the defaults table, each once, in any order. */
  ghost predicate Enumerates(entries: seq<Entry>, c: Contract) {
    && (forall i, j :: 0 <= i < j < |entries| ==> entries[i] != entries[j])
    && (forall k :: Entry(Scan, k) in entries <==> k in c.scan)
    && (forall k :: Entry(Provisioner, k) in entries <==> k in c.provisioner)
    && (forall k :: Entry(AwsSection, k) in entries <==> k in c.aws)
  }

  /** The fills made by the entries handled so far. */
  ghost function Made<V>(fills: map<string, V>, section: Section, done: seq<Entry>): map<string, V> {
    map k | k in fills && Entry(section, k) in done :: fills[k]
  }

  ghost function WithFill<V>(m: map<string, V>, fills: map<string, V>, section: Section, e: Entry): map<string, V> {
    if e.section == section && e.key in fills then m[e.key := fills[e.key]] else m
  }

  lemma MadeStep<V>(base: map<string, V>, fills: map<string, V>, section: Section, done: seq<Entry>, e: Entry)
    ensures base + Made(fills, section, done + [e]) == WithFill(base + Made(fills, section, done), fills, section, e)
  {
    var before, after := Made(fills, section, done), Made(fills, section, done + [e]);
    assert Entry(section, e.key) in done + [e] <==> Entry(section, e.key) in done || e.section == section;
    assert forall k :: k != e.key ==> (Entry(section, k) in done + [e] <==> Entry(section, k) in done);
    assert after == WithFill(before, fills, section, e);
  }

  lemma MadeAll<V>(fills: map<string, V>, section: Section, done: seq<Entry>)
    requires forall k :: k in fills ==> Entry(section, k) in done
    ensures Made(fills, section, done) == fills
  {
  }

  lemma InitiallyMade<V>(base: map<string, V>, fills: map<string, V>, section: Section)
    ensures base + Made(fills, section, []) == base
  {
    assert Made(fills, section, []) == map[];
  }

  lemma HasDefault(c: Contract, entries: seq<Entry>, i: nat)
    requires Enumerates(entries, c) && i < |entries|
    ensures var e := entries[i];
            match e.section
            case Scan => e.key in c.scan
            case Provisioner => e.key in c.provisioner
            case AwsSection => e.key in c.aws
  {
    var e := entries[i];
    assert e in entries && e == Entry(e.section, e.key);
  }

  lemma EverythingMade(c: Contract, m: Manifest, entries: seq<Entry>)
    requires Enumerates(entries, c)
    ensures Effective(c, m) ==
      m.(runtime := m.runtime.(
           scan := m.runtime.scan + Made(ScanFills(c, m.runtime), Scan, entries),
           provisioner := m.runtime.provisioner + Made(ProvisionerFills(c, m.runtime), Provisioner, entries)),
         aws := m.aws + Made(AwsFills(c, m.aws), AwsSection, entries))
  {
    MadeAll(ScanFills(c, m.runtime), Scan, entries);
    MadeAll(ProvisionerFills(c, m.runtime), Provisioner, entries);
    MadeAll(AwsFills(c, m.aws), AwsSection, entries);
  }

  /** One turn of the loop: the omissions that stay omitted, and the fill of all others. */
  method FillEntry(c: Contract, m: Manifest, e: Entry, labelPresent: bool, scan: Env, provisioner: Env, aws: Aws)
    returns (scan': Env, provisioner': Env, aws': Aws)
    requires labelPresent == LabelPresent(c, m.runtime.scan)
    requires e.section == Scan ==> e.key in c.scan
    requires e.section == Provisioner ==> e.key in c.provisioner
    requires e.section == AwsSection ==> e.key in c.aws
    ensures scan' == WithFill(scan, ScanFills(c, m.runtime), Scan, e)
    ensures provisioner' == WithFill(provisioner, ProvisionerFills(c, m.runtime), Provisioner, e)
    ensures aws' == WithFill(aws, AwsFills(c, m.aws), AwsSection, e)
  {
    scan', provisioner', aws' := scan, provisioner, aws;
    var k := e.key;
    match e.section {
      case AwsSection =>
        if k !in m.aws && k !in c.additiveAws {
          var resolved := Resolved(c.aws[k], m.aws);
          if resolved.Some? {
            aws' := aws[k := resolved.value];
          }
        }
      case Scan =>
        if k in m.runtime.scan {
        } else if k in c.additiveScan {
        } else if k in c.labels && !labelPresent {
        } else if k in c.shared && k in m.runtime.provisioner {
        } else {
          scan' := scan[k := c.scan[k]];
        }
      case Provisioner =>
        if k in m.runtime.provisioner {
        } else if k in c.shared && k in m.runtime.scan {
        } else {
          provisioner' := provisioner[k := c.provisioner[k]];
        }
    }
  }

  /** The loop of the source over the defaults table, in whatever order the table iterates: the outcome is
      always the same manifest. */
  method Fill(c: Contract, m: Manifest, entries: seq<Entry>) returns (filled: Manifest)
    requires Enumerates(entries, c)
    ensures filled == Effective(c, m)
  {
    var scan, provisioner, aws := m.runtime.scan, m.runtime.provisioner, m.aws;
    ghost var fills, fillp, filla := ScanFills(c, m.runtime), ProvisionerFills(c, m.runtime), AwsFills(c, m.aws);
    var labelPresent := LabelPresent(c, m.runtime.scan);
    InitiallyMade(m.runtime.scan, fills, Scan);
    InitiallyMade(m.runtime.provisioner, fillp, Provisioner);
    InitiallyMade(m.aws, filla, AwsSection);
    for i := 0 to |entries|
      invariant scan == m.runtime.scan + Made(fills, Scan, entries[..i])
      invariant provisioner == m.runtime.provisioner + Made(fillp, Provisioner, entries[..i])
      invariant aws == m.aws + Made(filla, AwsSection, entries[..i])
    {
      var e := entries[i];
      HasDefault(c, entries, i);
      assert entries[..i + 1] == entries[..i] + [e];
      MadeStep(m.runtime.scan, fills, Scan, entries[..i], e);
      MadeStep(m.runtime.provisioner, fillp, Provisioner, entries[..i], e);
      MadeStep(m.aws, filla, AwsSection, entries[..i], e);
      scan, provisioner, aws := FillEntry(c, m, e, labelPresent, scan, provisioner, aws);
    }
    assert entries[..|entries|] == entries;
    EverythingMade(c, m, entries);
    filled := m.(runtime := m.runtime.(scan := scan, provisioner := provisioner), aws := aws);
  }

  /** Nothing is left to fill. */
  ghost predicate Filled(c: Contract, r: Runtime) {
    (forall k :: !FillsScan(c, r, k)) && (forall k :: !FillsProvisioner(c, r, k))
  }

  lemma EffectiveIsFilled(c: Contract, r: Runtime)
    ensures Filled(c, EffectiveRuntime(c, r))
  {
    LabelPresenceKept(c, r);
  }

  lemma FilledIsFixed(c: Contract, r: Runtime)
    requires Filled(c, r)
    ensures EffectiveRuntime(c, r) == r
  {
    assert ScanFills(c, r) == map[] && ProvisionerFills(c, r) == map[];
  }

  lemma EffectiveRuntimeIdempotent(c: Contract, r: Runtime)
    ensures EffectiveRuntime(c, EffectiveRuntime(c, r)) == EffectiveRuntime(c, r)
  {
    EffectiveIsFilled(c, r);
    FilledIsFixed(c, EffectiveRuntime(c, r));
  }

  lemma EffectiveAwsIdempotent(c: Contract, aws: Aws)
    requires NAME_PREFIX !in c.aws
    ensures EffectiveAws(c, EffectiveAws(c, aws)) == EffectiveAws(c, aws)
  {
    PrefixKept(c, aws);
    assert forall k :: !FillsAws(c, EffectiveAws(c, aws), k);
  }

  /** Every key keeps its own value, and a second filling finds nothing left to fill. */
  lemma EffectiveIdempotent(c: Contract, m: Manifest)
    requires NAME_PREFIX !in c.aws
    ensures Effective(c, Effective(c, m)) == Effective(c, m)
  {
    EffectiveRuntimeIdempotent(c, m.runtime);
    EffectiveAwsIdempotent(c, m.aws);
  }

  lemma LabelPresenceKept(c: Contract, r: Runtime)
    ensures LabelPresent(c, EffectiveRuntime(c, r).scan) <==> LabelPresent(c, r.scan)
  {
    var full := EffectiveRuntime(c, r).scan;
    if k :| k in c.labels && k in full {
      assert k in r.scan || FillsScan(c, r, k);
    }
    if k :| k in c.labels && k in r.scan {
      assert k in full;
    }
  }

  /** Templates resolve alike before and after filling: the name prefix itself is never filled. */
  lemma PrefixKept(c: Contract, aws: Aws)
    requires NAME_PREFIX !in c.aws
    ensures forall v :: Resolved(v, EffectiveAws(c, aws)) == Resolved(v, aws)
  {
  }

  // Pruning

  predicate DropsScan(c: Contract, full: Runtime, k: string) {
    k in full.scan && k in c.scan && k !in c.additiveScan && full.scan[k] == c.scan[k]
  }

  predicate DropsProvisioner(c: Contract, full: Runtime, k: string) {
    k in full.provisioner && k in c.provisioner && full.provisioner[k] == c.provisioner[k]
  }

  /** An adopted bucket or secret keeps its explicit name; a created one may follow the name prefix. */
  predicate MayDrop(aws: Aws, k: string) {
    && (k == "bucket_name" ==> "create_bucket" in aws && aws["create_bucket"] == Bool(true))
    && (k == "secret_name" ==> "create_secret" in aws && aws["create_secret"] == Bool(true))
  }

  /** The value is exactly what the default renders as, in type and content. */
  predicate IsRender(v: Value, resolved: Option<Value>) {
    match resolved
    case None => v == Null
    case Some(r) => v == r
  }

  predicate DropsAws(c: Contract, aws: Aws, k: string) {
    k in aws && k in c.aws && IsRender(aws[k], Resolved(c.aws[k], aws)) && MayDrop(aws, k)
  }

  function KeptScan(c: Contract, full: Runtime): Env {
    map k | k in full.scan && !DropsScan(c, full, k) :: full.scan[k]
  }

  function KeptProvisioner(c: Contract, full: Runtime): Env {
    map k | k in full.provisioner && !DropsProvisioner(c, full, k) :: full.provisioner[k]
  }

  function PrunedAws(c: Contract, aws: Aws): Aws {
    map k | k in aws && !DropsAws(c, aws, k) :: aws[k]
  }

  /** Dropping would remove the whole label group, whose absence means something else. */
  predicate LosesLabels(c: Contract, full: Runtime) {
    LabelPresent(c, full.scan) && !LabelPresent(c, KeptScan(c, full))
  }

  /** None is the source's KeyError: the marker that must stay is not there. */
  function PrunedRuntime(c: Contract, full: Runtime): Option<Runtime> {
    if !LosesLabels(c, full) then
      Some(full.(scan := KeptScan(c, full), provisioner := KeptProvisioner(c, full)))
    else if c.marker in full.scan then
      Some(full.(scan := KeptScan(c, full)[c.marker := full.scan[c.marker]],
                 provisioner := KeptProvisioner(c, full)))
    else None
  }

  /** Remove every key whose value is exactly the module default render. */
  function Pruned(c: Contract, m: Manifest): Option<Manifest> {
    var full := Effective(c, m);
    match PrunedRuntime(c, full.runtime)
    case None => None
    case Some(r) => Some(m.(runtime := r, aws := PrunedAws(c, full.aws)))
  }

  /** Pruning removes keys and changes none, drops only default renders, and keeps what must stay: the name of
      an adopted bucket or secret, every additive flag, and one key of a label group that was there. */
  lemma PrunedKeeps(c: Contract, m: Manifest, k: string)
    requires c.marker in c.labels && Pruned(c, m).Some?
    ensures var full, p := Effective(c, m), Pruned(c, m).value;
            && (k in p.runtime.scan ==> k in full.runtime.scan && p.runtime.scan[k] == full.runtime.scan[k])
            && (k in p.runtime.provisioner ==>
                  k in full.runtime.provisioner && p.runtime.provisioner[k] == full.runtime.provisioner[k])
            && (k in p.aws ==> k in full.aws && p.aws[k] == full.aws[k])
            && (k in full.runtime.scan && k !in p.runtime.scan ==> Lookup(c.scan, k) == Some(full.runtime.scan[k]))
            && ("bucket_name" in full.aws && Lookup(full.aws, "create_bucket") != Some(Bool(true)) ==>
                  "bucket_name" in p.aws)
            && ("secret_name" in full.aws && Lookup(full.aws, "create_secret") != Some(Bool(true)) ==>
                  "secret_name" in p.aws)
            && (k in c.additiveScan && k in full.runtime.scan ==> k in p.runtime.scan)
            && (LabelPresent(c, p.runtime.scan) <==> LabelPresent(c, m.runtime.scan))
  {
    LabelPresenceKept(c, m.runtime);
    PrunedLabels(c, Effective(c, m).runtime);
    PrunedKeepsNames(c, Effective(c, m).aws);
  }

  lemma PrunedKeepsNames(c: Contract, aws: Aws)
    ensures "bucket_name" in aws && Lookup(aws, "create_bucket") != Some(Bool(true)) ==>
              "bucket_name" in PrunedAws(c, aws)
    ensures "secret_name" in aws && Lookup(aws, "create_secret") != Some(Bool(true)) ==>
              "secret_name" in PrunedAws(c, aws)
  {
  }

  /** The adopted name may go: the flag that says the resource is created is set, or on by default. */
  predicate Creates(c: Contract, aws: Aws, flag: string) {
    Lookup(aws, flag) == Some(Bool(true)) || (flag !in aws && Lookup(c.aws, flag) == Some(Bool(true)))
  }

  /** p is m without its default-equal keys and nothing else changed, up to the recorded digests. Kept although equal:
      additive scan keys, the marker of a label group that would vanish, and the names of adopted resources, which
      pruning writes out when the file left them to the default. */
  ghost predicate DefaultsDropped(c: Contract, m: Manifest, p: Manifest) {
    && p == m.(runtime := m.runtime.(scan := p.runtime.scan, provisioner := p.runtime.provisioner), aws := p.aws,
               digests := p.digests)
    && (forall k :: Lookup(p.runtime.provisioner, k) == LeftOfProvisioner(c, m.runtime.provisioner, k))
    && (forall k :: Lookup(p.runtime.scan, k) == LeftOfScan(c, m.runtime.scan, k))
    && (forall k :: Lookup(p.aws, k) == LeftOfAws(c, m.aws, k))
  }

  function LeftOfProvisioner(c: Contract, provisioner: Env, k: string): Option<string> {
    if k in provisioner && Lookup(c.provisioner, k) != Some(provisioner[k]) then Some(provisioner[k]) else None
  }

  ghost function LeftOfScan(c: Contract, scan: Env, k: string): Option<string> {
    if k in scan && (k in c.additiveScan || Lookup(c.scan, k) != Some(scan[k])) then Some(scan[k])
    else if k == c.marker && OnlyDefaultLabels(c, scan) then if k in scan then Some(scan[k]) else Lookup(c.scan, k)
    else None
  }

  function LeftOfAws(c: Contract, aws: Aws, k: string): Option<Value> {
    if k !in c.aws then Lookup(aws, k)
    else if (k == "bucket_name" && !Creates(c, aws, "create_bucket"))
            || (k == "secret_name" && !Creates(c, aws, "create_secret"))
    then if k in aws then Some(aws[k]) else if k in c.additiveAws then None else Resolved(c.aws[k], aws)
    else if k in aws && !IsRender(aws[k], Resolved(c.aws[k], aws)) then Some(aws[k])
    else None
  }

  /** There are label keys, and all of them are at their defaults. */
  ghost predicate OnlyDefaultLabels(c: Contract, scan: Env) {
    && (exists l :: l in c.labels && l in scan)
    && forall l :: l in c.labels && l in scan ==> l !in c.additiveScan && Lookup(c.scan, l) == Some(scan[l])
  }

  /** Pruning drops every default-equal key it may drop, and only those. */
  lemma PrunedDropsDefaults(c: Contract, m: Manifest)
    requires WellFormed(c)
    ensures Pruned(c, m).Some? && DefaultsDropped(c, m, Pruned(c, m).value)
  {
    PrunedIsDefined(c, m);
    var p := Pruned(c, m).value;
    forall k ensures Lookup(p.runtime.provisioner, k) == LeftOfProvisioner(c, m.runtime.provisioner, k) {
      DroppedProvisioner(c, m.runtime, k);
    }
    forall k ensures Lookup(p.runtime.scan, k) == LeftOfScan(c, m.runtime.scan, k) {
      DroppedScan(c, m.runtime, k);
    }
    forall k ensures Lookup(p.aws, k) == LeftOfAws(c, m.aws, k) {
      DroppedAws(c, m.aws, k);
    }
  }

  lemma DroppedProvisioner(c: Contract, r: Runtime, k: string)
    ensures Lookup(KeptProvisioner(c, EffectiveRuntime(c, r)), k) == LeftOfProvisioner(c, r.provisioner, k)
  {
  }

  lemma KeptScanAt(c: Contract, r: Runtime, k: string)
    ensures Lookup(KeptScan(c, EffectiveRuntime(c, r)), k)
            == if k in r.scan && (k in c.additiveScan || Lookup(c.scan, k) != Some(r.scan[k]))
               then Some(r.scan[k]) else None
  {
  }

  lemma LabelsLost(c: Contract, r: Runtime)
    ensures LosesLabels(c, EffectiveRuntime(c, r)) <==> OnlyDefaultLabels(c, r.scan)
  {
    var full := EffectiveRuntime(c, r);
    LabelPresenceKept(c, r);
    forall l | l in c.labels {
      KeptScanAt(c, r, l);
    }
    if OnlyDefaultLabels(c, r.scan) {
      assert forall l :: l in c.labels ==> l !in KeptScan(c, full);
    }
    if l :| l in c.labels && l in r.scan && !(l !in c.additiveScan && Lookup(c.scan, l) == Some(r.scan[l])) {
      assert l in KeptScan(c, full);
    }
  }

  lemma DroppedScan(c: Contract, r: Runtime, k: string)
    requires WellFormed(c) && PrunedRuntime(c, EffectiveRuntime(c, r)).Some?
    ensures Lookup(PrunedRuntime(c, EffectiveRuntime(c, r)).value.scan, k) == LeftOfScan(c, r.scan, k)
  {
    LabelsLost(c, r);
    KeptScanAt(c, r, k);
    if k == c.marker && LosesLabels(c, EffectiveRuntime(c, r)) {
      LabelPresenceKept(c, r);
    }
  }

  lemma DroppedAws(c: Contract, aws: Aws, k: string)
    requires WellFormed(c)
    ensures Lookup(PrunedAws(c, EffectiveAws(c, aws)), k) == LeftOfAws(c, aws, k)
  {
    PrefixKept(c, aws);
    CreatesEffectively(c, aws, "create_bucket");
    CreatesEffectively(c, aws, "create_secret");
  }

  lemma CreatesEffectively(c: Contract, aws: Aws, flag: string)
    requires WellFormed(c) && flag !in c.additiveAws
    ensures Lookup(EffectiveAws(c, aws), flag) == Some(Bool(true)) <==> Creates(c, aws, flag)
  {
  }

  // When pruning preserves meaning

  /** What the overlay digest covers. */
  datatype Overlay = Overlay(schemaVersion: int, runtime: Runtime, aws: Aws, policy: Aws)

  function OverlayAws(c: Contract, aws: Aws): Aws {
    map k | k in aws && !(k in c.additiveAws && aws[k] == c.additiveAws[k]) :: aws[k]
  }

  function OverlayOf(c: Contract, m: Manifest): Overlay {
    Overlay(m.schemaVersion, m.runtime, OverlayAws(c, m.aws), m.policy)
  }

  /** A key both projections carry goes from both sides or from neither, and a side that never had it does
      not get it back as a default. */
  predicate SharedSafe(c: Contract, full: Runtime, k: string) {
    && (DropsScan(c, full, k) && k in full.provisioner ==> DropsProvisioner(c, full, k))
    && (DropsProvisioner(c, full, k) && k in full.scan ==> DropsScan(c, full, k))
    && (DropsProvisioner(c, full, k) && k !in full.scan ==> k !in c.scan || k in c.additiveScan)
    && (DropsScan(c, full, k) && k !in full.provisioner ==> k !in c.provisioner)
  }

  predicate RuntimeSafe(c: Contract, full: Runtime) {
    forall k :: k in c.shared ==> SharedSafe(c, full, k)
  }

  /** No null stands where a templated name has no render. */
  predicate AwsSafe(c: Contract, aws: Aws) {
    forall k :: k in aws && DropsAws(c, aws, k) ==> Resolved(c.aws[k], aws).Some?
  }

  lemma PrunedLabels(c: Contract, full: Runtime)
    requires c.marker in c.labels && PrunedRuntime(c, full).Some?
    ensures LabelPresent(c, PrunedRuntime(c, full).value.scan) <==> LabelPresent(c, full.scan)
  {
    if LosesLabels(c, full) {
      assert c.marker in PrunedRuntime(c, full).value.scan;
    } else if LabelPresent(c, KeptScan(c, full)) {
      var k :| k in c.labels && k in KeptScan(c, full);
      assert k in full.scan;
    }
  }

  lemma RefilledScan(c: Contract, full: Runtime, k: string)
    requires c.marker in c.labels && c.labels.Keys !! c.shared
    requires Filled(c, full) && PrunedRuntime(c, full).Some?
    ensures var r := EffectiveRuntime(c, PrunedRuntime(c, full).value).scan;
            (if k in full.scan then k in r && r[k] == full.scan[k] else k !in r)
            <==> !(k in c.shared && (|| (DropsScan(c, full, k) && k in KeptProvisioner(c, full))
                                     || (k !in full.scan && DropsProvisioner(c, full, k)
                                         && k in c.scan && k !in c.additiveScan)))
  {
    PrunedLabels(c, full);
    var p := PrunedRuntime(c, full).value;
    assert !FillsScan(c, full, k);
    assert k in p.scan ==> k in full.scan && p.scan[k] == full.scan[k];
    assert k in p.provisioner <==> k in KeptProvisioner(c, full);
    assert DropsScan(c, full, k) && k in c.labels ==> LabelPresent(c, full.scan);
  }

  lemma RefilledProvisioner(c: Contract, full: Runtime, k: string)
    requires c.marker in c.labels && c.labels.Keys !! c.shared
    requires Filled(c, full) && PrunedRuntime(c, full).Some?
    ensures var r := EffectiveRuntime(c, PrunedRuntime(c, full).value).provisioner;
            (if k in full.provisioner then k in r && r[k] == full.provisioner[k] else k !in r)
            <==> !(k in c.shared && (|| (DropsProvisioner(c, full, k) && k in KeptScan(c, full))
                                     || (k !in full.provisioner && DropsScan(c, full, k) && k in c.provisioner)))
  {
    assert !FillsProvisioner(c, full, k);
    var p := PrunedRuntime(c, full).value;
    assert k in c.shared ==> (k in p.scan <==> k in KeptScan(c, full));
  }

  /** Filling a pruned runtime gives the effective runtime back exactly when the shared keys are safe. */
  lemma PrunedRuntimeMeaning(c: Contract, full: Runtime)
    requires c.marker in c.labels && c.labels.Keys !! c.shared
    requires Filled(c, full) && PrunedRuntime(c, full).Some?
    ensures EffectiveRuntime(c, PrunedRuntime(c, full).value) == full <==> RuntimeSafe(c, full)
  {
    var r := EffectiveRuntime(c, PrunedRuntime(c, full).value);
    if RuntimeSafe(c, full) {
      forall k ensures if k in full.scan then k in r.scan && r.scan[k] == full.scan[k] else k !in r.scan {
        RefilledScan(c, full, k);
      }
      forall k ensures if k in full.provisioner then k in r.provisioner && r.provisioner[k] == full.provisioner[k]
                       else k !in r.provisioner {
        RefilledProvisioner(c, full, k);
      }
      assert r.scan == full.scan && r.provisioner == full.provisioner;
    }
    if r == full {
      forall k | k in c.shared ensures SharedSafe(c, full, k) {
        RefilledScan(c, full, k);
        RefilledProvisioner(c, full, k);
      }
    }
  }

  lemma RefilledAws(c: Contract, aws: Aws, k: string)
    requires WellFormed(c) && EffectiveAws(c, aws) == aws
    ensures var r := EffectiveAws(c, PrunedAws(c, aws));
            if k !in aws then k !in r
            else if !DropsAws(c, aws, k) then k in r && r[k] == aws[k]
            else (k in r <==> k !in c.additiveAws && Resolved(c.aws[k], aws).Some?) && (k in r ==> r[k] == aws[k])
  {
    var p := PrunedAws(c, aws);
    assert forall v :: Resolved(v, p) == Resolved(v, aws);
    assert FillsAws(c, aws, k) ==> k in EffectiveAws(c, aws);
  }

  /** Without a dropped null, filling the pruned aws section gives all of it back but additive defaults. */
  lemma RefilledAwsAll(c: Contract, aws: Aws)
    requires WellFormed(c) && EffectiveAws(c, aws) == aws && AwsSafe(c, aws)
    ensures EffectiveAws(c, PrunedAws(c, aws))
            == map k | k in aws && !(k in c.additiveAws && DropsAws(c, aws, k)) :: aws[k]
  {
    forall k {
      RefilledAws(c, aws, k);
    }
  }

  lemma AdditiveDropsAreDefaults(c: Contract, aws: Aws, k: string)
    requires WellFormed(c) && k in aws && k in c.additiveAws && DropsAws(c, aws, k)
    ensures aws[k] == c.additiveAws[k]
  {
  }

  /** Filling the pruned aws section gives back the same overlay exactly when no null was dropped. */
  lemma PrunedAwsMeaning(c: Contract, aws: Aws)
    requires WellFormed(c) && EffectiveAws(c, aws) == aws
    ensures OverlayAws(c, EffectiveAws(c, PrunedAws(c, aws))) == OverlayAws(c, aws) <==> AwsSafe(c, aws)
    ensures AwsSafe(c, aws) ==>
      EffectiveAws(c, PrunedAws(c, aws)) == map k | k in aws && !(k in c.additiveAws && DropsAws(c, aws, k)) :: aws[k]
  {
    if AwsSafe(c, aws) {
      RefilledAwsAll(c, aws);
      forall k | k in aws && k in c.additiveAws && DropsAws(c, aws, k) ensures aws[k] == c.additiveAws[k] {
        AdditiveDropsAreDefaults(c, aws, k);
      }
    } else {
      var k :| k in aws && DropsAws(c, aws, k) && Resolved(c.aws[k], aws).None?;
      RefilledAws(c, aws, k);
      assert k in OverlayAws(c, aws);
    }
  }

  predicate PruneSafe(c: Contract, full: Manifest) {
    RuntimeSafe(c, full.runtime) && AwsSafe(c, full.aws)
  }

  /** Pruning leaves what the digests cover unchanged exactly when the effective manifest is safe to prune. */
  lemma PruningPreservesMeaning(c: Contract, m: Manifest)
    requires WellFormed(c)
    ensures Pruned(c, m).Some?
    ensures OverlayOf(c, Effective(c, Pruned(c, m).value)) == OverlayOf(c, Effective(c, m))
            <==> PruneSafe(c, Effective(c, m))
  {
    PrunedIsDefined(c, m);
    var full := Effective(c, m);
    EffectiveIsFilled(c, m.runtime);
    EffectiveAwsIdempotent(c, m.aws);
    PrunedRuntimeMeaning(c, full.runtime);
    PrunedAwsMeaning(c, full.aws);
  }

  /** The runtime half and the aws half of a safely pruned manifest, filled again. */
  lemma PrunedEffective(c: Contract, m: Manifest)
    requires WellFormed(c) && PruneSafe(c, Effective(c, m))
    ensures Pruned(c, m).Some?
    ensures var full, again := Effective(c, m), Effective(c, Pruned(c, m).value);
            again.runtime == full.runtime
            && again.aws == map k | k in full.aws && !(k in c.additiveAws && DropsAws(c, full.aws, k)) :: full.aws[k]
  {
    PrunedIsDefined(c, m);
    EffectiveIsFilled(c, m.runtime);
    EffectiveAwsIdempotent(c, m.aws);
    PrunedRuntimeMeaning(c, Effective(c, m).runtime);
    PrunedAwsMeaning(c, Effective(c, m).aws);
  }

  /** Filling a pruned runtime adds default renders only, so the same keys are kept again. */
  lemma KeptScanAgain(c: Contract, full: Runtime)
    requires PrunedRuntime(c, full).Some?
    ensures KeptScan(c, EffectiveRuntime(c, PrunedRuntime(c, full).value)) == KeptScan(c, full)
  {
    var p := PrunedRuntime(c, full).value;
    var again := EffectiveRuntime(c, p);
    forall k
      ensures k in KeptScan(c, again) <==> k in KeptScan(c, full)
      ensures k in KeptScan(c, full) ==> again.scan[k] == full.scan[k]
    {
      assert k in p.scan ==> again.scan[k] == p.scan[k] == full.scan[k];
      assert k in again.scan && k !in p.scan ==> FillsScan(c, p, k);
    }
  }

  lemma KeptProvisionerAgain(c: Contract, full: Runtime)
    requires PrunedRuntime(c, full).Some?
    ensures var p := PrunedRuntime(c, full).value; KeptProvisioner(c, EffectiveRuntime(c, p)) == p.provisioner
  {
    var p := PrunedRuntime(c, full).value;
    var again := EffectiveRuntime(c, p);
    forall k ensures k in KeptProvisioner(c, again) <==> k in p.provisioner {
      assert k in again.provisioner && k !in p.provisioner ==> FillsProvisioner(c, p, k);
    }
  }

  lemma PrunedRuntimeAgain(c: Contract, full: Runtime)
    requires c.marker in c.labels && PrunedRuntime(c, full).Some?
    ensures PrunedRuntime(c, EffectiveRuntime(c, PrunedRuntime(c, full).value)) == PrunedRuntime(c, full)
  {
    var p := PrunedRuntime(c, full).value;
    PrunedLabels(c, full);
    LabelPresenceKept(c, p);
    KeptScanAgain(c, full);
    KeptProvisionerAgain(c, full);
  }

  /** What pruning looks at in the aws section is the same after it: templates resolve alike, and a bucket or
      secret is created after filling exactly when it was before. */
  lemma PrunedAwsAgain(c: Contract, aws: Aws)
    requires WellFormed(c) && EffectiveAws(c, aws) == aws
    ensures PrunedAws(c, EffectiveAws(c, PrunedAws(c, aws))) == PrunedAws(c, aws)
  {
    var p := PrunedAws(c, aws);
    var again := EffectiveAws(c, p);
    assert forall v :: Resolved(v, p) == Resolved(v, aws);
    assert forall v :: Resolved(v, again) == Resolved(v, aws);
    CreatedAgain(c, aws, "create_bucket");
    CreatedAgain(c, aws, "create_secret");
    forall k ensures k in PrunedAws(c, again) <==> k in p {
      if k !in aws {
        assert !FillsAws(c, aws, k);
      }
      assert MayDrop(again, k) <==> MayDrop(aws, k);
    }
  }

  lemma CreatedAgain(c: Contract, aws: Aws, k: string)
    requires WellFormed(c) && k != NAME_PREFIX && k !in c.additiveAws && EffectiveAws(c, aws) == aws
    requires k != "bucket_name" && k != "secret_name"
    ensures Lookup(EffectiveAws(c, PrunedAws(c, aws)), k) == Some(Bool(true)) <==> Lookup(aws, k) == Some(Bool(true))
  {
    var p := PrunedAws(c, aws);
    assert forall v :: Resolved(v, p) == Resolved(v, aws);
    if k !in aws {
      assert !FillsAws(c, aws, k);
    }
  }

  /** A pruned manifest has nothing left to prune: whatever the manifest, pruning twice is pruning once. */
  lemma PrunedIdempotent(c: Contract, m: Manifest)
    requires WellFormed(c)
    ensures Pruned(c, m).Some?
    ensures Pruned(c, Pruned(c, m).value) == Pruned(c, m)
  {
    PrunedIsDefined(c, m);
    EffectiveAwsIdempotent(c, m.aws);
    PrunedRuntimeAgain(c, Effective(c, m).runtime);
    PrunedAwsAgain(c, Effective(c, m).aws);
  }

  /** The first pruning settles the shared keys: a pruned manifest is safe, also when pruning changed what the
      original meant. */
  lemma PrunedIsSafe(c: Contract, m: Manifest)
    requires WellFormed(c)
    ensures Pruned(c, m).Some?
    ensures PruneSafe(c, Effective(c, Pruned(c, m).value))
  {
    PrunedIsDefined(c, m);
    var p := Pruned(c, m).value;
    PrunedIdempotent(c, m);
    PruningPreservesMeaning(c, p);
  }

  // Digests

  /** SHA-256 over canonical JSON, as functions of what they cover. */
  datatype Hash = Hash(overlay: Overlay -> string, projection: (string, Env) -> string)

  /** `calculated_digests`: taken over the effective manifest, one per projection in sorted order. */
  function CalculatedDigests(h: Hash, c: Contract, m: Manifest): Digests {
    var full := Effective(c, m);
    Digests(h.overlay(OverlayOf(c, full)),
            [h.projection("alerts", full.runtime.alerts), h.projection("dashboards", full.runtime.dashboards),
             h.projection("provisioner", full.runtime.provisioner), h.projection("scan", full.runtime.scan)])
  }

  /** Safe pruning changes no digest, so the image a digest is bound to stays valid. */
  lemma PruningKeepsDigests(h: Hash, c: Contract, m: Manifest)
    requires WellFormed(c) && PruneSafe(c, Effective(c, m))
    ensures Pruned(c, m).Some?
    ensures CalculatedDigests(h, c, Pruned(c, m).value) == CalculatedDigests(h, c, m)
  {
    PrunedIsDefined(c, m);
    PruningPreservesMeaning(c, m);
    PrunedEffective(c, m);
  }

  /** What the overlay digest binds, when the hash has no collision: equal digests mean one schema, one policy, one
      effective runtime, and one value of every aws key, but for additive keys, where being absent and being at the
      default are the same. The pinned source is not covered. */
  lemma DigestsBind(h: Hash, c: Contract, a: Manifest, b: Manifest)
    requires forall x, y :: h.overlay(x) == h.overlay(y) ==> x == y
    ensures CalculatedDigests(h, c, a).overlay == CalculatedDigests(h, c, b).overlay <==>
              && a.schemaVersion == b.schemaVersion && a.policy == b.policy
              && Effective(c, a).runtime == Effective(c, b).runtime
              && (forall k :: Bound(c, Effective(c, a).aws, k) == Bound(c, Effective(c, b).aws, k))
  {
    var x, y := OverlayAws(c, Effective(c, a).aws), OverlayAws(c, Effective(c, b).aws);
    if forall k :: Bound(c, Effective(c, a).aws, k) == Bound(c, Effective(c, b).aws, k) {
      forall k ensures k in x <==> k in y
      ensures k in x && k in y ==> x[k] == y[k]
      {
        assert Bound(c, Effective(c, a).aws, k) == Bound(c, Effective(c, b).aws, k);
      }
      assert x == y;
    }
    if x == y {
      forall k ensures Bound(c, Effective(c, a).aws, k) == Bound(c, Effective(c, b).aws, k) {
        assert k in x <==> k in y;
      }
    }
  }

  /** With a projection hash without collisions, the recorded projections are those of the four environments of the
      effective runtime, each under its own kind, and nothing else. */
  lemma ProjectionsBind(h: Hash, c: Contract, m: Manifest, kind: string, env: Env)
    requires forall k, l, x, y :: h.projection(k, x) == h.projection(l, y) ==> k == l && x == y
    ensures var r := Effective(c, m).runtime;
            h.projection(kind, env) in CalculatedDigests(h, c, m).projections <==>
              || (kind == "alerts" && env == r.alerts)
              || (kind == "dashboards" && env == r.dashboards)
              || (kind == "provisioner" && env == r.provisioner)
              || (kind == "scan" && env == r.scan)
  {
    var r := Effective(c, m).runtime;
    var ps := CalculatedDigests(h, c, m).projections;
    assert ps[0] == h.projection("alerts", r.alerts) && ps[1] == h.projection("dashboards", r.dashboards);
    assert ps[2] == h.projection("provisioner", r.provisioner) && ps[3] == h.projection("scan", r.scan);
  }

  /** The value of an aws key as far as the digests tell. */
  function Bound(c: Contract, aws: Aws, k: string): Option<Value> {
    if k in c.additiveAws && Lookup(aws, k) == Some(c.additiveAws[k]) then None else Lookup(aws, k)
  }

  // Two module revisions

  ghost function Differences<V>(a: map<string, V>, b: map<string, V>): set<string> {
    set k | k in a.Keys + b.Keys && Lookup(a, k) != Lookup(b, k)
  }

  /** `default_changes`: the keys whose effective value differs between two module revisions. */
  ghost function DefaultChanges(before: Contract, after: Contract, m: Manifest)
    : (set<string>, set<string>, set<string>)
  {
    var a, b := Effective(before, m), Effective(after, m);
    (Differences(a.runtime.scan, b.runtime.scan), Differences(a.runtime.provisioner, b.runtime.provisioner),
     Differences(a.aws, b.aws))
  }

  lemma DifferencesEmpty<V>(a: map<string, V>, b: map<string, V>)
    ensures Differences(a, b) == {} <==> a == b
  {
    if Differences(a, b) == {} {
      forall k ensures k in a <==> k in b
      ensures k in a && k in b ==> a[k] == b[k]
      {
        assert k !in Differences(a, b);
      }
    }
  }

  /** The report names exactly the keys whose effective values differ. */
  lemma DefaultChangeNames(before: Contract, after: Contract, m: Manifest, k: string)
    ensures var (scan, provisioner, aws) := DefaultChanges(before, after, m);
            var a, b := Effective(before, m), Effective(after, m);
            && (k in scan <==> Lookup(a.runtime.scan, k) != Lookup(b.runtime.scan, k))
            && (k in provisioner <==> Lookup(a.runtime.provisioner, k) != Lookup(b.runtime.provisioner, k))
            && (k in aws <==> Lookup(a.aws, k) != Lookup(b.aws, k))
  {
  }

  /** An empty report means the two revisions give the manifest one meaning, and only then. */
  lemma NoDefaultChanges(h: Hash, before: Contract, after: Contract, m: Manifest)
    requires before.additiveAws == after.additiveAws
    ensures DefaultChanges(before, after, m) == ({}, {}, {}) <==> Effective(before, m) == Effective(after, m)
    ensures DefaultChanges(before, after, m) == ({}, {}, {}) ==>
              CalculatedDigests(h, before, m) == CalculatedDigests(h, after, m)
  {
    var a, b := Effective(before, m), Effective(after, m);
    DifferencesEmpty(a.runtime.scan, b.runtime.scan);
    DifferencesEmpty(a.runtime.provisioner, b.runtime.provisioner);
    DifferencesEmpty(a.aws, b.aws);
  }

  // Regeneration

  /** The two seams `regenerate` adds to an older manifest: the scan side of the product reads, and the
      label group at its defaults. */
  function Prepared(c: Contract, m: Manifest): Manifest {
    var scan := m.runtime.scan;
    var scan1 := if c.productReads !in scan && c.productReads in m.runtime.provisioner
                 then scan[c.productReads := m.runtime.provisioner[c.productReads]] else scan;
    var scan2 := if LabelPresent(c, scan1) then scan1 else c.labels + scan1;
    m.(runtime := m.runtime.(scan := scan2))
  }

  /** Preparing adds keys of the scan projection only: the product reads with the provisioner's value, and label
      keys with their defaults when there was none. */
  lemma PreparedAddsOnly(c: Contract, m: Manifest, k: string)
    requires c.productReads !in c.labels
    ensures var u := Prepared(c, m);
            && u == m.(runtime := m.runtime.(scan := u.runtime.scan))
            && (k in m.runtime.scan ==> k in u.runtime.scan && u.runtime.scan[k] == m.runtime.scan[k])
            && (k in u.runtime.scan && k !in m.runtime.scan ==>
                  if k == c.productReads then Lookup(m.runtime.provisioner, k) == Some(u.runtime.scan[k])
                  else !LabelPresent(c, m.runtime.scan) && Lookup(c.labels, k) == Some(u.runtime.scan[k]))
  {
    var scan := m.runtime.scan;
    if LabelPresent(c, scan) {
      var l :| l in c.labels && l in scan;
      assert c.productReads in m.runtime.provisioner ==>
        l in scan[c.productReads := m.runtime.provisioner[c.productReads]];
    }
  }

  /** t is m with the seams added and nothing else changed, up to the recorded digests: the scan side of the product
      reads when the provisioner has it, and the whole label group when no key of it was there. */
  ghost predicate SeamsAdded(c: Contract, m: Manifest, t: Manifest) {
    && t == m.(runtime := m.runtime.(scan := t.runtime.scan), digests := t.digests)
    && forall k ::
         Lookup(t.runtime.scan, k)
         == if k in m.runtime.scan then Some(m.runtime.scan[k])
            else if k == c.productReads && k in m.runtime.provisioner then Some(m.runtime.provisioner[k])
            else if k in c.labels && forall l :: l in c.labels ==> l !in m.runtime.scan then Some(c.labels[k])
            else None
  }

  lemma PreparedAddsSeams(c: Contract, m: Manifest)
    requires c.productReads !in c.labels
    ensures SeamsAdded(c, m, Prepared(c, m))
  {
    var scan := m.runtime.scan;
    if c.productReads !in scan && c.productReads in m.runtime.provisioner {
      var scan1 := scan[c.productReads := m.runtime.provisioner[c.productReads]];
      LabelsUnmoved(c, scan, scan1);
    }
    assert LabelPresent(c, scan) <==> !forall l :: l in c.labels ==> l !in scan;
  }

  lemma LabelsUnmoved(c: Contract, scan: Env, scan1: Env)
    requires forall l :: l in c.labels ==> (l in scan1 <==> l in scan)
    ensures LabelPresent(c, scan1) <==> LabelPresent(c, scan)
  {
  }

  predicate AgreesOn(r: Runtime, k: string) {
    k in r.scan && k in r.provisioner && r.scan[k] == r.provisioner[k]
  }

  /** An adopted bucket or secret must be named in the file itself. */
  predicate AdoptedNamed(raw: Aws, full: Aws) {
    && ("bucket_name" !in raw ==> Lookup(full, "create_bucket") != Some(Bool(false)))
    && ("secret_name" !in raw ==> Lookup(full, "create_secret") != Some(Bool(false)))
  }

  /** `validate`: the cross-projection equalities and the adoption rule, the recorded digests, and all other
      rules (`accepts`), which look at nothing but the source and the effective overlay. */
  predicate Validates(h: Hash, accepts: (Source, Overlay) -> bool, c: Contract, m: Manifest) {
    var full := Effective(c, m);
    && (forall k :: k in c.agreed ==> AgreesOn(full.runtime, k))
    && AdoptedNamed(m.aws, full.aws)
    && accepts(m.source, OverlayOf(c, full))
    && m.digests == CalculatedDigests(h, c, m)
  }

  /** An edit that keeps the recorded digests is accepted only if it changes nothing the digests bind: with hashes
      without collisions, two valid manifests with equal digests mean the same. */
  lemma EditsAreDetected(h: Hash, accepts: (Source, Overlay) -> bool, c: Contract, m: Manifest, edited: Manifest)
    requires forall x, y :: h.overlay(x) == h.overlay(y) ==> x == y
    requires Validates(h, accepts, c, m) && Validates(h, accepts, c, edited) && edited.digests == m.digests
    ensures edited.schemaVersion == m.schemaVersion && edited.policy == m.policy
    ensures Effective(c, edited).runtime == Effective(c, m).runtime
    ensures forall k :: Bound(c, Effective(c, edited).aws, k) == Bound(c, Effective(c, m).aws, k)
  {
    DigestsBind(h, c, m, edited);
  }

  /** `regenerate`: None stands for its exceptions. */
  function Regenerate(h: Hash, accepts: (Source, Overlay) -> bool, c: Contract, m: Manifest, prune: bool)
    : Option<Manifest>
  {
    var prepared := Prepared(c, m);
    var updated := if prune then Pruned(c, prepared) else Some(prepared);
    if updated.None? then None
    else
      var r := updated.value.(digests := CalculatedDigests(h, c, updated.value));
      if Validates(h, accepts, c, r) then Some(r) else None
  }

  /** What regenerating without pruning makes of a manifest: nothing is dropped. */
  lemma RegenerateAddsSeams(h: Hash, accepts: (Source, Overlay) -> bool, c: Contract, m: Manifest)
    requires c.productReads !in c.labels && Regenerate(h, accepts, c, m, false).Some?
    ensures var t := Regenerate(h, accepts, c, m, false).value;
            SeamsAdded(c, m, t) && t.digests == CalculatedDigests(h, c, t)
  {
    PreparedAddsSeams(c, m);
    DigestsAreNotRead(h, c, Prepared(c, m), Regenerate(h, accepts, c, m, false).value.digests);
  }

  /** With pruning it adds the same seams and then drops the defaults. */
  lemma RegenerateDropsDefaults(h: Hash, accepts: (Source, Overlay) -> bool, c: Contract, m: Manifest)
    requires WellFormed(c) && Regenerate(h, accepts, c, m, true).Some?
    ensures var t := Regenerate(h, accepts, c, m, true).value;
            && (exists u :: SeamsAdded(c, m, u) && DefaultsDropped(c, u, t))
            && t.digests == CalculatedDigests(h, c, t)
  {
    var u := Prepared(c, m);
    var t := Regenerate(h, accepts, c, m, true).value;
    PreparedAddsSeams(c, m);
    PrunedDropsDefaults(c, u);
    DigestsAreNotRead(h, c, Pruned(c, u).value, t.digests);
    assert SeamsAdded(c, m, u) && DefaultsDropped(c, u, t);
  }

  /** The compared keys agree once the seams and the defaults are filled, an adopted bucket or secret is named in the
      file, and all other rules accept what the digests cover. */
  ghost predicate Satisfies(accepts: (Source, Overlay) -> bool, c: Contract, m: Manifest) {
    var full := Effective(c, Prepared(c, m));
    && (forall k :: k in c.agreed ==> k in full.runtime.scan && k in full.runtime.provisioner
                                      && full.runtime.scan[k] == full.runtime.provisioner[k])
    && ("bucket_name" in m.aws || Lookup(full.aws, "create_bucket") != Some(Bool(false)))
    && ("secret_name" in m.aws || Lookup(full.aws, "create_secret") != Some(Bool(false)))
    && accepts(m.source, Overlay(m.schemaVersion, full.runtime, OverlayAws(c, full.aws), m.policy))
  }

  /** When regenerating without pruning succeeds. */
  lemma RegenerateSucceeds(h: Hash, accepts: (Source, Overlay) -> bool, c: Contract, m: Manifest)
    ensures Regenerate(h, accepts, c, m, false).Some? <==> Satisfies(accepts, c, m)
  {
    var u := Prepared(c, m);
    var r := u.(digests := CalculatedDigests(h, c, u));
    assert Effective(c, r) == Effective(c, u).(digests := r.digests);
  }

  lemma RegenerateKeepsSource(h: Hash, accepts: (Source, Overlay) -> bool, c: Contract, m: Manifest, prune: bool)
    requires Regenerate(h, accepts, c, m, prune).Some?
    ensures Regenerate(h, accepts, c, m, prune).value.source == m.source
  {
  }

  lemma PrunedIsDefined(c: Contract, m: Manifest)
    requires WellFormed(c)
    ensures Pruned(c, m).Some?
  {
    var full := EffectiveRuntime(c, m.runtime);
    EffectiveIsFilled(c, m.runtime);
    assert !FillsScan(c, full, c.marker);
  }

  /** `accepts` refuses a null: every aws value is a boolean or a non-empty string. */
  ghost predicate RejectsNull(accepts: (Source, Overlay) -> bool) {
    forall s: Source, o: Overlay, k :: accepts(s, o) && k in o.aws ==> o.aws[k] != Null
  }

  /** A manifest that validates is safe to prune. */
  lemma ValidIsSafe(h: Hash, accepts: (Source, Overlay) -> bool, c: Contract, m: Manifest)
    requires WellFormed(c) && RejectsNull(accepts) && Validates(h, accepts, c, m)
    ensures PruneSafe(c, Effective(c, m))
  {
    var full := Effective(c, m);
    forall k | k in c.shared ensures SharedSafe(c, full.runtime, k) {
      assert k in c.scan || k in c.provisioner ==> AgreesOn(full.runtime, k);
    }
    assert forall k :: k in full.aws && full.aws[k] == Null ==> k in OverlayOf(c, full).aws;
    assert forall k :: k in full.aws ==> full.aws[k] != Null;
  }

  lemma PreparedIdempotent(c: Contract, m: Manifest)
    requires WellFormed(c)
    ensures Prepared(c, Prepared(c, m)) == Prepared(c, m)
    ensures LabelPresent(c, Prepared(c, m).runtime.scan)
    ensures c.productReads in Prepared(c, m).runtime.provisioner ==> c.productReads in Prepared(c, m).runtime.scan
  {
    var scan := m.runtime.scan;
    assert c.marker in c.labels + scan;
  }

  /** Regenerating twice is regenerating once. */
  lemma RegenerateIdempotent(h: Hash, accepts: (Source, Overlay) -> bool, c: Contract, m: Manifest)
    requires WellFormed(c) && Regenerate(h, accepts, c, m, false).Some?
    ensures var r := Regenerate(h, accepts, c, m, false).value; Regenerate(h, accepts, c, r, false) == Some(r)
  {
    PreparedIdempotent(c, m);
    var r := Regenerate(h, accepts, c, m, false).value;
    assert Prepared(c, r) == r;
  }

  /** A pruned manifest that agrees on the compared keys needs no preparation: pruning keeps the marker, and
      one side of the product reads alone would not agree. */
  lemma PrunedIsPrepared(c: Contract, u: Manifest)
    requires WellFormed(c) && LabelPresent(c, u.runtime.scan)
    requires c.productReads in u.runtime.provisioner ==> c.productReads in u.runtime.scan
    requires forall k :: k in c.agreed ==> AgreesOn(Effective(c, Pruned(c, u).value).runtime, k)
    ensures Pruned(c, u).Some?
    ensures Prepared(c, Pruned(c, u).value) == Pruned(c, u).value
  {
    PrunedIsDefined(c, u);
    var full := Effective(c, u).runtime;
    var p := Pruned(c, u).value.runtime;
    LabelPresenceKept(c, u.runtime);
    PrunedLabels(c, full);
    var k := c.productReads;
    assert k != c.marker;
    if k in c.scan || k in c.provisioner {
      assert AgreesOn(EffectiveRuntime(c, p), k);
      assert k in p.provisioner && k !in p.scan ==> !FillsScan(c, p, k);
    } else {
      assert k in p.provisioner ==> k in u.runtime.provisioner;
      assert k in u.runtime.scan ==> k in full.scan && k in p.scan;
    }
  }

  /** Regenerating with pruning twice is regenerating with pruning once, for every manifest it accepts. */
  lemma RegeneratePrunedIdempotent(h: Hash, accepts: (Source, Overlay) -> bool, c: Contract, m: Manifest)
    requires WellFormed(c) && Regenerate(h, accepts, c, m, true).Some?
    ensures var r := Regenerate(h, accepts, c, m, true).value; Regenerate(h, accepts, c, r, true) == Some(r)
  {
    var u := Prepared(c, m);
    var r := Regenerate(h, accepts, c, m, true).value;
    PreparedIdempotent(c, m);
    assert Effective(c, r) == Effective(c, Pruned(c, u).value).(digests := r.digests);
    PrunedIsPrepared(c, u);
    PrunedIdempotent(c, u);
    DigestsAreNotRead(h, c, Pruned(c, u).value, r.digests);
  }

  /** The recorded digests play no part in preparing, pruning or calculating. */
  lemma DigestsAreNotRead(h: Hash, c: Contract, m: Manifest, d: Digests)
    ensures Prepared(c, m.(digests := d)) == Prepared(c, m).(digests := d)
    ensures Pruned(c, m).Some? ==> Pruned(c, m.(digests := d)) == Some(Pruned(c, m).value.(digests := d))
    ensures CalculatedDigests(h, c, m.(digests := d)) == CalculatedDigests(h, c, m)
  {
  }

  lemma PrunedStaysNamed(c: Contract, u: Manifest)
    requires WellFormed(c) && PruneSafe(c, Effective(c, u))
    requires AdoptedNamed(u.aws, Effective(c, u).aws)
    ensures Pruned(c, u).Some?
    ensures AdoptedNamed(Pruned(c, u).value.aws, Effective(c, Pruned(c, u).value).aws)
  {
    PrunedIsDefined(c, u);
    PrunedEffective(c, u);
    var full, p := Effective(c, u).aws, Pruned(c, u).value.aws;
    assert forall k :: k in u.aws ==> k in full;
    assert "bucket_name" in full && "bucket_name" !in p ==> MayDrop(full, "bucket_name");
    assert "secret_name" in full && "secret_name" !in p ==> MayDrop(full, "secret_name");
  }

  lemma RegeneratedIsSafe(h: Hash, accepts: (Source, Overlay) -> bool, c: Contract, m: Manifest)
    requires WellFormed(c) && RejectsNull(accepts) && Regenerate(h, accepts, c, m, false).Some?
    ensures var u := Prepared(c, m); PruneSafe(c, Effective(c, u)) && AdoptedNamed(u.aws, Effective(c, u).aws)
  {
    var u := Prepared(c, m);
    var r := Regenerate(h, accepts, c, m, false).value;
    ValidIsSafe(h, accepts, c, r);
    assert Effective(c, r) == Effective(c, u).(digests := r.digests);
  }

  /** Regenerating succeeds exactly when regenerating with pruning does, the effective manifest is safe to prune,
      and the file itself names what it adopts; both then record the same digests. */
  lemma PruneVariantsAgree(h: Hash, accepts: (Source, Overlay) -> bool, c: Contract, m: Manifest)
    requires WellFormed(c) && RejectsNull(accepts)
    ensures var u := Prepared(c, m);
            Regenerate(h, accepts, c, m, false).Some? <==>
              Regenerate(h, accepts, c, m, true).Some? && PruneSafe(c, Effective(c, u))
              && AdoptedNamed(u.aws, Effective(c, u).aws)
    ensures Regenerate(h, accepts, c, m, false).Some? ==>
              Regenerate(h, accepts, c, m, true).value.digests == Regenerate(h, accepts, c, m, false).value.digests
  {
    var u := Prepared(c, m);
    if Regenerate(h, accepts, c, m, false).Some? {
      RegeneratedIsSafe(h, accepts, c, m);
    }
    if PruneSafe(c, Effective(c, u)) && AdoptedNamed(u.aws, Effective(c, u).aws) {
      SafeVariantsAgree(h, accepts, c, m);
    }
  }

  lemma SafeVariantsAgree(h: Hash, accepts: (Source, Overlay) -> bool, c: Contract, m: Manifest)
    requires WellFormed(c)
    requires var u := Prepared(c, m); PruneSafe(c, Effective(c, u)) && AdoptedNamed(u.aws, Effective(c, u).aws)
    ensures var plain, pruned := Regenerate(h, accepts, c, m, false), Regenerate(h, accepts, c, m, true);
            (plain.Some? <==> pruned.Some?) && (plain.Some? ==> pruned.value.digests == plain.value.digests)
  {
    var u := Prepared(c, m);
    PruningKeepsDigests(h, c, u);
    PrunedValidates(h, accepts, c, u);
  }

  /** A safely pruned manifest that names what it adopts validates exactly when the unpruned one does. */
  lemma PrunedValidates(h: Hash, accepts: (Source, Overlay) -> bool, c: Contract, u: Manifest)
    requires WellFormed(c) && PruneSafe(c, Effective(c, u))
    requires AdoptedNamed(u.aws, Effective(c, u).aws)
    ensures Pruned(c, u).Some?
    ensures var p := Pruned(c, u).value;
            Validates(h, accepts, c, p.(digests := CalculatedDigests(h, c, p)))
            <==> Validates(h, accepts, c, u.(digests := CalculatedDigests(h, c, u)))
  {
    PrunedIsDefined(c, u);
    var p := Pruned(c, u).value;
    var a, b := u.(digests := CalculatedDigests(h, c, u)), p.(digests := CalculatedDigests(h, c, p));
    assert Effective(c, a) == Effective(c, u).(digests := a.digests);
    assert Effective(c, b) == Effective(c, p).(digests := b.digests);
    PrunedStaysNamed(c, u);
    PrunedEffective(c, u);
    PruningPreservesMeaning(c, u);
  }

  // Where the promise fails

  /** A key carried by one projection only, at its default: pruning it brings both sides back. The older form
      of the product reads is such a manifest, which is why `regenerate` copies that key first. */
  lemma OneSidedKeyChangesMeaning(c: Contract, m: Manifest, k: string)
    requires WellFormed(c)
    requires k in c.shared && k in c.scan && k in m.runtime.provisioner && k !in m.runtime.scan
    requires m.runtime.provisioner[k] == c.provisioner[k]
    ensures Pruned(c, m).Some?
    ensures OverlayOf(c, Effective(c, Pruned(c, m).value)) != OverlayOf(c, Effective(c, m))
  {
    PrunedIsDefined(c, m);
    var full := Effective(c, m);
    assert DropsProvisioner(c, full.runtime, k) && k !in full.runtime.scan;
    assert !SharedSafe(c, full.runtime, k);
    PruningPreservesMeaning(c, m);
  }

  /** The shared key "o" at its default in the provisioner only. */
  const ONE_SIDED := Contract(
    map["o" := "v", "m" := "l"], map["o" := "v"], map[], {"o", "r"}, map["m" := "l"], "m", {}, map[], "r", {"o"})
  const LEGACY := Manifest(
    1, Source("repository", "revision"), Digests("", []),
    Runtime(map["m" := "l"], map["o" := "v"], map[], map[]), map[], map[])

  lemma OneSidedIsWellFormed()
    ensures WellFormed(ONE_SIDED) && Prepared(ONE_SIDED, LEGACY) == LEGACY
  {
    assert "m" in ONE_SIDED.labels && "m" in LEGACY.runtime.scan;
  }

  lemma OneSidedPruned(r: Runtime, p: Runtime)
    requires r == LEGACY.runtime && p == r.(provisioner := map[])
    ensures EffectiveRuntime(ONE_SIDED, r) == r && PrunedRuntime(ONE_SIDED, r) == Some(p)
    ensures AgreesOn(EffectiveRuntime(ONE_SIDED, p), "o") && !AgreesOn(r, "o")
  {
    assert forall k :: !FillsScan(ONE_SIDED, r, k) && !FillsProvisioner(ONE_SIDED, r, k);
    FilledIsFixed(ONE_SIDED, r);
    assert KeptScan(ONE_SIDED, r) == map[] && KeptProvisioner(ONE_SIDED, r) == map[];
    assert "m" in ONE_SIDED.labels && "m" in r.scan;
    assert map["m" := r.scan["m"]] == r.scan;
  }

  lemma OneSidedLegacy(m: Manifest, p: Manifest)
    requires m == LEGACY && p == m.(runtime := m.runtime.(provisioner := map[]))
    ensures Pruned(ONE_SIDED, m) == Some(p) && Effective(ONE_SIDED, p).aws == map[]
    ensures forall k :: k in ONE_SIDED.agreed ==> AgreesOn(Effective(ONE_SIDED, p).runtime, k)
    ensures "o" in ONE_SIDED.agreed && !AgreesOn(Effective(ONE_SIDED, m).runtime, "o")
  {
    OneSidedPruned(m.runtime, p.runtime);
    assert EffectiveAws(ONE_SIDED, map[]) == map[] && PrunedAws(ONE_SIDED, map[]) == map[];
  }

  lemma Disagreeing(h: Hash, accepts: (Source, Overlay) -> bool, c: Contract, m: Manifest, k: string)
    requires Prepared(c, m) == m && k in c.agreed && !AgreesOn(Effective(c, m).runtime, k)
    ensures Regenerate(h, accepts, c, m, false).None?
  {
    var r := m.(digests := CalculatedDigests(h, c, m));
    assert Effective(c, r).runtime == Effective(c, m).runtime;
  }

  lemma AgreeingAfterPruning(h: Hash, accepts: (Source, Overlay) -> bool, c: Contract, m: Manifest, p: Manifest)
    requires Prepared(c, m) == m && Pruned(c, m) == Some(p) && Effective(c, p).aws == map[]
    requires forall k :: k in c.agreed ==> AgreesOn(Effective(c, p).runtime, k)
    requires forall s, o: Overlay :: o.aws == map[] ==> accepts(s, o)
    ensures Regenerate(h, accepts, c, m, true).Some?
  {
    var r := p.(digests := CalculatedDigests(h, c, p));
    assert Effective(c, r) == Effective(c, p).(digests := r.digests);
    assert OverlayOf(c, Effective(c, r)).aws == map[];
  }

  predicate NoAwsKeys(s: Source, o: Overlay) {
    o.aws == map[]
  }

  /** Regenerating with pruning accepts manifests that regenerating refuses: the first pruning makes the two
      sides of the key agree, on a meaning the manifest did not have. */
  lemma PruningAcceptsMore(h: Hash)
    ensures WellFormed(ONE_SIDED) && RejectsNull(NoAwsKeys)
    ensures Regenerate(h, NoAwsKeys, ONE_SIDED, LEGACY, false).None?
    ensures Regenerate(h, NoAwsKeys, ONE_SIDED, LEGACY, true).Some?
  {
    var p := LEGACY.(runtime := LEGACY.runtime.(provisioner := map[]));
    OneSidedIsWellFormed();
    OneSidedLegacy(LEGACY, p);
    Disagreeing(h, NoAwsKeys, ONE_SIDED, LEGACY, "o");
    AgreeingAfterPruning(h, NoAwsKeys, ONE_SIDED, LEGACY, p);
  }
}
