/** The crash-safe upgrade of a consumer's manifest and Terraform file (bin/consumer_manifest.py): the undo
    journal, recovery from it, and the histories of commands over one pair of files. */
module UpgradeJournal {
  import opened Optional
  import L = RevisionLens
  import N = NormalForm

  /** How one file operation ends. The directory fsync follows the rename, so an OSError can come after the
      effect, and the process can die on either side of it. */
  datatype Fault = Fine | ErrorBefore | ErrorAfter | CrashBefore | CrashAfter

  predicate TakesEffect(f: Fault) {
    f.Fine? || f.ErrorAfter? || f.CrashAfter?
  }

  predicate Raises(f: Fault) {
    f.ErrorBefore? || f.ErrorAfter?
  }

  predicate Crashes(f: Fault) {
    f.CrashBefore? || f.CrashAfter?
  }

  // Text files

  /** What reading a file in text mode makes of its characters: every line ending becomes a line feed. Writing
      translates nothing. */
  function Read(content: string): (text: string)
    decreases |content|
  {
    if content == "" then ""
    else if content[0] != '\r' then [content[0]] + Read(content[1..])
    else "\n" + Read(if |content| > 1 && content[1] == '\n' then content[2..] else content[1..])
  }

  predicate Plain(content: string) {
    '\r' !in content
  }

  lemma {:induction false} ReadIsPlain(content: string)
    ensures Plain(Read(content))
    decreases |content|
  {
    if content != "" {
      ReadIsPlain(content[1..]);
      if |content| > 1 {
        ReadIsPlain(content[2..]);
      }
    }
  }

  lemma {:induction false} PlainIsRead(content: string)
    requires Plain(content)
    ensures Read(content) == content
  {
    if content != "" {
      PlainIsRead(content[1..]);
    }
  }

  /** One line at a time: a line feed, a carriage return and the two together all end a line, at the end of the file
      too. */
  lemma {:induction false} LineEndings(line: string, rest: string)
    requires Plain(line)
    ensures Read(line + "\n" + rest) == line + "\n" + Read(rest)
    ensures Read(line + "\r\n" + rest) == line + "\n" + Read(rest)
    ensures rest == "" || rest[0] != '\n' ==> Read(line + "\r" + rest) == line + "\n" + Read(rest)
  {
    if line == "" {
      assert ("\r\n" + rest)[2..] == rest && ("\r" + rest)[1..] == rest && ("\n" + rest)[1..] == rest;
      assert line + "\n" + rest == "\n" + rest && line + "\r" + rest == "\r" + rest;
      assert line + "\r\n" + rest == "\r\n" + rest;
    } else {
      LineEndings(line[1..], rest);
      assert (line + "\n" + rest)[1..] == line[1..] + "\n" + rest;
      assert (line + "\r\n" + rest)[1..] == line[1..] + "\r\n" + rest;
      assert (line + "\r" + rest)[1..] == line[1..] + "\r" + rest;
    }
  }

  /** Reading loses nothing exactly when the file has no carriage return; what was read once reads as itself. */
  lemma ReadIsExact(content: string)
    ensures Read(content) == content <==> Plain(content)
    ensures Read(Read(content)) == Read(content)
  {
    ReadIsPlain(content);
    PlainIsRead(Read(content));
    if Plain(content) {
      PlainIsRead(content);
    }
  }

  // One atomic write

  /** How one system call ends. A death after a call is a death before the next one. */
  datatype Call = Passes | Errs | Dies

  /** The calls of `atomic_write_text`: create the temporary file, write and sync it (`filled` characters are in it
      when that does not pass), change its mode, rename it over the target, sync the directory, and unlink what is
      left of it. */
  datatype Calls = Calls(create: Call, fill: Call, filled: nat, chmod: Call, rename: Call, sync: Call, unlink: Call)

  /** A temporary file holds a part of the new content or all of it. */
  datatype Temporary<T> = Part(filled: nat) | Whole(content: T)

  /** A target file and the temporary files left beside it. */
  datatype Slot<T> = Slot(content: T, temporaries: seq<Temporary<T>>)

  /** The `finally` block, entered with or without an exception on its way; `left` are the temporary files without the
      one it unlinks. */
  function Clean<T>(slot: Slot<T>, left: seq<Temporary<T>>, raising: bool, unlink: Call): (Slot<T>, Status) {
    match unlink
    case Passes => (slot.(temporaries := left), if raising then Failed else Done)
    case Errs => (slot, Failed)
    case Dies => (slot, Crashed)
  }

  function AtomicWrite<T>(slot: Slot<T>, content: T, calls: Calls): (Slot<T>, Status) {
    if calls.create != Passes then (slot, if calls.create == Dies then Crashed else Failed)
    else if calls.fill != Passes then
      (slot.(temporaries := slot.temporaries + [Part(calls.filled)]), if calls.fill == Dies then Crashed else Failed)
    else
      var s1 := slot.(temporaries := slot.temporaries + [Whole(content)]);
      if calls.chmod == Dies || (calls.chmod == Passes && calls.rename == Dies) then (s1, Crashed)
      else if calls.chmod == Errs || calls.rename == Errs then Clean(s1, slot.temporaries, true, calls.unlink)
      else
        var s2 := Slot(content, slot.temporaries);
        if calls.sync == Dies then (s2, Crashed)
        else Clean(s2, slot.temporaries, calls.sync == Errs, calls.unlink)
  }

  function StatusOf(f: Fault): Status {
    if Crashes(f) then Crashed else if Raises(f) then Failed else Done
  }

  /** The ending its calls give a write. */
  function FaultOf(calls: Calls): Fault {
    if calls.create != Passes then if calls.create == Dies then CrashBefore else ErrorBefore
    else if calls.fill != Passes then if calls.fill == Dies then CrashBefore else ErrorBefore
    else if calls.chmod == Dies || (calls.chmod == Passes && calls.rename == Dies) then CrashBefore
    else if calls.chmod == Errs || calls.rename == Errs then if calls.unlink == Dies then CrashBefore else ErrorBefore
    else if calls.sync == Dies || calls.unlink == Dies then CrashAfter
    else if calls.sync == Errs || calls.unlink == Errs then ErrorAfter
    else Fine
  }

  /** Whatever its calls do, an atomic write ends in one of the five ways: the target never holds a part of the
      content, and only a write that is done returns. */
  lemma WriteEndsAsFault<T>(slot: Slot<T>, content: T, calls: Calls)
    ensures var f := FaultOf(calls);
            && AtomicWrite(slot, content, calls).0.content == (if TakesEffect(f) then content else slot.content)
            && AtomicWrite(slot, content, calls).1 == StatusOf(f)
  {
  }

  function CallsFor(f: Fault): Calls {
    match f
    case Fine => Calls(Passes, Passes, 0, Passes, Passes, Passes, Passes)
    case ErrorBefore => Calls(Errs, Passes, 0, Passes, Passes, Passes, Passes)
    case ErrorAfter => Calls(Passes, Passes, 0, Passes, Passes, Errs, Passes)
    case CrashBefore => Calls(Dies, Passes, 0, Passes, Passes, Passes, Passes)
    case CrashAfter => Calls(Passes, Passes, 0, Passes, Passes, Dies, Passes)
  }

  /** Each of the five happens. */
  lemma EveryFaultHappens<T>(slot: Slot<T>, content: T, f: Fault)
    ensures exists calls ::
              FaultOf(calls) == f && AtomicWrite(slot, content, calls).1 == StatusOf(f)
              && AtomicWrite(slot, content, calls).0.content == (if TakesEffect(f) then content else slot.content)
  {
    assert FaultOf(CallsFor(f)) == f && AtomicWrite(slot, content, CallsFor(f)).1 == StatusOf(f);
  }

  /** Writing the temporary file raised before the file was known to the clean-up, or the clean-up itself raised. */
  predicate LeavesTemporary(calls: Calls) {
    && calls.create == Passes
    && (|| calls.fill == Errs
        || (calls.fill == Passes && calls.unlink == Errs && (calls.chmod == Errs || calls.rename == Errs)))
  }

  /** A write that raises cleans up after itself except in those two cases, and one that returns always does. */
  lemma StrayTemporaries<T>(slot: Slot<T>, content: T, calls: Calls)
    requires AtomicWrite(slot, content, calls).1 != Crashed
    ensures var left := AtomicWrite(slot, content, calls).0.temporaries;
            && (left == slot.temporaries <==> !LeavesTemporary(calls))
            && (left != slot.temporaries ==> |left| == |slot.temporaries| + 1)
    ensures LeavesTemporary(calls) ==> AtomicWrite(slot, content, calls).1 == Failed
  {
  }

  // The files of an upgrade

  datatype Body = Body(
    manifestPath: string, terraformPath: string,
    originalManifest: string, originalTerraform: string, targetManifest: string, targetTerraform: string)

  /** Unreadable: not JSON, other keys, or another schema version. */
  datatype JournalFile = NoJournal | Unreadable | Journal(body: Body)

  datatype Disk = Disk(manifest: string, terraform: string, journal: JournalFile)

  datatype Paths = Paths(manifest: string, terraform: string)

  /** How a command ends: it returns 0, it refuses before writing anything of its own, it reports a failed
      write, or the process dies. */
  datatype Status = Done | Refused | Failed | Crashed

  datatype RecoveryFaults = RecoveryFaults(manifest: Fault, terraform: Fault, unlink: Fault)

  datatype WriteFaults = WriteFaults(
    journal: Fault, terraform: Fault, manifest: Fault, unlink: Fault,
    backTerraform: Fault, backManifest: Fault, backUnlink: Fault)

  // The protocol on values

  function SetManifest(d: Disk, text: string, f: Fault): Disk {
    if TakesEffect(f) then d.(manifest := text) else d
  }

  function SetTerraform(d: Disk, text: string, f: Fault): Disk {
    if TakesEffect(f) then d.(terraform := text) else d
  }

  function SetJournal(d: Disk, j: JournalFile, f: Fault): Disk {
    if TakesEffect(f) then d.(journal := j) else d
  }

  /** The journal can be used: it is readable, names these files, and each file holds a text of its own. */
  predicate Usable(paths: Paths, d: Disk) {
    && d.journal.Journal?
    && d.journal.body.manifestPath == paths.manifest && d.journal.body.terraformPath == paths.terraform
    && (Read(d.manifest) == d.journal.body.originalManifest || Read(d.manifest) == d.journal.body.targetManifest)
    && (Read(d.terraform) == d.journal.body.originalTerraform || Read(d.terraform) == d.journal.body.targetTerraform)
  }

  function RecoverOn(paths: Paths, d: Disk, f: RecoveryFaults): (Disk, Status) {
    if d.journal.NoJournal? then (d, Done)
    else if !Usable(paths, d) then (d, Refused)
    else
      var d1 := SetManifest(d, d.journal.body.originalManifest, f.manifest);
      if !f.manifest.Fine? then (d1, if Crashes(f.manifest) then Crashed else Failed)
      else
        var d2 := SetTerraform(d1, d.journal.body.originalTerraform, f.terraform);
        if !f.terraform.Fine? then (d2, if Crashes(f.terraform) then Crashed else Failed)
        else
          var d3 := SetJournal(d2, NoJournal, f.unlink);
          (d3, if f.unlink.Fine? then Done else if Crashes(f.unlink) then Crashed else Failed)
  }

  /** The rollback inside `upgrade` after a failed write. */
  function RollBackOn(d: Disk, b: Body, f: WriteFaults): (Disk, Status) {
    var d1 := SetTerraform(d, b.originalTerraform, f.backTerraform);
    if Crashes(f.backTerraform) then (d1, Crashed)
    else
      var d2 := SetManifest(d1, b.originalManifest, f.backManifest);
      if Crashes(f.backManifest) then (d2, Crashed)
      else if Raises(f.backTerraform) || Raises(f.backManifest) then (d2, Failed)
      else
        var d3 := SetJournal(d2, NoJournal, f.backUnlink);
        (d3, if Crashes(f.backUnlink) then Crashed else Failed)
  }

  /** The four writes of `upgrade`. */
  function WriteOn(d: Disk, b: Body, f: WriteFaults): (Disk, Status) {
    var d1 := SetJournal(d, Journal(b), f.journal);
    if Crashes(f.journal) then (d1, Crashed)
    else if Raises(f.journal) then RollBackOn(d1, b, f)
    else
      var d2 := SetTerraform(d1, b.targetTerraform, f.terraform);
      if Crashes(f.terraform) then (d2, Crashed)
      else if Raises(f.terraform) then RollBackOn(d2, b, f)
      else
        var d3 := SetManifest(d2, b.targetManifest, f.manifest);
        if Crashes(f.manifest) then (d3, Crashed)
        else if Raises(f.manifest) then RollBackOn(d3, b, f)
        else
          var d4 := SetJournal(d3, NoJournal, f.unlink);
          if Crashes(f.unlink) then (d4, Crashed)
          else if Raises(f.unlink) then RollBackOn(d4, b, f)
          else (d4, Done)
  }

  // What the protocol guarantees

  /** The files read as the texts the body was made from. */
  predicate IsOriginal(d: Disk, b: Body) {
    Read(d.manifest) == b.originalManifest && Read(d.terraform) == b.originalTerraform
  }

  predicate IsTarget(d: Disk, b: Body) {
    Read(d.manifest) == b.targetManifest && Read(d.terraform) == b.targetTerraform
  }

  /** Its texts are texts that were read or rendered, so they are written as they read. */
  ghost predicate PlainBody(b: Body) {
    Plain(b.originalManifest) && Plain(b.originalTerraform) && Plain(b.targetManifest) && Plain(b.targetTerraform)
  }

  lemma PlainBodyReads(b: Body)
    requires PlainBody(b)
    ensures Read(b.originalManifest) == b.originalManifest && Read(b.originalTerraform) == b.originalTerraform
    ensures Read(b.targetManifest) == b.targetManifest && Read(b.targetTerraform) == b.targetTerraform
  {
    ReadIsExact(b.originalManifest);
    ReadIsExact(b.originalTerraform);
    ReadIsExact(b.targetManifest);
    ReadIsExact(b.targetTerraform);
  }

  /** All or nothing, or undoable: without a journal both files are original or both are target; with one,
      each file holds a text of its own. */
  predicate Atomic(paths: Paths, d: Disk, b: Body) {
    match d.journal
    case NoJournal => IsOriginal(d, b) || IsTarget(d, b)
    case Journal(_) => d.journal.body == b && Usable(paths, d)
    case Unreadable => false
  }

  /** The one unprotected window: the directory fsync after the final unlink fails, so the journal is gone
      when the rollback starts, and only one of the two files is put back. */
  predicate SplitRollback(f: WriteFaults) {
    && f.journal.Fine? && f.terraform.Fine? && f.manifest.Fine? && f.unlink.ErrorAfter?
    && TakesEffect(f.backTerraform) != (!Crashes(f.backTerraform) && TakesEffect(f.backManifest))
  }

  /** What each file holds after a rollback, however it ends. */
  lemma RolledBack(d: Disk, b: Body, f: WriteFaults)
    ensures var d' := RollBackOn(d, b, f).0;
            && d'.terraform == (if TakesEffect(f.backTerraform) then b.originalTerraform else d.terraform)
            && d'.manifest == (if !Crashes(f.backTerraform) && TakesEffect(f.backManifest)
                               then b.originalManifest else d.manifest)
            && (d'.journal == d.journal || d' == Disk(b.originalManifest, b.originalTerraform, NoJournal))
  {
  }

  /** A rollback that still has its journal is atomic or undoable however it ends. */
  lemma ProtectedRollback(paths: Paths, d: Disk, b: Body, f: WriteFaults)
    requires d.journal == Journal(b) && Usable(paths, d) && PlainBody(b)
    ensures Atomic(paths, RollBackOn(d, b, f).0, b)
  {
    PlainBodyReads(b);
    RolledBack(d, b, f);
  }

  /** Without a journal a rollback is atomic when it starts from the originals, and from the targets exactly
      when both files or neither are put back. */
  lemma UnprotectedRollback(paths: Paths, d: Disk, b: Body, f: WriteFaults)
    requires d.journal.NoJournal? && PlainBody(b)
    ensures IsOriginal(d, b) ==> Atomic(paths, RollBackOn(d, b, f).0, b)
    ensures IsTarget(d, b) ==>
      (Atomic(paths, RollBackOn(d, b, f).0, b)
       <==> TakesEffect(f.backTerraform) == (!Crashes(f.backTerraform) && TakesEffect(f.backManifest))
            || b.originalManifest == b.targetManifest || b.originalTerraform == b.targetTerraform)
  {
    PlainBodyReads(b);
    RolledBack(d, b, f);
  }

  /** Whatever fails or dies at whatever point, an upgrade is atomic or undoable, except in that window (and
      there too when one of the two texts does not change). */
  lemma UpgradeIsAtomic(paths: Paths, d: Disk, b: Body, f: WriteFaults)
    requires d.journal.NoJournal? && IsOriginal(d, b) && PlainBody(b)
    requires b.manifestPath == paths.manifest && b.terraformPath == paths.terraform
    ensures Atomic(paths, WriteOn(d, b, f).0, b)
            <==> !SplitRollback(f) || b.originalManifest == b.targetManifest || b.originalTerraform == b.targetTerraform
  {
    PlainBodyReads(b);
    var d1 := SetJournal(d, Journal(b), f.journal);
    var d2 := SetTerraform(d1, b.targetTerraform, f.terraform);
    var d3 := SetManifest(d2, b.targetManifest, f.manifest);
    var d4 := SetJournal(d3, NoJournal, f.unlink);
    if Raises(f.journal) {
      RollbackFrom(paths, d1, b, f);
    } else if f.journal.Fine? && Raises(f.terraform) {
      RollbackFrom(paths, d2, b, f);
    } else if f.journal.Fine? && f.terraform.Fine? && Raises(f.manifest) {
      RollbackFrom(paths, d3, b, f);
    } else if f.journal.Fine? && f.terraform.Fine? && f.manifest.Fine? && Raises(f.unlink) {
      RollbackFrom(paths, d4, b, f);
    }
  }

  lemma RollbackFrom(paths: Paths, d: Disk, b: Body, f: WriteFaults)
    requires PlainBody(b)
    requires (d.journal == Journal(b) && Usable(paths, d))
             || (d.journal.NoJournal? && (IsOriginal(d, b) || IsTarget(d, b)))
    ensures d.journal.Journal? || IsOriginal(d, b) ==> Atomic(paths, RollBackOn(d, b, f).0, b)
    ensures d.journal.NoJournal? && IsTarget(d, b) ==>
      (Atomic(paths, RollBackOn(d, b, f).0, b)
       <==> TakesEffect(f.backTerraform) == (!Crashes(f.backTerraform) && TakesEffect(f.backManifest))
            || b.originalManifest == b.targetManifest || b.originalTerraform == b.targetTerraform)
  {
    if d.journal.Journal? {
      ProtectedRollback(paths, d, b, f);
    } else {
      UnprotectedRollback(paths, d, b, f);
    }
  }

  /** The window is real: the fsync fails, the Terraform file is put back, and the process dies. */
  lemma SplitRollbackWitness(paths: Paths)
    ensures var b := Body(paths.manifest, paths.terraform, "m0", "t0", "m1", "t1");
            var f := WriteFaults(Fine, Fine, Fine, ErrorAfter, CrashAfter, Fine, Fine);
            WriteOn(Disk("m0", "t0", NoJournal), b, f) == (Disk("m1", "t0", NoJournal), Crashed)
  {
  }

  /** Even in the window, a rollback that completes restores both original texts and leaves no journal. */
  lemma CompletedRollbackRestores(d: Disk, b: Body, f: WriteFaults)
    requires f.backTerraform.Fine? && f.backManifest.Fine? && f.backUnlink.Fine?
    ensures RollBackOn(d, b, f) == (Disk(b.originalManifest, b.originalTerraform, NoJournal), Failed)
  {
  }

  /** An upgrade that returns has written both targets and left no journal, and only then. */
  lemma UpgradeReturns(d: Disk, b: Body, f: WriteFaults)
    ensures WriteOn(d, b, f).1 == Done <==>
              f.journal.Fine? && f.terraform.Fine? && f.manifest.Fine? && f.unlink.Fine?
    ensures WriteOn(d, b, f).1 == Done ==> WriteOn(d, b, f).0 == Disk(b.targetManifest, b.targetTerraform, NoJournal)
  {
  }

  function Originals(b: Body): Disk {
    Disk(b.originalManifest, b.originalTerraform, NoJournal)
  }

  /** Recovery can be interrupted anywhere: it has finished, or the same journal is there, and stays usable when its
      texts are written as they read. */
  lemma RecoveryStep(paths: Paths, d: Disk, f: RecoveryFaults)
    requires d.journal.Journal?
    ensures var (d', status) := RecoverOn(paths, d, f);
            var original := Originals(d.journal.body);
            && (d' == original || d'.journal == d.journal)
            && (status == Done ==> d' == original)
            && (Usable(paths, d) ==> status != Refused && (f == RecoveryFaults(Fine, Fine, Fine) ==> status == Done))
            && (Usable(paths, d) && PlainBody(d.journal.body) ==> d' == original || Usable(paths, d'))
  {
    if PlainBody(d.journal.body) {
      PlainBodyReads(d.journal.body);
    }
  }

  /** Repeated recovery attempts, each with its own faults, up to the first that returns. */
  function RecoverUntilDone(paths: Paths, d: Disk, attempts: seq<RecoveryFaults>): (Disk, Status)
    decreases |attempts|
  {
    if attempts == [] then (d, Crashed)
    else
      var (d', status) := RecoverOn(paths, d, attempts[0]);
      if status == Done then (d', Done) else RecoverUntilDone(paths, d', attempts[1..])
  }

  /** After any number of interrupted attempts, the first one that returns has written both original texts and
      removed the journal. */
  lemma {:induction false} FirstCompletedRecovery(paths: Paths, d: Disk, attempts: seq<RecoveryFaults>)
    requires d.journal.Journal?
    ensures var original := Originals(d.journal.body);
            var (d', status) := RecoverUntilDone(paths, d, attempts);
            && (status == Done ==> d' == original)
            && (d' == original || d'.journal == d.journal)
            && (Usable(paths, d) && PlainBody(d.journal.body) ==> d' == original || Usable(paths, d'))
    decreases |attempts|
  {
    if attempts != [] {
      RecoveryStep(paths, d, attempts[0]);
      var (d', status) := RecoverOn(paths, d, attempts[0]);
      if status != Done {
        if d'.journal.NoJournal? {
          RecoveredStays(paths, d', attempts[1..]);
        } else {
          FirstCompletedRecovery(paths, d', attempts[1..]);
        }
      }
    }
  }

  /** One attempt that meets no fault is enough, whatever befell the attempts before it. */
  lemma {:induction false} FaultFreeAttemptCompletes(
    paths: Paths, d: Disk, attempts: seq<RecoveryFaults>, j: nat)
    requires d.journal.Journal? && Usable(paths, d) && PlainBody(d.journal.body)
    requires j < |attempts| && attempts[j] == RecoveryFaults(Fine, Fine, Fine)
    ensures RecoverUntilDone(paths, d, attempts) == (Originals(d.journal.body), Done)
    decreases |attempts|
  {
    RecoveryStep(paths, d, attempts[0]);
    var (d', status) := RecoverOn(paths, d, attempts[0]);
    if status != Done {
      assert attempts[1..][j - 1] == attempts[j];
      if d'.journal.NoJournal? {
        assert RecoverOn(paths, d', attempts[1..][0]) == (d', Done);
      } else {
        FaultFreeAttemptCompletes(paths, d', attempts[1..], j - 1);
      }
    }
  }

  lemma RecoveredStays(paths: Paths, d: Disk, attempts: seq<RecoveryFaults>)
    requires d.journal.NoJournal?
    ensures RecoverUntilDone(paths, d, attempts).0 == d
    decreases |attempts|
  {
  }

  /** Recovery refuses exactly the journals it cannot use, and then it changes nothing. */
  lemma RecoveryRefuses(paths: Paths, d: Disk, f: RecoveryFaults)
    ensures RecoverOn(paths, d, f).1 == Refused <==> !d.journal.NoJournal? && !Usable(paths, d)
    ensures RecoverOn(paths, d, f).1 == Refused ==> RecoverOn(paths, d, f).0 == d
  {
  }

  // The upgrade, call by call

  /** Unlinking the journal and syncing its directory. */
  datatype Removal = Removal(unlink: Call, sync: Call)

  datatype UpgradeCalls = UpgradeCalls(
    journal: Calls, terraform: Calls, manifest: Calls, unlink: Removal,
    backTerraform: Calls, backManifest: Calls, backUnlink: Removal)

  datatype Files = Files(manifest: Slot<string>, terraform: Slot<string>, journal: Slot<JournalFile>)

  function DiskOf(files: Files): Disk {
    Disk(files.manifest.content, files.terraform.content, files.journal.content)
  }

  function RemovalFault(r: Removal): Fault {
    match r.unlink
    case Errs => ErrorBefore
    case Dies => CrashBefore
    case Passes => match r.sync case Passes => Fine case Errs => ErrorAfter case Dies => CrashAfter
  }

  function FaultsOf(c: UpgradeCalls): WriteFaults {
    WriteFaults(
      FaultOf(c.journal), FaultOf(c.terraform), FaultOf(c.manifest), RemovalFault(c.unlink),
      FaultOf(c.backTerraform), FaultOf(c.backManifest), RemovalFault(c.backUnlink))
  }

  function Remove(slot: Slot<JournalFile>, r: Removal): (Slot<JournalFile>, Status) {
    match r.unlink
    case Errs => (slot, Failed)
    case Dies => (slot, Crashed)
    case Passes =>
      (slot.(content := NoJournal), match r.sync case Passes => Done case Errs => Failed case Dies => Crashed)
  }

  /** The exception handler of `upgrade`. */
  function RollBackCalls(files: Files, b: Body, c: UpgradeCalls): (Files, Status) {
    var (terraform, first) := AtomicWrite(files.terraform, b.originalTerraform, c.backTerraform);
    var f1 := files.(terraform := terraform);
    if first == Crashed then (f1, Crashed)
    else
      var (manifest, second) := AtomicWrite(f1.manifest, b.originalManifest, c.backManifest);
      var f2 := f1.(manifest := manifest);
      if second == Crashed then (f2, Crashed)
      else if first == Failed || second == Failed then (f2, Failed)
      else
        var (journal, third) := Remove(f2.journal, c.backUnlink);
        (f2.(journal := journal), if third == Crashed then Crashed else Failed)
  }

  /** What follows a step of `upgrade` that does not pass. */
  function AfterStep(files: Files, status: Status, b: Body, c: UpgradeCalls): (Files, Status) {
    if status == Crashed then (files, Crashed) else RollBackCalls(files, b, c)
  }

  /** The `try` block of `upgrade` and its handler. */
  function WriteCalls(files: Files, b: Body, c: UpgradeCalls): (Files, Status) {
    var (journal, first) := AtomicWrite(files.journal, Journal(b), c.journal);
    var f1 := files.(journal := journal);
    if first != Done then AfterStep(f1, first, b, c)
    else
      var (terraform, second) := AtomicWrite(f1.terraform, b.targetTerraform, c.terraform);
      var f2 := f1.(terraform := terraform);
      if second != Done then AfterStep(f2, second, b, c)
      else
        var (manifest, third) := AtomicWrite(f2.manifest, b.targetManifest, c.manifest);
        var f3 := f2.(manifest := manifest);
        if third != Done then AfterStep(f3, third, b, c)
        else
          var (removed, fourth) := Remove(f3.journal, c.unlink);
          var f4 := f3.(journal := removed);
          if fourth != Done then AfterStep(f4, fourth, b, c) else (f4, Done)
  }

  lemma RollBackByCalls(files: Files, b: Body, c: UpgradeCalls)
    ensures var (files', status) := RollBackCalls(files, b, c);
            (DiskOf(files'), status) == RollBackOn(DiskOf(files), b, FaultsOf(c))
  {
    WriteEndsAsFault(files.terraform, b.originalTerraform, c.backTerraform);
    WriteEndsAsFault(files.manifest, b.originalManifest, c.backManifest);
  }

  lemma AfterStepByCalls(files: Files, b: Body, c: UpgradeCalls, f: Fault)
    requires !f.Fine?
    ensures var (files', status) := AfterStep(files, StatusOf(f), b, c);
            (DiskOf(files'), status)
            == if Crashes(f) then (DiskOf(files), Crashed) else RollBackOn(DiskOf(files), b, FaultsOf(c))
  {
    RollBackByCalls(files, b, c);
  }

  /** An upgrade made of system calls, whatever they do, is the upgrade made of writes and their endings: every
      theorem about the one is a theorem about the other. */
  lemma UpgradeByCalls(files: Files, b: Body, c: UpgradeCalls)
    ensures var (files', status) := WriteCalls(files, b, c);
            (DiskOf(files'), status) == WriteOn(DiskOf(files), b, FaultsOf(c))
  {
    var f := FaultsOf(c);
    var f1 := files.(journal := AtomicWrite(files.journal, Journal(b), c.journal).0);
    var f2 := f1.(terraform := AtomicWrite(f1.terraform, b.targetTerraform, c.terraform).0);
    var f3 := f2.(manifest := AtomicWrite(f2.manifest, b.targetManifest, c.manifest).0);
    var f4 := f3.(journal := Remove(f3.journal, c.unlink).0);
    WriteEndsAsFault(files.journal, Journal(b), c.journal);
    WriteEndsAsFault(f1.terraform, b.targetTerraform, c.terraform);
    WriteEndsAsFault(f2.manifest, b.targetManifest, c.manifest);
    if !f.journal.Fine? {
      AfterStepByCalls(f1, b, c, f.journal);
    } else if !f.terraform.Fine? {
      AfterStepByCalls(f2, b, c, f.terraform);
    } else if !f.manifest.Fine? {
      AfterStepByCalls(f3, b, c, f.manifest);
    } else if !f.unlink.Fine? {
      AfterStepByCalls(f4, b, c, f.unlink);
    }
  }

  lemma CallsForFault(f: Fault)
    ensures FaultOf(CallsFor(f)) == f && RemovalFault(RemovalFor(f)) == f
  {
  }

  /** And there is no combination of endings the calls cannot produce. */
  lemma EveryUpgradeHappens(f: WriteFaults)
    ensures exists c :: FaultsOf(c) == f
  {
    var c := UpgradeCalls(
      CallsFor(f.journal), CallsFor(f.terraform), CallsFor(f.manifest), RemovalFor(f.unlink),
      CallsFor(f.backTerraform), CallsFor(f.backManifest), RemovalFor(f.backUnlink));
    CallsForFault(f.journal);
    CallsForFault(f.terraform);
    CallsForFault(f.manifest);
    CallsForFault(f.unlink);
    CallsForFault(f.backTerraform);
    CallsForFault(f.backManifest);
    CallsForFault(f.backUnlink);
    assert FaultsOf(c) == f;
  }

  function RemovalFor(f: Fault): Removal {
    match f
    case Fine => Removal(Passes, Passes)
    case ErrorBefore => Removal(Errs, Passes)
    case ErrorAfter => Removal(Passes, Errs)
    case CrashBefore => Removal(Dies, Passes)
    case CrashAfter => Removal(Passes, Dies)
  }

  /** A write the upgrade made left its temporary file. */
  predicate LeavesAny(c: UpgradeCalls) {
    var f := FaultsOf(c);
    || LeavesTemporary(c.journal)
    || (f.journal.Fine? && LeavesTemporary(c.terraform))
    || (f.journal.Fine? && f.terraform.Fine? && LeavesTemporary(c.manifest))
    || (!(f.journal.Fine? && f.terraform.Fine? && f.manifest.Fine? && f.unlink.Fine?)
        && (LeavesTemporary(c.backTerraform) || LeavesTemporary(c.backManifest)))
  }

  predicate SameTemporaries(files: Files, files': Files) {
    && files'.manifest.temporaries == files.manifest.temporaries
    && files'.terraform.temporaries == files.terraform.temporaries
    && files'.journal.temporaries == files.journal.temporaries
  }

  /** Temporary files are only ever added. */
  lemma TemporariesGrow<T>(slot: Slot<T>, content: T, calls: Calls)
    ensures var (slot', status) := AtomicWrite(slot, content, calls);
            && slot.temporaries <= slot'.temporaries
            && (status != Crashed ==> (slot'.temporaries == slot.temporaries <==> !LeavesTemporary(calls)))
            && (LeavesTemporary(calls) && status != Crashed ==> status == Failed)
  {
  }

  predicate MoreTemporaries(files: Files, files': Files) {
    && files.manifest.temporaries <= files'.manifest.temporaries
    && files.terraform.temporaries <= files'.terraform.temporaries
    && files.journal.temporaries <= files'.journal.temporaries
  }

  lemma RollBackTemporaries(files: Files, b: Body, c: UpgradeCalls)
    ensures var (files', status) := RollBackCalls(files, b, c);
            && MoreTemporaries(files, files')
            && (status != Crashed ==> (SameTemporaries(files, files') <==>
                  !LeavesTemporary(c.backTerraform) && !LeavesTemporary(c.backManifest)))
  {
    TemporariesGrow(files.terraform, b.originalTerraform, c.backTerraform);
    TemporariesGrow(files.manifest, b.originalManifest, c.backManifest);
  }

  /** An upgrade that ends, however it ends, has left a temporary file behind exactly when one of the writes it made
      did; one that returns never has. */
  lemma UpgradeTemporaries(files: Files, b: Body, c: UpgradeCalls)
    ensures var (files', status) := WriteCalls(files, b, c);
            && (status != Crashed ==> (SameTemporaries(files, files') <==> !LeavesAny(c)))
            && (status == Done ==> SameTemporaries(files, files'))
  {
    var f := FaultsOf(c);
    var f1 := files.(journal := AtomicWrite(files.journal, Journal(b), c.journal).0);
    var f2 := f1.(terraform := AtomicWrite(f1.terraform, b.targetTerraform, c.terraform).0);
    var f3 := f2.(manifest := AtomicWrite(f2.manifest, b.targetManifest, c.manifest).0);
    var f4 := f3.(journal := Remove(f3.journal, c.unlink).0);
    WriteEndsAsFault(files.journal, Journal(b), c.journal);
    WriteEndsAsFault(f1.terraform, b.targetTerraform, c.terraform);
    WriteEndsAsFault(f2.manifest, b.targetManifest, c.manifest);
    TemporariesGrow(files.journal, Journal(b), c.journal);
    TemporariesGrow(f1.terraform, b.targetTerraform, c.terraform);
    TemporariesGrow(f2.manifest, b.targetManifest, c.manifest);
    if !f.journal.Fine? {
      RollBackTemporaries(f1, b, c);
    } else if !f.terraform.Fine? {
      RollBackTemporaries(f2, b, c);
    } else if !f.manifest.Fine? {
      RollBackTemporaries(f3, b, c);
    } else if !f.unlink.Fine? {
      RollBackTemporaries(f4, b, c);
    }
  }

  // Histories of commands

  /** The file formats and the rules one deployment of the tool works with. */
  datatype Tools = Tools(
    paths: Paths, parse: string -> Option<N.Manifest>, render: N.Manifest -> string,
    hash: N.Hash, accepts: (N.Source, N.Overlay) -> bool)

  /** JSON text is read back as the value it was written from, and has its carriage returns escaped. */
  ghost predicate RoundTrips(tools: Tools) {
    forall m :: tools.parse(tools.render(m)) == Some(m) && Plain(tools.render(m))
  }

  /** `admitted` stands for the checks against git, the remote and the current manifest's own validity;
      `module_` for the defaults of the module revision the command works with. A check compares the pins only
      when it is told where the deployment and its Terraform file are. */
  datatype Command =
    | Upgrade(revision: string, schemaMatches: bool, admitted: bool, module_: N.Contract,
              recovery: RecoveryFaults, writes: WriteFaults)
    | Regenerate(module_: N.Contract, prune: bool, write: Fault)
    | Check(root: bool, terraform: bool, admitted: bool)

  /** The journal body of an upgrade from these files, or None when a check before the first write refuses. */
  function Planned(tools: Tools, d: Disk, revision: string, admitted: bool, module_: N.Contract): Option<Body> {
    match tools.parse(Read(d.manifest))
    case None => None
    case Some(m) =>
      if !admitted then None
      else
        match N.Regenerate(tools.hash, tools.accepts, module_, m.(source := m.source.(revision := revision)), false)
        case None => None
        case Some(updated) =>
          match L.Replaced(Read(d.terraform), revision)
          case Refused => None
          case Ok(terraform) =>
            Some(Body(tools.paths.manifest, tools.paths.terraform,
                        Read(d.manifest), Read(d.terraform), tools.render(updated), terraform))
  }

  function RunOn(tools: Tools, d: Disk, command: Command): (Disk, Status) {
    match command
    case Upgrade(revision, schemaMatches, admitted, module_, recovery, writes) =>
      if !L.IsSha(revision) || !schemaMatches then (d, Refused)
      else
        var (d1, status) := RecoverOn(tools.paths, d, recovery);
        if status != Done then (d1, status)
        else
          (match Planned(tools, d1, revision, admitted, module_)
           case None => (d1, Refused)
           case Some(b) => WriteOn(d1, b, writes))
    case Regenerate(module_, prune, write) =>
      if !d.journal.NoJournal? then (d, Refused)
      else
        (match tools.parse(Read(d.manifest))
         case None => (d, Refused)
         case Some(m) =>
           match N.Regenerate(tools.hash, tools.accepts, module_, m, prune)
           case None => (d, Refused)
           case Some(updated) =>
             (SetManifest(d, tools.render(updated), write),
              if write.Fine? then Done else if Crashes(write) then Crashed else Failed))
    case Check(root, terraform, admitted) =>
      (d, if d.journal.NoJournal? && tools.parse(Read(d.manifest)).Some? && admitted && root == terraform
             && (root ==> PinsAgree(tools, Read(d.manifest), Read(d.terraform))) then Done else Refused)
  }

  // What the commands write

  /** The text a command works on: what the file reads as, or what recovery puts back first. */
  function ManifestBefore(d: Disk): string {
    if d.journal.Journal? then Read(d.journal.body.originalManifest) else Read(d.manifest)
  }

  function TerraformBefore(d: Disk): string {
    if d.journal.Journal? then Read(d.journal.body.originalTerraform) else Read(d.terraform)
  }

  /** after is before with other forty characters where the revision stood. */
  ghost predicate OnlyRepinned(before: string, after: string, revision: string) {
    exists at :: 0 <= at && at + 40 <= |before| && L.Revision(before) == L.Ok(before[at..at + 40])
                 && after == before[..at] + revision + before[at + 40..]
  }

  /** An upgrade that returns was admitted and has written the manifest with the requested revision, the two seams and
      nothing else changed, its digests taken over that, and the Terraform file with the revision changed. */
  lemma UpgradeWritesOnly(tools: Tools, d: Disk, upgrade: Command)
    requires RoundTrips(tools) && upgrade.Upgrade? && upgrade.module_.productReads !in upgrade.module_.labels
    requires RunOn(tools, d, upgrade).1 == Done
    ensures var d' := RunOn(tools, d, upgrade).0;
            && upgrade.admitted && upgrade.schemaMatches && d'.journal.NoJournal?
            && tools.parse(ManifestBefore(d)).Some? && tools.parse(d'.manifest).Some?
            && var m, t := tools.parse(ManifestBefore(d)).value, tools.parse(d'.manifest).value;
            && N.SeamsAdded(upgrade.module_, m.(source := m.source.(revision := upgrade.revision)), t)
            && t.digests == N.CalculatedDigests(tools.hash, upgrade.module_, t)
            && OnlyRepinned(TerraformBefore(d), d'.terraform, upgrade.revision)
  {
    var (d1, status) := RecoverOn(tools.paths, d, upgrade.recovery);
    RecoveredFiles(tools.paths, d, upgrade.recovery);
    var b := Planned(tools, d1, upgrade.revision, upgrade.admitted, upgrade.module_).value;
    DoneIsTarget(d1, b, upgrade.writes);
    PlanWritesOnly(tools, d1, upgrade.revision, upgrade.admitted, upgrade.module_);
  }

  lemma RecoveredFiles(paths: Paths, d: Disk, f: RecoveryFaults)
    requires RecoverOn(paths, d, f).1 == Done
    ensures var d1 := RecoverOn(paths, d, f).0;
            d1.journal.NoJournal? && Read(d1.manifest) == ManifestBefore(d) && Read(d1.terraform) == TerraformBefore(d)
  {
  }

  lemma DoneIsTarget(d: Disk, b: Body, f: WriteFaults)
    requires WriteOn(d, b, f).1 == Done
    ensures WriteOn(d, b, f).0 == Disk(b.targetManifest, b.targetTerraform, NoJournal)
  {
  }

  lemma PlanWritesOnly(tools: Tools, d: Disk, revision: string, admitted: bool, module_: N.Contract)
    requires RoundTrips(tools) && L.IsSha(revision) && module_.productReads !in module_.labels
    requires Planned(tools, d, revision, admitted, module_).Some?
    ensures var b := Planned(tools, d, revision, admitted, module_).value;
            && admitted && tools.parse(Read(d.manifest)).Some? && tools.parse(b.targetManifest).Some?
            && var m, t := tools.parse(Read(d.manifest)).value, tools.parse(b.targetManifest).value;
            && N.SeamsAdded(module_, m.(source := m.source.(revision := revision)), t)
            && t.digests == N.CalculatedDigests(tools.hash, module_, t)
            && OnlyRepinned(Read(d.terraform), b.targetTerraform, revision)
  {
    var m := tools.parse(Read(d.manifest)).value;
    var repinned := m.(source := m.source.(revision := revision));
    N.RegenerateAddsSeams(tools.hash, tools.accepts, module_, repinned);
    var updated := N.Regenerate(tools.hash, tools.accepts, module_, repinned, false).value;
    assert tools.parse(tools.render(updated)) == Some(updated);
    L.RefusalsAgree(L.MODULE_SOURCE, Read(d.terraform), revision);
    L.ModuleSourceIsSeparable();
    var at := L.ReplaceFrame(L.MODULE_SOURCE, Read(d.terraform), revision);
  }

  /** A regeneration that returns found no journal, leaves the Terraform file alone and keeps the pinned revision. It
      writes the manifest with the two seams added and, when asked to prune, its defaults dropped. */
  lemma RegenerationWritesOnly(tools: Tools, d: Disk, command: Command)
    requires RoundTrips(tools) && command.Regenerate? && N.WellFormed(command.module_)
    requires RunOn(tools, d, command).1 == Done
    ensures var d' := RunOn(tools, d, command).0;
            && d.journal.NoJournal? && d' == d.(manifest := d'.manifest)
            && tools.parse(Read(d.manifest)).Some? && tools.parse(d'.manifest).Some?
            && var m, t := tools.parse(Read(d.manifest)).value, tools.parse(d'.manifest).value;
            && t.source == m.source && t.digests == N.CalculatedDigests(tools.hash, command.module_, t)
            && (!command.prune ==> N.SeamsAdded(command.module_, m, t))
            && (command.prune ==>
                  exists u :: N.SeamsAdded(command.module_, m, u) && N.DefaultsDropped(command.module_, u, t))
  {
    var m := tools.parse(Read(d.manifest)).value;
    var t := N.Regenerate(tools.hash, tools.accepts, command.module_, m, command.prune).value;
    assert tools.parse(tools.render(t)) == Some(t);
    if command.prune {
      N.RegenerateDropsDefaults(tools.hash, tools.accepts, command.module_, m);
    } else {
      N.RegenerateAddsSeams(tools.hash, tools.accepts, command.module_, m);
    }
  }

  /** When a regeneration without pruning returns. */
  lemma RegenerationSucceeds(tools: Tools, d: Disk, module_: N.Contract, write: Fault)
    ensures RunOn(tools, d, Regenerate(module_, false, write)).1 == Done <==>
              && write.Fine? && d.journal.NoJournal? && tools.parse(Read(d.manifest)).Some?
              && N.Satisfies(tools.accepts, module_, tools.parse(Read(d.manifest)).value)
  {
    if tools.parse(Read(d.manifest)).Some? {
      N.RegenerateSucceeds(tools.hash, tools.accepts, module_, tools.parse(Read(d.manifest)).value);
    }
  }

  /** A check writes nothing, and given the deployment it passes only when the two files pin one revision: pins that
      disagree, an unfinished upgrade and a Terraform file without exactly one module source are refused. */
  lemma CheckVerdict(tools: Tools, d: Disk, root: bool, terraform: bool, admitted: bool)
    ensures RunOn(tools, d, Check(root, terraform, admitted)).0 == d
    ensures RunOn(tools, d, Check(root, terraform, admitted)).1 == Done <==>
              && admitted && d.journal.NoJournal? && tools.parse(Read(d.manifest)).Some? && (root <==> terraform)
              && (root ==> L.Revision(Read(d.terraform)) == L.Ok(tools.parse(Read(d.manifest)).value.source.revision))
    ensures RunOn(tools, d, Check(root, terraform, admitted)).1 in {Done, Refused}
  {
  }

  /** The order of the writes, seen by dying after each of them. */
  lemma UpgradeStages(d: Disk, b: Body, f: WriteFaults)
    ensures f.journal == CrashAfter ==> WriteOn(d, b, f) == (d.(journal := Journal(b)), Crashed)
    ensures f.journal == Fine && f.terraform == CrashAfter ==>
              WriteOn(d, b, f) == (Disk(d.manifest, b.targetTerraform, Journal(b)), Crashed)
    ensures f.journal == Fine && f.terraform == Fine && f.manifest == CrashAfter ==>
              WriteOn(d, b, f) == (Disk(b.targetManifest, b.targetTerraform, Journal(b)), Crashed)
    ensures f.journal == Fine && f.terraform == Fine && f.manifest == Fine && f.unlink == CrashAfter ==>
              WriteOn(d, b, f) == (Disk(b.targetManifest, b.targetTerraform, NoJournal), Crashed)
  {
  }

  function RunAll(tools: Tools, d: Disk, commands: seq<Command>): Disk
    decreases |commands|
  {
    if commands == [] then d else RunAll(tools, RunOn(tools, d, commands[0]).0, commands[1..])
  }

  /** The manifest and the Terraform file pin the same revision. */
  predicate PinsAgree(tools: Tools, manifest: string, terraform: string) {
    && tools.parse(manifest).Some?
    && L.Revision(terraform) == L.Ok(tools.parse(manifest).value.source.revision)
  }

  /** What holds between commands: the pins agree, or a usable journal whose two sides agree is there. */
  ghost predicate Consistent(tools: Tools, d: Disk) {
    match d.journal
    case NoJournal => PinsAgree(tools, Read(d.manifest), Read(d.terraform))
    case Journal(b) =>
      Usable(tools.paths, d) && PlainBody(b)
      && PinsAgree(tools, b.originalManifest, b.originalTerraform)
      && PinsAgree(tools, b.targetManifest, b.targetTerraform)
    case Unreadable => false
  }

  predicate Protected(command: Command) {
    command.Upgrade? ==> !SplitRollback(command.writes)
  }

  lemma RepinnedIsPlain(text: string, revision: string)
    requires Plain(text) && L.IsSha(revision) && L.Revision(text).Ok?
    ensures L.Replaced(text, revision).Ok? && Plain(L.Replaced(text, revision).value)
  {
    L.ModuleSourceIsSeparable();
    var at := L.ReplaceFrame(L.MODULE_SOURCE, text, revision);
    assert forall i :: 0 <= i < |revision| ==> L.IsHex(revision[i]);
  }

  lemma PlanAgrees(tools: Tools, d: Disk, revision: string, admitted: bool, module_: N.Contract)
    requires RoundTrips(tools) && L.IsSha(revision)
    requires Planned(tools, d, revision, admitted, module_).Some?
    ensures var b := Planned(tools, d, revision, admitted, module_).value;
            PinsAgree(tools, b.targetManifest, b.targetTerraform) && L.Revision(b.targetTerraform) == L.Ok(revision)
    ensures PlainBody(Planned(tools, d, revision, admitted, module_).value)
  {
    var m := tools.parse(Read(d.manifest)).value;
    var repinned := m.(source := m.source.(revision := revision));
    N.RegenerateKeepsSource(tools.hash, tools.accepts, module_, repinned, false);
    L.RefusalsAgree(L.MODULE_SOURCE, Read(d.terraform), revision);
    L.PinLens(Read(d.terraform), revision, revision);
    ReadIsPlain(d.manifest);
    ReadIsPlain(d.terraform);
    RepinnedIsPlain(Read(d.terraform), revision);
    var updated := N.Regenerate(tools.hash, tools.accepts, module_, repinned, false).value;
    assert tools.parse(tools.render(updated)) == Some(updated);
  }

  lemma AtomicIsConsistent(tools: Tools, d: Disk, b: Body)
    requires Atomic(tools.paths, d, b) && PlainBody(b)
    requires PinsAgree(tools, b.originalManifest, b.originalTerraform)
    requires PinsAgree(tools, b.targetManifest, b.targetTerraform)
    ensures Consistent(tools, d)
  {
  }

  lemma PlannedWriteKeepsConsistent(tools: Tools, d: Disk, upgrade: Command)
    requires RoundTrips(tools) && d.journal.NoJournal? && PinsAgree(tools, Read(d.manifest), Read(d.terraform))
    requires upgrade.Upgrade? && Protected(upgrade) && L.IsSha(upgrade.revision)
    requires Planned(tools, d, upgrade.revision, upgrade.admitted, upgrade.module_).Some?
    ensures var b := Planned(tools, d, upgrade.revision, upgrade.admitted, upgrade.module_).value;
            Consistent(tools, WriteOn(d, b, upgrade.writes).0)
  {
    var b := Planned(tools, d, upgrade.revision, upgrade.admitted, upgrade.module_).value;
    PlanAgrees(tools, d, upgrade.revision, upgrade.admitted, upgrade.module_);
    UpgradeIsAtomic(tools.paths, d, b, upgrade.writes);
    AtomicIsConsistent(tools, WriteOn(d, b, upgrade.writes).0, b);
  }

  lemma RegenerateKeepsConsistent(tools: Tools, d: Disk, module_: N.Contract, prune: bool)
    requires RoundTrips(tools) && PinsAgree(tools, Read(d.manifest), Read(d.terraform))
    requires N.Regenerate(tools.hash, tools.accepts, module_, tools.parse(Read(d.manifest)).value, prune).Some?
    ensures var m := tools.parse(Read(d.manifest)).value;
            var text := tools.render(N.Regenerate(tools.hash, tools.accepts, module_, m, prune).value);
            Read(text) == text && PinsAgree(tools, text, Read(d.terraform))
  {
    var m := tools.parse(Read(d.manifest)).value;
    N.RegenerateKeepsSource(tools.hash, tools.accepts, module_, m, prune);
    var updated := N.Regenerate(tools.hash, tools.accepts, module_, m, prune).value;
    assert tools.parse(tools.render(updated)) == Some(updated);
    ReadIsExact(tools.render(updated));
  }

  /** An interrupted upgrade that is undone leaves both files as they were read, and byte for byte as they were
      exactly when neither had a carriage return. */
  lemma UndoneByteForByte(tools: Tools, d: Disk, upgrade: Command, attempts: seq<RecoveryFaults>)
    requires RoundTrips(tools) && upgrade.Upgrade? && L.IsSha(upgrade.revision) && d.journal.NoJournal?
    requires Planned(tools, d, upgrade.revision, upgrade.admitted, upgrade.module_).Some?
    requires var b := Planned(tools, d, upgrade.revision, upgrade.admitted, upgrade.module_).value;
             var interrupted := WriteOn(d, b, upgrade.writes).0;
             interrupted.journal.Journal? && RecoverUntilDone(tools.paths, interrupted, attempts).1 == Done
    ensures var b := Planned(tools, d, upgrade.revision, upgrade.admitted, upgrade.module_).value;
            var (d', _) := RecoverUntilDone(tools.paths, WriteOn(d, b, upgrade.writes).0, attempts);
            && d' == Disk(Read(d.manifest), Read(d.terraform), NoJournal)
            && (d' == d <==> Plain(d.manifest) && Plain(d.terraform))
  {
    var b := Planned(tools, d, upgrade.revision, upgrade.admitted, upgrade.module_).value;
    var interrupted := WriteOn(d, b, upgrade.writes).0;
    PlanAgrees(tools, d, upgrade.revision, upgrade.admitted, upgrade.module_);
    JournaledIsUsable(tools.paths, d, b, upgrade.writes);
    FirstCompletedRecovery(tools.paths, interrupted, attempts);
    ReadIsExact(d.manifest);
    ReadIsExact(d.terraform);
  }

  lemma JournaledIsUsable(paths: Paths, d: Disk, b: Body, f: WriteFaults)
    requires d.journal.NoJournal? && IsOriginal(d, b) && PlainBody(b)
    requires b.manifestPath == paths.manifest && b.terraformPath == paths.terraform
    ensures var d' := WriteOn(d, b, f).0; d'.journal.Journal? ==> d'.journal == Journal(b) && Usable(paths, d')
  {
    PlainBodyReads(b);
    UpgradeIsAtomic(paths, d, b, f);
  }

  lemma RecoveryKeepsConsistent(tools: Tools, d: Disk, f: RecoveryFaults)
    requires Consistent(tools, d)
    ensures Consistent(tools, RecoverOn(tools.paths, d, f).0)
    ensures RecoverOn(tools.paths, d, f).1 == Done ==> RecoverOn(tools.paths, d, f).0.journal.NoJournal?
  {
    if d.journal.Journal? {
      PlainBodyReads(d.journal.body);
      RecoveryStep(tools.paths, d, f);
    }
  }

  lemma UpgradeKeepsConsistent(tools: Tools, d: Disk, command: Command)
    requires RoundTrips(tools) && Consistent(tools, d) && Protected(command) && command.Upgrade?
    ensures Consistent(tools, RunOn(tools, d, command).0)
  {
    RecoveryKeepsConsistent(tools, d, command.recovery);
    var (d1, status) := RecoverOn(tools.paths, d, command.recovery);
    if L.IsSha(command.revision) && status == Done
       && Planned(tools, d1, command.revision, command.admitted, command.module_).Some? {
      PlannedWriteKeepsConsistent(tools, d1, command);
    }
  }

  lemma RegenerationKeepsConsistent(tools: Tools, d: Disk, command: Command)
    requires RoundTrips(tools) && Consistent(tools, d) && command.Regenerate?
    ensures Consistent(tools, RunOn(tools, d, command).0)
  {
    if d.journal.NoJournal? {
      var m := tools.parse(Read(d.manifest)).value;
      if N.Regenerate(tools.hash, tools.accepts, command.module_, m, command.prune).Some? {
        RegenerateKeepsConsistent(tools, d, command.module_, command.prune);
      }
    }
  }

  /** Each command keeps the pins consistent, wherever it fails or dies outside the unprotected window. */
  lemma CommandKeepsConsistent(tools: Tools, d: Disk, command: Command)
    requires RoundTrips(tools) && Consistent(tools, d) && Protected(command)
    ensures Consistent(tools, RunOn(tools, d, command).0)
  {
    match command
    case Upgrade(_, _, _, _, _, _) =>
      UpgradeKeepsConsistent(tools, d, command);
    case Regenerate(_, _, _) =>
      RegenerationKeepsConsistent(tools, d, command);
    case Check(_, _, _) =>
  }

  /** One more command starts from the disk the ones before it left. */
  lemma {:induction false} RunOneMore(tools: Tools, d: Disk, commands: seq<Command>, last: Command)
    ensures RunAll(tools, d, []) == d
    ensures RunAll(tools, d, commands + [last]) == RunOn(tools, RunAll(tools, d, commands), last).0
    decreases |commands|
  {
    if commands != [] {
      assert (commands + [last])[1..] == commands[1..] + [last];
      RunOneMore(tools, RunOn(tools, d, commands[0]).0, commands[1..], last);
    }
  }

  /** Over every history of upgrade, regenerate and check with failures and crashes anywhere outside the
      unprotected window, the two pins agree whenever no journal is there. */
  lemma {:induction false} PinsAgreeOverHistories(tools: Tools, d: Disk, commands: seq<Command>)
    requires RoundTrips(tools) && Consistent(tools, d)
    requires forall c :: c in commands ==> Protected(c)
    ensures Consistent(tools, RunAll(tools, d, commands))
    ensures var d' := RunAll(tools, d, commands);
            d'.journal.NoJournal? ==> PinsAgree(tools, Read(d'.manifest), Read(d'.terraform))
    decreases |commands|
  {
    if commands != [] {
      CommandKeepsConsistent(tools, d, commands[0]);
      PinsAgreeOverHistories(tools, RunOn(tools, d, commands[0]).0, commands[1..]);
    }
  }

  predicate Faultless(upgrade: Command) {
    && upgrade.Upgrade? && upgrade.recovery == RecoveryFaults(Fine, Fine, Fine)
    && upgrade.writes == WriteFaults(Fine, Fine, Fine, Fine, Fine, Fine, Fine)
  }

  lemma FaultlessWrite(d: Disk, b: Body, upgrade: Command)
    requires Faultless(upgrade)
    ensures WriteOn(d, b, upgrade.writes) == (Disk(b.targetManifest, b.targetTerraform, NoJournal), Done)
  {
  }

  /** The disk a fault-free recovery leaves. */
  function Recovered(d: Disk): Disk {
    if d.journal.Journal? then Originals(d.journal.body) else d
  }

  /** The plan the upgrade makes once recovery is over. */
  function PlanFor(tools: Tools, d: Disk, upgrade: Command): Option<Body>
    requires upgrade.Upgrade?
  {
    Planned(tools, Recovered(d), upgrade.revision, upgrade.admitted, upgrade.module_)
  }

  lemma FaultlessRecovery(paths: Paths, d: Disk)
    ensures RecoverOn(paths, d, RecoveryFaults(Fine, Fine, Fine))
            == if d.journal.NoJournal? || Usable(paths, d) then (Recovered(d), Done) else (d, Refused)
  {
  }

  /** From every disk, whatever its pins and however it came about, an upgrade without faults either refuses, exactly
      when its arguments or the journal are unusable or there is no plan, or puts both files at its revision. */
  lemma UpgradeFromAnyDisk(tools: Tools, d: Disk, upgrade: Command)
    requires RoundTrips(tools) && Faultless(upgrade)
    ensures var (d', status) := RunOn(tools, d, upgrade);
            if L.IsSha(upgrade.revision) && upgrade.schemaMatches && (d.journal.NoJournal? || Usable(tools.paths, d))
               && PlanFor(tools, d, upgrade).Some?
            then
              && status == Done && d'.journal.NoJournal? && PinsAgree(tools, d'.manifest, d'.terraform)
              && Plain(d'.manifest) && Plain(d'.terraform) && L.Revision(d'.terraform) == L.Ok(upgrade.revision)
            else status == Refused && d' == if d.journal.Journal? && Usable(tools.paths, d) && L.IsSha(upgrade.revision)
                                               && upgrade.schemaMatches then Recovered(d) else d
  {
    FaultlessRecovery(tools.paths, d);
    if L.IsSha(upgrade.revision) && PlanFor(tools, d, upgrade).Some? {
      PlanAgrees(tools, Recovered(d), upgrade.revision, upgrade.admitted, upgrade.module_);
      FaultlessWrite(Recovered(d), PlanFor(tools, d, upgrade).value, upgrade);
    }
  }

  /** When an upgrade without faults goes through: its arguments pass, a journal that is there can be used, the
      manifest is one, the manifest at the new revision satisfies the module, and the Terraform file pins exactly one
      revision. */
  lemma UpgradeSucceeds(tools: Tools, d: Disk, upgrade: Command)
    requires RoundTrips(tools) && Faultless(upgrade)
    ensures RunOn(tools, d, upgrade).1 == Done <==>
              && L.IsSha(upgrade.revision) && upgrade.schemaMatches && upgrade.admitted
              && (d.journal.NoJournal? || Usable(tools.paths, d))
              && L.Revision(TerraformBefore(d)).Ok? && tools.parse(ManifestBefore(d)).Some?
              && var m := tools.parse(ManifestBefore(d)).value;
              && var repinned := m.(source := m.source.(revision := upgrade.revision));
              && N.Satisfies(tools.accepts, upgrade.module_, repinned)
  {
    UpgradeFromAnyDisk(tools, d, upgrade);
    if tools.parse(ManifestBefore(d)).Some? {
      var m := tools.parse(ManifestBefore(d)).value;
      var repinned := m.(source := m.source.(revision := upgrade.revision));
      N.RegenerateSucceeds(tools.hash, tools.accepts, upgrade.module_, repinned);
    }
    if L.IsSha(upgrade.revision) {
      L.RefusalsAgree(L.MODULE_SOURCE, TerraformBefore(d), upgrade.revision);
    }
  }

  /** Each file reads as one of the two texts the plan has for it. */
  predicate Mixed(d: Disk, b: Body) {
    && (Read(d.manifest) == b.originalManifest || Read(d.manifest) == b.targetManifest)
    && (Read(d.terraform) == b.originalTerraform || Read(d.terraform) == b.targetTerraform)
  }

  lemma RollBackLeavesMixed(d: Disk, b: Body, f: WriteFaults)
    requires Mixed(d, b) && PlainBody(b) && (d.journal.NoJournal? || d.journal == Journal(b))
    ensures var d' := RollBackOn(d, b, f).0; Mixed(d', b) && (d'.journal.NoJournal? || d'.journal == Journal(b))
  {
    PlainBodyReads(b);
    RolledBack(d, b, f);
  }

  lemma SetLeavesMixed(d: Disk, b: Body, f: Fault)
    requires Mixed(d, b) && PlainBody(b)
    ensures Mixed(SetTerraform(d, b.targetTerraform, f), b) && Mixed(SetManifest(d, b.targetManifest, f), b)
    ensures forall j :: Mixed(SetJournal(d, j, f), b)
  {
    PlainBodyReads(b);
  }

  /** Wherever a planned upgrade ended, the files hold texts of its plan, and its journal is the only one. */
  lemma WriteLeavesMixed(d: Disk, b: Body, f: WriteFaults)
    requires d.journal.NoJournal? && IsOriginal(d, b) && PlainBody(b)
    ensures var d' := WriteOn(d, b, f).0; Mixed(d', b) && (d'.journal.NoJournal? || d'.journal == Journal(b))
  {
    var d1 := SetJournal(d, Journal(b), f.journal);
    var d2 := SetTerraform(d1, b.targetTerraform, f.terraform);
    var d3 := SetManifest(d2, b.targetManifest, f.manifest);
    var d4 := SetJournal(d3, NoJournal, f.unlink);
    SetLeavesMixed(d, b, f.journal);
    SetLeavesMixed(d1, b, f.terraform);
    SetLeavesMixed(d2, b, f.manifest);
    SetLeavesMixed(d3, b, f.unlink);
    if !f.journal.Fine? {
      RollBackLeavesMixed(d1, b, f);
    } else if !f.terraform.Fine? {
      RollBackLeavesMixed(d2, b, f);
    } else if !f.manifest.Fine? {
      RollBackLeavesMixed(d3, b, f);
    } else {
      RollBackLeavesMixed(d4, b, f);
    }
  }

  /** The plan made from mixed files has the same targets: regenerating a regenerated manifest and repinning a
      repinned Terraform text change nothing. */
  lemma SameTargets(tools: Tools, d: Disk, mixed: Disk, revision: string, admitted: bool, module_: N.Contract)
    requires RoundTrips(tools) && L.IsSha(revision) && N.WellFormed(module_)
    requires Planned(tools, d, revision, admitted, module_).Some?
    requires Mixed(mixed, Planned(tools, d, revision, admitted, module_).value)
    ensures var b := Planned(tools, d, revision, admitted, module_).value;
            var again := Planned(tools, mixed, revision, admitted, module_);
            again.Some? && again.value.targetManifest == b.targetManifest
            && again.value.targetTerraform == b.targetTerraform
  {
    var b := Planned(tools, d, revision, admitted, module_).value;
    var m := tools.parse(Read(d.manifest)).value;
    var repinned := m.(source := m.source.(revision := revision));
    var updated := N.Regenerate(tools.hash, tools.accepts, module_, repinned, false).value;
    N.RegenerateKeepsSource(tools.hash, tools.accepts, module_, repinned, false);
    N.RegenerateIdempotent(tools.hash, tools.accepts, module_, repinned);
    assert tools.parse(tools.render(updated)) == Some(updated);
    assert updated.(source := updated.source.(revision := revision)) == updated;
    L.RefusalsAgree(L.MODULE_SOURCE, Read(d.terraform), revision);
    L.PinLens(Read(d.terraform), revision, revision);
  }

  /** Wherever an upgrade failed or died, inside the unprotected window too, running it again without faults and with
      its checks passing ends with exactly the two files it was going to write. */
  lemma UpgradeConverges(tools: Tools, d: Disk, upgrade: Command, again: Command)
    requires RoundTrips(tools) && upgrade.Upgrade? && d.journal.NoJournal?
    requires L.IsSha(upgrade.revision) && N.WellFormed(upgrade.module_)
    requires Planned(tools, d, upgrade.revision, upgrade.admitted, upgrade.module_).Some?
    requires Faultless(again) && again.schemaMatches && again.admitted
    requires again.revision == upgrade.revision && again.module_ == upgrade.module_
    ensures var b := Planned(tools, d, upgrade.revision, upgrade.admitted, upgrade.module_).value;
            RunOn(tools, WriteOn(d, b, upgrade.writes).0, again)
            == (Disk(b.targetManifest, b.targetTerraform, NoJournal), Done)
  {
    var b := Planned(tools, d, upgrade.revision, upgrade.admitted, upgrade.module_).value;
    var d' := WriteOn(d, b, upgrade.writes).0;
    PlanAgrees(tools, d, upgrade.revision, upgrade.admitted, upgrade.module_);
    PlainBodyReads(b);
    WriteLeavesMixed(d, b, upgrade.writes);
    assert Mixed(Recovered(d'), b);
    SameTargets(tools, d, Recovered(d'), upgrade.revision, upgrade.admitted, upgrade.module_);
    FaultlessWrite(Recovered(d'), PlanFor(tools, d', again).value, again);
  }

  // The files on disk

  /** A file and the temporary files beside it. */
  class TargetFile {
    var content: string
    var temporaries: seq<Temporary<string>>

    constructor (content: string)
      ensures Contents() == Slot(content, [])
    {
      this.content, temporaries := content, [];
    }

    function Contents(): Slot<string>
      reads this
    {
      Slot(content, temporaries)
    }

    method UnlinkTemporary(left: seq<Temporary<string>>, raising: bool, unlink: Call) returns (status: Status)
      modifies this`temporaries
      ensures (Contents(), status) == Clean(old(Contents()), left, raising, unlink)
    {
      match unlink {
        case Passes =>
          temporaries := left;
          status := if raising then Failed else Done;
        case Errs =>
          status := Failed;
        case Dies =>
          status := Crashed;
      }
    }

    /** `atomic_write_text`, call by call. */
    method Replace(text: string, calls: Calls) returns (status: Status)
      modifies this
      ensures (Contents(), status) == AtomicWrite(old(Contents()), text, calls)
    {
      var left := temporaries;
      if calls.create != Passes {
        return if calls.create == Dies then Crashed else Failed;
      }
      temporaries := left + [Part(calls.filled)];
      if calls.fill != Passes {
        return if calls.fill == Dies then Crashed else Failed;
      }
      temporaries := left + [Whole(text)];
      if calls.chmod == Dies || (calls.chmod == Passes && calls.rename == Dies) {
        return Crashed;
      }
      if calls.chmod == Errs || calls.rename == Errs {
        status := UnlinkTemporary(left, true, calls.unlink);
        return;
      }
      content, temporaries := text, left;
      if calls.sync == Dies {
        return Crashed;
      }
      status := UnlinkTemporary(left, calls.sync == Errs, calls.unlink);
    }
  }

  class Workspace {
    const paths: Paths
    var manifest: string
    var terraform: string
    var journal: JournalFile

    constructor (paths: Paths, manifest: string, terraform: string)
      ensures this.paths == paths && Contents() == Disk(manifest, terraform, NoJournal)
    {
      this.paths, this.manifest, this.terraform, journal := paths, manifest, terraform, NoJournal;
    }

    function Contents(): Disk
      reads this
    {
      Disk(manifest, terraform, journal)
    }

    /** `atomic_write_text` on each of the three files, by the way it ends. */
    method ReplaceManifest(text: string, f: Fault) returns (status: Status)
      modifies this`manifest
      ensures Contents() == SetManifest(old(Contents()), text, f)
      ensures status == StatusOf(f)
    {
      if TakesEffect(f) {
        manifest := text;
      }
      status := StatusOf(f);
    }

    method ReplaceTerraform(text: string, f: Fault) returns (status: Status)
      modifies this`terraform
      ensures Contents() == SetTerraform(old(Contents()), text, f)
      ensures status == StatusOf(f)
    {
      if TakesEffect(f) {
        terraform := text;
      }
      status := StatusOf(f);
    }

    method ReplaceJournal(file: JournalFile, f: Fault) returns (status: Status)
      modifies this`journal
      ensures Contents() == SetJournal(old(Contents()), file, f)
      ensures status == StatusOf(f)
    {
      if TakesEffect(f) {
        journal := file;
      }
      status := StatusOf(f);
    }

    /** `recover_incomplete_upgrade`. */
    method Recover(f: RecoveryFaults) returns (status: Status)
      modifies this
      ensures (Contents(), status) == RecoverOn(paths, old(Contents()), f)
    {
      match journal {
        case NoJournal =>
          return Done;
        case Unreadable =>
          return Refused;
        case Journal(body) =>
          if body.manifestPath != paths.manifest || body.terraformPath != paths.terraform {
            return Refused;
          }
          if Read(manifest) != body.originalManifest && Read(manifest) != body.targetManifest {
            return Refused;
          }
          if Read(terraform) != body.originalTerraform && Read(terraform) != body.targetTerraform {
            return Refused;
          }
          status := ReplaceManifest(body.originalManifest, f.manifest);
          if status == Done {
            status := ReplaceTerraform(body.originalTerraform, f.terraform);
          }
          if status == Done {
            status := ReplaceJournal(NoJournal, f.unlink);
          }
      }
    }

    /** The writes of `command_upgrade` with its exception handler: undo what can be undone, and drop the
        journal only when both files are back. */
    method Write(b: Body, f: WriteFaults) returns (status: Status)
      modifies this
      ensures (Contents(), status) == WriteOn(old(Contents()), b, f)
    {
      status := ReplaceJournal(Journal(b), f.journal);
      if status == Done {
        status := ReplaceTerraform(b.targetTerraform, f.terraform);
      }
      if status == Done {
        status := ReplaceManifest(b.targetManifest, f.manifest);
      }
      if status == Done {
        status := ReplaceJournal(NoJournal, f.unlink);
      }
      if status != Failed {
        return;
      }
      var restoreErrors := 0;
      status := ReplaceTerraform(b.originalTerraform, f.backTerraform);
      if status == Crashed {
        return;
      } else if status == Failed {
        restoreErrors := restoreErrors + 1;
      }
      status := ReplaceManifest(b.originalManifest, f.backManifest);
      if status == Crashed {
        return;
      } else if status == Failed {
        restoreErrors := restoreErrors + 1;
      }
      if restoreErrors == 0 {
        status := ReplaceJournal(NoJournal, f.backUnlink);
        if status == Crashed {
          return;
        }
      }
      status := Failed;
    }

    /** `command_upgrade`, `command_regenerate` and `command_check`. */
    method Run(tools: Tools, command: Command) returns (status: Status)
      requires tools.paths == paths
      modifies this
      ensures (Contents(), status) == RunOn(tools, old(Contents()), command)
    {
      match command {
        case Upgrade(revision, schemaMatches, admitted, module_, recovery, writes) =>
          if !L.IsSha(revision) || !schemaMatches {
            return Refused;
          }
          status := Recover(recovery);
          if status != Done {
            return;
          }
          var plan := Planned(tools, Contents(), revision, admitted, module_);
          if plan.None? {
            return Refused;
          }
          status := Write(plan.value, writes);
        case Regenerate(module_, prune, write) =>
          if !journal.NoJournal? {
            return Refused;
          }
          var parsed := tools.parse(Read(manifest));
          if parsed.None? {
            return Refused;
          }
          var updated := N.Regenerate(tools.hash, tools.accepts, module_, parsed.value, prune);
          if updated.None? {
            return Refused;
          }
          status := ReplaceManifest(tools.render(updated.value), write);
        case Check(root, named, admitted) =>
          if !journal.NoJournal? || tools.parse(Read(manifest)).None? || !admitted {
            return Refused;
          }
          if root || named {
            if !root || !named {
              return Refused;
            }
            if !PinsAgree(tools, Read(manifest), Read(terraform)) {
              return Refused;
            }
          }
          return Done;
      }
    }
  }
}
