/** The repair on the text of a file.  A written line reads back as what the repair took it for, so
    the lines of a repaired file are those that reading its text gives. */
module WorkflowTexts {
  import opened WorkflowLine
  import opened WorkflowBlock
  import opened WorkflowPermissions
  import opened WorkflowJob
  import opened WorkflowText
  import opened WorkflowFile
  import opened WorkflowInputs
  import opened WorkflowTwice

  // ---------- A property of all lines that the repair keeps ----------

  type Test = Line -> bool

  predicate All(lines: seq<Line>, ok: Test) {
    forall line :: line in lines ==> ok(line)
  }

  ghost predicate GrantsPass(perms: seq<Permission>, ok: Test) {
    forall n, p :: p in perms ==> ok(Grant(n, p))
  }

  ghost predicate OpeningsPass(key: string, ok: Test) {
    forall n :: ok(OpeningLine(n, key))
  }

  ghost predicate EntriesPass(key: string, value: string, ok: Test) {
    forall n :: ok(EntryLine(n, key, value))
  }

  lemma FixedPasses(kids: seq<Line>, perms: seq<Permission>, ok: Test)
    requires All(kids, ok) && Required(perms) && GrantsPass(perms, ok)
    ensures All(Fixed(kids, perms), ok)
  {
    forall i | 0 <= i < |kids|
      ensures ok(FixedLine(kids, perms, i))
    {
      FixedLineReads(kids, perms, i);
      assert kids[i] in kids;
    }
  }

  lemma {:induction false} MissingPasses(kids: seq<Line>, perms: seq<Permission>, indent: nat, ok: Test)
    requires Required(perms) && GrantsPass(perms, ok)
    ensures All(Missing(kids, perms, indent), ok)
  {
    MissingReads(kids, perms, indent);
  }

  lemma RepairedPasses(kids: seq<Line>, n: nat, perms: seq<Permission>, ok: Test)
    requires All(kids, ok) && Required(perms) && GrantsPass(perms, ok)
    ensures All(Repaired(kids, n, perms), ok)
  {
    FixedPasses(kids, perms, ok);
    MissingPasses(kids, perms, ChildIndent(kids, n), ok);
  }

  lemma RepairSidePasses(lines: seq<Line>, i: nat, n: nat, perms: seq<Permission>, ok: Test)
    requires i < |lines| && All(lines, ok) && Required(perms) && GrantsPass(perms, ok)
    ensures All(RepairSide(lines, i, n, perms), ok)
  {
    if lines[i].block {
      var rest := WithKidsParts(lines, i, n, Repaired(Kids(lines, i, n), n, perms));
      RepairedPasses(Kids(lines, i, n), n, perms, ok);
    }
  }

  /** The edit keeps the property of every line of a job. */
  ghost predicate Keeps(edit: Edit, ok: Test) {
    forall job: Job :: All(JobText(job), ok) ==> All(JobText(edit(job)), ok)
  }

  lemma PermissionsPass(job: Job, perms: seq<Permission>, ok: Test)
    requires Required(perms) && GrantsPass(perms, ok) && OpeningsPass("permissions", ok) && All(JobText(job), ok)
    ensures All(JobText(RepairPermissions(job, perms)), ok)
  {
    var now := RepairPermissions(job, perms);
    match Locate(job, "permissions") {
      case Nowhere =>
        assert All(Grants(perms, InnerIndent(job)), ok);
      case Above(i) => RepairSidePasses(job.above, i, job.child, perms, ok);
      case Below(i) => RepairSidePasses(job.below, i, job.child, perms, ok);
    }
  }

  lemma UpsertPasses(job: Job, key: string, value: string, ok: Test)
    requires All(JobText(job), ok) && OpeningsPass("with", ok) && EntriesPass(key, value, ok)
    ensures All(JobText(UpsertWith(job, key, value)), ok)
  {
    var x, gone, put, y := OtherLinesSurvive(job, key, value);
  }

  lemma CgoPasses(job: Job, clean: string -> string, cgo: map<string, string>, ok: Test)
    requires All(JobText(job), ok) && OpeningsPass("with", ok)
    requires forall d :: d in cgo ==> EntriesPass("cgo", cgo[d], ok)
    ensures All(JobText(SyncCgo(job, clean, cgo)), ok)
  {
    match WithEntries(job)
    case None =>
    case Some(m) =>
      match WantedCgo(m, clean, cgo)
      case None =>
      case Some(value) => UpsertPasses(job, "cgo", value, ok);
  }

  // ---------- Passes over a file ----------

  lemma {:induction false} PassKeeps(lines: seq<Line>, us: seq<nat>, edit: Edit, ok: Test)
    requires All(lines, ok) && Keeps(edit, ok)
    ensures All(Pass(lines, us, edit), ok)
  {
    if us != [] {
      PassKeeps(lines, us[1..], edit, ok);
      var rest := Pass(lines, us[1..], edit);
    }
  }

  ghost predicate WritesPass(perms: seq<Permission>, cgo: map<string, string>, ok: Test) {
    && GrantsPass(perms, ok) && OpeningsPass("permissions", ok) && OpeningsPass("with", ok)
    && EntriesPass("secrets", "inherit", ok) && forall d :: d in cgo ==> EntriesPass("cgo", cgo[d], ok)
  }

  lemma RepairKeeps(lines: seq<Line>, perms: seq<Permission>, clean: string -> string, cgo: map<string, string>,
                    ok: Test)
    requires Required(perms) && WritesPass(perms, cgo, ok) && All(lines, ok)
    ensures All(RepairFile(lines, perms, clean, cgo), ok)
  {
    forall job: Job | All(JobText(job), ok)
      ensures All(JobText(RepairPermissions(job, perms)), ok) && All(JobText(EnsureSecrets(job)), ok)
      ensures All(JobText(SyncCgo(job, clean, cgo)), ok)
    {
      PermissionsPass(job, perms, ok);
      CgoPasses(job, clean, cgo, ok);
    }
    var p := PassAll(lines, PermissionsEdit(perms));
    PassKeeps(lines, CallsFrom(lines, 0), PermissionsEdit(perms), ok);
    var q := PassAll(p, SecretsEdit());
    PassKeeps(p, CallsFrom(p, 0), SecretsEdit(), ok);
    PassKeeps(q, CallsFrom(q, 0), CgoEdit(clean, cgo), ok);
  }

  // ---------- Files of text ----------

  function Texts(lines: seq<Line>): (texts: seq<string>)
    ensures |texts| == |lines|
    ensures forall i :: 0 <= i < |lines| ==> texts[i] == lines[i].text
  {
    seq(|lines|, i requires 0 <= i < |lines| => lines[i].text)
  }

  /** The pipeline from the lines of a file to the lines of the repaired file. */
  function RepairTexts(texts: seq<string>, ref: string, perms: seq<Permission>,
                       clean: string -> string, cgo: map<string, string>): seq<string> {
    Texts(RepairFile(ReadAll(texts, ref), perms, clean, cgo))
  }

  /** The repair writes plain words. */
  ghost predicate PlainGrants(perms: seq<Permission>) {
    forall p :: p in perms ==> Word(p.key) && Word(p.value) && p.key != "uses"
  }

  ghost predicate PlainValues(cgo: map<string, string>) {
    forall d :: d in cgo ==> Word(cgo[d])
  }

  /** The line is what its text reads as. */
  function IsRead(ref: string): Test {
    (line: Line) => line == Read(line.text, ref)
  }

  lemma FaithfulReadsBack(lines: seq<Line>, ref: string)
    requires All(lines, IsRead(ref))
    ensures ReadAll(Texts(lines), ref) == lines
  {
    assert forall i :: 0 <= i < |lines| ==> lines[i] in lines && IsRead(ref)(lines[i]);
  }

  lemma EntriesAreRead(key: string, value: string, ref: string)
    requires Word(key) && Word(value) && key != "uses"
    ensures EntriesPass(key, value, IsRead(ref))
  {
    forall n: nat
      ensures IsRead(ref)(EntryLine(n, key, value))
    {
      EntryIsRead(n, key, value, ref);
    }
  }

  lemma OpeningsAreRead(key: string, ref: string)
    requires Word(key) && key != "uses"
    ensures OpeningsPass(key, IsRead(ref))
  {
    forall n: nat
      ensures IsRead(ref)(OpeningLine(n, key))
    {
      OpeningIsRead(n, key, ref);
    }
  }

  lemma GrantsAreRead(perms: seq<Permission>, ref: string)
    requires PlainGrants(perms)
    ensures GrantsPass(perms, IsRead(ref))
  {
    forall n: nat, p | p in perms
      ensures IsRead(ref)(Grant(n, p))
    {
      EntryIsRead(n, p.key, p.value, ref);
    }
  }

  lemma ValuesAreRead(cgo: map<string, string>, ref: string)
    requires PlainValues(cgo)
    ensures forall d :: d in cgo ==> EntriesPass("cgo", cgo[d], IsRead(ref))
  {
    forall d | d in cgo
      ensures EntriesPass("cgo", cgo[d], IsRead(ref))
    {
      EntriesAreRead("cgo", cgo[d], ref);
    }
  }

  lemma WritesAreRead(perms: seq<Permission>, cgo: map<string, string>, ref: string)
    requires PlainGrants(perms) && PlainValues(cgo)
    ensures WritesPass(perms, cgo, IsRead(ref))
  {
    hide IsRead, GrantsPass, OpeningsPass;
    GrantsAreRead(perms, ref);
    ValuesAreRead(cgo, ref);
    OpeningsAreRead("permissions", ref);
    OpeningsAreRead("with", ref);
    EntriesAreRead("secrets", "inherit", ref);
  }

  /** Reading the repaired text gives the repaired lines. */
  lemma RepairedTextReadsBack(texts: seq<string>, ref: string, perms: seq<Permission>,
                              clean: string -> string, cgo: map<string, string>)
    requires Required(perms) && PlainGrants(perms) && PlainValues(cgo)
    ensures ReadAll(RepairTexts(texts, ref, perms, clean, cgo), ref) == RepairFile(ReadAll(texts, ref), perms, clean, cgo)
  {
    var lines := ReadAll(texts, ref);
    WritesAreRead(perms, cgo, ref);
    RepairKeeps(lines, perms, clean, cgo, IsRead(ref));
    FaithfulReadsBack(RepairFile(lines, perms, clean, cgo), ref);
  }

  /** Repairing a repaired file changes no byte of any line exactly when every caller job of the original
      file settles. */
  lemma TextRepairTwiceIff(texts: seq<string>, ref: string, perms: seq<Permission>,
                           clean: string -> string, cgo: map<string, string>)
    requires OwnJobs(ReadAll(texts, ref)) && Required(perms) && PlainGrants(perms) && PlainValues(cgo)
    ensures var once := RepairTexts(texts, ref, perms, clean, cgo);
            RepairTexts(once, ref, perms, clean, cgo) == once <==> AllSettle(ReadAll(texts, ref), perms, clean, cgo)
  {
    hide OwnJobs, PlainGrants, PlainValues, RepairFile, AllSettle, Required;
    var once := RepairTexts(texts, ref, perms, clean, cgo);
    RepairedTextReadsBack(texts, ref, perms, clean, cgo);
    RepairedTextReadsBack(once, ref, perms, clean, cgo);
    RepairFileTwiceIff(ReadAll(texts, ref), perms, clean, cgo);
  }
}
