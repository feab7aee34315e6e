/** The sections of a file: they are found in every file whose uses lines have jobs of their own, and
    again after a repair. */
module WorkflowFile {
  import opened WorkflowLine
  import opened WorkflowBlock
  import opened WorkflowPermissions
  import opened WorkflowJob
  import opened WorkflowIdempotence
  import opened WorkflowText

  // ---------- A repaired job is still a caller job ----------

  predicate Fresh(line: Line, n: nat) {
    !line.skip && !line.calls && line.indent >= n
  }

  /** Every line is an old one or a new one at least as deep as `n`. */
  ghost predicate FromOld(now: seq<Line>, was: seq<Line>, n: nat) {
    forall line :: line in now ==> line in was || Fresh(line, n)
  }

  lemma RepairedLines(kids: seq<Line>, n: nat, perms: seq<Permission>)
    requires Required(perms) && AllKids(kids, n)
    ensures FromOld(Repaired(kids, n, perms), kids, n)
  {
    var indent := ChildIndent(kids, n);
    var fixed, missing, at := Fixed(kids, perms), Missing(kids, perms, indent), ContentEnd(kids);
    var r := Repaired(kids, n, perms);
    MissingReads(kids, perms, indent);
    assert FirstContent(kids) < |kids| ==> kids[FirstContent(kids)] in kids;
    forall line | line in r
      ensures line in kids || Fresh(line, n)
    {
      var j :| 0 <= j < |r| && r[j] == line;
      if at <= j < at + |missing| {
        assert r[j] in missing;
      } else {
        var i := if j < at then j else j - |missing|;
        FixedLineReads(kids, perms, i);
        assert kids[i] in kids;
      }
    }
  }

  lemma WithKidsLines(lines: seq<Line>, i: nat, n: nat, kids: seq<Line>)
    requires i < |lines| && FromOld(kids, Kids(lines, i, n), n)
    ensures FromOld(WithKids(lines, i, n, kids), lines, n)
    ensures WithKids(lines, i, n, kids)[..i + 1] == lines[..i + 1]
  {
    var was := Kids(lines, i, n);
    forall line | line in kids
      ensures line in lines || Fresh(line, n)
    {
      if line in was {
        var j :| 0 <= j < |was| && was[j] == line;
        assert lines[i + 1..][j] == line;
      }
    }
  }

  lemma RepairSideLines(lines: seq<Line>, i: nat, n: nat, perms: seq<Permission>)
    requires i < |lines| && Required(perms)
    ensures FromOld(RepairSide(lines, i, n, perms), lines, n)
    ensures |RepairSide(lines, i, n, perms)| > i && RepairSide(lines, i, n, perms)[..i + 1] == lines[..i + 1]
  {
    if lines[i].block {
      var rest := SplitAt(lines, i, n);
      RepairedLines(Kids(lines, i, n), n, perms);
      WithKidsLines(lines, i, n, Repaired(Kids(lines, i, n), n, perms));
    }
  }

  lemma UpsertSideLines(lines: seq<Line>, i: nat, n: nat, key: string, value: string)
    requires i < |lines|
    ensures FromOld(UpsertSide(lines, i, n, key, value), lines, n)
    ensures |UpsertSide(lines, i, n, key, value)| > i && UpsertSide(lines, i, n, key, value)[..i + 1] == lines[..i + 1]
  {
    if lines[i].block {
      var kids := Kids(lines, i, n);
      var rest := SplitAt(lines, i, n);
      var a, gone, b := UpsertReadsBack(kids, n, key, value);
      PlacedKeepsKids(kids, n, key, EntryLine(ChildIndent(kids, n), key, value));
      WithKidsLines(lines, i, n, Upsert(kids, n, key, value));
    }
  }

  lemma PermissionsKeepShape(job: Job, perms: seq<Permission>)
    requires Shaped(job) && Required(perms)
    ensures Shaped(RepairPermissions(job, perms))
  {
    match Locate(job, "permissions")
    case Nowhere =>
    case Above(i) => RepairSideLines(job.above, i, job.child, perms);
    case Below(i) => RepairSideLines(job.below, i, job.child, perms);
  }

  lemma SecretsKeepShape(job: Job)
    requires Shaped(job)
    ensures Shaped(EnsureSecrets(job))
  {
  }

  lemma NewWithBelow(job: Job, block: seq<Line>, i: nat)
    requires Fitting(job) && forall line :: line in block ==> Fresh(line, job.child)
    requires i < |job.below| && !job.below[i].skip
    ensures BlockEnd(job.below, i, job.child) <= |job.below|
    ensures var now := job.(below := Inserted(job.below, BlockEnd(job.below, i, job.child), block));
            Fitting(now) && (Shaped(job) ==> Shaped(now))
  {
    var at := BlockEnd(job.below, i, job.child);
    var below := Inserted(job.below, at, block);
    assert below[..i + 1] == job.below[..i + 1];
  }

  lemma NewWithKeepsShape(job: Job, block: seq<Line>)
    requires Fitting(job) && IsWithBlock(block, job.child) && forall line :: line in block ==> Fresh(line, job.child)
    ensures Fitting(NewWith(job, block)) && (Shaped(job) ==> Shaped(NewWith(job, block)))
  {
    match Locate(job, "permissions")
    case Nowhere =>
    case Above(i) =>
    case Below(i) => NewWithBelow(job, block, i);
  }

  lemma UpsertKeepsShape(job: Job, key: string, value: string)
    requires Fitting(job)
    ensures Fitting(UpsertWith(job, key, value)) && (Shaped(job) ==> Shaped(UpsertWith(job, key, value)))
  {
    match Locate(job, "with")
    case Nowhere => NewWithKeepsShape(job, NewBlock(job, key, value));
    case Above(i) =>
      UpsertSideLines(job.above, i, job.child, key, value);
    case Below(i) =>
      UpsertSideLines(job.below, i, job.child, key, value);
  }

  lemma CgoKeepsShape(job: Job, clean: string -> string, cgo: map<string, string>)
    requires Shaped(job)
    ensures Shaped(SyncCgo(job, clean, cgo))
  {
    match WithEntries(job)
    case None =>
    case Some(m) =>
      match WantedCgo(m, clean, cgo)
      case None =>
      case Some(value) => UpsertKeepsShape(job, "cgo", value);
  }

  /** The edit turns caller jobs into caller jobs with the same header. */
  ghost predicate KeepsShape(edit: Edit) {
    forall job: Job :: Shaped(job) ==> Shaped(edit(job)) && edit(job).parent == job.parent
  }

  lemma PermissionsEditKeepsShape(perms: seq<Permission>)
    requires Required(perms)
    ensures KeepsShape(PermissionsEdit(perms))
  {
    forall job: Job | Shaped(job)
      ensures Shaped(RepairPermissions(job, perms)) && RepairPermissions(job, perms).parent == job.parent
    {
      PermissionsKeepShape(job, perms);
    }
  }

  lemma SecretsEditKeepsShape()
    ensures KeepsShape(SecretsEdit())
  {
    forall job: Job | Shaped(job)
      ensures Shaped(EnsureSecrets(job)) && EnsureSecrets(job).parent == job.parent
    {
      SecretsKeepShape(job);
    }
  }

  lemma CgoEditKeepsShape(clean: string -> string, cgo: map<string, string>)
    ensures KeepsShape(CgoEdit(clean, cgo))
  {
    forall job: Job | Shaped(job)
      ensures Shaped(SyncCgo(job, clean, cgo)) && SyncCgo(job, clean, cgo).parent == job.parent
    {
      CgoKeepsShape(job, clean, cgo);
    }
  }

  lemma EditsKeepShape(perms: seq<Permission>, clean: string -> string, cgo: map<string, string>)
    requires Required(perms)
    ensures KeepsShape(PermissionsEdit(perms)) && KeepsShape(SecretsEdit()) && KeepsShape(CgoEdit(clean, cgo))
  {
    PermissionsEditKeepsShape(perms);
    SecretsEditKeepsShape();
    CgoEditKeepsShape(clean, cgo);
  }

  lemma {:induction false} SectionsKeepShape(edit: Edit, ss: seq<Section>, tail: seq<Line>)
    requires KeepsShape(edit) && ShapedSections(ss, tail)
    ensures ShapedSections(ApplyAll(edit, ss), tail)
    decreases |ss|
  {
    if ss != [] {
      SectionsKeepShape(edit, ss[1..], tail);
      ClosedAfterEdit(edit, ss[1..], tail, ss[0].job.parent);
      var now := ApplyAll(edit, ss);
      assert now[0] == ApplySection(edit, ss[0]) && now[1..] == ApplyAll(edit, ss[1..]);
    }
  }

  // ---------- Finding the sections of a file ----------

  /** The uses line `u` has a job of its own: a header above it, and no other uses line in the body. */
  ghost predicate OwnJob(lines: seq<Line>, u: nat)
    requires u < |lines|
  {
    var h := HeaderAbove(lines, u, lines[u].indent);
    h >= 0 && OwnJobBelow(lines, h, u)
  }

  ghost predicate OwnJobBelow(lines: seq<Line>, h: nat, u: nat)
    requires h < u < |lines|
  {
    && UsesLine(lines[u]) && !lines[h].calls
    && (forall i :: h < i < BodyEnd(lines, u, lines[h].indent) && i != u ==> !lines[i].calls)
  }

  ghost predicate OwnJobs(lines: seq<Line>) {
    forall u :: 0 <= u < |lines| && lines[u].calls ==> OwnJob(lines, u)
  }

  function FirstCall(lines: seq<Line>): (u: nat)
    ensures u <= |lines|
    ensures u < |lines| ==> lines[u].calls
    ensures forall i :: 0 <= i < u ==> !lines[i].calls
  {
    if lines == [] || lines[0].calls then 0 else 1 + FirstCall(lines[1..])
  }

  /** Two uses lines with jobs of their own: the second job starts behind the first. */
  lemma {:induction false} NextJobIsBehind(lines: seq<Line>, h: nat, u: nat, e: nat, k: nat, v: nat)
    requires h < u < v < |lines| && lines[u].calls && lines[v].calls
    requires OwnJobBelow(lines, h, u) && e == BodyEnd(lines, u, lines[h].indent)
    requires k < v && HeaderAbove(lines, v, lines[v].indent) == k && OwnJobBelow(lines, k, v)
    ensures e <= k
  {
  }

  lemma OneJobInTail(lines: seq<Line>, rest: seq<Line>, h: nat, u: nat, e: nat, w: nat)
    requires h < u < e <= w < |lines| && lines[u].calls && lines[w].calls && rest == lines[e..]
    requires OwnJobBelow(lines, h, u) && e == BodyEnd(lines, u, lines[h].indent)
    requires OwnJob(lines, w)
    ensures OwnJob(rest, w - e)
  {
    var k := HeaderAbove(lines, w, lines[w].indent);
    assert e <= k by {
      NextJobIsBehind(lines, h, u, e, k, w);
    }
    JobShifts(lines, rest, e, w, k);
  }

  lemma TailHasOwnJobs(lines: seq<Line>, rest: seq<Line>, h: nat, u: nat, e: nat)
    requires OwnJobs(lines) && h < u < |lines| && lines[u].calls
    requires OwnJobBelow(lines, h, u)
    requires e == BodyEnd(lines, u, lines[h].indent) && rest == lines[e..]
    ensures OwnJobs(rest)
  {
    forall v | 0 <= v < |rest| && rest[v].calls
      ensures OwnJob(rest, v)
    {
      assert OwnJob(lines, e + v);
      OneJobInTail(lines, rest, h, u, e, e + v);
    }
  }

  lemma {:induction false} HeaderInTail(lines: seq<Line>, rest: seq<Line>, e: nat, v: nat, indent: nat)
    requires e <= v <= |lines| && rest == lines[e..] && HeaderAbove(lines, v, indent) >= e
    ensures HeaderAbove(rest, v - e, indent) == HeaderAbove(lines, v, indent) - e
  {
    assert v > e;
    var line := lines[v - 1];
    assert rest[v - e - 1] == line;
    if line.skip || line.indent >= indent {
      HeaderInTail(lines, rest, e, v - 1, indent);
    }
  }

  lemma {:induction false} JobShifts(lines: seq<Line>, rest: seq<Line>, e: nat, v: nat, h: nat)
    requires e <= h < v < |lines| && rest == lines[e..]
    requires HeaderAbove(lines, v, lines[v].indent) == h && OwnJobBelow(lines, h, v)
    ensures OwnJob(rest, v - e)
  {
    HeaderInTail(lines, rest, e, v, lines[v].indent);
    JobInTail(lines, rest, e, v, h);
    assert rest[v - e] == lines[v];
  }

  lemma JobAtInTail(lines: seq<Line>, rest: seq<Line>, e: nat, h: nat, v: nat)
    requires e <= h < v < |lines| && rest == lines[e..]
    ensures JobAt(rest, h - e, v - e) == JobAt(lines, h, v)
    ensures BodyEnd(rest, v - e, rest[h - e].indent) == BodyEnd(lines, v, lines[h].indent) - e
  {
    assert rest[v - e + 1..] == lines[v + 1..];
    assert rest[h - e + 1..v - e] == lines[h + 1..v];
  }

  lemma JobInTail(lines: seq<Line>, rest: seq<Line>, e: nat, v: nat, h: nat)
    requires e <= h < v < |lines| && rest == lines[e..] && OwnJobBelow(lines, h, v)
    ensures OwnJobBelow(rest, h - e, v - e)
  {
    JobAtInTail(lines, rest, e, h, v);
    forall i | h - e < i < BodyEnd(rest, v - e, rest[h - e].indent) && i != v - e
      ensures !rest[i].calls
    {
      assert rest[i] == lines[e + i];
    }
  }

  lemma FourParts(lines: seq<Line>, h: nat, u: nat, e: nat)
    requires h < u < e <= |lines|
    ensures lines == lines[..h] + [lines[h]] + (lines[h + 1..u] + [lines[u]] + lines[u + 1..e]) + lines[e..]
  {
    assert lines[h + 1..u] + [lines[u]] + lines[u + 1..e] == lines[h + 1..e];
  }

  lemma {:induction false} JobIsShaped(lines: seq<Line>, u: nat)
    requires u < |lines| && lines[u].calls && OwnJob(lines, u) && FirstCall(lines) == u
    ensures var h := HeaderAbove(lines, u, lines[u].indent);
            ShapedSection(Section(lines[..h], lines[h], JobAt(lines, h, u)))
  {
    var h := HeaderAbove(lines, u, lines[u].indent);
    var job := JobAt(lines, h, u);
    var e := BodyEnd(lines, u, lines[h].indent);
    forall line | line in job.above
      ensures !line.calls && (line.skip || line.indent >= job.child)
    {
      var j :| 0 <= j < |job.above| && job.above[j] == line;
      assert line == lines[h + 1 + j];
    }
    forall line | line in job.below
      ensures !line.calls && !Ends(line, job.parent)
    {
      var j :| 0 <= j < |job.below| && job.below[j] == line;
      assert line == lines[u + 1 + j];
    }
  }

  lemma FirstSection(lines: seq<Line>) returns (first: Section, e: nat)
    requires OwnJobs(lines) && FirstCall(lines) < |lines|
    ensures 0 < e <= |lines| && ShapedSection(first)
    ensures lines == first.gap + [first.header] + JobText(first.job) + lines[e..]
    ensures Closed(lines[e..], first.job.parent) && OwnJobs(lines[e..])
  {
    var u := FirstCall(lines);
    assert OwnJob(lines, u);
    hide OwnJobs, ShapedSection, Closed;
    var h := HeaderAbove(lines, u, lines[u].indent);
    first := Section(lines[..h], lines[h], JobAt(lines, h, u));
    e := BodyEnd(lines, u, lines[h].indent);
    TailHasOwnJobs(lines, lines[e..], h, u, e);
    JobIsShaped(lines, u);
    FourParts(lines, h, u, e);
  }

  /** Every file whose uses lines have jobs of their own falls into sections. */
  lemma {:induction false} Sections(lines: seq<Line>) returns (ss: seq<Section>, tail: seq<Line>)
    requires OwnJobs(lines)
    ensures lines == Render(ss, tail) && ShapedSections(ss, tail)
    decreases |lines|
  {
    if FirstCall(lines) == |lines| {
      ss, tail := [], lines;
    } else {
      var first, e := FirstSection(lines);
      var more;
      more, tail := Sections(lines[e..]);
      ss := [first] + more;
    }
  }

  // ---------- The repair of a file ----------

  function RepairFile(lines: seq<Line>, perms: seq<Permission>, clean: string -> string,
                      cgo: map<string, string>): seq<Line> {
    PassAll(PassAll(PassAll(lines, PermissionsEdit(perms)), SecretsEdit()), CgoEdit(clean, cgo))
  }

  /** The pipeline repairs each job on its own and leaves every other line alone. */
  lemma {:induction false} FileRepairIsPerJob(ss: seq<Section>, tail: seq<Line>, perms: seq<Permission>,
                           clean: string -> string, cgo: map<string, string>)
    requires Required(perms) && ShapedSections(ss, tail)
    ensures var done := ApplyAll(CgoEdit(clean, cgo), ApplyAll(SecretsEdit(), ApplyAll(PermissionsEdit(perms), ss)));
            RepairFile(Render(ss, tail), perms, clean, cgo) == Render(done, tail) && ShapedSections(done, tail)
  {
    EditsKeepShape(perms, clean, cgo);
    var p, q, r := PermissionsEdit(perms), SecretsEdit(), CgoEdit(clean, cgo);
    PassIsPerJob(ss, tail, p);
    SectionsKeepShape(p, ss, tail);
    PassIsPerJob(ApplyAll(p, ss), tail, q);
    SectionsKeepShape(q, ApplyAll(p, ss), tail);
    PassIsPerJob(ApplyAll(q, ApplyAll(p, ss)), tail, r);
    SectionsKeepShape(r, ApplyAll(q, ApplyAll(p, ss)), tail);
  }
}
