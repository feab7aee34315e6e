/** Exactly when repairing a whole file twice is repairing it once. */
module WorkflowTwice {
  import opened WorkflowLine
  import opened WorkflowBlock
  import opened WorkflowPermissions
  import opened WorkflowJob
  import opened WorkflowLimits
  import opened WorkflowText
  import opened WorkflowFile
  import opened WorkflowSettled

  // ---------- The three edits as one ----------

  function RepairEdit(perms: seq<Permission>, clean: string -> string, cgo: map<string, string>): Edit {
    (job: Job) => Repair(job, perms, clean, cgo)
  }

  lemma {:induction false} ApplyAt(edit: Edit, ss: seq<Section>)
    ensures |ApplyAll(edit, ss)| == |ss|
    ensures forall i :: 0 <= i < |ss| ==> ApplyAll(edit, ss)[i] == ApplySection(edit, ss[i])
    decreases |ss|
  {
    if ss != [] {
      ApplyAt(edit, ss[1..]);
    }
  }

  lemma {:induction false} ThreeAreOne(ss: seq<Section>, perms: seq<Permission>, clean: string -> string,
                                       cgo: map<string, string>)
    ensures ApplyAll(CgoEdit(clean, cgo), ApplyAll(SecretsEdit(), ApplyAll(PermissionsEdit(perms), ss))) ==
            ApplyAll(RepairEdit(perms, clean, cgo), ss)
  {
    var p, q, r := PermissionsEdit(perms), SecretsEdit(), CgoEdit(clean, cgo);
    var once, two := ApplyAll(p, ss), ApplyAll(q, ApplyAll(p, ss));
    ApplyAt(p, ss);
    ApplyAt(q, once);
    ApplyAt(r, two);
    ApplyAt(RepairEdit(perms, clean, cgo), ss);
    hide RepairPermissions, EnsureSecrets, SyncCgo;
    forall i | 0 <= i < |ss|
      ensures ApplyAll(r, two)[i] == ApplySection(RepairEdit(perms, clean, cgo), ss[i])
    {
      assert two[i] == ApplySection(q, once[i]) && once[i] == ApplySection(p, ss[i]);
    }
  }

  lemma RepairGrows(perms: seq<Permission>, clean: string -> string, cgo: map<string, string>)
    ensures Grows(RepairEdit(perms, clean, cgo))
  {
    PermissionsGrow(perms);
    SecretsGrow();
    CgoGrows(clean, cgo);
    hide RepairPermissions, EnsureSecrets, SyncCgo;
    forall job: Job
      ensures Growing(job, Repair(job, perms, clean, cgo))
    {
      var first := PermissionsEdit(perms)(job);
      var second := SecretsEdit()(first);
      assert Growing(job, first) && Growing(first, second) && Growing(second, CgoEdit(clean, cgo)(second));
    }
  }

  // ---------- The condition on a file ----------

  /** The job around every uses line settles. */
  ghost predicate AllSettle(lines: seq<Line>, perms: seq<Permission>, clean: string -> string,
                            cgo: map<string, string>) {
    forall u :: 0 <= u < |lines| && lines[u].calls ==> SettlesAt(lines, u, perms, clean, cgo)
  }

  ghost predicate SettlesAt(lines: seq<Line>, u: nat, perms: seq<Permission>, clean: string -> string,
                            cgo: map<string, string>)
    requires u < |lines|
  {
    var h := HeaderAbove(lines, u, lines[u].indent);
    h >= 0 ==> Settles(JobAt(lines, h, u), perms, clean, cgo)
  }

  lemma SectionSettles(lines: seq<Line>, a: seq<Line>, s: Section, rest: seq<Line>, u: nat,
                       perms: seq<Permission>, clean: string -> string, cgo: map<string, string>)
    requires ShapedSection(s) && Closed(rest, s.job.parent)
    requires lines == a + [s.header] + JobText(s.job) + rest && u == |a| + 1 + |s.job.above|
    ensures u < |lines| && lines[u].calls
    ensures SettlesAt(lines, u, perms, clean, cgo) <==> Settles(s.job, perms, clean, cgo)
  {
    hide Settles, HeaderAbove, BodyEnd, Closed;
    JobFound(a, s.header, s.job, rest);
  }

  lemma {:induction false} AllSettleIff(ss: seq<Section>, tail: seq<Line>, perms: seq<Permission>,
                                        clean: string -> string, cgo: map<string, string>)
    requires ShapedSections(ss, tail)
    ensures AllSettle(Render(ss, tail), perms, clean, cgo) <==> forall s :: s in ss ==>
              Settles(s.job, perms, clean, cgo)
  {
    hide ShapedSections, SettlesAt, Settles, Render, Closed, ShapedSection;
    var lines := Render(ss, tail);
    assert [] + lines == lines;
    if AllSettle(lines, perms, clean, cgo) {
      forall s | s in ss
        ensures Settles(s.job, perms, clean, cgo)
      {
        var i :| 0 <= i < |ss| && ss[i] == s;
        var u, a, rest := CallOfSection(lines, [], ss, tail, i);
        SectionSettles(lines, a, s, rest, u, perms, clean, cgo);
      }
    }
    if forall s :: s in ss ==> Settles(s.job, perms, clean, cgo) {
      forall u | 0 <= u < |lines| && lines[u].calls
        ensures SettlesAt(lines, u, perms, clean, cgo)
      {
        var i, a, rest := SectionOfCall(ss, tail, u);
        SectionSettles(lines, a, ss[i], rest, u, perms, clean, cgo);
      }
    }
  }

  // ---------- The theorem ----------

  ghost predicate AllUnchanged(ss: seq<Section>, perms: seq<Permission>, clean: string -> string,
                               cgo: map<string, string>) {
    Unchanged(PermissionsEdit(perms), ss) && Unchanged(SecretsEdit(), ss) && Unchanged(CgoEdit(clean, cgo), ss)
  }

  /** One job of a repaired file. */
  lemma RepairedSection(s: Section, perms: seq<Permission>, clean: string -> string, cgo: map<string, string>)
    requires s.job.parent < s.job.child && Required(perms)
    ensures var job := Repair(s.job, perms, clean, cgo);
            && ((PermissionsEdit(perms)(job) == job && SecretsEdit()(job) == job && CgoEdit(clean, cgo)(job) == job)
                <==> Settles(s.job, perms, clean, cgo))
            && (RepairEdit(perms, clean, cgo)(job) == job <==> Settles(s.job, perms, clean, cgo))
  {
    hide RepairPermissions, EnsureSecrets, SyncCgo, Settles;
    var job := Repair(s.job, perms, clean, cgo);
    RepairTwiceIff(s.job, perms, clean, cgo);
    assert job.parent == s.job.parent && job.child == s.job.child by {
      RepairGrows(perms, clean, cgo);
      assert Growing(s.job, RepairEdit(perms, clean, cgo)(s.job));
    }
    WholeRunSame(job, perms, clean, cgo);
  }

  lemma {:induction false} ShapedParents(ss: seq<Section>, tail: seq<Line>)
    requires ShapedSections(ss, tail)
    ensures forall s :: s in ss ==> s.job.parent < s.job.child
    decreases |ss|
  {
    if ss != [] {
      ShapedParents(ss[1..], tail);
      assert ss == [ss[0]] + ss[1..];
    }
  }

  lemma {:induction false} RepairedSections(ss: seq<Section>, tail: seq<Line>, perms: seq<Permission>,
                                            clean: string -> string, cgo: map<string, string>)
    requires Required(perms) && ShapedSections(ss, tail)
    ensures var done := ApplyAll(RepairEdit(perms, clean, cgo), ss);
            && (AllUnchanged(done, perms, clean, cgo) <==> forall s :: s in ss ==> Settles(s.job, perms, clean, cgo))
            && (Unchanged(RepairEdit(perms, clean, cgo), done) <==> forall s :: s in ss ==> Settles(s.job, perms, clean, cgo))
  {
    hide Settles, ShapedSections, RepairPermissions, EnsureSecrets, SyncCgo, Required, ApplyAll;
    var edit := RepairEdit(perms, clean, cgo);
    var done := ApplyAll(edit, ss);
    ApplyAt(edit, ss);
    ShapedParents(ss, tail);
    forall i | 0 <= i < |ss|
      ensures ss[i] in ss && done[i] in done
      ensures (PermissionsEdit(perms)(done[i].job) == done[i].job && SecretsEdit()(done[i].job) == done[i].job
               && CgoEdit(clean, cgo)(done[i].job) == done[i].job) <==> Settles(ss[i].job, perms, clean, cgo)
      ensures edit(done[i].job) == done[i].job <==> Settles(ss[i].job, perms, clean, cgo)
    {
      assert ss[i] in ss && done[i] in done;
      RepairedSection(ss[i], perms, clean, cgo);
    }
  }

  /** The repair of a file in sections, and of its result. */
  lemma {:induction false} RepairOfSections(ss: seq<Section>, tail: seq<Line>, perms: seq<Permission>,
                                            clean: string -> string, cgo: map<string, string>)
    requires Required(perms) && ShapedSections(ss, tail)
    ensures var done := ApplyAll(RepairEdit(perms, clean, cgo), ss);
            RepairFile(Render(ss, tail), perms, clean, cgo) == Render(done, tail) && ShapedSections(done, tail)
  {
    hide ShapedSections, RepairFile, Required, Render, ApplyAll;
    FileRepairIsPerJob(ss, tail, perms, clean, cgo);
    ThreeAreOne(ss, perms, clean, cgo);
  }

  lemma {:induction false} PassesSame(done: seq<Section>, tail: seq<Line>, perms: seq<Permission>,
                                      clean: string -> string, cgo: map<string, string>)
    requires ShapedSections(done, tail)
    ensures var file := Render(done, tail);
            && ((PassAll(file, PermissionsEdit(perms)) == file && PassAll(file, SecretsEdit()) == file && PassAll(file, CgoEdit(clean, cgo)) == file)
                <==> AllUnchanged(done, perms, clean, cgo))
            && ((Settled(file, PermissionsEdit(perms)) && Settled(file, SecretsEdit()) && Settled(file, CgoEdit(clean, cgo)))
                <==> AllUnchanged(done, perms, clean, cgo))
  {
    hide ShapedSections, PassAll, Settled, Unchanged, Render, Grows;
    PermissionsGrow(perms);
    SecretsGrow();
    CgoGrows(clean, cgo);
    SameFileIff(PermissionsEdit(perms), done, tail);
    SameFileIff(SecretsEdit(), done, tail);
    SameFileIff(CgoEdit(clean, cgo), done, tail);
    SettledIff(done, tail, PermissionsEdit(perms));
    SettledIff(done, tail, SecretsEdit());
    SettledIff(done, tail, CgoEdit(clean, cgo));
  }

  lemma {:induction false} WholeRunSameIff(done: seq<Section>, tail: seq<Line>, perms: seq<Permission>,
                                           clean: string -> string, cgo: map<string, string>)
    requires Required(perms) && ShapedSections(done, tail)
    ensures RepairFile(Render(done, tail), perms, clean, cgo) == Render(done, tail) <==> Unchanged(RepairEdit(perms, clean, cgo), done)
  {
    hide ShapedSections, RepairFile, Required, Render, ApplyAll, Unchanged, Grows;
    var edit := RepairEdit(perms, clean, cgo);
    RepairOfSections(done, tail, perms, clean, cgo);
    RepairGrows(perms, clean, cgo);
    if Unchanged(edit, done) {
      UnchangedSections(edit, done);
    }
    if Render(ApplyAll(edit, done), tail) == Render(done, tail) {
      SameRender(edit, done, tail);
    }
  }

  /** On a repaired file each of the three passes changes no line, every one of their edits changes nothing, and
      a whole second run gives the same file: each of these if and only if every caller job of the
      original file settles. */
  lemma RepairFileTwiceIff(lines: seq<Line>, perms: seq<Permission>, clean: string -> string, cgo: map<string, string>)
    requires OwnJobs(lines) && Required(perms)
    ensures var done := RepairFile(lines, perms, clean, cgo);
            && ((PassAll(done, PermissionsEdit(perms)) == done && PassAll(done, SecretsEdit()) == done && PassAll(done, CgoEdit(clean, cgo)) == done)
                <==> AllSettle(lines, perms, clean, cgo))
            && ((Settled(done, PermissionsEdit(perms)) && Settled(done, SecretsEdit()) && Settled(done, CgoEdit(clean, cgo)))
                <==> AllSettle(lines, perms, clean, cgo))
            && (RepairFile(done, perms, clean, cgo) == done <==> AllSettle(lines, perms, clean, cgo))
  {
    hide OwnJobs, RepairFile, PassAll, Settled, AllSettle, Required, Render, ShapedSections, AllUnchanged, Unchanged,
         Settles, ApplyAll;
    var ss, tail := Sections(lines);
    RepairOfSections(ss, tail, perms, clean, cgo);
    var done := ApplyAll(RepairEdit(perms, clean, cgo), ss);
    AllSettleIff(ss, tail, perms, clean, cgo);
    RepairedSections(ss, tail, perms, clean, cgo);
    PassesSame(done, tail, perms, clean, cgo);
    WholeRunSameIff(done, tail, perms, clean, cgo);
  }

  /** A file in which nothing continues a uses line settles. */
  lemma LeavesSettle(lines: seq<Line>, perms: seq<Permission>, clean: string -> string, cgo: map<string, string>)
    requires forall u :: 0 <= u < |lines| && lines[u].calls ==> LeafAt(lines, u)
    ensures AllSettle(lines, perms, clean, cgo)
  {
    hide Settles, Leaf;
    forall u | 0 <= u < |lines| && lines[u].calls
      ensures SettlesAt(lines, u, perms, clean, cgo)
    {
      assert LeafAt(lines, u);
      var h := HeaderAbove(lines, u, lines[u].indent);
      if h >= 0 {
        LeafSettles(JobAt(lines, h, u), perms, clean, cgo);
      }
    }
  }

  predicate LeafAt(lines: seq<Line>, u: nat)
    requires u < |lines|
  {
    var h := HeaderAbove(lines, u, lines[u].indent);
    h >= 0 ==> Leaf(JobAt(lines, h, u))
  }
}
