/** When a pass has nothing to do, and why the flag of a pass says exactly whether it changed the file. */
module WorkflowSettled {
  import opened WorkflowLine
  import opened WorkflowBlock
  import opened WorkflowPermissions
  import opened WorkflowJob
  import opened WorkflowText
  import opened WorkflowFile

  /** Every edit of the pass leaves the file as it is. */
  ghost predicate Settled(lines: seq<Line>, edit: Edit) {
    forall u :: 0 <= u < |lines| && lines[u].calls ==> UsesLine(lines[u]) && EditAt(lines, u, edit) == lines
  }

  // ---------- The flags ----------

  /** Where the uses line of section `i` stands, and what is around the section. */
  lemma CallOfSection(file: seq<Line>, pre: seq<Line>, ss: seq<Section>, tail: seq<Line>, i: nat)
    returns (u: nat, a: seq<Line>, rest: seq<Line>)
    requires ShapedSections(ss, tail) && i < |ss| && file == pre + Render(ss, tail)
    ensures i < |CallsOf(ss, |pre|)| && u == CallsOf(ss, |pre|)[i]
    ensures file == a + [ss[i].header] + JobText(ss[i].job) + rest && u == |a| + 1 + |ss[i].job.above|
    ensures ShapedSection(ss[i]) && Closed(rest, ss[i].job.parent)
    decreases |ss|
  {
    var s, more := ss[0], ss[1..];
    var front := pre + s.gap;
    var next := front + [s.header] + JobText(s.job);
    assert file == next + Render(more, tail) by {
      Join(pre, s.gap, s.header, JobText(s.job), Render(more, tail));
    }
    if i == 0 {
      u, a, rest := |front| + 1 + |s.job.above|, front, Render(more, tail);
    } else {
      u, a, rest := CallOfSection(file, next, more, tail, i - 1);
    }
  }

  lemma {:induction false} CallsOfLength(ss: seq<Section>, from: nat)
    ensures |CallsOf(ss, from)| == |ss|
    decreases |ss|
  {
    if ss != [] {
      CallsOfLength(ss[1..], from + |ss[0].gap| + 1 + |JobText(ss[0].job)|);
    }
  }

  lemma NumberOfCall(ss: seq<Section>, tail: seq<Line>, u: nat) returns (i: nat)
    requires ShapedSections(ss, tail) && u < |Render(ss, tail)| && Render(ss, tail)[u].calls
    ensures i < |ss| && i < |CallsOf(ss, 0)| && CallsOf(ss, 0)[i] == u
  {
    var lines := Render(ss, tail);
    assert CallsOf(ss, 0) == CallsFrom(lines, 0) by {
      assert [] + lines == lines;
      CallsOfSections([], ss, tail);
    }
    CallsOfLength(ss, 0);
    assert u in CallsFrom(lines, 0);
    i :| 0 <= i < |CallsOf(ss, 0)| && CallsOf(ss, 0)[i] == u;
  }

  lemma SectionOfCall(ss: seq<Section>, tail: seq<Line>, u: nat)
    returns (i: nat, a: seq<Line>, rest: seq<Line>)
    requires ShapedSections(ss, tail) && u < |Render(ss, tail)| && Render(ss, tail)[u].calls
    ensures i < |ss| && ShapedSection(ss[i]) && Closed(rest, ss[i].job.parent)
    ensures Render(ss, tail) == a + [ss[i].header] + JobText(ss[i].job) + rest && u == |a| + 1 + |ss[i].job.above|
  {
    i := NumberOfCall(ss, tail, u);
    var lines := Render(ss, tail);
    assert lines == [] + lines;
    var v;
    v, a, rest := CallOfSection(lines, [], ss, tail, i);
  }

  // ---------- An edit that leaves the text of a job leaves the job ----------

  /** The edit takes no line away on either side of the uses line, which stays. */
  ghost predicate Growing(job: Job, now: Job) {
    && now.parent == job.parent && now.child == job.child && now.uses == job.uses
    && |now.above| >= |job.above| && |now.below| >= |job.below|
  }

  ghost predicate Grows(edit: Edit) {
    forall job: Job :: Growing(job, edit(job))
  }

  lemma SplitSame(front: seq<Line>, x: seq<Line>, y: seq<Line>, p: seq<Line>, q: seq<Line>)
    requires front + x + y == front + p + q && |x| == |p|
    ensures x == p && y == q
  {
    var s := front + x + y;
    assert s[|front|..|front| + |x|] == x && s[|front| + |x|..] == y;
    assert s[|front|..|front| + |p|] == p && s[|front| + |p|..] == q;
  }

  lemma SameJobText(job: Job, now: Job)
    requires Growing(job, now) && JobText(now) == JobText(job)
    ensures now == job
  {
    assert |now.above| == |job.above| && |now.below| == |job.below|;
    var u := [job.uses];
    assert [] + now.above + (u + now.below) == JobText(now) && [] + job.above + (u + job.below) == JobText(job);
    SplitSame([], now.above, u + now.below, job.above, u + job.below);
    SplitSame([], u, now.below, u, job.below) by {
      assert [] + u + now.below == u + now.below && [] + u + job.below == u + job.below;
    }
  }

  lemma PermissionsGrow(perms: seq<Permission>)
    ensures Grows(PermissionsEdit(perms))
  {
    forall job: Job
      ensures Growing(job, RepairPermissions(job, perms))
    {
      match Locate(job, "permissions")
      case Nowhere =>
      case Above(i) =>
      case Below(i) =>
    }
  }

  lemma SecretsGrow()
    ensures Grows(SecretsEdit())
  {
  }

  lemma UpsertGrows(job: Job, key: string, value: string)
    ensures Growing(job, UpsertWith(job, key, value))
  {
    match Locate(job, "with")
    case Nowhere =>
    case Above(i) =>
    case Below(i) =>
  }

  lemma CgoGrows(clean: string -> string, cgo: map<string, string>)
    ensures Grows(CgoEdit(clean, cgo))
  {
    hide UpsertWith, WithEntries, WantedCgo;
    forall job: Job
      ensures Growing(job, SyncCgo(job, clean, cgo))
    {
      match WithEntries(job)
      case None =>
      case Some(m) =>
        match WantedCgo(m, clean, cgo)
        case None =>
        case Some(value) => UpsertGrows(job, "cgo", value);
    }
  }

  // ---------- A pass that gives the same file has changed nothing on the way ----------

  ghost predicate Unchanged(edit: Edit, ss: seq<Section>) {
    forall s :: s in ss ==> edit(s.job) == s.job
  }

  lemma {:induction false} UnchangedSections(edit: Edit, ss: seq<Section>)
    requires Unchanged(edit, ss)
    ensures ApplyAll(edit, ss) == ss
    decreases |ss|
  {
    if ss != [] {
      assert ss == [ss[0]] + ss[1..];
      UnchangedSections(edit, ss[1..]);
    }
  }

  lemma {:induction false} RenderGrows(edit: Edit, ss: seq<Section>, tail: seq<Line>)
    requires Grows(edit)
    ensures |Render(ApplyAll(edit, ss), tail)| >= |Render(ss, tail)|
    decreases |ss|
  {
    if ss != [] {
      RenderGrows(edit, ss[1..], tail);
      RenderFirst(ApplySection(edit, ss[0]), ApplyAll(edit, ss[1..]), tail);
      assert Growing(ss[0].job, edit(ss[0].job));
    }
  }

  /** A file is the same after a pass exactly when every job is. */
  lemma {:induction false} SameRender(edit: Edit, ss: seq<Section>, tail: seq<Line>)
    requires Grows(edit) && Render(ApplyAll(edit, ss), tail) == Render(ss, tail)
    ensures Unchanged(edit, ss)
    decreases |ss|
  {
    if ss != [] {
      var s, rest := ss[0], ss[1..];
      var now := ApplyAll(edit, rest);
      RenderFirst(ApplySection(edit, s), now, tail);
      RenderGrows(edit, rest, tail);
      assert Growing(s.job, edit(s.job));
      SplitSame(s.gap + [s.header], JobText(edit(s.job)), Render(now, tail), JobText(s.job), Render(rest, tail));
      SameJobText(s.job, edit(s.job));
      SameRender(edit, rest, tail);
      assert ss == [s] + rest;
    }
  }

  lemma {:induction false} SameFileIff(edit: Edit, ss: seq<Section>, tail: seq<Line>)
    requires Grows(edit) && ShapedSections(ss, tail)
    ensures PassAll(Render(ss, tail), edit) == Render(ss, tail) <==> Unchanged(edit, ss)
  {
    hide Unchanged, Render, PassAll, ShapedSections, Grows;
    PassIsPerJob(ss, tail, edit);
    if Unchanged(edit, ss) {
      UnchangedSections(edit, ss);
    }
    if PassAll(Render(ss, tail), edit) == Render(ss, tail) {
      SameRender(edit, ss, tail);
    }
  }

  lemma SectionSameIff(lines: seq<Line>, a: seq<Line>, s: Section, rest: seq<Line>, u: nat, edit: Edit)
    requires Grows(edit) && ShapedSection(s) && Closed(rest, s.job.parent)
    requires lines == a + [s.header] + JobText(s.job) + rest && u == |a| + 1 + |s.job.above|
    ensures u < |lines| && lines[u] == s.job.uses
    ensures EditAt(lines, u, edit) == lines <==> edit(s.job) == s.job
  {
    hide EditAt, Closed;
    EditsSection(lines, a, s, rest, u, edit);
    assert lines[u] == s.job.uses;
    if EditAt(lines, u, edit) == lines {
      var front := a + [s.header];
      assert |JobText(edit(s.job))| == |JobText(s.job)|;
      SplitSame(front, JobText(edit(s.job)), rest, JobText(s.job), rest);
      assert Growing(s.job, edit(s.job));
      SameJobText(s.job, edit(s.job));
    }
  }

  /** Every edit of a pass leaves the file as it is exactly when the pass changes no job. */
  lemma {:induction false} SettledIff(ss: seq<Section>, tail: seq<Line>, edit: Edit)
    requires Grows(edit) && ShapedSections(ss, tail)
    ensures Settled(Render(ss, tail), edit) <==> Unchanged(edit, ss)
  {
    hide Grows, ShapedSections, EditAt, Closed, Render;
    var lines := Render(ss, tail);
    assert [] + lines == lines;
    if Unchanged(edit, ss) {
      forall u | 0 <= u < |lines| && lines[u].calls
        ensures UsesLine(lines[u]) && EditAt(lines, u, edit) == lines
      {
        var i, a, rest := SectionOfCall(ss, tail, u);
        SectionSameIff(lines, a, ss[i], rest, u, edit);
      }
    }
    if Settled(lines, edit) {
      forall s | s in ss
        ensures edit(s.job) == s.job
      {
        var i :| 0 <= i < |ss| && ss[i] == s;
        var u, a, rest := CallOfSection(lines, [], ss, tail, i);
        SectionSameIff(lines, a, s, rest, u, edit);
      }
    }
  }

  /** A pass whose result is the file it was given has left every job as it was. */
  lemma SameFileIsSettled(lines: seq<Line>, edit: Edit)
    requires OwnJobs(lines) && Grows(edit)
    ensures PassAll(lines, edit) == lines <==> Settled(lines, edit)
  {
    hide Grows, ShapedSections, Settled, Render, PassAll, OwnJobs;
    var ss, tail := Sections(lines);
    SameFileIff(edit, ss, tail);
    SettledIff(ss, tail, edit);
  }

  // ---------- A repaired file has jobs of its own again ----------

  lemma OnlyCall(lines: seq<Line>, a: seq<Line>, header: Line, job: Job, rest: seq<Line>, u: nat, e: nat)
    requires NoCalls(job.above) && NoCalls(job.below)
    requires lines == a + [header] + (job.above + [job.uses] + job.below) + rest
    requires u == |a| + 1 + |job.above| && e == u + 1 + |job.below|
    ensures forall i :: |a| < i < e && i != u ==> !lines[i].calls
  {
    forall i | |a| < i < e && i != u
      ensures !lines[i].calls
    {
      if i < u {
        assert lines[i] == job.above[i - |a| - 1];
      } else {
        assert lines[i] == job.below[i - u - 1];
      }
    }
  }

  lemma OwnSection(lines: seq<Line>, a: seq<Line>, s: Section, rest: seq<Line>, u: nat)
    requires ShapedSection(s) && Closed(rest, s.job.parent)
    requires lines == a + [s.header] + JobText(s.job) + rest && u == |a| + 1 + |s.job.above|
    ensures u < |lines| && OwnJob(lines, u)
  {
    hide EditAt, Closed, HeaderAbove, BodyEnd;
    var e := u + 1 + |s.job.below|;
    assert u < |lines| && lines[|a|] == s.header && lines[u] == s.job.uses && HeaderAbove(lines, u, s.job.child) == |a|
           && BodyEnd(lines, u, s.job.parent) == e by {
      JobFound(a, s.header, s.job, rest);
    }
    assert forall i :: |a| < i < e && i != u ==> !lines[i].calls by {
      OnlyCall(lines, a, s.header, s.job, rest, u, e);
    }
  }

  /** In a file made of sections every uses line has a job of its own. */
  lemma {:induction false} SectionsOwnJobs(ss: seq<Section>, tail: seq<Line>)
    requires ShapedSections(ss, tail)
    ensures OwnJobs(Render(ss, tail))
  {
    var lines := Render(ss, tail);
    forall u | 0 <= u < |lines| && lines[u].calls
      ensures OwnJob(lines, u)
    {
      var i, a, rest := SectionOfCall(ss, tail, u);
      OwnSection(lines, a, ss[i], rest, u);
    }
  }

  /** A pass leaves every uses line with a job of its own. */
  lemma PassKeepsOwnJobs(lines: seq<Line>, edit: Edit)
    requires OwnJobs(lines) && KeepsShape(edit)
    ensures OwnJobs(PassAll(lines, edit))
  {
    var ss, tail := Sections(lines);
    PassIsPerJob(ss, tail, edit);
    SectionsKeepShape(edit, ss, tail);
    SectionsOwnJobs(ApplyAll(edit, ss), tail);
  }
}
