/** The repair of a whole workflow file: every caller job is found by indentation and repaired
    from the last to the first. */
module WorkflowText {
  import opened WorkflowLine
  import opened WorkflowBlock
  import opened WorkflowPermissions
  import opened WorkflowJob

  // ---------- One edit at one uses line ----------

  /** What an edit does to a job. */
  type Edit = Job -> Job

  function PermissionsEdit(perms: seq<Permission>): Edit {
    (job: Job) => RepairPermissions(job, perms)
  }

  function SecretsEdit(): Edit {
    (job: Job) => EnsureSecrets(job)
  }

  function CgoEdit(clean: string -> string, cgo: map<string, string>): Edit {
    (job: Job) => SyncCgo(job, clean, cgo)
  }

  /** jobHeaderIndexAbove: the nearest content line above with a smaller indentation, or -1. */
  function HeaderAbove(lines: seq<Line>, from: nat, indent: nat): (h: int)
    requires from <= |lines|
    ensures -1 <= h < from
    ensures h >= 0 ==> !lines[h].skip && lines[h].indent < indent
    ensures forall i :: h < i < from ==> lines[i].skip || lines[i].indent >= indent
  {
    if from == 0 then -1
    else if !lines[from - 1].skip && lines[from - 1].indent < indent then from - 1
    else HeaderAbove(lines, from - 1, indent)
  }

  /** jobBodyEndIndex. */
  function BodyEnd(lines: seq<Line>, from: nat, parent: nat): (e: nat)
    requires from < |lines|
    ensures from < e <= |lines|
    ensures e < |lines| ==> Ends(lines[e], parent)
    ensures forall i :: from < i < e ==> !Ends(lines[i], parent)
  {
    from + 1 + KidsEnd(lines[from + 1..], parent)
  }

  function JobText(job: Job): seq<Line> {
    job.above + [job.uses] + job.below
  }

  /** The job around the uses line `u`, whose header is line `h`. */
  function JobAt(lines: seq<Line>, h: nat, u: nat): Job
    requires h < u < |lines|
  {
    Job(lines[h].indent, lines[u].indent, lines[h + 1..u], lines[u],
        lines[u + 1..BodyEnd(lines, u, lines[h].indent)])
  }

  function EditAt(lines: seq<Line>, u: nat, edit: Edit): seq<Line>
    requires u < |lines|
  {
    var h := HeaderAbove(lines, u, lines[u].indent);
    if h < 0 then lines
    else lines[..h + 1] + JobText(edit(JobAt(lines, h, u))) + lines[BodyEnd(lines, u, lines[h].indent)..]
  }

  /** allUsesLineIndices, for the lines from number `from` on. */
  function CallsFrom(lines: seq<Line>, from: nat): (us: seq<nat>)
    requires from <= |lines|
    ensures forall u :: u in us <==> from <= u < |lines| && lines[u].calls
    decreases |lines| - from
  {
    if from == |lines| then []
    else (if lines[from].calls then [from] else []) + CallsFrom(lines, from + 1)
  }

  /** The edits at the given uses lines, the last one first.  An edit that has made the file
      shorter than an index stops there. */
  function Pass(lines: seq<Line>, us: seq<nat>, edit: Edit): seq<Line> {
    if us == [] then lines
    else
      var rest := Pass(lines, us[1..], edit);
      if us[0] < |rest| then EditAt(rest, us[0], edit) else rest
  }

  function PassAll(lines: seq<Line>, edit: Edit): seq<Line> {
    Pass(lines, CallsFrom(lines, 0), edit)
  }

  // ---------- A file in sections ----------

  /** Lines outside any caller job, then a job with its header line. */
  datatype Section = Section(gap: seq<Line>, header: Line, job: Job)

  function Render(ss: seq<Section>, tail: seq<Line>): seq<Line> {
    if ss == [] then tail
    else ss[0].gap + [ss[0].header] + JobText(ss[0].job) + Render(ss[1..], tail)
  }

  ghost predicate NoCalls(lines: seq<Line>) {
    forall line :: line in lines ==> !line.calls
  }

  /** Every content line is at least as deep. */
  ghost predicate Deep(lines: seq<Line>, n: nat) {
    forall line :: line in lines ==> line.skip || line.indent >= n
  }

  /** What ReadUses says of every line that calls the reusable workflow. */
  predicate UsesLine(line: Line) {
    line.calls && !line.skip && line.name == "uses"
  }

  /** The job ends where its indentation says, so that it is found again in the file. */
  ghost predicate Fitting(job: Job) {
    && job.parent < job.child && job.uses.indent == job.child
    && Deep(job.above, job.child) && AllKids(job.below, job.parent)
  }

  /** The job calls the reusable workflow once. */
  ghost predicate Shaped(job: Job) {
    Fitting(job) && UsesLine(job.uses) && NoCalls(job.above) && NoCalls(job.below)
  }

  ghost predicate ShapedSection(s: Section) {
    Shaped(s.job) && NoCalls(s.gap) && !s.header.calls && !s.header.skip && s.header.indent == s.job.parent
  }

  ghost predicate ShapedSections(ss: seq<Section>, tail: seq<Line>) {
    if ss == [] then NoCalls(tail)
    else
      && ShapedSection(ss[0])
      && Closed(Render(ss[1..], tail), ss[0].job.parent)
      && ShapedSections(ss[1..], tail)
  }

  function ApplySection(edit: Edit, s: Section): Section {
    s.(job := edit(s.job))
  }

  function ApplyAll(edit: Edit, ss: seq<Section>): seq<Section> {
    if ss == [] then [] else [ApplySection(edit, ss[0])] + ApplyAll(edit, ss[1..])
  }

  // ---------- An edit stays inside its job ----------

  lemma JobSlices(lines: seq<Line>, a: seq<Line>, header: Line, job: Job, rest: seq<Line>, u: nat, e: nat)
    requires u == |a| + 1 + |job.above| && e == u + 1 + |job.below|
    requires lines == a + [header] + JobText(job) + rest
    ensures e <= |lines| && lines[|a|] == header && lines[u] == job.uses
    ensures lines[|a| + 1..u] == job.above && lines[u + 1..e] == job.below
  {
  }

  /** Where the edit finds the job: between its header and the line that closes it. */
  lemma JobFound(a: seq<Line>, header: Line, job: Job, rest: seq<Line>)
    requires Fitting(job) && !header.skip && header.indent == job.parent && Closed(rest, job.parent)
    ensures var lines := a + [header] + JobText(job) + rest;
            var u := |a| + 1 + |job.above|;
            && u < |lines| && lines[u] == job.uses
            && HeaderAbove(lines, u, job.child) == |a|
            && BodyEnd(lines, u, job.parent) == |a| + 1 + |JobText(job)|
            && JobAt(lines, |a|, u) == job
  {
    var lines := a + [header] + JobText(job) + rest;
    var u := |a| + 1 + |job.above|;
    var e := u + 1 + |job.below|;
    JobSlices(lines, a, header, job, rest, u, e);
  }

  /** An edit changes the lines of its job and no other line. */
  lemma EditIsLocal(a: seq<Line>, header: Line, job: Job, rest: seq<Line>, edit: Edit)
    requires Fitting(job) && !header.skip && header.indent == job.parent && Closed(rest, job.parent)
    ensures |a| + 1 + |job.above| < |a + [header] + JobText(job) + rest|
    ensures EditAt(a + [header] + JobText(job) + rest, |a| + 1 + |job.above|, edit)
            == a + [header] + JobText(edit(job)) + rest
  {
    JobFound(a, header, job, rest);
    var lines := a + [header] + JobText(job) + rest;
    assert lines[..|a| + 1] == a + [header];
    assert lines[|a| + 1 + |JobText(job)|..] == rest;
  }

  // ---------- A pass repairs every section on its own ----------

  /** The uses lines of a file in sections that starts at line `from`. */
  function CallsOf(ss: seq<Section>, from: nat): seq<nat> {
    if ss == [] then []
    else
      var s := ss[0];
      [from + |s.gap| + 1 + |s.job.above|] + CallsOf(ss[1..], from + |s.gap| + 1 + |JobText(s.job)|)
  }

  lemma {:induction false} ClosedAfterEdit(edit: Edit, ss: seq<Section>, tail: seq<Line>, n: nat)
    requires Closed(Render(ss, tail), n)
    ensures Closed(Render(ApplyAll(edit, ss), tail), n)
  {
  }

  lemma {:induction false} RenderFirst(s: Section, ss: seq<Section>, tail: seq<Line>)
    ensures Render([s] + ss, tail) == s.gap + [s.header] + JobText(s.job) + Render(ss, tail)
  {
    assert ([s] + ss)[1..] == ss;
  }

  lemma Join(pre: seq<Line>, gap: seq<Line>, header: Line, text: seq<Line>, rest: seq<Line>)
    ensures pre + (gap + [header] + text + rest) == pre + gap + [header] + text + rest
  {
  }

  lemma EditsSection(now: seq<Line>, a: seq<Line>, s: Section, after: seq<Line>, u: nat, edit: Edit)
    requires ShapedSection(s) && Closed(after, s.job.parent)
    requires now == a + [s.header] + JobText(s.job) + after && u == |a| + 1 + |s.job.above|
    ensures u < |now| && EditAt(now, u, edit) == a + [s.header] + JobText(edit(s.job)) + after
  {
    EditIsLocal(a, s.header, s.job, after, edit);
  }

  /** The edit of one section, once the edits behind it are done. */
  lemma {:induction false} PassOfSection(lines: seq<Line>, a: seq<Line>, s: Section, after: seq<Line>, us: seq<nat>,
                                         edit: Edit)
    requires ShapedSection(s) && Closed(after, s.job.parent)
    requires Pass(lines, us, edit) == a + [s.header] + JobText(s.job) + after
    ensures Pass(lines, [|a| + 1 + |s.job.above|] + us, edit) == a + [s.header] + JobText(edit(s.job)) + after
  {
    hide EditAt, ShapedSection, Closed;
    var u, now := |a| + 1 + |s.job.above|, Pass(lines, us, edit);
    EditsSection(now, a, s, after, u, edit);
  }

  lemma {:induction false} RenderEdited(pre: seq<Line>, s: Section, ss: seq<Section>, tail: seq<Line>, edit: Edit)
    requires ss != [] && s == ss[0]
    ensures pre + Render(ApplyAll(edit, ss), tail) ==
            pre + s.gap + [s.header] + JobText(edit(s.job)) + Render(ApplyAll(edit, ss[1..]), tail)
  {
    Join(pre, s.gap, s.header, JobText(edit(s.job)), Render(ApplyAll(edit, ss[1..]), tail));
    RenderFirst(ApplySection(edit, s), ApplyAll(edit, ss[1..]), tail);
  }

  lemma {:induction false} PassOfSections(pre: seq<Line>, ss: seq<Section>, tail: seq<Line>, edit: Edit)
    requires ShapedSections(ss, tail)
    ensures Pass(pre + Render(ss, tail), CallsOf(ss, |pre|), edit) == pre + Render(ApplyAll(edit, ss), tail)
    decreases |ss|
  {
    if ss != [] {
      var s, rest := ss[0], ss[1..];
      var a := pre + s.gap;
      var next := a + [s.header] + JobText(s.job);
      var lines := next + Render(rest, tail);
      var us := CallsOf(rest, |next|);
      Join(pre, s.gap, s.header, JobText(s.job), Render(rest, tail));
      assert CallsOf(ss, |pre|) == [|a| + 1 + |s.job.above|] + us;
      var after := Render(ApplyAll(edit, rest), tail);
      assert Pass(lines, [|a| + 1 + |s.job.above|] + us, edit) == a + [s.header] + JobText(edit(s.job)) + after by {
        PassOfSections(next, rest, tail, edit);
        ClosedAfterEdit(edit, rest, tail, s.job.parent);
        PassOfSection(lines, a, s, after, us, edit);
      }
      RenderEdited(pre, s, ss, tail, edit);
    }
  }

  lemma {:induction false} CallsFromSkips(lines: seq<Line>, from: nat, to: nat)
    requires from <= to <= |lines| && forall i :: from <= i < to ==> !lines[i].calls
    ensures CallsFrom(lines, from) == CallsFrom(lines, to)
    decreases |lines| - from
  {
    if from < to {
      CallsFromSkips(lines, from + 1, to);
    }
  }

  lemma {:induction false} OneCall(lines: seq<Line>, from: nat, u: nat, e: nat)
    requires from <= u < e <= |lines| && lines[u].calls
    requires forall i :: from <= i < e && i != u ==> !lines[i].calls
    ensures CallsFrom(lines, from) == [u] + CallsFrom(lines, e)
  {
    CallsFromSkips(lines, from, u);
    CallsFromSkips(lines, u + 1, e);
  }

  lemma {:induction false} CallsOfFirst(lines: seq<Line>, pre: seq<Line>, s: Section, rest: seq<Line>, u: nat, e: nat)
    requires ShapedSection(s) && lines == pre + s.gap + [s.header] + JobText(s.job) + rest
    requires u == |pre| + |s.gap| + 1 + |s.job.above| && e == |pre| + |s.gap| + 1 + |JobText(s.job)|
    ensures u < e <= |lines| && CallsFrom(lines, |pre|) == [u] + CallsFrom(lines, e)
  {
    var a, w, b := s.job.above, s.job.uses, s.job.below;
    var front := pre + s.gap + [s.header] + a;
    assert lines == front + [w] + b + rest && lines == front + ([w] + b + rest) by {
      assert pre + s.gap + [s.header] + (a + [w] + b) + rest == front + [w] + b + rest;
    }
    OneCall(lines, |pre|, u, e);
  }

  lemma {:induction false} NoMoreCalls(pre: seq<Line>, tail: seq<Line>)
    requires NoCalls(tail)
    ensures CallsFrom(pre + tail, |pre|) == []
  {
    var lines := pre + tail;
    forall i | |pre| <= i < |lines|
      ensures !lines[i].calls
    {
      assert lines[i] == tail[i - |pre|];
    }
    CallsFromSkips(lines, |pre|, |lines|);
  }

  lemma {:induction false} CallsOfSections(pre: seq<Line>, ss: seq<Section>, tail: seq<Line>)
    requires ShapedSections(ss, tail)
    ensures CallsFrom(pre + Render(ss, tail), |pre|) == CallsOf(ss, |pre|)
    decreases |ss|
  {
    hide JobText, CallsFrom, ShapedSection, Closed;
    var lines := pre + Render(ss, tail);
    if ss == [] {
      NoMoreCalls(pre, tail);
    } else {
      var s, more := ss[0], ss[1..];
      var rest := Render(more, tail);
      var next := pre + s.gap + [s.header] + JobText(s.job);
      Join(pre, s.gap, s.header, JobText(s.job), rest);
      CallsOfFirst(lines, pre, s, rest, |pre| + |s.gap| + 1 + |s.job.above|, |next|);
      CallsOfSections(next, more, tail);
    }
  }

  /** A pass over a file is the same edit in every job on its own. */
  lemma {:induction false} PassIsPerJob(ss: seq<Section>, tail: seq<Line>, edit: Edit)
    requires ShapedSections(ss, tail)
    ensures PassAll(Render(ss, tail), edit) == Render(ApplyAll(edit, ss), tail)
  {
    assert [] + Render(ss, tail) == Render(ss, tail);
    assert [] + Render(ApplyAll(edit, ss), tail) == Render(ApplyAll(edit, ss), tail);
    CallsOfSections([], ss, tail);
    PassOfSections([], ss, tail, edit);
  }
}
