/** The three passes of the CI repair over a whole file, as loops from the last uses line to the
    first, and the pipeline that runs them. */
module ScaffoldPasses {
  import opened WorkflowLine
  import opened WorkflowPermissions
  import opened WorkflowJob
  import opened WorkflowText
  import opened WorkflowFile
  import opened WorkflowSettled
  import opened WorkflowTwice
  import opened Scaffold
  import opened ScaffoldInputs

  // ---------- One step of the cgo pass ----------

  lemma {:induction false} UntouchedJob(lines: seq<Line>, u: nat, edit: Edit)
    requires u < |lines|
    requires var h := HeaderAbove(lines, u, lines[u].indent);
             h >= 0 ==> edit(JobAt(lines, h, u)) == JobAt(lines, h, u)
    ensures EditAt(lines, u, edit) == lines
  {
    hide JobAt, JobText, BodyEnd;
    var h := HeaderAbove(lines, u, lines[u].indent);
    if h >= 0 {
      SameJob(lines, h, u, BodyEnd(lines, u, lines[h].indent));
    }
  }

  lemma SameJob(lines: seq<Line>, h: nat, u: nat, e: nat)
    requires h < u < |lines| && e == BodyEnd(lines, u, lines[h].indent)
    ensures lines[..h + 1] + JobText(JobAt(lines, h, u)) + lines[e..] == lines
  {
    var a, r := JobParts(lines, h, u, e);
    var job := JobAt(lines, h, u);
    Enclose(a, job.above, job.uses, job.below, r);
  }

  /** What the pass sets at this uses line. */
  lemma WantedAt(lines: seq<Line>, u: nat, clean: string -> string, cgo: map<string, string>)
    requires u < |lines|
    ensures var m := WithEntriesAt(lines, u);
            EditAt(lines, u, CgoEdit(clean, cgo)) ==
            if m.Some? && WantedCgo(m.value, clean, cgo).Some?
            then EditAt(lines, u, InputEdit("cgo", WantedCgo(m.value, clean, cgo).value)) else lines
  {
    var m := WithEntriesAt(lines, u);
    var h := HeaderAbove(lines, u, lines[u].indent);
    if h >= 0 && m.Some? && WantedCgo(m.value, clean, cgo).Some? {
      assert CgoEdit(clean, cgo)(JobAt(lines, h, u)) == InputEdit("cgo", WantedCgo(m.value, clean, cgo).value)(JobAt(lines, h, u));
    } else {
      UntouchedJob(lines, u, CgoEdit(clean, cgo));
    }
  }

  method SyncCallerCgoAt(lines: seq<Line>, usesIndex: nat, clean: string -> string, cgo: map<string, string>)
    returns (updated: seq<Line>, did: bool)
    requires usesIndex < |lines|
    ensures UsesLine(lines[usesIndex]) ==> updated == EditAt(lines, usesIndex, CgoEdit(clean, cgo))
    ensures (did <==> updated != lines) && |updated| >= |lines|
  {
    WantedAt(lines, usesIndex, clean, cgo);
    var entries, ok := JobWithEntries(lines, usesIndex);
    if !ok {
      return lines, false;
    }
    var directory := if "working_directory" in entries then clean(entries["working_directory"]) else clean("");
    if directory !in cgo {
      return lines, false;
    }
    var effective := if "cgo" in entries then entries["cgo"] else "false";
    if effective == cgo[directory] {
      return lines, false;
    }
    updated, did := UpsertJobWithEntryAt(lines, usesIndex, "cgo", cgo[directory]);
  }

  // ---------- Bottom-up passes ----------

  lemma SameAtFront(next: seq<Line>, x: seq<Line>, y: seq<Line>, u: nat)
    requires u < |next|
    ensures u < |next + x| && u < |next + y| && (next + x)[u] == (next + y)[u]
  {
  }

  lemma {:induction false} EarlierCallStaysInSections(pre: seq<Line>, ss: seq<Section>, tail: seq<Line>, edit: Edit,
                                                      c: nat)
    requires ShapedSections(ss, tail) && c < |CallsOf(ss, |pre|)|
    ensures var us, lines := CallsOf(ss, |pre|), pre + Render(ss, tail);
            && us[c] < |lines| && us[c] < |Pass(lines, us[c + 1..], edit)|
            && Pass(lines, us[c + 1..], edit)[us[c]] == lines[us[c]]
    decreases |ss|
  {
    var s, rest := ss[0], ss[1..];
    var a := pre + s.gap;
    var next := a + [s.header] + JobText(s.job);
    var lines := next + Render(rest, tail);
    assert lines == pre + Render(ss, tail) by {
      Join(pre, s.gap, s.header, JobText(s.job), Render(rest, tail));
    }
    var us, others, u := CallsOf(ss, |pre|), CallsOf(rest, |next|), |a| + 1 + |s.job.above|;
    assert us == [u] + others;
    if c == 0 {
      assert us[1..] == others;
      PassOfSections(next, rest, tail, edit);
      SameAtFront(next, Render(rest, tail), Render(ApplyAll(edit, rest), tail), u);
    } else {
      assert us[c] == others[c - 1] && us[c + 1..] == others[c..];
      EarlierCallStaysInSections(next, rest, tail, edit, c - 1);
    }
  }

  /** The edits from below leave every uses line above at its number. */
  lemma EarlierCallStays(lines: seq<Line>, edit: Edit, c: nat)
    requires OwnJobs(lines) && c < |CallsFrom(lines, 0)|
    ensures var us := CallsFrom(lines, 0);
            && us[c] < |lines| && us[c] < |Pass(lines, us[c + 1..], edit)|
            && Pass(lines, us[c + 1..], edit)[us[c]] == lines[us[c]]
  {
    var ss, tail := Sections(lines);
    assert [] + Render(ss, tail) == lines;
    CallsOfSections([], ss, tail);
    EarlierCallStaysInSections([], ss, tail, edit, c);
  }

  /** What a pass knows when the edits of the uses lines from number `cursor` on are done. */
  ghost predicate Passing(lines: seq<Line>, edit: Edit, cursor: nat, result: seq<Line>, changed: bool) {
    && cursor <= |CallsFrom(lines, 0)| && |result| >= |lines|
    && (OwnJobs(lines) ==> result == Pass(lines, CallsFrom(lines, 0)[cursor..], edit))
    && (!changed ==> result == lines)
    && (Settled(lines, edit) ==> !changed)
  }

  lemma {:induction false} PassingStart(lines: seq<Line>, edit: Edit)
    ensures Passing(lines, edit, |CallsFrom(lines, 0)|, lines, false)
  {
  }

  lemma {:induction false} PassingStep(lines: seq<Line>, edit: Edit, c: nat, result: seq<Line>, changed: bool, u: nat,
                                       now: seq<Line>, did: bool)
    requires Passing(lines, edit, c + 1, result, changed) && u == CallsFrom(lines, 0)[c] < |result|
    requires UsesLine(result[u]) ==> now == EditAt(result, u, edit)
    requires (did <==> now != result) && |now| >= |result|
    ensures Passing(lines, edit, c, now, changed || did)
  {
    var us := CallsFrom(lines, 0);
    assert us[c] in us;
    if OwnJobs(lines) {
      assert now == Pass(lines, us[c..], edit) by {
        EarlierCallStays(lines, edit, c);
      }
    }
  }

  lemma PassingDone(lines: seq<Line>, edit: Edit, result: seq<Line>, changed: bool)
    requires Passing(lines, edit, 0, result, changed) && Grows(edit)
    ensures OwnJobs(lines) ==> result == PassAll(lines, edit) && (changed <==> result != lines)
    ensures !changed ==> result == lines
    ensures Settled(lines, edit) ==> !changed
  {
    hide Settled, Grows, OwnJobs;
    assert CallsFrom(lines, 0)[0..] == CallsFrom(lines, 0);
    if OwnJobs(lines) && result == lines {
      SameFileIsSettled(lines, edit);
    }
  }

  lemma {:induction false} CallInside(lines: seq<Line>, edit: Edit, c: nat, result: seq<Line>, changed: bool)
    requires c < |CallsFrom(lines, 0)| && Passing(lines, edit, c + 1, result, changed)
    ensures CallsFrom(lines, 0)[c] < |result|
  {
    assert CallsFrom(lines, 0)[c] in CallsFrom(lines, 0);
  }

  method RepairCallerPermissions(lines: seq<Line>, perms: seq<Permission>) returns (result: seq<Line>, changed: bool)
    requires Required(perms)
    ensures OwnJobs(lines) ==> result == PassAll(lines, PermissionsEdit(perms))
    ensures !changed ==> result == lines
    ensures OwnJobs(lines) ==> (changed <==> result != lines)
    ensures Settled(lines, PermissionsEdit(perms)) ==> !changed
  {
    hide Passing, OwnJobs, Settled, PassAll, CallsFrom, EditAt, Grows;
    var indices := AllUsesLineIndices(lines);
    PassingStart(lines, PermissionsEdit(perms));
    result, changed := lines, false;
    var cursor := |indices|;
    while cursor > 0
      invariant 0 <= cursor <= |indices| && Passing(lines, PermissionsEdit(perms), cursor, result, changed)
    {
      cursor := cursor - 1;
      CallInside(lines, PermissionsEdit(perms), cursor, result, changed);
      var now, did := RepairCallerPermissionsAt(result, indices[cursor], perms);
      PassingStep(lines, PermissionsEdit(perms), cursor, result, changed, indices[cursor], now, did);
      result, changed := now, changed || did;
    }
    PermissionsGrow(perms);
    PassingDone(lines, PermissionsEdit(perms), result, changed);
  }

  method EnsureSecretsInherit(lines: seq<Line>) returns (result: seq<Line>, changed: bool)
    ensures OwnJobs(lines) ==> result == PassAll(lines, SecretsEdit())
    ensures !changed ==> result == lines
    ensures OwnJobs(lines) ==> (changed <==> result != lines)
    ensures Settled(lines, SecretsEdit()) ==> !changed
  {
    hide Passing, OwnJobs, Settled, PassAll, CallsFrom, EditAt, Grows;
    var indices := AllUsesLineIndices(lines);
    PassingStart(lines, SecretsEdit());
    result, changed := lines, false;
    var cursor := |indices|;
    while cursor > 0
      invariant 0 <= cursor <= |indices| && Passing(lines, SecretsEdit(), cursor, result, changed)
    {
      cursor := cursor - 1;
      CallInside(lines, SecretsEdit(), cursor, result, changed);
      var now, did := EnsureSecretsInheritAt(result, indices[cursor]);
      PassingStep(lines, SecretsEdit(), cursor, result, changed, indices[cursor], now, did);
      result, changed := now, changed || did;
    }
    SecretsGrow();
    PassingDone(lines, SecretsEdit(), result, changed);
  }

  method SyncCallerCgo(lines: seq<Line>, clean: string -> string, cgo: map<string, string>)
    returns (result: seq<Line>, changed: bool)
    ensures OwnJobs(lines) ==> result == PassAll(lines, CgoEdit(clean, cgo))
    ensures !changed ==> result == lines
    ensures OwnJobs(lines) ==> (changed <==> result != lines)
    ensures Settled(lines, CgoEdit(clean, cgo)) ==> !changed
  {
    hide Passing, OwnJobs, Settled, PassAll, CallsFrom, EditAt, Grows;
    var indices := AllUsesLineIndices(lines);
    PassingStart(lines, CgoEdit(clean, cgo));
    result, changed := lines, false;
    var cursor := |indices|;
    while cursor > 0
      invariant 0 <= cursor <= |indices| && Passing(lines, CgoEdit(clean, cgo), cursor, result, changed)
    {
      cursor := cursor - 1;
      CallInside(lines, CgoEdit(clean, cgo), cursor, result, changed);
      var now, did := SyncCallerCgoAt(result, indices[cursor], clean, cgo);
      PassingStep(lines, CgoEdit(clean, cgo), cursor, result, changed, indices[cursor], now, did);
      result, changed := now, changed || did;
    }
    CgoGrows(clean, cgo);
    PassingDone(lines, CgoEdit(clean, cgo), result, changed);
  }

  // ---------- CI follows the release ----------

  /** The map is what ReleaseCgoByWorkingDirectory makes of the release workflow. */
  ghost predicate CgoOf(release: seq<Line>, clean: string -> string, cgo: map<string, string>) {
    forall d, v :: (d in cgo && cgo[d] == v) <==> Shared(release, clean, d, v)
  }

  /** The caller job already has the cgo setting that the release jobs of its directory share, if they do: one that
      names none does without, as a release job does. */
  ghost predicate InStep(release: seq<Line>, clean: string -> string, d: string, m: map<string, string>) {
    && (Shared(release, clean, d, "true") ==> AsksForCgo(m))
    && (Shared(release, clean, d, "false") ==> DoesWithoutCgo(m))
  }

  /** What the sync does to one caller job: nothing if it is in step with the release, else it sets the shared
      value. */
  lemma CgoFollowsRelease(release: seq<Line>, lines: seq<Line>, u: nat, clean: string -> string,
                          cgo: map<string, string>,
                          d: string, m: map<string, string>)
    requires CgoOf(release, clean, cgo) && ReleaseJob(lines, u, clean, d, m)
    ensures InStep(release, clean, d, m) ==> EditAt(lines, u, CgoEdit(clean, cgo)) == lines
    ensures Shared(release, clean, d, "true") && !AsksForCgo(m) ==>
              EditAt(lines, u, CgoEdit(clean, cgo)) == EditAt(lines, u, InputEdit("cgo", "true"))
    ensures Shared(release, clean, d, "false") && !DoesWithoutCgo(m) ==>
              EditAt(lines, u, CgoEdit(clean, cgo)) == EditAt(lines, u, InputEdit("cgo", "false"))
  {
    hide EditAt, WithEntriesAt, Shared;
    WantedAt(lines, u, clean, cgo);
    SharedIsLiteral(release, clean, d);
    assert Shared(release, clean, d, "true") <==> d in cgo && cgo[d] == "true";
    assert Shared(release, clean, d, "false") <==> d in cgo && cgo[d] == "false";
    assert d in cgo ==> Shared(release, clean, d, cgo[d]);
  }

  lemma SharedIsLiteral(release: seq<Line>, clean: string -> string, d: string)
    ensures forall v :: Shared(release, clean, d, v) ==> v == "true" || v == "false"
  {
    hide ReleaseJob;
  }

  /** Every readable caller job is in step. */
  ghost predicate AllInStep(release: seq<Line>, lines: seq<Line>, clean: string -> string) {
    forall u: nat, d, m :: ReleaseJob(lines, u, clean, d, m) ==> InStep(release, clean, d, m)
  }

  lemma InStepIsSettled(release: seq<Line>, lines: seq<Line>, clean: string -> string, cgo: map<string, string>)
    requires CgoOf(release, clean, cgo) && CallsAreUses(lines) && AllInStep(release, lines, clean)
    ensures Settled(lines, CgoEdit(clean, cgo))
  {
    hide EditAt, WithEntriesAt, InStep, CgoOf;
    forall u: nat | u < |lines| && lines[u].calls
      ensures UsesLine(lines[u]) && EditAt(lines, u, CgoEdit(clean, cgo)) == lines
    {
      assert lines[u] in lines;
      match WithEntriesAt(lines, u)
      case None => WantedAt(lines, u, clean, cgo);
      case Some(m) =>
        var d := if "working_directory" in m then clean(m["working_directory"]) else clean("");
        assert ReleaseJob(lines, u, clean, d, m);
        CgoFollowsRelease(release, lines, u, clean, cgo, d, m);
    }
  }

  /** The sync over two files: a caller workflow whose jobs are all in step with the release is left alone. */
  method SyncFromRelease(release: seq<Line>, lines: seq<Line>, clean: string -> string)
    returns (result: seq<Line>, changed: bool, cgo: map<string, string>)
    requires CallsAreUses(release) && CallsAreUses(lines)
    ensures CgoOf(release, clean, cgo)
    ensures OwnJobs(lines) ==> result == PassAll(lines, CgoEdit(clean, cgo)) && (changed <==> result != lines)
    ensures AllInStep(release, lines, clean) ==> !changed && result == lines
  {
    hide Shared, AllInStep, OwnJobs, PassAll, Settled;
    cgo := ReleaseCgoByWorkingDirectory(release, clean);
    if AllInStep(release, lines, clean) {
      InStepIsSettled(release, lines, clean, cgo);
    }
    result, changed := SyncCallerCgo(lines, clean, cgo);
  }

  // ---------- The pipeline ----------

  /** The repair of an existing caller workflow in reconcileCIWorkflow. */
  method ReconcileCIWorkflow(lines: seq<Line>, perms: seq<Permission>, clean: string -> string,
                             cgo: map<string, string>)
    returns (repaired: seq<Line>, permsChanged: bool, secretsChanged: bool, cgoChanged: bool)
    requires Required(perms)
    ensures OwnJobs(lines) ==>
              && repaired == RepairFile(lines, perms, clean, cgo)
              && (!permsChanged && !secretsChanged && !cgoChanged <==>
                    Settled(lines, PermissionsEdit(perms)) && Settled(lines, SecretsEdit()) && Settled(lines, CgoEdit(clean, cgo)))
    ensures !permsChanged && !secretsChanged && !cgoChanged ==> repaired == lines
  {
    var first, second;
    first, permsChanged := RepairCallerPermissions(lines, perms);
    second, secretsChanged := EnsureSecretsInherit(first);
    repaired, cgoChanged := SyncCallerCgo(second, clean, cgo);
    if OwnJobs(lines) {
      EditsKeepShape(perms, clean, cgo);
      PassKeepsOwnJobs(lines, PermissionsEdit(perms));
      PassKeepsOwnJobs(first, SecretsEdit());
      if !permsChanged && !secretsChanged && !cgoChanged {
        PermissionsGrow(perms);
        SecretsGrow();
        CgoGrows(clean, cgo);
        SameFileIsSettled(lines, PermissionsEdit(perms));
        SameFileIsSettled(lines, SecretsEdit());
        SameFileIsSettled(lines, CgoEdit(clean, cgo));
      }
    }
  }

  lemma StillOwnJobs(lines: seq<Line>, perms: seq<Permission>, clean: string -> string, cgo: map<string, string>)
    requires OwnJobs(lines) && Required(perms)
    ensures OwnJobs(RepairFile(lines, perms, clean, cgo))
  {
    hide OwnJobs, PassAll, KeepsShape, Required;
    EditsKeepShape(perms, clean, cgo);
    PassKeepsOwnJobs(lines, PermissionsEdit(perms));
    PassKeepsOwnJobs(PassAll(lines, PermissionsEdit(perms)), SecretsEdit());
    PassKeepsOwnJobs(PassAll(PassAll(lines, PermissionsEdit(perms)), SecretsEdit()), CgoEdit(clean, cgo));
  }

  /** A second run changes no line, and says so in all three flags, exactly when every caller job of the
      original file settles. */
  method ReconcileTwice(lines: seq<Line>, perms: seq<Permission>, clean: string -> string, cgo: map<string, string>)
    returns (once: seq<Line>, again: seq<Line>, permsChanged: bool, secretsChanged: bool, cgoChanged: bool)
    requires OwnJobs(lines) && Required(perms)
    ensures once == RepairFile(lines, perms, clean, cgo)
    ensures again == once <==> AllSettle(lines, perms, clean, cgo)
    ensures (!permsChanged && !secretsChanged && !cgoChanged) <==> AllSettle(lines, perms, clean, cgo)
  {
    hide OwnJobs, RepairFile, AllSettle, Settled, Required, PassAll;
    var p, q, r;
    once, p, q, r := ReconcileCIWorkflow(lines, perms, clean, cgo);
    RepairFileTwiceIff(lines, perms, clean, cgo);
    StillOwnJobs(lines, perms, clean, cgo);
    again, permsChanged, secretsChanged, cgoChanged := ReconcileCIWorkflow(once, perms, clean, cgo);
  }
}
