/** The inputs of a caller job as scaffold.go reads and writes them line by line: the `with` block
    and the cgo value it carries. */
module ScaffoldInputs {
  import opened Options
  import opened WorkflowLine
  import opened WorkflowBlock
  import opened WorkflowJob
  import opened WorkflowText
  import opened WorkflowFile
  import opened WorkflowLimits
  import opened WorkflowInputs
  import opened Scaffold

  // ---------- Writing one input ----------

  function InputEdit(key: string, value: string): Edit {
    (job: Job) => UpsertWith(job, key, value)
  }

  lemma UpsertsBelow(job: Job, i: nat, key: string, value: string)
    requires Locate(job, "with") == Below(i) && job.below[i].block
    ensures UpsertWith(job, key, value) ==
            job.(below := WithKids(job.below, i, job.child, Upsert(Kids(job.below, i, job.child), job.child, key, value)))
  {
  }

  lemma WithBlock(lines: seq<Line>, a: seq<Line>, job: Job, r: seq<Line>, header: nat, usesIndex: nat, jobEnd: nat,
                  at: nat, key: string, value: string)
    requires Around(lines, a, job, r, header, usesIndex, jobEnd) && UsesLine(job.uses)
    requires header < at < jobEnd && FoundAt(job, header, usesIndex, "with", at)
    requires LineAt(job, header, usesIndex, jobEnd, at).block
    ensures BlockReplaced(lines, at, jobEnd, job.child, Upsert(BlockKids(lines, at, jobEnd, job.child), job.child, key, value))
            == a + JobText(UpsertWith(job, key, value)) + r
  {
    hide Kids, BlockKids, BlockReplaced, JobText, Upsert;
    if at < usesIndex {
    } else {
      UpsertsBelow(job, at - usesIndex - 1, key, value);
    }
    BlockOfJob(lines, a, job, r, header, usesIndex, jobEnd, at,
               Upsert(KidsAt(job, header, usesIndex, jobEnd, at), job.child, key, value));
  }

  /** A new block behind the block-form permissions. */
  lemma BehindPermissions(lines: seq<Line>, a: seq<Line>, job: Job, r: seq<Line>, header: nat, usesIndex: nat,
                          jobEnd: nat,
                          perm: nat, insertAt: nat, block: seq<Line>)
    requires Around(lines, a, job, r, header, usesIndex, jobEnd) && UsesLine(job.uses)
    requires header < perm < jobEnd && FoundAt(job, header, usesIndex, "permissions", perm)
    requires LineAt(job, header, usesIndex, jobEnd, perm).block
    requires insertAt == perm + 1 + |BlockKids(lines, perm, jobEnd, job.child)|
    ensures insertAt <= |lines|
    ensures lines[..insertAt] + block + lines[insertAt..] == a + JobText(NewWith(job, block)) + r
  {
    hide Kids, BlockKids, BlockReplaced, JobText;
    BlockOfJob(lines, a, job, r, header, usesIndex, jobEnd, perm, []);
    if perm < usesIndex {
      var i := perm - header - 1;
      KidsFit(job.above, i, job.child);
      InsertAbove(lines, a, job, r, BlockEnd(job.above, i, job.child), insertAt, block);
    } else {
      var i := perm - usesIndex - 1;
      KidsFit(job.below, i, job.child);
      InsertBelow(lines, a, job, r, BlockEnd(job.below, i, job.child), insertAt, block);
    }
  }

  /** A new block right behind the uses line. */
  lemma BehindUses(lines: seq<Line>, a: seq<Line>, job: Job, r: seq<Line>, header: nat, usesIndex: nat, jobEnd: nat,
                   perm: int, block: seq<Line>)
    requires Around(lines, a, job, r, header, usesIndex, jobEnd)
    requires perm < jobEnd && FoundAt(job, header, usesIndex, "permissions", perm)
    requires perm >= 0 ==> !LineAt(job, header, usesIndex, jobEnd, perm).block
    ensures lines[..usesIndex + 1] + block + lines[usesIndex + 1..] == a + JobText(NewWith(job, block)) + r
  {
    InsertBelow(lines, a, job, r, 0, usesIndex + 1, block);
    assert Inserted(job.below, 0, block) == block + job.below;
  }

  method InsertWithBlock(lines: seq<Line>, header: nat, usesIndex: nat, jobEnd: nat, block: seq<Line>,
                         ghost a: seq<Line>, ghost job: Job, ghost r: seq<Line>)
    returns (updated: seq<Line>)
    requires Around(lines, a, job, r, header, usesIndex, jobEnd)
    ensures UsesLine(job.uses) ==> updated == a + JobText(NewWith(job, block)) + r
    ensures |updated| == |lines| + |block|
  {
    AroundUses(lines, a, job, r, header, usesIndex, jobEnd);
    hide Around, FoundAt, JobText, BlockKids, NewWith, UsesLine;
    var insertAt := usesIndex + 1;
    var perm := LocateChild(lines, header, usesIndex, jobEnd, "permissions", a, job, r);
    if perm >= 0 && lines[perm].block {
      var usesIndent := lines[usesIndex].indent;
      insertAt := BlockEndIndex(lines, perm, jobEnd, usesIndent);
      if UsesLine(job.uses) {
        BehindPermissions(lines, a, job, r, header, usesIndex, jobEnd, perm, insertAt, block);
      }
    } else if UsesLine(job.uses) {
      BehindUses(lines, a, job, r, header, usesIndex, jobEnd, perm, block);
    }
    updated := lines[..insertAt] + block + lines[insertAt..];
  }

  method NewInput(lines: seq<Line>, header: nat, usesIndex: nat, jobEnd: nat, key: string, value: string,
                  ghost a: seq<Line>, ghost job: Job, ghost r: seq<Line>)
    returns (updated: seq<Line>)
    requires Around(lines, a, job, r, header, usesIndex, jobEnd) && job.parent == lines[header].indent
    ensures UsesLine(job.uses) && Locate(job, "with").Nowhere? ==> updated == a + JobText(UpsertWith(job, key, value)) + r
    ensures |updated| == |lines| + 2
  {
    var usesIndent := lines[usesIndex].indent;
    assert usesIndent == job.child by {
      AroundReads(lines, a, job, r, header, usesIndex, jobEnd);
    }
    var childIndent := usesIndent + (usesIndent - lines[header].indent);
    var block := [OpeningLine(usesIndent, "with"), EntryLine(childIndent, key, value)];
    updated := InsertWithBlock(lines, header, usesIndex, jobEnd, block, a, job, r);
  }

  method UpsertJobWithEntryIn(lines: seq<Line>, header: nat, usesIndex: nat, jobEnd: nat, key: string, value: string,
                              ghost a: seq<Line>, ghost job: Job, ghost r: seq<Line>)
    returns (updated: seq<Line>, did: bool)
    requires Around(lines, a, job, r, header, usesIndex, jobEnd) && job.parent == lines[header].indent
    ensures UsesLine(job.uses) ==> updated == a + JobText(UpsertWith(job, key, value)) + r
    ensures (did <==> updated != lines) && |updated| >= |lines|
  {
    hide JobText, BlockReplaced, BlockKids, Upsert;
    var at := LocateChild(lines, header, usesIndex, jobEnd, "with", a, job, r);
    AroundReads(lines, a, job, r, header, usesIndex, jobEnd);
    var usesIndent := lines[usesIndex].indent;
    if at >= 0 {
      if !lines[at].block {
        return lines, false;
      }
      updated, did := InsertOrUpdateBlockEntryLines(lines, at, jobEnd, usesIndent, key, value);
      if UsesLine(job.uses) {
        WithBlock(lines, a, job, r, header, usesIndex, jobEnd, at, key, value);
      }
      return;
    }
    updated := NewInput(lines, header, usesIndex, jobEnd, key, value, a, job, r);
    did := true;
  }

  method UpsertJobWithEntryAt(lines: seq<Line>, usesIndex: nat, key: string, value: string)
    returns (updated: seq<Line>, did: bool)
    requires usesIndex < |lines|
    ensures UsesLine(lines[usesIndex]) ==> updated == EditAt(lines, usesIndex, InputEdit(key, value))
    ensures (did <==> updated != lines) && |updated| >= |lines|
  {
    var header, jobEnd;
    ghost var a, job, r;
    header, jobEnd, a, job, r := FindJob(lines, usesIndex, InputEdit(key, value));
    if header < 0 {
      return lines, false;
    }
    updated, did := UpsertJobWithEntryIn(lines, header, usesIndex, jobEnd, key, value, a, job, r);
  }

  // ---------- Reading the inputs ----------

  /** jobWithEntries at a uses line of a file. */
  function WithEntriesAt(lines: seq<Line>, u: nat): Option<map<string, string>>
    requires u < |lines|
  {
    var h := HeaderAbove(lines, u, lines[u].indent);
    if h < 0 then None else WithEntries(JobAt(lines, h, u))
  }

  lemma {:induction false} NoContentNoEntries(done: seq<Line>, indent: nat)
    requires FirstContent(done) == |done|
    ensures EntriesAt(done, indent) == map[]
  {
    if done != [] {
      var front := done[..|done| - 1];
      assert forall i :: 0 <= i < |front| ==> front[i] == done[i] && done[i].skip;
      FirstContentUnique(front, |front|);
      NoContentNoEntries(front, indent);
    }
  }

  /** What the reading loop has collected over `done`. */
  ghost predicate Collected(done: seq<Line>, n: nat, childIndent: int, entries: map<string, string>) {
    Scanned(done, n, childIndent) && entries == if childIndent < 0 then map[] else EntriesAt(done, childIndent)
  }

  lemma CollectStep(done: seq<Line>, line: Line, n: nat, childIndent: int, entries: map<string, string>)
    requires Collected(done, n, childIndent, entries) && !Ends(line, n)
    ensures var now := if line.skip || childIndent >= 0 then childIndent else line.indent;
            Collected(done + [line], n, now,
                      if !line.skip && line.indent == now && line.colon then entries[line.name := line.value] else entries)
  {
    ScanStep(done, line, n, childIndent);
    var now := if line.skip || childIndent >= 0 then childIndent else line.indent;
    if now >= 0 {
      if childIndent < 0 {
        NoContentNoEntries(done, now);
      }
    }
  }

  method ReadBlockEntries(lines: seq<Line>, withIndex: nat, jobEnd: nat,
                          usesIndent: nat) returns (entries: map<string, string>)
    requires withIndex < jobEnd <= |lines|
    ensures entries == Entries(BlockKids(lines, withIndex, jobEnd, usesIndent), usesIndent)
  {
    entries := map[];
    var childIndent := -1;
    var index := withIndex + 1;
    while index < jobEnd
      invariant withIndex < index <= jobEnd
      invariant Collected(lines[withIndex + 1..index], usesIndent, childIndent, entries)
    {
      ghost var done := lines[withIndex + 1..index];
      SliceSnoc(lines, withIndex + 1, index);
      if lines[index].skip {
        CollectStep(done, lines[index], usesIndent, childIndent, entries);
        index := index + 1;
        continue;
      }
      var indent := lines[index].indent;
      if indent <= usesIndent {
        break;
      }
      CollectStep(done, lines[index], usesIndent, childIndent, entries);
      if childIndent < 0 {
        childIndent := indent;
      }
      if indent == childIndent && lines[index].colon {
        entries := entries[lines[index].name := lines[index].value];
      }
      index := index + 1;
    }
    ScannedKids(lines, withIndex, jobEnd, index, usesIndent, childIndent);
    if childIndent < 0 {
      NoContentNoEntries(lines[withIndex + 1..index], usesIndent + 2);
    }
  }

  method JobWithEntries(lines: seq<Line>, usesIndex: nat) returns (entries: map<string, string>, ok: bool)
    requires usesIndex < |lines|
    ensures UsesLine(lines[usesIndex]) ==>
              WithEntriesAt(lines, usesIndex) == if ok then Some(entries) else None
  {
    var header, jobEnd;
    ghost var a, job, r;
    header, jobEnd, a, job, r := FindJob(lines, usesIndex, SecretsEdit());
    if header < 0 {
      return map[], false;
    }
    entries, ok := JobWithEntriesIn(lines, header, usesIndex, jobEnd, a, job, r);
  }

  method JobWithEntriesIn(lines: seq<Line>, header: nat, usesIndex: nat, jobEnd: nat,
                          ghost a: seq<Line>, ghost job: Job, ghost r: seq<Line>)
    returns (entries: map<string, string>, ok: bool)
    requires Around(lines, a, job, r, header, usesIndex, jobEnd)
    ensures UsesLine(job.uses) ==> WithEntries(job) == if ok then Some(entries) else None
  {
    hide Entries, UsesLine, FindChild, BlockKids, Kids;
    var at := LocateChild(lines, header, usesIndex, jobEnd, "with", a, job, r);
    AroundReads(lines, a, job, r, header, usesIndex, jobEnd);
    if at < 0 {
      return map[], true;
    }
    if !lines[at].block {
      return map[], false;
    }
    entries := ReadBlockEntries(lines, at, jobEnd, lines[usesIndex].indent);
    ok := true;
    if UsesLine(job.uses) {
      BlockOfJob(lines, a, job, r, header, usesIndex, jobEnd, at, []);
    }
  }

  // ---------- Read after write in a file ----------

  /** The job around a uses line that has a header ends where its indentation says. */
  lemma {:induction false} JobFits(lines: seq<Line>, u: nat)
    requires u < |lines| && HeaderAbove(lines, u, lines[u].indent) >= 0
    ensures var h := HeaderAbove(lines, u, lines[u].indent); var job := JobAt(lines, h, u);
            && Fitting(job) && Closed(lines[BodyEnd(lines, u, job.parent)..], job.parent)
            && !lines[h].skip
  {
    var h := HeaderAbove(lines, u, lines[u].indent);
    var job := JobAt(lines, h, u);
    var e := BodyEnd(lines, u, job.parent);
    assert e < |lines| ==> lines[e..][0] == lines[e];
    forall line | line in job.above
      ensures line.skip || line.indent >= job.child
    {
      var i :| 0 <= i < |job.above| && job.above[i] == line;
      assert lines[h + 1 + i] == line;
    }
    forall line | line in job.below
      ensures !Ends(line, job.parent)
    {
      var i :| 0 <= i < |job.below| && job.below[i] == line;
      assert lines[u + 1 + i] == line;
    }
  }

  /** Where the uses line `u` stands once the input is written. */
  function Moved(lines: seq<Line>, u: nat, key: string, value: string): nat
    requires u < |lines|
  {
    var h := HeaderAbove(lines, u, lines[u].indent);
    if h < 0 then u else h + 1 + |UpsertWith(JobAt(lines, h, u), key, value).above|
  }

  lemma FoundJobIsRead(a: seq<Line>, header: Line, job: Job, rest: seq<Line>)
    requires Fitting(job) && !header.skip && header.indent == job.parent && Closed(rest, job.parent)
    ensures var lines, u := a + [header] + JobText(job) + rest, |a| + 1 + |job.above|;
            u < |lines| && lines[u] == job.uses && WithEntriesAt(lines, u) == WithEntries(job)
  {
    hide WithEntries, Closed;
    JobFound(a, header, job, rest);
  }

  lemma {:induction false} EditAtIs(lines: seq<Line>, u: nat, edit: Edit)
    requires u < |lines| && HeaderAbove(lines, u, lines[u].indent) >= 0
    ensures var h := HeaderAbove(lines, u, lines[u].indent); var job := JobAt(lines, h, u);
            EditAt(lines, u, edit) == lines[..h] + [lines[h]] + JobText(edit(job)) + lines[BodyEnd(lines, u, job.parent)..]
  {
    var h := HeaderAbove(lines, u, lines[u].indent);
    assert lines[..h + 1] == lines[..h] + [lines[h]];
  }

  /** Behind a write the reader finds the written job around the same uses line, which has moved with
      the lines above it. */
  lemma {:induction false} WrittenJobIsFound(lines: seq<Line>, u: nat, key: string, value: string)
    requires u < |lines| && HeaderAbove(lines, u, lines[u].indent) >= 0
    ensures var h, now, v := HeaderAbove(lines, u, lines[u].indent), EditAt(lines, u, InputEdit(key, value)), Moved(lines, u, key, value);
            && v < |now| && now[v] == lines[u]
            && WithEntriesAt(now, v) == WithEntries(UpsertWith(JobAt(lines, h, u), key, value))
  {
    hide UpsertWith, WithEntries, Fitting, Closed, WithEntriesAt, EditAt, JobText, BodyEnd;
    var h := HeaderAbove(lines, u, lines[u].indent);
    var job := JobAt(lines, h, u);
    var rest := lines[BodyEnd(lines, u, job.parent)..];
    JobFits(lines, u);
    UpsertKeepsShape(job, key, value);
    UpsertSameFrame(job, key, value);
    EditAtIs(lines, u, InputEdit(key, value));
    FoundJobIsRead(lines[..h], lines[h], UpsertWith(job, key, value), rest);
  }

  lemma UpsertSameFrame(job: Job, key: string, value: string)
    ensures var now := UpsertWith(job, key, value);
            now.parent == job.parent && now.child == job.child && now.uses == job.uses
  {
  }

  /** Read after write in any file: written at a uses line and read back at the place to which that
      line has moved, an input has its value and every other one is as before, exactly when a new with
      block picks up nothing of the lines that continue the uses line. */
  lemma {:induction false} FileInputReadsBackIff(lines: seq<Line>, u: nat, key: string, value: string)
    requires u < |lines| && HeaderAbove(lines, u, lines[u].indent) >= 0 && WithEntriesAt(lines, u).Some?
    requires AtMostOneInput(JobAt(lines, HeaderAbove(lines, u, lines[u].indent), u), key)
    ensures var now, v := EditAt(lines, u, InputEdit(key, value)), Moved(lines, u, key, value);
            && v < |now| && now[v] == lines[u]
            && ((&& WithEntriesAt(now, v).Some?
                 && WithEntriesAt(now, v).value - {key} == WithEntriesAt(lines, u).value - {key}
                 && key in WithEntriesAt(now, v).value && WithEntriesAt(now, v).value[key] == value)
                <==>
                var job := JobAt(lines, HeaderAbove(lines, u, lines[u].indent), u);
                Locate(job, "with").Nowhere? ==> PickedUp(job) == map[] || PickedUp(job) == map[key := value])
  {
    hide UpsertWith, WithEntries, PickedUp, AtMostOneInput;
    var job := JobAt(lines, HeaderAbove(lines, u, lines[u].indent), u);
    WrittenJobIsFound(lines, u, key, value);
    InputReadsBackIff(job, key, value);
  }

  // ---------- What the release passes ----------

  /** The directory and the cgo value of a release job; a job that names none passes false. */
  datatype Passed = Passed(directory: string, value: string)

  function PassedAt(lines: seq<Line>, u: nat, clean: string -> string): Option<Passed>
    requires u < |lines|
  {
    match WithEntriesAt(lines, u)
    case None => None
    case Some(m) => Some(Passed(clean(Get(m, "working_directory", "")), Get(m, "cgo", "false")))
  }

  /** What the readable jobs pass. */
  function AllPassed(lines: seq<Line>, us: seq<nat>, clean: string -> string): set<Passed> {
    if us == [] then {}
    else
      var u := us[|us| - 1];
      AllPassed(lines, us[..|us| - 1], clean) +
      if u < |lines| && PassedAt(lines, u, clean).Some? then {PassedAt(lines, u, clean).value} else {}
  }

  predicate Literal(value: string) {
    value == "true" || value == "false"
  }

  /** The jobs of the directory all pass this one literal. */
  ghost predicate Agreed(all: set<Passed>, directory: string, value: string) {
    && Literal(value) && Passed(directory, value) in all
    && forall p :: p in all && p.directory == directory ==> p.value == value
  }

  ghost predicate Conflict(all: set<Passed>, directory: string) {
    exists p, q :: p in all && q in all && p.directory == directory == q.directory && (p.value != q.value || !Literal(p.value))
  }

  ghost predicate ValuesSeen(all: set<Passed>, cgo: map<string, string>) {
    forall d :: d in cgo ==> Literal(cgo[d]) && Passed(d, cgo[d]) in all
  }

  ghost predicate EveryJobSeen(all: set<Passed>, cgo: map<string, string>, unresolved: set<string>) {
    forall p :: p in all ==> p.directory in unresolved || (p.directory in cgo && cgo[p.directory] == p.value)
  }

  ghost predicate ConflictsSeen(all: set<Passed>, unresolved: set<string>) {
    forall d :: d in unresolved ==> Conflict(all, d)
  }

  /** What the loop has recorded from the jobs so far. */
  ghost predicate Recorded(all: set<Passed>, cgo: map<string, string>, unresolved: set<string>) {
    ValuesSeen(all, cgo) && EveryJobSeen(all, cgo, unresolved) && ConflictsSeen(all, unresolved)
  }

  lemma ConflictsStay(all: set<Passed>, p: Passed, unresolved: set<string>)
    requires ConflictsSeen(all, unresolved) && Conflict(all + {p}, p.directory)
    ensures ConflictsSeen(all + {p}, unresolved + {p.directory})
  {
    forall d | d in unresolved
      ensures Conflict(all + {p}, d)
    {
      assert Conflict(all, d);
    }
  }

  lemma RecordUnresolved(all: set<Passed>, p: Passed, cgo: map<string, string>, unresolved: set<string>)
    requires Recorded(all, cgo, unresolved) && !Literal(p.value)
    ensures Recorded(all + {p}, cgo, unresolved + {p.directory})
  {
    hide ConflictsSeen;
    assert Conflict(all + {p}, p.directory);
    hide Conflict;
    ConflictsStay(all, p, unresolved);
  }

  lemma RecordConflict(all: set<Passed>, p: Passed, cgo: map<string, string>, unresolved: set<string>)
    requires Recorded(all, cgo, unresolved) && Literal(p.value) && p.directory in cgo && cgo[p.directory] != p.value
    ensures Recorded(all + {p}, cgo[p.directory := p.value], unresolved + {p.directory})
  {
    hide Literal, ConflictsSeen;
    assert Conflict(all + {p}, p.directory) by {
      assert Passed(p.directory, cgo[p.directory]) in all + {p};
    }
    hide Conflict;
    ConflictsStay(all, p, unresolved);
  }

  lemma RecordValue(all: set<Passed>, p: Passed, cgo: map<string, string>, unresolved: set<string>)
    requires Recorded(all, cgo, unresolved) && Literal(p.value) && (p.directory in cgo ==> cgo[p.directory] == p.value)
    ensures Recorded(all + {p}, cgo[p.directory := p.value], unresolved)
  {
    hide Literal;
  }

  /** What the loop body records for one more job. */
  lemma RecordOne(all: set<Passed>, p: Passed, cgo: map<string, string>, unresolved: set<string>)
    requires Recorded(all, cgo, unresolved)
    ensures !Literal(p.value) ==> Recorded(all + {p}, cgo, unresolved + {p.directory})
    ensures Literal(p.value) && p.directory in cgo && cgo[p.directory] != p.value ==>
              Recorded(all + {p}, cgo[p.directory := p.value], unresolved + {p.directory})
    ensures Literal(p.value) && (p.directory in cgo ==> cgo[p.directory] == p.value) ==>
              Recorded(all + {p}, cgo[p.directory := p.value], unresolved)
  {
    hide Literal, Recorded;
    if !Literal(p.value) {
      RecordUnresolved(all, p, cgo, unresolved);
    } else if p.directory in cgo && cgo[p.directory] != p.value {
      RecordConflict(all, p, cgo, unresolved);
    } else {
      RecordValue(all, p, cgo, unresolved);
    }
  }

  lemma {:induction false} NothingPassed(lines: seq<Line>, us: seq<nat>, clean: string -> string)
    ensures AllPassed(lines, us[..0], clean) == {}
  {
  }

  lemma {:induction false} AllPassedStep(lines: seq<Line>, us: seq<nat>, i: nat, clean: string -> string)
    requires i < |us| && us[i] < |lines|
    ensures var p := PassedAt(lines, us[i], clean);
            AllPassed(lines, us[..i + 1], clean) ==
            if p.Some? then AllPassed(lines, us[..i], clean) + {p.value} else AllPassed(lines, us[..i], clean)
  {
    assert us[..i + 1][..i] == us[..i];
  }

  method ReadReleaseJob(lines: seq<Line>, usesIndex: nat, clean: string -> string) returns (job: Option<Passed>)
    requires usesIndex < |lines|
    ensures UsesLine(lines[usesIndex]) ==> job == PassedAt(lines, usesIndex, clean)
  {
    var entries, ok := JobWithEntries(lines, usesIndex);
    if !ok {
      return None;
    }
    var directory := if "working_directory" in entries then clean(entries["working_directory"]) else clean("");
    var value := if "cgo" in entries then entries["cgo"] else "false";
    return Some(Passed(directory, value));
  }

  ghost predicate CallsAreUses(lines: seq<Line>) {
    forall line :: line in lines && line.calls ==> UsesLine(line)
  }

  lemma NothingRecorded()
    ensures Recorded({}, map[], {})
  {
  }

  /** Behind the last job the map without the unresolved directories holds what the jobs agree on. */
  lemma RecordedIsAgreed(all: set<Passed>, cgo: map<string, string>, unresolved: set<string>)
    requires Recorded(all, cgo, unresolved)
    ensures var resolved := cgo - unresolved;
            forall d, v :: (d in resolved && resolved[d] == v) <==> Agreed(all, d, v)
  {
    hide Literal;
    var resolved := cgo - unresolved;
    forall d, v | d in resolved && resolved[d] == v
      ensures Agreed(all, d, v)
    {
    }
    forall d, v | Agreed(all, d, v)
      ensures d in resolved && resolved[d] == v
    {
      assert Passed(d, v) in all;
      assert d !in unresolved;
    }
  }

  // ---------- What the caller of a release workflow sees ----------

  /** A release job for the directory `d` with the inputs `m`; a job that names no directory is for the one that the
      empty path is cleaned to. */
  predicate ReleaseJob(lines: seq<Line>, u: nat, clean: string -> string, d: string, m: map<string, string>) {
    && u < |lines| && lines[u].calls && WithEntriesAt(lines, u) == Some(m)
    && d == if "working_directory" in m then clean(m["working_directory"]) else clean("")
  }

  predicate AsksForCgo(m: map<string, string>) {
    "cgo" in m && m["cgo"] == "true"
  }

  /** The job says that it does without cgo, or says nothing. */
  predicate DoesWithoutCgo(m: map<string, string>) {
    "cgo" in m ==> m["cgo"] == "false"
  }

  /** The readable release jobs of a directory, if there are any, all ask for cgo, or all do without. */
  ghost predicate Shared(lines: seq<Line>, clean: string -> string, d: string, value: string) {
    && (exists u: nat, m :: ReleaseJob(lines, u, clean, d, m))
    && ((value == "true" && forall u: nat, m :: ReleaseJob(lines, u, clean, d, m) ==> AsksForCgo(m)) ||
        (value == "false" && forall u: nat, m :: ReleaseJob(lines, u, clean, d, m) ==> DoesWithoutCgo(m)))
  }

  lemma {:induction false} PassedFrom(lines: seq<Line>, us: seq<nat>, clean: string -> string, p: Passed)
    ensures p in AllPassed(lines, us, clean) <==>
            exists u :: u in us && u < |lines| && PassedAt(lines, u, clean) == Some(p)
    decreases |us|
  {
    hide PassedAt;
    if us != [] {
      var n := |us| - 1;
      PassedFrom(lines, us[..n], clean, p);
      assert us == us[..n] + [us[n]];
      assert forall u :: u in us <==> u in us[..n] || u == us[n];
    }
  }

  predicate PassesCgo(m: map<string, string>, value: string) {
    value == if "cgo" in m then m["cgo"] else "false"
  }

  lemma JobIsPassed(lines: seq<Line>, u: nat, clean: string -> string, p: Passed)
    requires u < |lines| && lines[u].calls
    ensures PassedAt(lines, u, clean) == Some(p) <==>
            exists m :: ReleaseJob(lines, u, clean, p.directory, m) && PassesCgo(m, p.value)
  {
    hide WithEntriesAt;
    if WithEntriesAt(lines, u).Some? {
      var m := WithEntriesAt(lines, u).value;
      assert PassedAt(lines, u, clean) == Some(p) ==> ReleaseJob(lines, u, clean, p.directory, m);
    }
  }

  lemma {:induction false} PassedJobs(lines: seq<Line>, clean: string -> string, p: Passed)
    ensures p in AllPassed(lines, CallsFrom(lines, 0), clean) <==>
            exists u: nat, m :: ReleaseJob(lines, u, clean, p.directory, m) && PassesCgo(m, p.value)
  {
    hide WithEntriesAt, AllPassed, CallsFrom, PassedAt, PassesCgo;
    PassedFrom(lines, CallsFrom(lines, 0), clean, p);
    forall u: nat | u < |lines| && lines[u].calls
      ensures PassedAt(lines, u, clean) == Some(p) <==>
              exists m :: ReleaseJob(lines, u, clean, p.directory, m) && PassesCgo(m, p.value)
    {
      JobIsPassed(lines, u, clean, p);
    }
  }

  /** Agreement is sharing. */
  lemma {:induction false} AgreedIsShared(lines: seq<Line>, clean: string -> string, d: string, value: string)
    ensures Agreed(AllPassed(lines, CallsFrom(lines, 0), clean), d, value) <==> Shared(lines, clean, d, value)
  {
    hide AllPassed, CallsFrom, ReleaseJob;
    var all := AllPassed(lines, CallsFrom(lines, 0), clean);
    forall p: Passed
      ensures p in all <==> exists u: nat, m :: ReleaseJob(lines, u, clean, p.directory, m) && PassesCgo(m, p.value)
    {
      PassedJobs(lines, clean, p);
    }
    forall u: nat, m | ReleaseJob(lines, u, clean, d, m)
      ensures Passed(d, if "cgo" in m then m["cgo"] else "false") in all
    {
      assert PassesCgo(m, Passed(d, if "cgo" in m then m["cgo"] else "false").value);
    }
  }

  /** The map holds `true` for exactly the directories whose readable release jobs all ask for cgo, and `false`
      for exactly those whose jobs all do without, in whatever order the jobs come. */
  method ReleaseCgoByWorkingDirectory(lines: seq<Line>, clean: string -> string) returns (cgo: map<string, string>)
    ensures CallsAreUses(lines) ==> forall d, v :: (d in cgo && cgo[d] == v) <==> Shared(lines, clean, d, v)
  {
    hide Recorded, AllPassed, Agreed, PassedAt, CallsFrom, Shared, WithEntriesAt;
    var indices := AllUsesLineIndices(lines);
    cgo := map[];
    var unresolved: set<string> := {};
    NothingRecorded();
    NothingPassed(lines, indices, clean);
    for i := 0 to |indices|
      invariant CallsAreUses(lines) ==> Recorded(AllPassed(lines, indices[..i], clean), cgo, unresolved)
    {
      assert indices[i] in indices && lines[indices[i]] in lines;
      AllPassedStep(lines, indices, i, clean);
      var job := ReadReleaseJob(lines, indices[i], clean);
      if job.None? {
        continue;
      }
      var p := job.value;
      if CallsAreUses(lines) {
        RecordOne(AllPassed(lines, indices[..i], clean), p, cgo, unresolved);
      }
      if p.value != "true" && p.value != "false" {
        unresolved := unresolved + {p.directory};
        continue;
      }
      if p.directory in cgo && cgo[p.directory] != p.value {
        unresolved := unresolved + {p.directory};
      }
      cgo := cgo[p.directory := p.value];
    }
    assert indices[..|indices|] == indices;
    if CallsAreUses(lines) {
      RecordedIsAgreed(AllPassed(lines, indices, clean), cgo, unresolved);
      forall d, v
        ensures Agreed(AllPassed(lines, indices, clean), d, v) <==> Shared(lines, clean, d, v)
      {
        AgreedIsShared(lines, clean, d, v);
      }
    }
    cgo := cgo - unresolved;
  }
}
