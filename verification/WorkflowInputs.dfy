/** What setting one input of a caller job does to the inputs that read back from it, and to every
    line of the job. */
module WorkflowInputs {
  import opened Options
  import opened WorkflowLine
  import opened WorkflowBlock
  import opened WorkflowJob
  import opened WorkflowIdempotence
  import opened WorkflowLimits
  import opened WorkflowText

  // ---------- Read after write ----------

  /** The with block of the job has the key at most once. */
  predicate AtMostOneInput(job: Job, key: string) {
    match Locate(job, "with")
    case Nowhere => true
    case Above(i) => AtMostOnce(Kids(job.above, i, job.child), ChildIndent(Kids(job.above, i, job.child), job.child), key)
    case Below(i) => AtMostOnce(Kids(job.below, i, job.child), ChildIndent(Kids(job.below, i, job.child), job.child), key)
  }

  lemma SideReadsBack(lines: seq<Line>, n: nat, key: string, value: string) returns (now: seq<Line>)
    requires FindChild(lines, n, "with") < |lines| && lines[FindChild(lines, n, "with")].block
    ensures now == UpsertSide(lines, FindChild(lines, n, "with"), n, key, value)
    ensures var i := FindChild(lines, n, "with");
            && FindChild(now, n, "with") == i < |now| && now[i].block
            && Entries(Kids(now, i, n), n) - {key} == Entries(Kids(lines, i, n), n) - {key}
            && (AtMostOnce(Kids(lines, i, n), ChildIndent(Kids(lines, i, n), n), key) ==>
                  key in Entries(Kids(now, i, n), n) && Entries(Kids(now, i, n), n)[key] == value)
  {
    var i := FindChild(lines, n, "with");
    var kids := Kids(lines, i, n);
    now := UpsertSide(lines, i, n, key, value);
    var rest := SplitAt(lines, i, n);
    PlacedKeepsKids(kids, n, key, EntryLine(ChildIndent(kids, n), key, value));
    WithKidsOwnBlock(lines, n, Upsert(kids, n, key, value), "with");
    var a, gone, b := UpsertReadsBack(kids, n, key, value);
  }

  /** Read after write for upsertJobWithEntryAt and jobWithEntries.  In an existing block the written input reads
      back, provided the block named it at most once, and every other input reads as before.  A new block
      reads as the input and whatever it picks up of the lines that continue the uses line. */
  lemma InputReadsBack(job: Job, key: string, value: string)
    requires job.parent < job.child && WithEntries(job).Some?
    ensures var was, now := WithEntries(job).value, WithEntries(UpsertWith(job, key, value));
            && now.Some?
            && (Locate(job, "with").Nowhere? ==> now.value == map[key := value] + PickedUp(job))
            && (!Locate(job, "with").Nowhere? ==>
                  && now.value - {key} == was - {key}
                  && (AtMostOneInput(job, key) ==> key in now.value && now.value[key] == value))
  {
    hide UpsertSide, Entries, PickedUp, Kids;
    match Locate(job, "with")
    case Nowhere => NewWithReads(job, key, value);
    case Above(i) => var now := SideReadsBack(job.above, job.child, key, value);
    case Below(i) => var now := SideReadsBack(job.below, job.child, key, value);
  }

  lemma OneKeyOnly(more: map<string, string>, key: string, value: string)
    ensures var now, none: map<string, string> := map[key := value] + more, map[];
            (now - {key} == none - {key} && now[key] == value) <==> (more == map[] || more == map[key := value])
  {
    var now, none: map<string, string> := map[key := value] + more, map[];
    if now - {key} == none - {key} && now[key] == value {
      forall k | k in more
        ensures k == key
      {
        assert k != key ==> k in now - {key};
      }
      assert key !in more ==> more == map[];
    }
  }

  /** The exact condition for read after write and frame: they hold if and only if a new with block picks up no
      other input, and no other value of this one. */
  lemma InputReadsBackIff(job: Job, key: string, value: string)
    requires job.parent < job.child && WithEntries(job).Some? && AtMostOneInput(job, key)
    ensures var was, now := WithEntries(job).value, WithEntries(UpsertWith(job, key, value));
            (now.Some? && now.value - {key} == was - {key} && key in now.value && now.value[key] == value)
            <==> (Locate(job, "with").Nowhere? ==> PickedUp(job) == map[] || PickedUp(job) == map[key := value])
  {
    hide UpsertWith, PickedUp, AtMostOneInput;
    InputReadsBack(job, key, value);
    var more := PickedUp(job);
    if Locate(job, "with").Nowhere? {
      assert WithEntries(job) == Some(map[]);
      OneKeyOnly(more, key, value);
    }
  }

  // ---------- Every other line survives ----------

  /** `now` is `was` with at most one line, an entry of the key, replaced by the lines `put`. */
  ghost predicate OnlyChanged(was: seq<Line>, now: seq<Line>, x: seq<Line>, gone: seq<Line>, put: seq<Line>,
                              y: seq<Line>, key: string) {
    && was == x + gone + y && now == x + put + y
    && (gone == [] || (|gone| == 1 && !gone[0].skip && gone[0].name == key))
  }

  lemma NestedChange(front: seq<Line>, a: seq<Line>, gone: seq<Line>, put: seq<Line>, b: seq<Line>, rest: seq<Line>,
                     key: string)
    requires gone == [] || (|gone| == 1 && !gone[0].skip && gone[0].name == key)
    ensures OnlyChanged(front + (a + gone + b) + rest, front + (a + put + b) + rest, front + a, gone, put, b + rest, key)
  {
  }

  lemma SideChange(lines: seq<Line>, i: nat, n: nat, key: string, value: string)
    returns (x: seq<Line>, gone: seq<Line>, put: seq<Line>, y: seq<Line>)
    requires i < |lines|
    ensures OnlyChanged(lines, UpsertSide(lines, i, n, key, value), x, gone, put, y, key)
    ensures put == [] || (|put| == 1 && put[0] == EntryLine(put[0].indent, key, value))
  {
    if lines[i].block {
      var kids := Kids(lines, i, n);
      var a, b;
      a, gone, b := UpsertReadsBack(kids, n, key, value);
      var rest := WithKidsParts(lines, i, n, Upsert(kids, n, key, value));
      put := [EntryLine(ChildIndent(kids, n), key, value)];
      NestedChange(lines[..i] + [lines[i]], a, gone, put, b, rest, key);
      x, y := lines[..i] + [lines[i]] + a, b + rest;
    } else {
      x, gone, put, y := lines, [], [], [];
    }
  }

  lemma ChangeAbove(above: seq<Line>, now: seq<Line>, uses: Line, below: seq<Line>,
                    x: seq<Line>, gone: seq<Line>, put: seq<Line>, y: seq<Line>, key: string)
    requires OnlyChanged(above, now, x, gone, put, y, key)
    ensures OnlyChanged(above + [uses] + below, now + [uses] + below, x, gone, put, y + [uses] + below, key)
  {
  }

  lemma ChangeBelow(above: seq<Line>, uses: Line, below: seq<Line>, now: seq<Line>,
                    x: seq<Line>, gone: seq<Line>, put: seq<Line>, y: seq<Line>, key: string)
    requires OnlyChanged(below, now, x, gone, put, y, key)
    ensures OnlyChanged(above + [uses] + below, above + [uses] + now, above + [uses] + x, gone, put, y, key)
  {
  }

  lemma NewWithChange(job: Job, block: seq<Line>, key: string)
    returns (x: seq<Line>, y: seq<Line>)
    requires Locate(job, "with").Nowhere?
    ensures OnlyChanged(JobText(job), JobText(NewWith(job, block)), x, [], block, y, key)
  {
    var n := job.child;
    match Locate(job, "permissions")
    case Above(i) =>
      if job.above[i].block {
        var at := BlockEnd(job.above, i, n);
        ChangeAbove(job.above, Inserted(job.above, at, block), job.uses, job.below, job.above[..at], [], block,
                    job.above[at..], key);
        return job.above[..at], job.above[at..] + [job.uses] + job.below;
      }
      x, y := FrontChange(job, block, key);
    case Below(i) =>
      if job.below[i].block {
        var at := BlockEnd(job.below, i, n);
        ChangeBelow(job.above, job.uses, job.below, Inserted(job.below, at, block), job.below[..at], [], block,
                    job.below[at..], key);
        return job.above + [job.uses] + job.below[..at], job.below[at..];
      }
      x, y := FrontChange(job, block, key);
    case Nowhere =>
      x, y := FrontChange(job, block, key);
  }

  lemma FrontChange(job: Job, block: seq<Line>, key: string) returns (x: seq<Line>, y: seq<Line>)
    ensures OnlyChanged(JobText(job), JobText(job.(below := block + job.below)), x, [], block, y, key)
  {
    assert Inserted(job.below, 0, block) == block + job.below;
    ChangeBelow(job.above, job.uses, job.below, block + job.below, job.below[..0], [], block, job.below[0..], key);
    x, y := job.above + [job.uses] + job.below[..0], job.below[0..];
  }

  /** The lines put in are the entry and, when there was no block, the line that opens it. */
  ghost predicate Written(put: seq<Line>, n: nat, key: string, value: string) {
    forall line :: line in put ==> line == OpeningLine(n, "with") || line == EntryLine(line.indent, key, value)
  }

  lemma SurviveAbove(job: Job, i: nat, key: string, value: string)
    returns (x: seq<Line>, gone: seq<Line>, put: seq<Line>, y: seq<Line>)
    requires Locate(job, "with") == Above(i)
    ensures OnlyChanged(JobText(job), JobText(UpsertWith(job, key, value)), x, gone, put, y, key)
    ensures Written(put, job.child, key, value)
  {
    x, gone, put, y := SideChange(job.above, i, job.child, key, value);
    ChangeAbove(job.above, UpsertSide(job.above, i, job.child, key, value), job.uses, job.below, x, gone, put, y, key);
    y := y + [job.uses] + job.below;
  }

  lemma SurviveBelow(job: Job, i: nat, key: string, value: string)
    returns (x: seq<Line>, gone: seq<Line>, put: seq<Line>, y: seq<Line>)
    requires Locate(job, "with") == Below(i)
    ensures OnlyChanged(JobText(job), JobText(UpsertWith(job, key, value)), x, gone, put, y, key)
    ensures Written(put, job.child, key, value)
  {
    x, gone, put, y := SideChange(job.below, i, job.child, key, value);
    ChangeBelow(job.above, job.uses, job.below, UpsertSide(job.below, i, job.child, key, value), x, gone, put, y, key);
    x := job.above + [job.uses] + x;
  }

  /** Setting an input replaces at most one line of the job, an entry of that key; every other line
      stays, in order. */
  lemma OtherLinesSurvive(job: Job, key: string, value: string)
    returns (x: seq<Line>, gone: seq<Line>, put: seq<Line>, y: seq<Line>)
    ensures OnlyChanged(JobText(job), JobText(UpsertWith(job, key, value)), x, gone, put, y, key)
    ensures Written(put, job.child, key, value)
  {
    match Locate(job, "with")
    case Nowhere =>
      x, y := NewWithChange(job, NewBlock(job, key, value), key);
      gone, put := [], NewBlock(job, key, value);
    case Above(i) => x, gone, put, y := SurviveAbove(job, i, key, value);
    case Below(i) => x, gone, put, y := SurviveBelow(job, i, key, value);
  }
}
