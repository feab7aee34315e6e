/** Repairing a job twice is repairing it once. */
module WorkflowIdempotence {
  import opened WorkflowLine
  import opened WorkflowBlock
  import opened WorkflowPermissions
  import opened WorkflowJob

  // ---------- What each repair establishes ----------

  ghost predicate PermissionsFixed(lines: seq<Line>, n: nat, perms: seq<Permission>) {
    var i := FindChild(lines, n, "permissions");
    i < |lines| && (lines[i].block ==> Repaired(Kids(lines, i, n), n, perms) == Kids(lines, i, n))
  }

  /** The permissions key that the repair finds needs nothing. */
  ghost predicate PermissionsDone(job: Job, perms: seq<Permission>) {
    match Locate(job, "permissions")
    case Nowhere => false
    case Above(_) => PermissionsFixed(job.above, job.child, perms)
    case Below(_) => PermissionsFixed(job.below, job.child, perms)
  }

  lemma DonePermissionsStay(job: Job, perms: seq<Permission>)
    requires PermissionsDone(job, perms)
    ensures RepairPermissions(job, perms) == job
  {
    match Locate(job, "permissions")
    case Above(i) => SameKidsSameLines(job.above, i, job.child);
    case Below(i) => SameKidsSameLines(job.below, i, job.child);
  }

  lemma {:induction false} RepairSideFixes(lines: seq<Line>, n: nat, perms: seq<Permission>)
    requires Required(perms) && FindChild(lines, n, "permissions") < |lines|
    ensures PermissionsFixed(RepairSide(lines, FindChild(lines, n, "permissions"), n, perms), n, perms)
  {
    var i := FindChild(lines, n, "permissions");
    if lines[i].block {
      var rest := SplitAt(lines, i, n);
      RepairedKeepsKids(Kids(lines, i, n), n, perms);
      WithKidsOwnBlock(lines, n, Repaired(Kids(lines, i, n), n, perms), "permissions");
      RepairedTwice(Kids(lines, i, n), n, perms);
    }
  }

  // ---------- What later repairs leave alone ----------

  /** The two jobs agree on where the key stands and on the block below it. */
  ghost predicate Agree(job: Job, edited: Job, key: string) {
    && edited.child == job.child && edited.parent == job.parent && edited.uses == job.uses
    && SameBlock(job.above, edited.above, job.child, key)
    && SameBlock(job.below, edited.below, job.child, key)
  }

  lemma SecretsEstablished(job: Job)
    ensures !Locate(EnsureSecrets(job), "secrets").Nowhere?
  {
    if Locate(job, "secrets").Nowhere? {
      var e := EntryLine(job.child, "secrets", "inherit");
      var at := FirstContent(job.below);
      var below := Inserted(job.below, at, [e]);
      assert below[at] == e && IsChild(below[at], job.child, "secrets");
      assert FindChild(below, job.child, "secrets") <= at;
    }
  }

  lemma SecretsAgree(job: Job, key: string)
    requires key != "secrets"
    ensures Agree(job, EnsureSecrets(job), key)
  {
    if Locate(job, "secrets").Nowhere? {
      var e := EntryLine(job.child, "secrets", "inherit");
      var at := FirstContent(job.below);
      var skips := job.below[..at];
      SameBlockBehind(skips, skips + [e], job.below[at..], job.child, key);
      assert skips + job.below[at..] == job.below;
    }
  }

  // ---------- The with entry ----------

  /** The two lines of a new with block. */
  ghost predicate IsWithBlock(block: seq<Line>, n: nat) {
    |block| == 2 && IsChild(block[0], n, "with") && !block[1].skip && block[1].indent > n
  }

  lemma WithBlockQuiet(block: seq<Line>, n: nat, key: string)
    requires IsWithBlock(block, n) && key != "with"
    ensures Quiet(block, n, key)
  {
  }

  /** The lines around a block that a new with block follows. */
  lemma InsertedParts3(lines: seq<Line>, i: nat, n: nat, block: seq<Line>) returns (rest: seq<Line>)
    requires i < |lines|
    ensures lines == lines[..i] + [lines[i]] + Kids(lines, i, n) + rest
    ensures BlockEnd(lines, i, n) <= |lines|
    ensures Inserted(lines, BlockEnd(lines, i, n), block) == lines[..i] + [lines[i]] + Kids(lines, i, n) + (block + rest)
    ensures AllKids(Kids(lines, i, n), n) && Closed(rest, n)
  {
    rest := WithKidsParts(lines, i, n, Kids(lines, i, n));
    var kids := Kids(lines, i, n);
    assert lines[..BlockEnd(lines, i, n)] == lines[..i] + [lines[i]] + kids;
  }

  lemma BehindSameBlock(a: seq<Line>, w: Line, kids: seq<Line>, rest: seq<Line>, block: seq<Line>, n: nat, key: string)
    requires Quiet(a, n, "permissions") && IsChild(w, n, "permissions") && AllKids(kids, n) && Closed(rest, n)
    requires IsWithBlock(block, n) && key != "with"
    ensures SameBlock(a + [w] + kids + rest, a + [w] + kids + (block + rest), n, key)
  {
    WithBlockQuiet(block, n, key);
    if key == "permissions" {
      FoundAfterQuiet(a, w, kids, rest, n, key);
      FoundAfterQuiet(a, w, kids, block + rest, n, key);
    } else {
      ExchangeSameBlock(a, w, kids, kids + block, rest, n, key);
      Regroup(a + [w], kids, block, rest);
    }
  }

  /** A with block behind the permissions block hides nothing. */
  lemma {:induction false} InsertedBehindSameBlock(lines: seq<Line>, n: nat, block: seq<Line>, key: string)
    requires FindChild(lines, n, "permissions") < |lines|
    requires IsWithBlock(block, n) && key != "with"
    ensures var i := FindChild(lines, n, "permissions");
            BlockEnd(lines, i, n) <= |lines| && SameBlock(lines, Inserted(lines, BlockEnd(lines, i, n), block), n, key)
  {
    var i := FindChild(lines, n, "permissions");
    var rest := InsertedParts3(lines, i, n, block);
    BehindSameBlock(lines[..i], lines[i], Kids(lines, i, n), rest, block, n, key);
  }

  lemma {:induction false} UpsertSideSameBlock(lines: seq<Line>, n: nat, key: string, value: string, other: string)
    requires FindChild(lines, n, "with") < |lines| && other != "with"
    ensures SameBlock(lines, UpsertSide(lines, FindChild(lines, n, "with"), n, key, value), n, other)
  {
    var i := FindChild(lines, n, "with");
    if lines[i].block {
      var kids := Kids(lines, i, n);
      var rest := SplitAt(lines, i, n);
      PlacedKeepsKids(kids, n, key, EntryLine(ChildIndent(kids, n), key, value));
      WithKidsSameBlock(lines, i, n, Upsert(kids, n, key, value), other);
    }
  }

  function NewBlock(job: Job, key: string, value: string): seq<Line> {
    [OpeningLine(job.child, "with"), EntryLine(InnerIndent(job), key, value)]
  }

  lemma SameBlockRefl(lines: seq<Line>, n: nat, key: string)
    ensures SameBlock(lines, lines, n, key)
  {
  }

  lemma NewBlockIs(job: Job, key: string, value: string)
    requires job.parent < job.child
    ensures IsWithBlock(NewBlock(job, key, value), job.child)
  {
  }

  /** Setting a with entry leaves every other key of the job and its block alone. */
  lemma UpsertAgrees(job: Job, key: string, value: string, other: string)
    requires job.parent < job.child && other != "with"
    ensures Agree(job, UpsertWith(job, key, value), other)
  {
    hide SameBlock, IsWithBlock, UpsertSide, FindChild, Kids;
    var n, block := job.child, NewBlock(job, key, value);
    SameBlockRefl(job.above, n, other);
    SameBlockRefl(job.below, n, other);
    NewBlockIs(job, key, value);
    match Locate(job, "with")
    case Above(i) => UpsertSideSameBlock(job.above, n, key, value, other);
    case Below(i) => UpsertSideSameBlock(job.below, n, key, value, other);
    case Nowhere =>
      WithBlockQuiet(block, n, other);
      SameBlockBehind([], block, job.below, n, other);
      assert [] + job.below == job.below;
      match Locate(job, "permissions")
      case Nowhere =>
      case Above(_) => InsertedBehindSameBlock(job.above, n, block, other);
      case Below(_) => InsertedBehindSameBlock(job.below, n, block, other);
  }

  // ---------- Setting the entry twice ----------

  /** A side whose with block reads as `m` and does not change when the entry is set. */
  ghost predicate EntrySet(lines: seq<Line>, n: nat, key: string, value: string, m: map<string, string>) {
    var i := FindChild(lines, n, "with");
    && i < |lines| && lines[i].block
    && Upsert(Kids(lines, i, n), n, key, value) == Kids(lines, i, n)
    && Entries(Kids(lines, i, n), n) - {key} == m - {key}
  }

  ghost predicate JobEntrySet(job: Job, key: string, value: string, m: map<string, string>) {
    match Locate(job, "with")
    case Nowhere => false
    case Above(_) => EntrySet(job.above, job.child, key, value, m)
    case Below(_) => EntrySet(job.below, job.child, key, value, m)
  }

  lemma EntrySetStays(job: Job, key: string, value: string, m: map<string, string>)
    requires JobEntrySet(job, key, value, m)
    ensures UpsertWith(job, key, value) == job
    ensures WithEntries(job).Some? && WithEntries(job).value - {key} == m - {key}
  {
    match Locate(job, "with")
    case Above(i) => SameKidsSameLines(job.above, i, job.child);
    case Below(i) => SameKidsSameLines(job.below, i, job.child);
  }

  lemma {:induction false} UpsertSideSets(lines: seq<Line>, n: nat, key: string, value: string)
    requires FindChild(lines, n, "with") < |lines| && lines[FindChild(lines, n, "with")].block
    ensures EntrySet(UpsertSide(lines, FindChild(lines, n, "with"), n, key, value), n, key, value,
                     Entries(Kids(lines, FindChild(lines, n, "with"), n), n))
  {
    var i := FindChild(lines, n, "with");
    var kids := Kids(lines, i, n);
    var rest := SplitAt(lines, i, n);
    PlacedKeepsKids(kids, n, key, EntryLine(ChildIndent(kids, n), key, value));
    WithKidsOwnBlock(lines, n, Upsert(kids, n, key, value), "with");
    UpsertTwice(kids, n, key, value);
    var a, gone, b := UpsertReadsBack(kids, n, key, value);
  }

  // ---------- A new with block ----------

  /** The block of the with key is these lines. */
  ghost predicate WithBlockIs(lines: seq<Line>, n: nat, kids: seq<Line>) {
    var i := FindChild(lines, n, "with");
    i < |lines| && lines[i].block && Kids(lines, i, n) == kids
  }

  ghost predicate JobWithBlockIs(job: Job, kids: seq<Line>) {
    match Locate(job, "with")
    case Nowhere => false
    case Above(_) => WithBlockIs(job.above, job.child, kids)
    case Below(_) => WithBlockIs(job.below, job.child, kids)
  }

  /** A new with block behind lines without a with key. */
  lemma NewBlockKids(a: seq<Line>, w: Line, e: Line, more: seq<Line>, rest: seq<Line>, n: nat)
    requires Quiet(a, n, "with") && IsChild(w, n, "with") && w.block
    requires !Ends(e, n) && AllKids(more, n) && Closed(rest, n)
    ensures WithBlockIs(a + [w] + ([e] + more) + rest, n, [e] + more)
  {
    assert AllKids([e] + more, n);
    FoundAfterQuiet(a, w, [e] + more, rest, n, "with");
    assert (a + [w] + ([e] + more) + rest)[|a|] == w;
  }

  lemma TwoLines(a: seq<Line>, w: Line, e: Line, more: seq<Line>, rest: seq<Line>)
    ensures a + [w] + ([e] + more) + rest == a + [w, e] + (more + rest)
    ensures [] + rest == rest && [] + [w, e] == [w, e]
  {
  }

  lemma {:induction false} InsertedBehindKids(lines: seq<Line>, n: nat, w: Line, e: Line)
    requires FindChild(lines, n, "permissions") < |lines| && FindChild(lines, n, "with") == |lines|
    requires IsChild(w, n, "with") && w.block && !Ends(e, n)
    ensures var i := FindChild(lines, n, "permissions");
            BlockEnd(lines, i, n) <= |lines| &&
            WithBlockIs(Inserted(lines, BlockEnd(lines, i, n), [w, e]), n, [e])
  {
    var i := FindChild(lines, n, "permissions");
    var rest := InsertedParts3(lines, i, n, [w, e]);
    var at := BlockEnd(lines, i, n);
    assert lines[at..] == rest;
    NewBlockKids(lines[..at], w, e, [], rest, n);
    TwoLines(lines[..at], w, e, [], rest);
    assert [e] + [] == [e];
  }

  lemma InFrontKids(w: Line, e: Line, more: seq<Line>, rest: seq<Line>, below: seq<Line>, n: nat)
    requires IsChild(w, n, "with") && w.block && !Ends(e, n)
    requires below == more + rest && AllKids(more, n) && Closed(rest, n)
    ensures WithBlockIs([w, e] + below, n, [e] + more)
  {
    hide WithBlockIs, Closed, AllKids, IsChild;
    NewBlockKids([], w, e, more, rest, n);
    TwoLines([], w, e, more, rest);
  }

  lemma ContinuedParts(job: Job) returns (rest: seq<Line>)
    ensures job.below == Continued(job) + rest && AllKids(Continued(job), job.child) && Closed(rest, job.child)
  {
    rest := job.below[KidsEnd(job.below, job.child)..];
  }

  /** The lines that continue the uses line. */
  function Continued(job: Job): seq<Line> {
    job.below[..KidsEnd(job.below, job.child)]
  }

  predicate HasPermissionsBlock(job: Job) {
    match Locate(job, "permissions")
    case Nowhere => false
    case Above(i) => job.above[i].block
    case Below(i) => job.below[i].block
  }

  /** A new with block goes right behind the uses line. */
  predicate WithInFront(job: Job) {
    Locate(job, "with").Nowhere? && !HasPermissionsBlock(job)
  }

  /** The lines of a new with block: its entry, and whatever continued the uses line. */
  lemma NewWithKids(job: Job, key: string, value: string)
    requires job.parent < job.child && Locate(job, "with").Nowhere?
    ensures JobWithBlockIs(NewWith(job, NewBlock(job, key, value)),
                           [EntryLine(InnerIndent(job), key, value)] + if WithInFront(job) then Continued(job) else [])
  {
    hide WithBlockIs, Kids;
    var n, w, e := job.child, OpeningLine(job.child, "with"), EntryLine(InnerIndent(job), key, value);
    assert [e] + [] == [e];
    var rest := ContinuedParts(job);
    InFrontKids(w, e, Continued(job), rest, job.below, n);
    match Locate(job, "permissions")
    case Nowhere =>
    case Above(i) =>
      if job.above[i].block {
        InsertedBehindKids(job.above, n, w, e);
      }
    case Below(i) =>
      if job.below[i].block {
        InsertedBehindKids(job.below, n, w, e);
      }
  }

  /** A block that starts with an entry. */
  lemma {:induction false} EntryAndMore(e: Line, more: seq<Line>, n: nat, key: string, value: string, other: string)
    requires e == EntryLine(e.indent, key, value)
    ensures Entries([e] + more, n) == map[key := value] + EntriesAt(more, e.indent)
    ensures Upsert([e] + more, n, key, other) == [EntryLine(e.indent, key, other)] + more
  {
    var kids := [e] + more;
    FirstContentUnique(kids, 0);
    FindEntryUnique(kids, e.indent, key, 0);
    EntriesConcat([e], more, e.indent);
    assert EntriesAt([e], e.indent) == map[key := value] by {
      assert [e][..0] == [];
    }
    assert kids[0 := EntryLine(e.indent, key, other)] == [EntryLine(e.indent, key, other)] + more;
  }

  // ---------- The whole pipeline ----------

  lemma WantedSame(m: map<string, string>, again: map<string, string>, clean: string -> string,
                   cgo: map<string, string>)
    requires again - {"cgo"} == m - {"cgo"} && WantedCgo(m, clean, cgo).Some?
    ensures WantedCgo(again, clean, cgo).Some? ==> WantedCgo(again, clean, cgo) == WantedCgo(m, clean, cgo)
  {
    assert Get(m, "working_directory", "") == Get(m - {"cgo"}, "working_directory", "");
    assert Get(again, "working_directory", "") == Get(again - {"cgo"}, "working_directory", "");
  }

  lemma SyncAgrees(job: Job, clean: string -> string, cgo: map<string, string>, other: string)
    requires job.parent < job.child && other != "with"
    ensures Agree(job, SyncCgo(job, clean, cgo), other)
  {
    match WithEntries(job)
    case None =>
    case Some(m) =>
      match WantedCgo(m, clean, cgo)
      case None =>
      case Some(value) => UpsertAgrees(job, "cgo", value, other);
  }
}
