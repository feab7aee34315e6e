/** The three repairs of one caller job, on the lines above and below its `uses:` line, and why
    running them again changes nothing. */
module WorkflowJob {
  import opened Options
  import opened WorkflowLine
  import opened WorkflowBlock
  import opened WorkflowPermissions

  /** A job without its header line: the header's indentation, the indentation of the children,
      and the lines around the one that calls the reusable workflow. */
  datatype Job = Job(parent: nat, child: nat, above: seq<Line>, uses: Line, below: seq<Line>)

  datatype Place = Nowhere | Above(i: nat) | Below(i: nat)

  /** The first child of the job with the key. */
  function Locate(job: Job, key: string): (p: Place)
    ensures p.Above? ==> p.i < |job.above|
    ensures p.Below? ==> p.i < |job.below|
  {
    var a := FindChild(job.above, job.child, key);
    if a < |job.above| then Above(a)
    else
      var b := FindChild(job.below, job.child, key);
      if b < |job.below| then Below(b) else Nowhere
  }

  /** `lines` with the block below line `i` replaced. */
  function WithKids(lines: seq<Line>, i: nat, n: nat, kids: seq<Line>): seq<Line>
    requires i < |lines|
  {
    lines[..i + 1] + kids + lines[i + 1 + |Kids(lines, i, n)|..]
  }

  function BlockEnd(lines: seq<Line>, i: nat, n: nat): nat
    requires i < |lines|
  {
    i + 1 + |Kids(lines, i, n)|
  }

  // ---------- The repairs ----------

  function InnerIndent(job: Job): nat {
    if job.parent <= job.child then job.child + (job.child - job.parent) else 0
  }

  function RepairSide(lines: seq<Line>, i: nat, n: nat, perms: seq<Permission>): seq<Line>
    requires i < |lines|
  {
    if lines[i].block then WithKids(lines, i, n, Repaired(Kids(lines, i, n), n, perms)) else lines
  }

  /** repairCallerPermissionsAt. */
  function RepairPermissions(job: Job, perms: seq<Permission>): Job {
    match Locate(job, "permissions")
    case Nowhere =>
      job.(below := [OpeningLine(job.child, "permissions")] + Grants(perms, InnerIndent(job)) + job.below)
    case Above(i) => job.(above := RepairSide(job.above, i, job.child, perms))
    case Below(i) => job.(below := RepairSide(job.below, i, job.child, perms))
  }

  /** ensureSecretsInheritAt. */
  function EnsureSecrets(job: Job): Job {
    if Locate(job, "secrets").Nowhere?
    then job.(below := Inserted(job.below, FirstContent(job.below), [EntryLine(job.child, "secrets", "inherit")]))
    else job
  }

  function UpsertSide(lines: seq<Line>, i: nat, n: nat, key: string, value: string): seq<Line>
    requires i < |lines|
  {
    if lines[i].block then WithKids(lines, i, n, Upsert(Kids(lines, i, n), n, key, value)) else lines
  }

  /** upsertJobWithEntryAt. */
  function UpsertWith(job: Job, key: string, value: string): Job {
    match Locate(job, "with")
    case Above(i) => job.(above := UpsertSide(job.above, i, job.child, key, value))
    case Below(i) => job.(below := UpsertSide(job.below, i, job.child, key, value))
    case Nowhere => NewWith(job, [OpeningLine(job.child, "with"), EntryLine(InnerIndent(job), key, value)])
  }

  /** A new with block goes behind a permissions block, or right behind the uses line. */
  function NewWith(job: Job, block: seq<Line>): Job {
    match Locate(job, "permissions")
    case Above(i) =>
      if job.above[i].block
      then job.(above := Inserted(job.above, BlockEnd(job.above, i, job.child), block))
      else job.(below := block + job.below)
    case Below(i) =>
      if job.below[i].block
      then job.(below := Inserted(job.below, BlockEnd(job.below, i, job.child), block))
      else job.(below := block + job.below)
    case Nowhere => job.(below := block + job.below)
  }

  function SideEntries(lines: seq<Line>, i: nat, n: nat): Option<map<string, string>>
    requires i < |lines|
  {
    if lines[i].block then Some(Entries(Kids(lines, i, n), n)) else None
  }

  /** jobWithEntries. */
  function WithEntries(job: Job): Option<map<string, string>> {
    match Locate(job, "with")
    case Nowhere => Some(map[])
    case Above(i) => SideEntries(job.above, i, job.child)
    case Below(i) => SideEntries(job.below, i, job.child)
  }

  function Get(m: map<string, string>, key: string, missing: string): string {
    if key in m then m[key] else missing
  }

  /** The cgo value that the release passes for the directory of this job, when it differs. */
  function WantedCgo(m: map<string, string>, clean: string -> string, cgo: map<string, string>): Option<string> {
    var dir := clean(Get(m, "working_directory", ""));
    if dir in cgo && Get(m, "cgo", "false") != cgo[dir] then Some(cgo[dir]) else None
  }

  /** One step of syncCallerCgo. */
  function SyncCgo(job: Job, clean: string -> string, cgo: map<string, string>): Job {
    match WithEntries(job)
    case None => job
    case Some(m) =>
      match WantedCgo(m, clean, cgo)
      case None => job
      case Some(value) => UpsertWith(job, "cgo", value)
  }

  function Repair(job: Job, perms: seq<Permission>, clean: string -> string, cgo: map<string, string>): Job {
    SyncCgo(EnsureSecrets(RepairPermissions(job, perms)), clean, cgo)
  }

  // ---------- What an edit elsewhere leaves alone ----------

  /** The same key line with the same block below it, or no such key. */
  ghost predicate SameBlock(s: seq<Line>, t: seq<Line>, n: nat, key: string) {
    var i, j := FindChild(s, n, key), FindChild(t, n, key);
    && (i < |s| <==> j < |t|)
    && (i < |s| ==> s[i] == t[j] && Kids(s, i, n) == Kids(t, j, n))
  }

  ghost predicate Quiet(lines: seq<Line>, n: nat, key: string) {
    forall line :: line in lines ==> !IsChild(line, n, key)
  }

  lemma {:induction false} FindChildUnique(lines: seq<Line>, n: nat, key: string, i: nat)
    requires i <= |lines| && (i < |lines| ==> IsChild(lines[i], n, key))
    requires Quiet(lines[..i], n, key)
    ensures FindChild(lines, n, key) == i
  {
    forall j | 0 <= j < i
      ensures !IsChild(lines[j], n, key)
    {
      assert lines[j] == lines[..i][j];
    }
  }

  lemma {:induction false} FindChildConcat(a: seq<Line>, b: seq<Line>, n: nat, key: string)
    ensures FindChild(a + b, n, key) ==
            if FindChild(a, n, key) < |a| then FindChild(a, n, key) else |a| + FindChild(b, n, key)
  {
    var i, j := FindChild(a, n, key), FindChild(b, n, key);
    var k := if i < |a| then i else |a| + j;
    forall line | line in (a + b)[..k]
      ensures !IsChild(line, n, key)
    {
      var x :| 0 <= x < k && (a + b)[x] == line;
    }
    FindChildUnique(a + b, n, key, k);
  }

  lemma KidsBehind(a: seq<Line>, b: seq<Line>, j: nat, n: nat)
    requires j < |b|
    ensures Kids(a + b, |a| + j, n) == Kids(b, j, n)
  {
    assert (a + b)[|a| + j + 1..] == b[j + 1..];
  }

  lemma {:induction false} FoundBehind(a: seq<Line>, b: seq<Line>, n: nat, key: string, j: nat)
    requires Quiet(a, n, key) && j == FindChild(b, n, key)
    ensures FindChild(a + b, n, key) == |a| + j
    ensures j < |b| ==> (a + b)[|a| + j] == b[j] && Kids(a + b, |a| + j, n) == Kids(b, j, n)
  {
    FindChildConcat(a, b, n, key);
    if j < |b| {
      KidsBehind(a, b, j, n);
    }
  }

  /** An edit behind lines without the key, of lines without the key. */
  lemma SameBlockBehind(a: seq<Line>, m: seq<Line>, b: seq<Line>, n: nat, key: string)
    requires Quiet(a, n, key) && Quiet(m, n, key)
    ensures SameBlock(a + b, m + b, n, key)
  {
    var j := FindChild(b, n, key);
    FoundBehind(a, b, n, key, j);
    FoundBehind(m, b, n, key, j);
  }

  lemma {:induction false} KidsEndPrefix(x: seq<Line>, r: seq<Line>, n: nat)
    requires KidsEnd(x, n) < |x|
    ensures KidsEnd(x + r, n) == KidsEnd(x, n)
    ensures (x + r)[..KidsEnd(x, n)] == x[..KidsEnd(x, n)]
  {
    KidsEndUnique(x + r, n, KidsEnd(x, n));
  }

  lemma KidsStopAt(a: seq<Line>, i: nat, w: Line, r: seq<Line>, n: nat)
    requires i < |a| && Ends(w, n)
    ensures Kids(a + [w] + r, i, n) == Kids(a + [w], i, n)
  {
    var x := (a + [w])[i + 1..];
    assert x[|x| - 1] == w;
    assert (a + [w] + r)[i + 1..] == x + r;
    KidsEndPrefix(x, r, n);
  }

  lemma {:induction false} FoundBefore(a: seq<Line>, w: Line, r: seq<Line>, n: nat, key: string)
    requires FindChild(a, n, key) < |a| && Ends(w, n)
    ensures FindChild(a + [w] + r, n, key) == FindChild(a, n, key)
    ensures Kids(a + [w] + r, FindChild(a, n, key), n) == Kids(a + [w], FindChild(a, n, key), n)
  {
    FindChildConcat(a, [w] + r, n, key);
    assert a + [w] + r == a + ([w] + r);
    KidsStopAt(a, FindChild(a, n, key), w, r, n);
  }

  /** An edit behind a line that ends the block of the key. */
  lemma {:induction false} SameBlockBefore(a: seq<Line>, w: Line, r: seq<Line>, t: seq<Line>, n: nat, key: string)
    requires FindChild(a, n, key) < |a| && Ends(w, n)
    ensures SameBlock(a + [w] + r, a + [w] + t, n, key)
  {
    FoundBefore(a, w, r, n, key);
    FoundBefore(a, w, t, n, key);
  }

  /** Exchanging lines behind one that ends every block, where neither part has the key. */
  lemma ExchangeSameBlock(a: seq<Line>, w: Line, l: seq<Line>, m: seq<Line>, rest: seq<Line>, n: nat, key: string)
    requires Ends(w, n) && !IsChild(w, n, key) && Quiet(l, n, key) && Quiet(m, n, key)
    ensures SameBlock(a + [w] + l + rest, a + [w] + m + rest, n, key)
  {
    if FindChild(a, n, key) < |a| {
      SameBlockBefore(a, w, l + rest, m + rest, n, key);
      assert a + [w] + l + rest == a + [w] + (l + rest) && a + [w] + m + rest == a + [w] + (m + rest);
    } else {
      SameBlockBehind(a + [w] + l, a + [w] + m, rest, n, key);
    }
  }

  /** The parts of an edited block. */
  lemma WithKidsParts(lines: seq<Line>, i: nat, n: nat, kids: seq<Line>) returns (rest: seq<Line>)
    requires i < |lines|
    ensures lines == lines[..i] + [lines[i]] + Kids(lines, i, n) + rest
    ensures WithKids(lines, i, n, kids) == lines[..i] + [lines[i]] + kids + rest
    ensures AllKids(Kids(lines, i, n), n) && Closed(rest, n)
    ensures rest == lines[BlockEnd(lines, i, n)..]
  {
    rest := SplitAt(lines, i, n);
    assert lines[i + 1 + |Kids(lines, i, n)|..] == rest;
    assert lines[..i + 1] == lines[..i] + [lines[i]];
  }

  /** Replacing the block of one key leaves the block of every other key alone. */
  lemma WithKidsSameBlock(lines: seq<Line>, i: nat, n: nat, kids: seq<Line>, key: string)
    requires i < |lines| && Ends(lines[i], n) && !IsChild(lines[i], n, key)
    requires Quiet(kids, n, key) && Quiet(Kids(lines, i, n), n, key)
    ensures SameBlock(lines, WithKids(lines, i, n, kids), n, key)
  {
    var rest := WithKidsParts(lines, i, n, kids);
    ExchangeSameBlock(lines[..i], lines[i], Kids(lines, i, n), kids, rest, n, key);
  }

  lemma {:induction false} FoundAfterQuiet(a: seq<Line>, w: Line, kids: seq<Line>, rest: seq<Line>, n: nat, key: string)
    requires Quiet(a, n, key) && IsChild(w, n, key) && AllKids(kids, n) && Closed(rest, n)
    ensures FindChild(a + [w] + kids + rest, n, key) == |a|
    ensures Kids(a + [w] + kids + rest, |a|, n) == kids
  {
    var t := a + [w] + kids + rest;
    assert t[..|a|] == a && t[|a|] == w;
    FindChildUnique(t, n, key, |a|);
    KidsAre(a, w, kids, rest, n);
  }

  /** Replacing the block of the key itself. */
  lemma {:induction false} WithKidsOwnBlock(lines: seq<Line>, n: nat, kids: seq<Line>, key: string)
    requires FindChild(lines, n, key) < |lines| && AllKids(kids, n)
    ensures var i := FindChild(lines, n, key);
            var t := WithKids(lines, i, n, kids);
            FindChild(t, n, key) == i && i < |t| && t[i] == lines[i] && Kids(t, i, n) == kids
  {
    var i := FindChild(lines, n, key);
    var rest := WithKidsParts(lines, i, n, kids);
    FoundAfterQuiet(lines[..i], lines[i], kids, rest, n, key);
  }

  lemma SameKidsSameLines(lines: seq<Line>, i: nat, n: nat)
    requires i < |lines|
    ensures WithKids(lines, i, n, Kids(lines, i, n)) == lines
  {
    var rest := WithKidsParts(lines, i, n, Kids(lines, i, n));
  }
}
