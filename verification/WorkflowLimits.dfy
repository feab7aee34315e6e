/** Exactly when repairing a job twice is repairing it once.  Lines below the uses line that are deeper
    than it fall into a new permissions block, or into a new with block, and the second run reads
    them there. */
module WorkflowLimits {
  import opened Options
  import opened WorkflowLine
  import opened WorkflowBlock
  import opened WorkflowPermissions
  import opened WorkflowJob
  import opened WorkflowIdempotence

  /** The last line of every required key, if there is one, is its grant. */
  ghost predicate OnlyGrants(lines: seq<Line>, perms: seq<Permission>) {
    forall p :: p in perms && LastOf(lines, p.key) >= 0 ==> HasGrant(lines, p)
  }

  lemma {:induction false} LastOfConcat(a: seq<Line>, b: seq<Line>, key: string)
    ensures LastOf(a + b, key) == if LastOf(b, key) >= 0 then |a| + LastOf(b, key) else LastOf(a, key)
  {
    var k := if LastOf(b, key) >= 0 then |a| + LastOf(b, key) else LastOf(a, key);
    forall j | k < j < |a + b|
      ensures !Bears((a + b)[j], key)
    {
      if j >= |a| {
        assert (a + b)[j] == b[j - |a|];
      }
    }
    LastOfUnique(a + b, key, k);
  }

  lemma {:induction false} HasGrantConcat(a: seq<Line>, b: seq<Line>, p: Permission)
    requires HasGrant(a, p)
    ensures HasGrant(a + b, p) <==> (LastOf(b, p.key) >= 0 ==> HasGrant(b, p))
  {
    LastOfConcat(a, b, p.key);
  }

  lemma {:induction false} GrantsAndMore(perms: seq<Permission>, indent: nat, more: seq<Line>, p: Permission)
    requires Required(perms) && p in perms
    ensures HasGrant(Grants(perms, indent) + more, p) <==> (LastOf(more, p.key) >= 0 ==> HasGrant(more, p))
  {
    var grants := Grants(perms, indent);
    GrantsAreGranted(perms, indent, []);
    assert grants + [] == grants;
    assert HasGrant(grants, p);
    HasGrantConcat(grants, more, p);
  }

  lemma RepairedIffGranted(kids: seq<Line>, n: nat, perms: seq<Permission>)
    requires Required(perms)
    ensures Repaired(kids, n, perms) == kids <==> Granted(kids, perms)
  {
    RepairedTwice(kids, n, perms);
    if Granted(kids, perms) {
      GrantedStays(kids, n, perms);
    }
  }

  lemma SameMiddle(a: seq<Line>, x: seq<Line>, y: seq<Line>, rest: seq<Line>)
    ensures a + x + rest == a + y + rest <==> x == y
  {
    if a + x + rest == a + y + rest {
      assert |x| == |y|;
      assert (a + x + rest)[|a|..|a| + |x|] == x;
      assert (a + y + rest)[|a|..|a| + |y|] == y;
    }
  }

  /** A new permissions block and the lines that fall into it. */
  lemma {:induction false} BlockWithMore(w: Line, kids: seq<Line>, rest: seq<Line>, n: nat, perms: seq<Permission>)
    requires IsChild(w, n, "permissions") && w.block && AllKids(kids, n) && Closed(rest, n)
    ensures var side := [w] + kids + rest;
            && FindChild(side, n, "permissions") == 0
            && RepairSide(side, 0, n, perms) == [w] + Repaired(kids, n, perms) + rest
  {
    var side := [w] + kids + rest;
    FoundAfterQuiet([], w, kids, rest, n, "permissions");
    assert [] + [w] + kids + rest == side;
    var tail := WithKidsParts(side, 0, n, Repaired(kids, n, perms));
    assert side[..0] + [side[0]] == [w];
    assert tail == rest by {
      assert side[1 + |kids|..] == rest;
    }
  }

  lemma FallsIntoBlock(job: Job, perms: seq<Permission>)
    requires job.parent < job.child && Required(perms) && Locate(job, "permissions").Nowhere?
    ensures RepairPermissions(RepairPermissions(job, perms), perms) == RepairPermissions(job, perms)
            <==> Granted(Grants(perms, InnerIndent(job)) + Continued(job), perms)
  {
    var n, w := job.child, OpeningLine(job.child, "permissions");
    var grants := Grants(perms, InnerIndent(job));
    var e := KidsEnd(job.below, n);
    var more, rest := job.below[..e], job.below[e..];
    var kids := grants + more;
    assert grants + [] == grants && AllKids(kids, n);
    assert job.below == more + rest;
    Regroup([w], grants, more, rest);
    var now := RepairPermissions(job, perms);
    assert now.below == [w] + kids + rest;
    BlockWithMore(w, kids, rest, n, perms);
    assert RepairPermissions(now, perms) == now.(below := [w] + Repaired(kids, n, perms) + rest);
    SameMiddle([w], Repaired(kids, n, perms), kids, rest);
    RepairedIffGranted(kids, n, perms);
  }

  /** The permissions repair is idempotent on a job exactly when the job had a permissions key, or no
      line that continues the uses line names a required key with anything but its grant. */
  lemma PermissionsTwiceIff(job: Job, perms: seq<Permission>)
    requires job.parent < job.child && Required(perms)
    ensures RepairPermissions(RepairPermissions(job, perms), perms) == RepairPermissions(job, perms)
            <==> (Locate(job, "permissions").Nowhere? ==> OnlyGrants(Continued(job), perms))
  {
    match Locate(job, "permissions")
    case Above(i) =>
      RepairSideFixes(job.above, job.child, perms);
      DonePermissionsStay(RepairPermissions(job, perms), perms);
    case Below(i) =>
      RepairSideFixes(job.below, job.child, perms);
      DonePermissionsStay(RepairPermissions(job, perms), perms);
    case Nowhere =>
      FallsIntoBlock(job, perms);
      forall p | p in perms
        ensures HasGrant(Grants(perms, InnerIndent(job)) + Continued(job), p)
                <==> (LastOf(Continued(job), p.key) >= 0 ==> HasGrant(Continued(job), p))
      {
        GrantsAndMore(perms, InnerIndent(job), Continued(job), p);
      }
  }

  // ---------- The permissions of a repaired job ----------

  lemma SideSameIff(lines: seq<Line>, i: nat, n: nat, kids: seq<Line>)
    requires i < |lines|
    ensures WithKids(lines, i, n, kids) == lines <==> kids == Kids(lines, i, n)
  {
    var rest := WithKidsParts(lines, i, n, kids);
    SameMiddle(lines[..i] + [lines[i]], kids, Kids(lines, i, n), rest);
  }

  /** The repair leaves a job alone exactly when its permissions need nothing. */
  lemma DoneIff(job: Job, perms: seq<Permission>)
    ensures RepairPermissions(job, perms) == job <==> PermissionsDone(job, perms)
  {
    hide Repaired, WithKids, Kids;
    match Locate(job, "permissions")
    case Nowhere =>
      assert |RepairPermissions(job, perms).below| > |job.below|;
    case Above(i) => SideSameIff(job.above, i, job.child, Repaired(Kids(job.above, i, job.child), job.child, perms));
    case Below(i) => SideSameIff(job.below, i, job.child, Repaired(Kids(job.below, i, job.child), job.child, perms));
  }

  lemma SameLocate(job: Job, edited: Job, key: string)
    requires Agree(job, edited, key)
    ensures Locate(job, key).Nowhere? <==> Locate(edited, key).Nowhere?
    ensures Locate(job, key).Above? <==> Locate(edited, key).Above?
  {
  }

  lemma DoneAgrees(job: Job, edited: Job, perms: seq<Permission>)
    requires Agree(job, edited, "permissions")
    ensures PermissionsDone(job, perms) <==> PermissionsDone(edited, perms)
  {
    hide Kids, Repaired;
    SameLocate(job, edited, "permissions");
  }

  lemma BlockAgrees(job: Job, edited: Job)
    requires Agree(job, edited, "permissions")
    ensures HasPermissionsBlock(job) <==> HasPermissionsBlock(edited)
  {
    hide Kids;
    SameLocate(job, edited, "permissions");
  }

  /** What falls into the new permissions block does no harm. */
  ghost predicate PermissionsSettle(job: Job, perms: seq<Permission>) {
    Locate(job, "permissions").Nowhere? ==> OnlyGrants(Continued(job), perms)
  }

  lemma PermissionsOfRepaired(job: Job, perms: seq<Permission>, clean: string -> string, cgo: map<string, string>)
    requires job.parent < job.child && Required(perms)
    ensures var done := Repair(job, perms, clean, cgo);
            RepairPermissions(done, perms) == done <==> PermissionsSettle(job, perms)
  {
    hide RepairPermissions, EnsureSecrets, SyncCgo, PermissionsDone, Agree, OnlyGrants;
    var first := RepairPermissions(job, perms);
    var second := EnsureSecrets(first);
    var done := SyncCgo(second, clean, cgo);
    PermissionsTwiceIff(job, perms);
    SameIndents(job, perms);
    SecretsAgree(first, "permissions");
    SyncAgrees(second, clean, cgo, "permissions");
    DoneIff(first, perms);
    DoneAgrees(first, second, perms);
    DoneAgrees(second, done, perms);
    DoneIff(done, perms);
  }

  lemma SameIndents(job: Job, perms: seq<Permission>)
    ensures RepairPermissions(job, perms).parent == job.parent && RepairPermissions(job, perms).child == job.child
    ensures RepairPermissions(job, perms).uses == job.uses
    ensures EnsureSecrets(job).parent == job.parent && EnsureSecrets(job).child == job.child
    ensures EnsureSecrets(job).uses == job.uses
    ensures EnsureSecrets(RepairPermissions(job, perms)).parent == job.parent
    ensures EnsureSecrets(RepairPermissions(job, perms)).child == job.child
  {
  }

  // ---------- The with block of a synchronized job ----------

  lemma UpsertSameIff(job: Job, kids: seq<Line>, key: string, value: string)
    requires JobWithBlockIs(job, kids)
    ensures UpsertWith(job, key, value) == job <==> Upsert(kids, job.child, key, value) == kids
    ensures WithEntries(job) == Some(Entries(kids, job.child))
  {
    hide Upsert, Entries, WithKids, Kids;
    match Locate(job, "with")
    case Nowhere =>
    case Above(i) => SideSameIff(job.above, i, job.child, Upsert(Kids(job.above, i, job.child), job.child, key, value));
    case Below(i) => SideSameIff(job.below, i, job.child, Upsert(Kids(job.below, i, job.child), job.child, key, value));
  }

  /** The entries that a new with block picks up. */
  function PickedUp(job: Job): map<string, string> {
    if WithInFront(job) then EntriesAt(Continued(job), InnerIndent(job)) else map[]
  }

  /** What a job without a with key reads after one entry was set. */
  lemma NewWithReads(job: Job, key: string, value: string)
    requires job.parent < job.child && Locate(job, "with").Nowhere?
    ensures WithEntries(UpsertWith(job, key, value)) == Some(map[key := value] + PickedUp(job))
    ensures forall other :: UpsertWith(UpsertWith(job, key, value), key, other) == UpsertWith(job, key, value) <==> other == value
  {
    hide NewWith, EntriesAt, Entries, Upsert, JobWithBlockIs, HasPermissionsBlock;
    var e := EntryLine(InnerIndent(job), key, value);
    var more := if WithInFront(job) then Continued(job) else [];
    var now := UpsertWith(job, key, value);
    NewWithKids(job, key, value);
    assert now.child == job.child by {
      NewWithChild(job, NewBlock(job, key, value));
    }
    EntryAndMore(e, more, job.child, key, value, value);
    assert EntriesAt(more, e.indent) == PickedUp(job) by {
      NoEntriesAtAll(e.indent);
    }
    UpsertSameIff(now, [e] + more, key, value);
    forall other
      ensures UpsertWith(now, key, other) == now <==> other == value
    {
      UpsertSameIff(now, [e] + more, key, other);
      EntryAndMore(e, more, job.child, key, value, other);
      assert EntryLine(e.indent, key, other) == e <==> other == value;
      SameMiddle([], [EntryLine(e.indent, key, other)], [e], more);
      assert [] + [e] + more == [e] + more && [] + [EntryLine(e.indent, key, other)] + more == [EntryLine(e.indent, key, other)] + more;
    }
  }

  lemma NewWithChild(job: Job, block: seq<Line>)
    ensures NewWith(job, block).child == job.child
  {
  }

  lemma {:induction false} NoEntriesAtAll(indent: nat)
    ensures EntriesAt([], indent) == map[]
  {
  }

  /** A new with block still asks for the value that was set. */
  predicate SyncSettles(job: Job, clean: string -> string, cgo: map<string, string>) {
    match WantedCgo(map[], clean, cgo)
    case None => true
    case Some(value) =>
      var again := WantedCgo(map["cgo" := value] + PickedUp(job), clean, cgo);
      again.None? || again == Some(value)
  }

  /** A side whose with block reads as `m` and does not change when the entry is set. */
  lemma UpsertSets(job: Job, key: string, value: string)
    requires !Locate(job, "with").Nowhere? && WithEntries(job).Some?
    ensures JobEntrySet(UpsertWith(job, key, value), key, value, WithEntries(job).value)
  {
    hide EntrySet, Upsert, Entries, WithKids, Kids;
    match Locate(job, "with")
    case Nowhere =>
    case Above(i) =>
      UpsertSideSets(job.above, job.child, key, value);
      SetLocates(job.above, UpsertSide(job.above, i, job.child, key, value), job.child, key, value,
                 WithEntries(job).value);
    case Below(i) =>
      UpsertSideSets(job.below, job.child, key, value);
      SetLocates(job.below, UpsertSide(job.below, i, job.child, key, value), job.child, key, value,
                 WithEntries(job).value);
  }

  lemma {:induction false} SetLocates(lines: seq<Line>, now: seq<Line>, n: nat, key: string, value: string,
                                      m: map<string, string>)
    requires EntrySet(now, n, key, value, m)
    ensures FindChild(now, n, "with") < |now|
  {
  }

  /** Synchronizing twice is synchronizing once exactly when a new with block, if there is one, still asks
      for the value that was set. */
  lemma SyncTwiceIff(job: Job, clean: string -> string, cgo: map<string, string>)
    requires job.parent < job.child
    ensures SyncCgo(SyncCgo(job, clean, cgo), clean, cgo) == SyncCgo(job, clean, cgo)
            <==> (Locate(job, "with").Nowhere? ==> SyncSettles(job, clean, cgo))
  {
    hide UpsertWith, PickedUp, JobEntrySet, WantedCgo;
    match WithEntries(job)
    case None =>
    case Some(m) =>
      match WantedCgo(m, clean, cgo)
      case None =>
      case Some(value) =>
        var done := UpsertWith(job, "cgo", value);
        if Locate(job, "with").Nowhere? {
          NewWithReads(job, "cgo", value);
        } else {
          UpsertSets(job, "cgo", value);
          EntrySetStays(done, "cgo", value, m);
          WantedSame(m, WithEntries(done).value, clean, cgo);
        }
  }

  // ---------- The whole pipeline ----------

  /** What would fall into a new with block does no harm: such a block is new and right behind the uses line
      only if the job has its secrets and a permissions value that is no block. */
  ghost predicate CgoSettles(job: Job, clean: string -> string, cgo: map<string, string>) {
    Locate(job, "with").Nowhere? && !Locate(job, "permissions").Nowhere? && !Locate(job, "secrets").Nowhere? ==>
      SyncSettles(job, clean, cgo)
  }

  lemma NothingPickedUp(job: Job, clean: string -> string, cgo: map<string, string>)
    requires PickedUp(job) == map[]
    ensures SyncSettles(job, clean, cgo)
  {
  }

  /** Behind a new line `secrets: inherit` nothing continues the uses line. */
  lemma SecretsCutOff(job: Job)
    requires Locate(job, "secrets").Nowhere?
    ensures PickedUp(EnsureSecrets(job)) == map[]
  {
    hide Locate;
    var now := EnsureSecrets(job);
    var at := FirstContent(job.below);
    assert now.below[at] == EntryLine(job.child, "secrets", "inherit");
    forall j | 0 <= j < at
      ensures now.below[j].skip
    {
      assert now.below[j] == job.below[j];
    }
    KidsEndUnique(now.below, now.child, at);
    OnlySkips(Continued(now), InnerIndent(now));
  }

  lemma {:induction false} OnlySkips(skips: seq<Line>, indent: nat)
    requires forall i :: 0 <= i < |skips| ==> skips[i].skip
    ensures EntriesAt(skips, indent) == map[]
  {
    if skips != [] {
      OnlySkips(skips[..|skips| - 1], indent);
    }
  }

  lemma RepairedBlock(job: Job, perms: seq<Permission>)
    requires job.parent < job.child && Required(perms)
    ensures Locate(job, "permissions").Nowhere? || HasPermissionsBlock(job) ==> HasPermissionsBlock(RepairPermissions(job, perms))
    ensures !Locate(job, "permissions").Nowhere? && !HasPermissionsBlock(job) ==> RepairPermissions(job, perms) == job
  {
    match Locate(job, "permissions")
    case Nowhere =>
      var below := RepairPermissions(job, perms).below;
      assert IsChild(below[0], job.child, "permissions");
    case Above(i) =>
      if job.above[i].block {
        RepairedSideBlock(job.above, job.child, perms);
      }
    case Below(i) =>
      if job.below[i].block {
        RepairedSideBlock(job.below, job.child, perms);
      }
  }

  lemma {:induction false} RepairedSideBlock(lines: seq<Line>, n: nat, perms: seq<Permission>)
    requires Required(perms) && FindChild(lines, n, "permissions") < |lines| && lines[FindChild(lines, n, "permissions")].block
    ensures var i, now := FindChild(lines, n, "permissions"), RepairSide(lines, FindChild(lines, n, "permissions"), n, perms);
            FindChild(now, n, "permissions") == i < |now| && now[i].block
  {
    var i := FindChild(lines, n, "permissions");
    var rest := SplitAt(lines, i, n);
    RepairedKeepsKids(Kids(lines, i, n), n, perms);
    WithKidsOwnBlock(lines, n, Repaired(Kids(lines, i, n), n, perms), "permissions");
  }

  lemma CgoOfRepaired(job: Job, perms: seq<Permission>, clean: string -> string, cgo: map<string, string>)
    requires job.parent < job.child && Required(perms)
    ensures var done := Repair(job, perms, clean, cgo);
            SyncCgo(done, clean, cgo) == done <==> CgoSettles(job, clean, cgo)
  {
    hide RepairPermissions, SyncCgo, SyncSettles, HasPermissionsBlock, Agree, PickedUp;
    var first := RepairPermissions(job, perms);
    var second := EnsureSecrets(first);
    SameIndents(job, perms);
    SyncTwiceIff(second, clean, cgo);
    SecretsAgree(first, "permissions");
    BlockAgrees(first, second);
    RepairedBlock(job, perms);
    if HasPermissionsBlock(second) {
      BlockPicksNothing(second);
      BlockPicksNothing(job);
      NothingPickedUp(second, clean, cgo);
      if !Locate(job, "permissions").Nowhere? {
        NothingPickedUp(job, clean, cgo);
      }
    } else if Locate(first, "secrets").Nowhere? {
      SecretsCutOff(first);
      NothingPickedUp(second, clean, cgo);
    }
  }

  lemma BlockPicksNothing(job: Job)
    ensures HasPermissionsBlock(job) ==> PickedUp(job) == map[]
  {
  }

  lemma SecretsOfRepaired(job: Job, perms: seq<Permission>, clean: string -> string, cgo: map<string, string>)
    requires job.parent < job.child
    ensures EnsureSecrets(Repair(job, perms, clean, cgo)) == Repair(job, perms, clean, cgo)
  {
    hide RepairPermissions, SyncCgo, Agree;
    var first := RepairPermissions(job, perms);
    var second := EnsureSecrets(first);
    SameIndents(job, perms);
    SecretsEstablished(first);
    SyncAgrees(second, clean, cgo, "secrets");
    SameLocate(second, SyncCgo(second, clean, cgo), "secrets");
  }

  /** What a caller can check of a job before the repair. */
  ghost predicate Settles(job: Job, perms: seq<Permission>, clean: string -> string, cgo: map<string, string>) {
    PermissionsSettle(job, perms) && CgoSettles(job, clean, cgo)
  }

  /** The exact condition for idempotence: on the repaired job each of the three repairs changes nothing if and
      only if what continues the uses line neither denies a grant in the new permissions block nor asks for
      another value in the new with block. */
  lemma RepairTwiceIff(job: Job, perms: seq<Permission>, clean: string -> string, cgo: map<string, string>)
    requires job.parent < job.child && Required(perms)
    ensures var done := Repair(job, perms, clean, cgo);
            (RepairPermissions(done, perms) == done && EnsureSecrets(done) == done && SyncCgo(done, clean, cgo) == done)
            <==> Settles(job, perms, clean, cgo)
  {
    hide Repair, PermissionsSettle, CgoSettles, RepairPermissions, EnsureSecrets, SyncCgo;
    PermissionsOfRepaired(job, perms, clean, cgo);
    SecretsOfRepaired(job, perms, clean, cgo);
    CgoOfRepaired(job, perms, clean, cgo);
  }

  lemma {:induction false} SameKidsAgain(lines: seq<Line>, edited: seq<Line>, n: nat, perms: seq<Permission>)
    requires Required(perms) && FindChild(lines, n, "permissions") < |lines|
    requires SameBlock(RepairSide(lines, FindChild(lines, n, "permissions"), n, perms), edited, n, "permissions")
    requires edited == lines
    ensures RepairSide(lines, FindChild(lines, n, "permissions"), n, perms) == lines
  {
    hide Repaired;
    var i := FindChild(lines, n, "permissions");
    if lines[i].block {
      var rest := SplitAt(lines, i, n);
      RepairedKeepsKids(Kids(lines, i, n), n, perms);
      WithKidsOwnBlock(lines, n, Repaired(Kids(lines, i, n), n, perms), "permissions");
      SideSameIff(lines, i, n, Repaired(Kids(lines, i, n), n, perms));
    }
  }

  /** A whole second run changes a job unless each of its three repairs leaves it alone. */
  lemma WholeRunSame(job: Job, perms: seq<Permission>, clean: string -> string, cgo: map<string, string>)
    requires job.parent < job.child && Required(perms)
    ensures Repair(job, perms, clean, cgo) == job <==>
            (RepairPermissions(job, perms) == job && EnsureSecrets(job) == job && SyncCgo(job, clean, cgo) == job)
  {
    hide SyncCgo, RepairSide, SameBlock, Inserted, FirstContent;
    var first := RepairPermissions(job, perms);
    var second := EnsureSecrets(first);
    var done := SyncCgo(second, clean, cgo);
    SameIndents(job, perms);
    SecretsAgree(first, "permissions");
    SyncAgrees(second, clean, cgo, "permissions");
    SameLocate(first, second, "permissions");
    SameLocate(second, done, "permissions");
    SyncAgrees(second, clean, cgo, "secrets");
    SecretsEstablished(first);
    SameLocate(second, done, "secrets");
    if done == job {
      SameBlockTransitive(first.above, second.above, done.above, job.child, "permissions");
      SameBlockTransitive(first.below, second.below, done.below, job.child, "permissions");
      RepairedLocate(job, perms);
      match Locate(job, "permissions")
      case Nowhere =>
      case Above(i) => SameKidsAgain(job.above, done.above, job.child, perms);
      case Below(i) => SameKidsAgain(job.below, done.below, job.child, perms);
    }
  }

  lemma RepairedLocate(job: Job, perms: seq<Permission>)
    requires job.parent < job.child && Required(perms)
    ensures !Locate(RepairPermissions(job, perms), "permissions").Nowhere?
  {
    match Locate(job, "permissions")
    case Nowhere =>
      assert IsChild(RepairPermissions(job, perms).below[0], job.child, "permissions");
    case Above(i) =>
      RepairSideFixes(job.above, job.child, perms);
    case Below(i) =>
      RepairSideFixes(job.below, job.child, perms);
  }

  lemma SameBlockTransitive(s: seq<Line>, t: seq<Line>, u: seq<Line>, n: nat, key: string)
    requires SameBlock(s, t, n, key) && SameBlock(t, u, n, key)
    ensures SameBlock(s, u, n, key)
  {
  }

  /** No line below the uses line continues it. */
  predicate Leaf(job: Job) {
    forall line :: line in Continued(job) ==> line.skip
  }

  /** A uses line that nothing continues is enough. */
  lemma LeafSettles(job: Job, perms: seq<Permission>, clean: string -> string, cgo: map<string, string>)
    requires Leaf(job)
    ensures Settles(job, perms, clean, cgo)
  {
    OnlySkips(Continued(job), InnerIndent(job));
    assert PickedUp(job) == map[];
    NothingPickedUp(job, clean, cgo);
    forall p | p in perms
      ensures LastOf(Continued(job), p.key) < 0
    {
      LastOfUnique(Continued(job), p.key, -1);
    }
  }

  // ---------- Where it fails ----------

  /** A deeper line with another grant right below the uses line: the second run rewrites it. */
  lemma ContinuedUsesLine(uses: Line, perms: seq<Permission>, p: Permission, other: string)
    requires Required(perms) && p in perms && other != p.value
    ensures var job := Job(2, 4, [], uses, [EntryLine(6, p.key, other)]);
            RepairPermissions(RepairPermissions(job, perms), perms) != RepairPermissions(job, perms)
  {
    var line := EntryLine(6, p.key, other);
    var job := Job(2, 4, [], uses, [line]);
    assert KidsEnd([line][1..], 4) == 0;
    assert Continued(job) == [line];
    LastOfUnique([line], p.key, 0);
    PermissionsTwiceIff(job, perms);
  }

  /** The permissions and the secrets are there, so those repairs do nothing; but the line below the uses line
      names another directory, which the new with block picks up: the second run sets another value. */
  lemma PickedUpDirectory(uses: Line)
    ensures var job := Job(2, 4, [EntryLine(4, "permissions", "write-all"), EntryLine(4, "secrets", "inherit")], uses,
                           [EntryLine(6, "working_directory", "b")]);
            var clean := (s: string) => if s == "" then "." else s;
            var cgo := map["." := "true", "b" := "false"];
            && RepairPermissions(job, []) == job && EnsureSecrets(job) == job
            && WithEntries(SyncCgo(job, clean, cgo)) == Some(map["cgo" := "true", "working_directory" := "b"])
            && SyncCgo(SyncCgo(job, clean, cgo), clean, cgo) != SyncCgo(job, clean, cgo)
  {
    var permissions, secrets, line := EntryLine(4, "permissions", "write-all"), EntryLine(4, "secrets", "inherit"), EntryLine(6, "working_directory", "b");
    var job := Job(2, 4, [permissions, secrets], uses, [line]);
    var clean := (s: string) => if s == "" then "." else s;
    var cgo := map["." := "true", "b" := "false"];
    assert "." != "b" && "permissions" != "secrets" && "permissions" != "with" && "secrets" != "with";
    assert "working_directory" != "with" && "working_directory" != "cgo" && "working_directory" != "permissions";
    AboveOf(job, permissions, secrets, line);
    assert WantedCgo(map[], clean, cgo) == Some("true");
    NewWithReads(job, "cgo", "true");
    assert map["cgo" := "true"] + map["working_directory" := "b"] == map["cgo" := "true", "working_directory" := "b"];
    SyncTwiceIff(job, clean, cgo);
  }

  lemma AboveOf(job: Job, permissions: Line, secrets: Line, line: Line)
    requires job.child == 4 && job.parent == 2 && job.above == [permissions, secrets] && job.below == [line]
    requires permissions == EntryLine(4, "permissions", "write-all") && secrets == EntryLine(4, "secrets", "inherit")
    requires line == EntryLine(6, "working_directory", "b")
    ensures Locate(job, "permissions") == Above(0) && Locate(job, "secrets") == Above(1) && Locate(job, "with").Nowhere?
    ensures PickedUp(job) == map["working_directory" := "b"]
  {
    assert "permissions" != "secrets" && "permissions" != "with" && "secrets" != "with";
    FindChildUnique(job.above, 4, "permissions", 0);
    assert job.above[..1] == [permissions];
    FindChildUnique(job.above, 4, "secrets", 1);
    FindChildUnique(job.above, 4, "with", 2);
    FindChildUnique(job.below, 4, "with", 1);
    assert job.below[1..] == [];
    KidsEndUnique(job.below, 4, 1);
    assert Continued(job) == [line];
    assert [line][..0] == [];
    assert EntriesAt([line], 6) == map["working_directory" := "b"];
  }
}
