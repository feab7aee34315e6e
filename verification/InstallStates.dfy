/** The states that an install of a set passes through, and what each promises to the recovery
    that follows a kill. */
module InstallStates {
  import opened Options
  import opened FileSystem
  import opened InstallSet
  import opened Recovery
  import opened InstallLinks

  datatype Candidate = Candidate(path: Path, installPath: Path)

  datatype Replaced = Replaced(installPath: Path, backup: Option<Path>)

  // ---------- One backup ----------

  /** `v` is a backup of `n`, or the start of one. */
  predicate Partial(n: Node, v: Node) {
    v == n || (v.File? && (v.content == [] || (n.File? && v.content <= n.content)))
  }

  ghost predicate SameBut(m: map<Path, nat>, n: map<Path, nat>, b: Path) {
    forall q :: q != b ==> (q in m <==> q in n) && (q in m ==> m[q] == n[q])
  }

  /** `s` is `d` with at most the file `b` added, a finished or unfinished backup of `p`. */
  ghost predicate InFlight(d: Disk, s: Disk, p: Path, b: Path) {
    && WellFormed(d) && WellFormed(s) && Grows(d, s)
    && p in d.names && p in s.names && b !in d.names && IsBackup(p, b)
    && SameBut(d.names, s.names, b)
    && (forall i :: i in s.nodes && i !in d.nodes ==> s.nodes[i].File? || Some(s.nodes[i]) == View(d, p))
    && (b in s.names ==>
          || (s.names[b] == d.names[p] && View(d, p).value.File?)
          || (s.names[b] >= d.next && Partial(View(d, p).value, View(s, b).value)))
  }

  /** The copy of `p` to `b` has got as far as `done`. */
  ghost predicate Copying(d: Disk, s: Disk, p: Path, b: Path, done: seq<byte>) {
    && InFlight(d, s, p, b)
    && b in s.names && s.names[b] >= d.next
    && View(s, b) == Some(File(done))
  }

  lemma CopyStep(d: Disk, s: Disk, p: Path, b: Path, content: seq<byte>, i: nat)
    requires i < |content| && View(d, p) == Some(File(content))
    requires Copying(d, s, p, b, content[..i])
    ensures Copying(d, Overwritten(s, b, content[..i + 1]), p, b, content[..i + 1])
  {
    var t := Overwritten(s, b, content[..i + 1]);
    assert t.names == s.names;
    assert WellFormed(t) && Grows(d, t);
  }

  // ---------- The promise of a state ----------

  /** The candidates as the staging step leaves them: distinct new files, one per entry. */
  ghost predicate StagedSet(d: Disk, l: Layout, cands: seq<Candidate>) {
    && (forall c :: c in cands ==>
          c.installPath in l.paths && IsCandidate(c.installPath, c.path) && Unshared(d, c.path))
    && (forall i, j :: 0 <= i < j < |cands| ==> cands[i].path != cands[j].path)
  }

  predicate Distinct(cands: seq<Candidate>) {
    forall i, j :: 0 <= i < j < |cands| ==> cands[i].installPath != cands[j].installPath
  }

  /** An install that starts on `d` in the way the crash contract assumes. */
  ghost predicate Calm(d: Disk, l: Layout, cands: seq<Candidate>) {
    && Apart(l) && WellFormed(d) && NoLeftovers(d, l) && NoLinkToTemporary(d, l)
    && StagedSet(d, l, cands) && Distinct(cands)
  }

  /** What `p` holds after the install. */
  ghost function NewView(d: Disk, cands: seq<Candidate>, p: Path): Option<Node> {
    if exists c :: c in cands && c.installPath == p
    then var c :| c in cands && c.installPath == p; View(d, c.path)
    else View(d, p)
  }

  lemma NewViewIs(d: Disk, cands: seq<Candidate>, c: Candidate)
    requires Distinct(cands) && c in cands
    ensures NewView(d, cands, c.installPath) == View(d, c.path)
  {
    var x :| x in cands && x.installPath == c.installPath && NewView(d, cands, c.installPath) == View(d, x.path);
    var i :| 0 <= i < |cands| && cands[i] == c;
    var j :| 0 <= j < |cands| && cands[j] == x;
    assert i < j || j < i || i == j;
  }

  /** Every entry is what it was, what it will be, or absent; every backup can be told from its entry. */
  ghost predicate Tracked(d: Disk, s: Disk, l: Layout, cands: seq<Candidate>) {
    && WellFormed(s) && OneBackupEach(s, l) && NoLinkToTemporary(s, l) && Rooted(d, s, l)
    && (forall p :: p in l.paths ==> Traced(s, p, View(d, p), NewView(d, cands, p)))
  }

  /** Recovery puts the old entry back, or leaves the new one where nothing was installed. */
  ghost predicate PromisesOld(d: Disk, s: Disk, l: Layout, cands: seq<Candidate>, p: Path) {
    || Outcome(s, l, p) == View(d, p)
    || (p !in d.names && Outcome(s, l, p) == NewView(d, cands, p))
  }

  ghost predicate KeepsOld(d: Disk, s: Disk, l: Layout, cands: seq<Candidate>) {
    && Tracked(d, s, l, cands) && l.marker !in s.names
    && forall p :: p in l.paths ==> PromisesOld(d, s, l, cands, p)
  }

  /** As `KeepsOld`, but the backup of the untouched path `t` is unfinished, and recovery
      installs that backup. */
  ghost predicate TornAt(d: Disk, s: Disk, l: Layout, cands: seq<Candidate>, t: Path) {
    && Tracked(d, s, l, cands) && l.marker !in s.names
    && (forall p :: p in l.paths && p != t ==> PromisesOld(d, s, l, cands, p))
    && t in l.paths && View(d, t).Some? && View(s, t) == View(d, t)
    && HasBackup(s, t) && Outcome(s, l, t).Some? && Outcome(s, l, t) != View(d, t)
    && Partial(View(d, t).value, Outcome(s, l, t).value)
  }

  ghost predicate BeforeCommit(d: Disk, s: Disk, l: Layout, cands: seq<Candidate>) {
    KeepsOld(d, s, l, cands) || exists t :: TornAt(d, s, l, cands, t)
  }

  /** The promise of the contract: recovery restores the set as it was. */
  ghost predicate ExactOld(d: Disk, s: Disk, l: Layout) {
    forall p :: p in l.paths ==> Outcome(s, l, p) == View(d, p)
  }

  ghost predicate AllNew(d: Disk, s: Disk, l: Layout, cands: seq<Candidate>) {
    forall p :: p in l.paths ==> View(s, p) == NewView(d, cands, p)
  }

  /** The new set is in place, and recovery keeps it. */
  ghost predicate AfterCommit(d: Disk, s: Disk, l: Layout, cands: seq<Candidate>) {
    && Tracked(d, s, l, cands) && AllNew(d, s, l, cands)
    && (l.marker in s.names || NoLeftovers(s, l))
  }

  // ---------- While entries are being replaced or rolled back ----------

  /** Entry `e` for candidate `c` can still be undone, or has been. */
  ghost predicate EntrySafe(d: Disk, s: Disk, e: Replaced, c: Candidate) {
    && e.installPath == c.installPath
    && match e.backup
       case None =>
         c.installPath !in d.names && (c.installPath !in s.names || View(s, c.installPath) == View(d, c.path))
       case Some(b) =>
         && View(d, c.installPath).Some? && IsBackup(c.installPath, b)
         && if b in s.names then
              && View(s, b) == View(d, c.installPath)
              && (View(s, c.installPath) == View(d, c.installPath) || View(s, c.installPath) == View(d, c.path))
              && (View(s, b).Some? && View(s, b).value.Link? ==> !SameEntryNode(s, b, c.installPath))
            else View(s, c.installPath) == View(d, c.installPath)
  }

  ghost predicate BackupsListed(s: Disk, l: Layout, replaced: seq<Replaced>) {
    forall p, b :: p in l.paths && b in s.names && IsBackup(p, b) ==> Replaced(p, Some(b)) in replaced
  }

  ghost predicate OthersAsBefore(d: Disk, s: Disk, l: Layout, replaced: seq<Replaced>) {
    forall p :: p in l.paths && (forall e :: e in replaced ==> e.installPath != p) ==> View(s, p) == View(d, p)
  }

  ghost predicate RestStaged(d: Disk, s: Disk, cands: seq<Candidate>, n: nat) {
    forall j :: n <= j < |cands| ==> Unshared(s, cands[j].path) && View(s, cands[j].path) == View(d, cands[j].path)
  }

  ghost predicate EntriesSafe(d: Disk, s: Disk, cands: seq<Candidate>, replaced: seq<Replaced>) {
    |replaced| <= |cands| && forall j :: 0 <= j < |replaced| ==> EntrySafe(d, s, replaced[j], cands[j])
  }

  ghost predicate Staged(d: Disk, s: Disk, l: Layout, cands: seq<Candidate>, replaced: seq<Replaced>) {
    && WellFormed(s) && NoLinkToTemporary(s, l) && Rooted(d, s, l)
    && EntriesSafe(d, s, cands, replaced) && RestStaged(d, s, cands, |replaced|)
    && BackupsListed(s, l, replaced) && OthersAsBefore(d, s, l, replaced)
  }

  lemma StagedStart(d: Disk, l: Layout, cands: seq<Candidate>)
    requires Calm(d, l, cands)
    ensures Staged(d, d, l, cands, [])
  {
    hide IsBackup, IsCandidate, Unshared, Rooted;
    RootedRefl(d, l);
    forall p, b | p in l.paths && IsBackup(p, b)
      ensures b !in d.names
    {
      assert !HasBackup(d, p);
    }
  }

  lemma EntryIndex(d: Disk, s: Disk, cands: seq<Candidate>, replaced: seq<Replaced>, e: Replaced)
    returns (j: nat)
    requires EntriesSafe(d, s, cands, replaced) && e in replaced
    ensures j < |replaced| && replaced[j] == e && EntrySafe(d, s, e, cands[j])
  {
    j :| 0 <= j < |replaced| && replaced[j] == e;
  }

  lemma StagedOneBackup(d: Disk, s: Disk, l: Layout, cands: seq<Candidate>, replaced: seq<Replaced>, p: Path)
    requires Distinct(cands) && EntriesSafe(d, s, cands, replaced) && BackupsListed(s, l, replaced) && p in l.paths
    ensures OneBackup(s, p)
  {
    forall b, c | b in s.names && c in s.names && IsBackup(p, b) && IsBackup(p, c)
      ensures b == c
    {
      var i := EntryIndex(d, s, cands, replaced, Replaced(p, Some(b)));
      var j := EntryIndex(d, s, cands, replaced, Replaced(p, Some(c)));
      assert i < j || j < i || i == j;
    }
  }

  /** What is known of one path between two replacements or in a rollback. */
  lemma StagedPath(d: Disk, s: Disk, l: Layout, cands: seq<Candidate>, replaced: seq<Replaced>, p: Path)
    requires Calm(d, l, cands) && Staged(d, s, l, cands, replaced) && p in l.paths
    ensures OneBackup(s, p) && Traced(s, p, View(d, p), NewView(d, cands, p))
    ensures l.marker !in s.names ==> PromisesOld(d, s, l, cands, p)
    ensures l.marker !in s.names && (p in d.names || p !in s.names) ==> Outcome(s, l, p) == View(d, p)
    ensures p in s.names && p !in d.names ==> exists e :: e in replaced && e.installPath == p && e.backup.None?
  {
    hide Rooted, NoLinkToTemporary, IsCandidate, Unshared, Apart, RestStaged, IsBackup, NewView;
    StagedOneBackup(d, s, l, cands, replaced, p);
    if e :| e in replaced && e.installPath == p {
      var j := EntryIndex(d, s, cands, replaced, e);
      NewViewIs(d, cands, cands[j]);
      forall b | b in s.names && IsBackup(p, b)
        ensures e.backup == Some(b)
      {
        var i := EntryIndex(d, s, cands, replaced, Replaced(p, Some(b)));
        assert i < j || j < i || i == j;
      }
    } else {
      forall b | IsBackup(p, b)
        ensures b !in s.names
      {
        assert b in s.names ==> Replaced(p, Some(b)) in replaced;
      }
    }
  }

  /** A path that was occupied stays so. */
  lemma StagedOccupied(d: Disk, s: Disk, l: Layout, cands: seq<Candidate>, replaced: seq<Replaced>, p: Path)
    requires Calm(d, l, cands) && Staged(d, s, l, cands, replaced) && p in l.paths && View(d, p).Some?
    ensures View(s, p).Some?
  {
    hide Rooted, NoLinkToTemporary, IsCandidate, Apart, RestStaged, IsBackup;
    if e :| e in replaced && e.installPath == p {
      var j := EntryIndex(d, s, cands, replaced, e);
      assert cands[j] in cands && Unshared(d, cands[j].path);
    }
  }

  lemma StagedTracked(d: Disk, s: Disk, l: Layout, cands: seq<Candidate>, replaced: seq<Replaced>)
    requires Calm(d, l, cands) && Staged(d, s, l, cands, replaced)
    ensures Tracked(d, s, l, cands)
  {
    hide EntriesSafe, RestStaged, BackupsListed, OthersAsBefore, Traced, OneBackup, Calm;
    forall p | p in l.paths
      ensures OneBackup(s, p) && Traced(s, p, View(d, p), NewView(d, cands, p))
    {
      StagedPath(d, s, l, cands, replaced, p);
    }
  }

  /** Whatever has been replaced or rolled back so far, recovery restores the old set. */
  lemma StagedKeepsOld(d: Disk, s: Disk, l: Layout, cands: seq<Candidate>, replaced: seq<Replaced>)
    requires Calm(d, l, cands) && Staged(d, s, l, cands, replaced) && l.marker !in s.names
    ensures KeepsOld(d, s, l, cands)
    ensures (forall e :: e in replaced ==> e.backup.Some?) ==> ExactOld(d, s, l)
  {
    hide Staged, Tracked, Calm, PromisesOld, Outcome;
    StagedTracked(d, s, l, cands, replaced);
    forall p | p in l.paths
      ensures PromisesOld(d, s, l, cands, p)
      ensures (forall e :: e in replaced ==> e.backup.Some?) ==> Outcome(s, l, p) == View(d, p)
    {
      StagedPath(d, s, l, cands, replaced, p);
    }
  }

  // ---------- Steps that keep the root ----------

  /** Names may go; one may come, as a fresh inode or with the inode of a name of its owner. */
  lemma RootedStep(d: Disk, s: Disk, t: Disk, l: Layout, b: Path)
    requires Apart(l) && WellFormed(s) && Rooted(d, s, l) && Grows(s, t) && InSet(l, b)
    requires forall q :: q != b && q in t.names ==> q in s.names && t.names[q] == s.names[q]
    requires forall q :: !InSet(l, q) && q in s.names ==> q in t.names
    requires b in t.names && !IsAnyCandidate(l, b) ==>
               || t.names[b] >= s.next
               || (exists c :: Unshared(s, c) && c !in t.names && t.names[b] == s.names[c])
               || (exists c :: c in s.names && !IsAnyCandidate(l, c) && t.names[b] == s.names[c] && Owner(l, c) == Owner(l, b))
    ensures Rooted(d, t, l)
  {
    hide Owner, Apart, InSet, IsAnyCandidate;
    forall q | !InSet(l, q)
      ensures SameEntry(d, t, q) && View(d, q) == View(t, q)
    {
      assert q != b && SameEntry(d, s, q) && View(d, q) == View(s, q);
    }
    forall x, y | x in t.names && y in t.names && !IsAnyCandidate(l, x) && !IsAnyCandidate(l, y) && t.names[x] == t.names[y]
      ensures Owner(l, x) == Owner(l, y) || SameEntryNode(d, Owner(l, x), Owner(l, y))
    {
      if x != y && (x == b || y == b) {
        var z := if x == b then y else x;
        assert z in s.names && t.names[z] == s.names[z] && s.names[z] < s.next;
        assert forall c :: Unshared(s, c) && c !in t.names ==> s.names[z] != s.names[c];
      }
    }
  }

  lemma InFlightRooted(d: Disk, s: Disk, t: Disk, l: Layout, p: Path, b: Path)
    requires Apart(l) && Rooted(d, s, l) && p in l.paths && InFlight(s, t, p, b)
    ensures Rooted(d, t, l)
  {
    hide Owner, Kin, Outcome;
    OwnerOfBackup(l, p, b);
    assert Owner(l, p) == p by {
      assert forall q :: q in l.paths ==> !IsBackup(q, p);
      PlainOwner(l, p);
    }
    assert !IsAnyCandidate(l, p);
    RootedStep(d, s, t, l, b);
  }

  lemma PlainOwner(l: Layout, q: Path)
    requires forall p :: p in l.paths ==> !IsBackup(p, q)
    ensures Owner(l, q) == q
  {
  }

  lemma InFlightLinks(s: Disk, t: Disk, l: Layout, p: Path, b: Path)
    requires InFlight(s, t, p, b) && NoLinkToTemporary(s, l)
    ensures NoLinkToTemporary(t, l)
  {
    assert s.nodes[s.names[p]] in s.nodes.Values;
  }

  // ---------- Taking a backup ----------

  lemma StagedGrown(d: Disk, s: Disk, u: Disk, l: Layout, cands: seq<Candidate>, replaced: seq<Replaced>)
    requires Staged(d, s, l, cands, replaced)
    requires u.names == s.names && WellFormed(u) && Grows(s, u) && NoLinkToTemporary(u, l)
    ensures Staged(d, u, l, cands, replaced)
  {
    hide IsBackup, IsTemporary, InSet, IsAnyCandidate;
    assert forall q :: View(u, q) == View(s, q);
    forall j | 0 <= j < |replaced|
      ensures EntrySafe(d, u, replaced[j], cands[j])
    {
      assert EntrySafe(d, s, replaced[j], cands[j]);
    }
  }

  /** The only backup of `p` is added: it is what recovery puts back, and nothing else changes. */
  lemma BackupAdded(u: Disk, t: Disk, l: Layout, p: Path, b: Path)
    requires Apart(l) && p in l.paths && IsBackup(p, b) && !HasBackup(u, p) && OneBackupEach(u, l)
    requires WellFormed(u) && t.nodes == u.nodes && b in t.names && b !in u.names && SameBut(u.names, t.names, b)
    ensures forall q :: q != b ==> View(t, q) == View(u, q)
    ensures OneBackupEach(t, l) && HasBackup(t, p)
    ensures l.marker !in u.names ==> Outcome(t, l, p) == View(t, b)
    ensures forall q :: q in l.paths && q != p ==> Outcome(t, l, q) == Outcome(u, l, q)
  {
    assert b !in l.paths && b != l.marker;
    assert forall q :: q != b ==> View(t, q) == View(u, q);
    forall q | q in l.paths
      ensures OneBackup(t, q)
      ensures q != p ==> Outcome(t, l, q) == Outcome(u, l, q)
    {
      if q != p {
        assert OneBackup(u, q) && !IsBackup(q, b);
        if HasBackup(u, q) {
          var c :| c in u.names && IsBackup(q, c);
        }
      }
    }
  }

  /** What a kill while the backup of the next entry is being made leaves. */
  lemma InFlightPath(d: Disk, u: Disk, t: Disk, l: Layout, cands: seq<Candidate>, p: Path, b: Path, q: Path)
    requires Apart(l) && p in l.paths && q in l.paths && IsBackup(p, b) && !HasBackup(u, p)
    requires Traced(u, q, View(d, q), NewView(d, cands, q))
    requires t.nodes == u.nodes && b in t.names && SameBut(u.names, t.names, b)
    requires p in u.names && View(u, p) == View(d, p) && View(t, b).Some? && BackupFine(t, p, b, View(d, p))
    requires t.names[b] == u.names[p] || Unshared(t, b)
    ensures Traced(t, q, View(d, q), NewView(d, cands, q))
  {
    hide NewView;
    assert forall x :: x != b ==> View(t, x) == View(u, x);
    assert b !in l.paths;
    forall c | c in t.names && IsBackup(q, c)
      ensures View(t, c).Some? && BackupFine(t, q, c, View(d, q))
    {
      if q == p {
        assert c == b by {
          assert c != b ==> c in u.names;
        }
      } else {
        assert c != b && BackupFine(u, q, c, View(d, q));
        assert p != c && t.names[c] == u.names[c];
      }
    }
  }

  /** The next entry is untouched and has no backup. */
  lemma NextUntouched(d: Disk, s: Disk, l: Layout, cands: seq<Candidate>, replaced: seq<Replaced>)
    requires Calm(d, l, cands) && Staged(d, s, l, cands, replaced) && |replaced| < |cands|
    ensures var p := cands[|replaced|].installPath; p in l.paths && View(s, p) == View(d, p) && !HasBackup(s, p)
  {
    hide Rooted, NoLinkToTemporary, RestStaged, EntrySafe, NoLeftovers;
    var p := cands[|replaced|].installPath;
    assert cands[|replaced|] in cands;
    forall e | e in replaced
      ensures e.installPath != p
    {
      var j := EntryIndex(d, s, cands, replaced, e);
      assert e.installPath == cands[j].installPath by {
        SafeEntryPath(d, s, e, cands[j]);
      }
    }
  }

  lemma SafeEntryPath(d: Disk, s: Disk, e: Replaced, c: Candidate)
    requires EntrySafe(d, s, e, c)
    ensures e.installPath == c.installPath
  {
  }

  /** `t` is a state between two replacements with one more backup `b`, finished or not, of the next entry. */
  ghost predicate Leftover(d: Disk, t: Disk, l: Layout, cands: seq<Candidate>, replaced: seq<Replaced>, b: Path) {
    |replaced| < |cands| && var p := cands[|replaced|].installPath;
    && Staged(d, Unlinked(t, b), l, cands, replaced)
    && WellFormed(t) && Rooted(d, t, l) && NoLinkToTemporary(t, l)
    && b in t.names && IsBackup(p, b) && View(d, p).Some? && Partial(View(d, p).value, t.nodes[t.names[b]])
    && p in t.names && (t.names[b] == t.names[p] ==> View(d, p).value.File?)
    && (t.names[b] == t.names[p] || Unshared(t, b))
  }

  /** What a backup in the making can leave. */
  lemma InFlightLeaves(d: Disk, s: Disk, t: Disk, l: Layout, cands: seq<Candidate>, replaced: seq<Replaced>, b: Path)
    requires Calm(d, l, cands) && Staged(d, s, l, cands, replaced) && |replaced| < |cands|
    requires InFlight(s, t, cands[|replaced|].installPath, b)
    ensures if b in t.names then Leftover(d, t, l, cands, replaced, b) else Staged(d, t, l, cands, replaced)
    ensures l.marker in t.names <==> l.marker in s.names
  {
    hide EntriesSafe, RestStaged, BackupsListed, OthersAsBefore, Kin, StagedSet, Distinct, NoLeftovers;
    var p := cands[|replaced|].installPath;
    NextUntouched(d, s, l, cands, replaced);
    var u := Unlinked(t, b);
    assert u.names == s.names;
    InFlightLinks(s, t, l, p, b);
    StagedGrown(d, s, u, l, cands, replaced);
    if b in t.names {
      InFlightRooted(d, s, t, l, p, b);
    } else {
      assert t == u;
    }
  }

  lemma LeftoverFacts(d: Disk, t: Disk, l: Layout, cands: seq<Candidate>, replaced: seq<Replaced>, b: Path)
    requires Calm(d, l, cands) && Leftover(d, t, l, cands, replaced, b)
    ensures var p := cands[|replaced|].installPath;
            && p in l.paths && View(t, p) == View(d, p) && View(d, p).Some? && b != p && b != l.marker
            && !HasBackup(Unlinked(t, b), p) && View(t, b).Some? && Partial(View(d, p).value, View(t, b).value)
            && p in Unlinked(t, b).names && View(Unlinked(t, b), p) == View(d, p)
            && BackupFine(t, p, b, View(d, p))
  {
    hide Staged, Rooted, NoLinkToTemporary, NoLeftovers, StagedSet, Distinct;
    NextUntouched(d, Unlinked(t, b), l, cands, replaced);
  }

  /** Recovery installs the backup, so it keeps the old set up to that one entry. */
  lemma LeftoverPromises(d: Disk, t: Disk, l: Layout, cands: seq<Candidate>, replaced: seq<Replaced>, b: Path)
    requires Calm(d, l, cands) && Leftover(d, t, l, cands, replaced, b) && l.marker !in t.names
    ensures var p := cands[|replaced|].installPath;
            && Outcome(t, l, p) == View(t, b)
            && (if View(t, b) == View(d, p) then KeepsOld(d, t, l, cands) else TornAt(d, t, l, cands, p))
    ensures (forall e :: e in replaced ==> e.backup.Some?) ==>
              forall q :: q in l.paths && q != cands[|replaced|].installPath ==> Outcome(t, l, q) == View(d, q)
  {
    hide Staged, Kin, OneBackup, Outcome, HasBackup, NewView, Traced, IsTemporary, OnlySet, BackupFine, StagedSet,
         Distinct,
         NoLeftovers;
    var p, u := cands[|replaced|].installPath, Unlinked(t, b);
    LeftoverFacts(d, t, l, cands, replaced, b);
    StagedKeepsOld(d, u, l, cands, replaced);
    BackupAdded(u, t, l, p, b);
    forall q | q in l.paths
      ensures Traced(t, q, View(d, q), NewView(d, cands, q))
    {
      InFlightPath(d, u, t, l, cands, p, b, q);
    }
    assert forall q :: q in l.paths && q != p ==> PromisesOld(d, u, l, cands, q) && PromisesOld(d, t, l, cands, q);
  }

  /** A kill while the backup of the next entry is being made: if anything is torn, it is that entry. */
  lemma KilledInBackup(d: Disk, s: Disk, t: Disk, l: Layout, cands: seq<Candidate>, replaced: seq<Replaced>, b: Path)
    requires Calm(d, l, cands) && Staged(d, s, l, cands, replaced) && |replaced| < |cands| && l.marker !in s.names
    requires InFlight(s, t, cands[|replaced|].installPath, b)
    ensures KeepsOld(d, t, l, cands) || TornAt(d, t, l, cands, cands[|replaced|].installPath)
    ensures (forall e :: e in replaced ==> e.backup.Some?) && View(d, cands[|replaced|].installPath) == Some(File([])) ==>
              ExactOld(d, t, l)
  {
    hide Staged, InFlight, KeepsOld, TornAt, Calm, Leftover;
    InFlightLeaves(d, s, t, l, cands, replaced, b);
    if b in t.names {
      LeftoverKeeps(d, t, l, cands, replaced, b);
    } else {
      StagedKeepsOld(d, t, l, cands, replaced);
    }
  }

  lemma LeftoverKeeps(d: Disk, t: Disk, l: Layout, cands: seq<Candidate>, replaced: seq<Replaced>, b: Path)
    requires Calm(d, l, cands) && Leftover(d, t, l, cands, replaced, b) && l.marker !in t.names
    ensures KeepsOld(d, t, l, cands) || TornAt(d, t, l, cands, cands[|replaced|].installPath)
    ensures (forall e :: e in replaced ==> e.backup.Some?) && View(d, cands[|replaced|].installPath) == Some(File([])) ==>
              ExactOld(d, t, l)
  {
    LeftoverPromises(d, t, l, cands, replaced, b);
    LeftoverFacts(d, t, l, cands, replaced, b);
    hide Leftover, KeepsOld, TornAt, Calm, BackupFine, HasBackup, Outcome;
  }

  // ---------- Replacing an entry ----------

  /** `t` is `s` after a finished backup of `p`. */
  ghost predicate BackedUp(s: Disk, t: Disk, p: Path, backup: Option<Path>) {
    match backup
    case None => t == s && p !in s.names
    case Some(b) => InFlight(s, t, p, b) && b in t.names && View(t, b) == View(s, p)
  }

  ghost predicate Forward(d: Disk, s: Disk, cands: seq<Candidate>, n: nat)
    requires n <= |cands|
  {
    forall j :: 0 <= j < n ==> View(s, cands[j].installPath) == View(d, cands[j].path)
  }

  predicate Unaffected(s: Disk, t: Disk, q: Path) {
    SameEntry(s, t, q) && View(s, q) == View(t, q)
  }

  /** Only the install path, the candidate and the backup of one entry differ. */
  ghost predicate OnlyEntry(s: Disk, e: Disk, c: Candidate, backup: Option<Path>) {
    forall q :: q != c.installPath && q != c.path && Some(q) != backup ==> Unaffected(s, e, q)
  }

  lemma EntryUntouched(d: Disk, s: Disk, t: Disk, e: Replaced, c: Candidate)
    requires EntrySafe(d, s, e, c) && Unaffected(s, t, c.installPath)
    requires e.backup.Some? ==> Unaffected(s, t, e.backup.value)
    ensures EntrySafe(d, t, e, c)
  {
  }

  /** The names of one entry are not the names of another. */
  lemma Elsewhere(d: Disk, s: Disk, l: Layout, cands: seq<Candidate>, e: Replaced, i: nat, k: nat)
    requires Calm(d, l, cands) && i < |cands| && k < |cands| && EntrySafe(d, s, e, cands[i])
    ensures e.installPath == cands[i].installPath && cands[i].installPath in l.paths && cands[k].installPath in l.paths
    ensures cands[i].installPath != cands[k].path && cands[i].installPath != l.marker
    ensures cands[i].installPath == cands[k].installPath ==> i == k
    ensures e.backup.Some? ==>
              e.backup.value != cands[k].path && e.backup.value !in l.paths && e.backup.value != l.marker
    ensures e.backup.Some? && IsBackup(cands[k].installPath, e.backup.value) ==> i == k
  {
    hide Unshared, NoLinkToTemporary, NoLeftovers;
    assert cands[i] in cands && cands[k] in cands;
    assert i < k || k < i || i == k;
  }

  lemma RenamedRooted(d: Disk, t: Disk, l: Layout, c: Candidate)
    requires Apart(l) && WellFormed(t) && Rooted(d, t, l) && Unshared(t, c.path) && c.path != c.installPath
    requires c.installPath in l.paths && IsCandidate(c.installPath, c.path)
    ensures Rooted(d, Renamed(t, c.path, c.installPath), l)
  {
    hide Owner, Kin;
    assert InSet(l, c.path);
    RootedStep(d, t, Renamed(t, c.path, c.installPath), l, c.installPath);
  }

  /** What the rename of candidate `c` does, from the disk `t` on which its backup is finished. */
  lemma RenamedEntry(d: Disk, s: Disk, t: Disk, l: Layout, c: Candidate, backup: Option<Path>)
    requires Apart(l) && WellFormed(s) && Rooted(d, s, l) && NoLinkToTemporary(s, l)
    requires BackedUp(s, t, c.installPath, backup) && Unshared(s, c.path) && c.path in t.names
    requires c.installPath in l.paths && IsCandidate(c.installPath, c.path)
    ensures var e := Renamed(t, c.path, c.installPath);
            && WellFormed(e) && NoLinkToTemporary(e, l) && Rooted(d, e, l) && OnlyEntry(s, e, c, backup)
            && c.installPath in e.names && c.path !in e.names && View(e, c.installPath) == View(s, c.path)
            && (l.marker in e.names <==> l.marker in s.names)
            && (backup.Some? ==>
                  && backup.value in e.names && View(e, backup.value) == View(s, c.installPath)
                  && !SameEntryNode(e, backup.value, c.installPath))
  {
    hide Rooted, Outcome, IsTemporary;
    var e := Renamed(t, c.path, c.installPath);
    assert backup != Some(c.path) && backup != Some(c.installPath) && backup != Some(l.marker) && c.path != l.marker;
    assert Unshared(t, c.path);
    if backup.Some? {
      InFlightRooted(d, s, t, l, c.installPath, backup.value);
      InFlightLinks(s, t, l, c.installPath, backup.value);
    }
    RenamedRooted(d, t, l, c);
    forall q | q != c.installPath && q != c.path && Some(q) != backup
      ensures Unaffected(s, e, q)
    {
      assert SameEntry(s, t, q);
    }
  }

  lemma RestUntouched(d: Disk, s: Disk, e: Disk, l: Layout, cands: seq<Candidate>, k: nat, backup: Option<Path>)
    requires Apart(l) && StagedSet(d, l, cands) && k < |cands| && WellFormed(s)
    requires forall j :: k <= j < |cands| ==> Unshared(s, cands[j].path)
    requires OnlyEntry(s, e, cands[k], backup) && cands[k].path !in e.names
    requires cands[k].path in s.names && cands[k].installPath in e.names
    requires e.names[cands[k].installPath] == s.names[cands[k].path]
    requires match backup
             case None => true
             case Some(b) => IsBackup(cands[k].installPath, b) && b in e.names &&
                             (e.names[b] >= s.next || (cands[k].installPath in s.names && e.names[b] == s.names[cands[k].installPath]))
    ensures forall j :: k < j < |cands| ==>
              Unshared(e, cands[j].path) && View(e, cands[j].path) == View(s, cands[j].path)
  {
    hide IsCandidate;
    forall j | k < j < |cands|
      ensures Unshared(e, cands[j].path) && View(e, cands[j].path) == View(s, cands[j].path)
    {
      assert cands[j] in cands && cands[k] in cands && Unshared(s, cands[j].path) && Unshared(s, cands[k].path);
      CandidateElsewhere(l, cands[j], cands[k].installPath, backup);
      assert Unaffected(s, e, cands[j].path);
      forall q | q in e.names && q != cands[j].path
        ensures e.names[q] != e.names[cands[j].path]
      {
        if q != cands[k].installPath && Some(q) != backup {
          assert Unaffected(s, e, q);
        }
      }
    }
  }

  lemma CandidateElsewhere(l: Layout, c: Candidate, p: Path, backup: Option<Path>)
    requires Apart(l) && c.installPath in l.paths && IsCandidate(c.installPath, c.path) && p in l.paths
    requires backup.Some? ==> IsBackup(p, backup.value)
    ensures c.path != p && backup != Some(c.path)
  {
  }

  lemma ReplaceStep(d: Disk, s: Disk, t: Disk, l: Layout, cands: seq<Candidate>, replaced: seq<Replaced>,
                    backup: Option<Path>)
    requires Calm(d, l, cands) && Staged(d, s, l, cands, replaced) && |replaced| < |cands|
    requires Forward(d, s, cands, |replaced|)
    requires BackedUp(s, t, cands[|replaced|].installPath, backup)
    requires cands[|replaced|].path in t.names
    ensures var c := cands[|replaced|];
            var e := Renamed(t, c.path, c.installPath);
            && Staged(d, e, l, cands, replaced + [Replaced(c.installPath, backup)])
            && Forward(d, e, cands, |replaced| + 1)
  {
    hide Rooted, NoLinkToTemporary, IsBackup, IsCandidate, Unshared, Apart, InFlight, OnlyEntry, BackupsListed,
         OthersAsBefore, NoLeftovers;
    var k := |replaced|;
    var c := cands[k];
    assert c in cands && Unshared(s, c.path);
    NextUntouched(d, s, l, cands, replaced);
    RenamedEntry(d, s, t, l, c, backup);
    var e := Renamed(t, c.path, c.installPath);
    RestStagedStep(d, s, t, l, cands, k, backup);
    BackupOf(s, t, c.installPath, backup);
    EarlierEntries(d, s, e, l, cands, replaced, backup);
    OtherNames(d, s, e, l, cands, replaced, c, backup);
  }

  lemma BackupOf(s: Disk, t: Disk, p: Path, backup: Option<Path>)
    requires BackedUp(s, t, p, backup)
    ensures backup.None? ==> p !in s.names
    ensures backup.Some? ==> IsBackup(p, backup.value) && backup.value !in s.names && View(s, p).Some?
  {
  }

  lemma RestStagedStep(d: Disk, s: Disk, t: Disk, l: Layout, cands: seq<Candidate>, k: nat, backup: Option<Path>)
    requires Apart(l) && StagedSet(d, l, cands) && WellFormed(s) && k < |cands|
    requires forall j :: k <= j < |cands| ==> Unshared(s, cands[j].path)
    requires BackedUp(s, t, cands[k].installPath, backup) && cands[k].path in t.names
    ensures var e := Renamed(t, cands[k].path, cands[k].installPath);
            forall j :: k < j < |cands| ==> Unshared(e, cands[j].path) && View(e, cands[j].path) == View(s, cands[j].path)
  {
    var c := cands[k];
    var e := Renamed(t, c.path, c.installPath);
    assert c in cands && Unshared(s, c.path);
    CandidateElsewhere(l, c, c.installPath, backup);
    assert Unshared(t, c.path);
    forall q | q != c.installPath && q != c.path && Some(q) != backup
      ensures Unaffected(s, e, q)
    {
      assert SameEntry(s, t, q);
    }
    RestUntouched(d, s, e, l, cands, k, backup);
  }

  /** The entries before the one that was replaced. */
  lemma EarlierEntries(d: Disk, s: Disk, e: Disk, l: Layout, cands: seq<Candidate>, replaced: seq<Replaced>,
                       backup: Option<Path>)
    requires Calm(d, l, cands) && EntriesSafe(d, s, cands, replaced) && |replaced| < |cands|
    requires Forward(d, s, cands, |replaced|)
    requires backup.Some? ==> IsBackup(cands[|replaced|].installPath, backup.value)
    requires OnlyEntry(s, e, cands[|replaced|], backup)
    ensures forall j :: 0 <= j < |replaced| ==> EntrySafe(d, e, replaced[j], cands[j])
    ensures forall j :: 0 <= j < |replaced| ==> View(e, cands[j].installPath) == View(d, cands[j].path)
  {
    hide EntrySafe, Calm, IsBackup;
    forall j | 0 <= j < |replaced|
      ensures EntrySafe(d, e, replaced[j], cands[j]) && View(e, cands[j].installPath) == View(d, cands[j].path)
    {
      assert EntrySafe(d, s, replaced[j], cands[j]);
      EarlierEntry(d, s, e, l, cands, replaced[j], j, |replaced|, backup);
    }
  }

  lemma EarlierEntry(d: Disk, s: Disk, e: Disk, l: Layout, cands: seq<Candidate>, r: Replaced, j: nat, k: nat,
                     backup: Option<Path>)
    requires Calm(d, l, cands) && j < k < |cands| && EntrySafe(d, s, r, cands[j])
    requires backup.Some? ==> IsBackup(cands[k].installPath, backup.value)
    requires OnlyEntry(s, e, cands[k], backup)
    ensures EntrySafe(d, e, r, cands[j]) && View(e, cands[j].installPath) == View(s, cands[j].installPath)
  {
    hide EntrySafe, NoLinkToTemporary, NoLeftovers, StagedSet, Distinct;
    Elsewhere(d, s, l, cands, r, j, k);
    BackupNoPath(l, cands[k].installPath, cands[j].installPath, backup);
    assert Unaffected(s, e, cands[j].installPath);
    if r.backup.Some? {
      assert Unaffected(s, e, r.backup.value);
    }
    EntryUntouched(d, s, e, r, cands[j]);
  }

  lemma BackupNoPath(l: Layout, p: Path, q: Path, backup: Option<Path>)
    requires Apart(l) && q in l.paths && (backup.Some? ==> p in l.paths && IsBackup(p, backup.value))
    ensures backup != Some(q)
  {
  }

  /** The paths and the leftovers besides the entry that was replaced. */
  lemma OtherNames(d: Disk, s: Disk, e: Disk, l: Layout, cands: seq<Candidate>, replaced: seq<Replaced>,
                   c: Candidate, backup: Option<Path>)
    requires Apart(l) && StagedSet(d, l, cands) && c in cands
    requires BackupsListed(s, l, replaced) && OthersAsBefore(d, s, l, replaced)
    requires backup.Some? ==> IsBackup(c.installPath, backup.value)
    requires OnlyEntry(s, e, c, backup)
    ensures BackupsListed(e, l, replaced + [Replaced(c.installPath, backup)])
    ensures OthersAsBefore(d, e, l, replaced + [Replaced(c.installPath, backup)])
  {
    hide Unshared;
    var now := replaced + [Replaced(c.installPath, backup)];
    assert now[|replaced|] == Replaced(c.installPath, backup);
    forall q, b | q in l.paths && b in e.names && IsBackup(q, b)
      ensures Replaced(q, Some(b)) in now
    {
      if Some(b) != backup {
        assert Unaffected(s, e, b);
      }
    }
    forall q | q in l.paths && (forall x :: x in now ==> x.installPath != q)
      ensures View(e, q) == View(d, q)
    {
      assert c.installPath != q && Some(q) != backup && Unaffected(s, e, q);
    }
  }

  // ---------- Undoing an entry ----------

  ghost predicate Undone(cur: Disk, now: Disk, e: Replaced) {
    match e.backup
    case None => now == Unlinked(cur, e.installPath)
    case Some(b) => b in cur.names && now == Renamed(cur, b, e.installPath)
  }

  lemma UndoneRooted(d: Disk, s: Disk, t: Disk, l: Layout, e: Replaced)
    requires Apart(l) && WellFormed(s) && Rooted(d, s, l) && e.installPath in l.paths
    requires e.backup.Some? ==> IsBackup(e.installPath, e.backup.value)
    requires Undone(s, t, e)
    ensures Rooted(d, t, l) && (l.marker in t.names <==> l.marker in s.names)
  {
    hide Kin, Owner;
    if e.backup.Some? {
      OwnerOfBackup(l, e.installPath, e.backup.value);
      PlainOwner(l, e.installPath);
    }
    if t != s {
      RootedStep(d, s, t, l, e.installPath);
    }
  }

  lemma UndoStep(d: Disk, s: Disk, t: Disk, l: Layout, cands: seq<Candidate>, replaced: seq<Replaced>, j: nat)
    requires Calm(d, l, cands) && Staged(d, s, l, cands, replaced) && j < |replaced|
    requires Undone(s, t, replaced[j])
    ensures Staged(d, t, l, cands, replaced) && (l.marker in t.names <==> l.marker in s.names)
  {
    hide EntrySafe, Rooted, IsBackup, IsCandidate, Unshared, Undone, NoLeftovers, Apart;
    var e := replaced[j];
    assert EntrySafe(d, s, e, cands[j]);
    Elsewhere(d, s, l, cands, e, j, j);
    SafeBackup(d, s, e, cands[j]);
    UndoneRooted(d, s, t, l, e);
    UndoneEntry(d, s, t, e, cands[j]);
    forall i | 0 <= i < |replaced|
      ensures EntrySafe(d, t, replaced[i], cands[i])
    {
      if i != j {
        UndoneOther(d, s, t, l, cands, replaced[i], e, i, j);
      }
    }
    UndoneRest(d, s, t, l, cands, replaced, e);
  }

  /** Undoing an entry leaves the extra backup of another entry alone. */
  lemma UndoBeside(d: Disk, s: Disk, t: Disk, l: Layout, cands: seq<Candidate>, replaced: seq<Replaced>, b: Path,
                   j: nat)
    requires Calm(d, l, cands) && Leftover(d, s, l, cands, replaced, b) && j < |replaced| && Undone(s, t, replaced[j])
    ensures Leftover(d, t, l, cands, replaced, b) && View(t, b) == View(s, b)
    ensures l.marker in t.names <==> l.marker in s.names
  {
    hide Rooted, RestStaged, BackupsListed, OthersAsBefore, IsCandidate, NoLeftovers, Apart, EntrySafe, StagedSet,
         Distinct;
    var e, k := replaced[j], |replaced|;
    var u, v := Unlinked(s, b), Unlinked(t, b);
    assert EntrySafe(d, u, e, cands[j]);
    Elsewhere(d, u, l, cands, e, j, k);
    SafeBackup(d, u, e, cands[j]);
    LeftoverNames(d, s, l, cands, replaced, b, j);
    UndoneBeside(s, t, e, b);
    UndoStep(d, u, v, l, cands, replaced, j);
    UndoneRooted(d, s, t, l, e) by {
      CalmIsApart(d, l, cands);
    }
  }

  lemma CalmIsApart(d: Disk, l: Layout, cands: seq<Candidate>)
    requires Calm(d, l, cands)
    ensures Apart(l)
  {
  }

  lemma LeftoverNames(d: Disk, s: Disk, l: Layout, cands: seq<Candidate>, replaced: seq<Replaced>, b: Path, j: nat)
    requires Calm(d, l, cands) && Leftover(d, s, l, cands, replaced, b) && j < |replaced|
    ensures b != replaced[j].installPath && replaced[j].backup != Some(b)
  {
    hide Rooted, RestStaged, BackupsListed, OthersAsBefore, NoLeftovers, NoLinkToTemporary, EntrySafe;
    var e, u := replaced[j], Unlinked(s, b);
    assert EntrySafe(d, u, e, cands[j]);
    Elsewhere(d, u, l, cands, e, j, |replaced|);
    assert cands[|replaced|] in cands;
  }

  /** The step is the same one beside the backup, and does not touch it. */
  lemma UndoneBeside(s: Disk, t: Disk, e: Replaced, b: Path)
    requires Undone(s, t, e) && b != e.installPath && e.backup != Some(b)
    ensures Undone(Unlinked(s, b), Unlinked(t, b), e) && t.nodes == s.nodes
    ensures forall q :: q != e.installPath && Some(q) != e.backup ==> SameEntry(s, t, q)
    ensures forall q :: q in t.names ==>
              exists x :: x in s.names && t.names[q] == s.names[x] && (x == q || (q == e.installPath && Some(x) == e.backup))
  {
    match e.backup
    case None =>
      assert Unlinked(Unlinked(s, b), e.installPath).names == Unlinked(t, b).names;
    case Some(x) =>
      assert Renamed(Unlinked(s, b), x, e.installPath).names == Unlinked(t, b).names;
  }

  lemma SafeBackup(d: Disk, s: Disk, e: Replaced, c: Candidate)
    requires EntrySafe(d, s, e, c)
    ensures e.backup.Some? ==> IsBackup(e.installPath, e.backup.value)
  {
  }

  lemma UndoneOther(d: Disk, s: Disk, t: Disk, l: Layout, cands: seq<Candidate>, r: Replaced, e: Replaced, i: nat,
                    j: nat)
    requires Calm(d, l, cands) && i < |cands| && j < |cands| && i != j
    requires EntrySafe(d, s, r, cands[i]) && EntrySafe(d, s, e, cands[j])
    requires forall q :: q != e.installPath && Some(q) != e.backup ==> Unaffected(s, t, q)
    ensures EntrySafe(d, t, r, cands[i])
  {
    hide NoLinkToTemporary, NoLeftovers, StagedSet, Distinct, Apart;
    Elsewhere(d, s, l, cands, r, i, j);
    Elsewhere(d, s, l, cands, e, j, i);
    EntryUntouched(d, s, t, r, cands[i]);
  }

  lemma UndoneRest(d: Disk, s: Disk, t: Disk, l: Layout, cands: seq<Candidate>, replaced: seq<Replaced>, e: Replaced)
    requires Calm(d, l, cands) && e in replaced && e.installPath in l.paths
    requires e.backup.Some? ==> IsBackup(e.installPath, e.backup.value)
    requires RestStaged(d, s, cands, |replaced|) && BackupsListed(s, l, replaced) && OthersAsBefore(d, s, l, replaced)
    requires forall q :: q != e.installPath && Some(q) != e.backup ==> Unaffected(s, t, q)
    requires forall q :: q in t.names ==> q in s.names || q == e.installPath
    requires forall q :: q in t.names && q != e.installPath ==> t.names[q] == s.names[q]
    requires e.installPath in t.names ==>
               exists q :: q in s.names && (q == e.installPath || Some(q) == e.backup) && t.names[e.installPath] == s.names[q]
    ensures RestStaged(d, t, cands, |replaced|) && BackupsListed(t, l, replaced) && OthersAsBefore(d, t, l, replaced)
  {
    hide NoLinkToTemporary, NoLeftovers;
    forall i | |replaced| <= i < |cands|
      ensures Unshared(t, cands[i].path) && View(t, cands[i].path) == View(d, cands[i].path)
    {
      assert cands[i] in cands && Unshared(s, cands[i].path);
      CandidateElsewhere(l, cands[i], e.installPath, e.backup);
      assert Unaffected(s, t, cands[i].path);
    }
    forall q | q in l.paths && (forall x :: x in replaced ==> x.installPath != q)
      ensures View(t, q) == View(d, q)
    {
      BackupNoPath(l, e.installPath, q, e.backup);
      assert Unaffected(s, t, q);
    }
    forall q, b | q in l.paths && b in t.names && IsBackup(q, b)
      ensures Replaced(q, Some(b)) in replaced
    {
      assert b in s.names;
    }
  }

  lemma UndoneEntry(d: Disk, s: Disk, t: Disk, e: Replaced, c: Candidate)
    requires WellFormed(s) && EntrySafe(d, s, e, c) && Undone(s, t, e)
    requires e.backup.Some? ==> e.backup.value != e.installPath
    ensures WellFormed(t) && t.nodes == s.nodes && EntrySafe(d, t, e, c)
    ensures forall q :: q != e.installPath && Some(q) != e.backup ==> Unaffected(s, t, q)
    ensures forall q :: q in t.names ==> q in s.names || q == e.installPath
    ensures forall q :: q in t.names && q != e.installPath ==> t.names[q] == s.names[q]
    ensures e.installPath in t.names ==>
              exists q :: q in s.names && (q == e.installPath || Some(q) == e.backup) && t.names[e.installPath] == s.names[q]
  {
  }

  // ---------- The commit ----------

  lemma AllReplaced(d: Disk, s: Disk, l: Layout, cands: seq<Candidate>, replaced: seq<Replaced>, p: Path)
    requires Calm(d, l, cands) && EntriesSafe(d, s, cands, replaced) && OthersAsBefore(d, s, l, replaced)
    requires |replaced| == |cands| && Forward(d, s, cands, |cands|) && p in l.paths
    ensures View(s, p) == NewView(d, cands, p)
  {
    hide EntrySafe, Apart, NoLeftovers, NoLinkToTemporary, StagedSet, NewView;
    if c :| c in cands && c.installPath == p {
      var j :| 0 <= j < |cands| && cands[j] == c;
      NewViewIs(d, cands, c);
    } else {
      forall e | e in replaced
        ensures e.installPath != p
      {
        var j := EntryIndex(d, s, cands, replaced, e);
        SafeEntryPath(d, s, e, cands[j]);
        assert cands[j] in cands;
      }
      NewViewOther(d, cands, p);
    }
  }

  lemma NewViewOther(d: Disk, cands: seq<Candidate>, p: Path)
    requires forall c :: c in cands ==> c.installPath != p
    ensures NewView(d, cands, p) == View(d, p)
  {
  }

  /** Past the commit point, with at most the backups of `rest` left. */
  ghost predicate Committed(d: Disk, s: Disk, l: Layout, cands: seq<Candidate>, rest: seq<Replaced>) {
    && Tracked(d, s, l, cands) && AllNew(d, s, l, cands) && l.marker in s.names
    && BackupsListed(s, l, rest)
    && (forall p, b :: p in l.paths && b in s.names && IsBackup(p, b) ==> View(s, b) == View(d, p))
  }

  /** Every backup of the set shows the old entry, while entries are replaced or rolled back. */
  lemma StagedBackups(d: Disk, s: Disk, l: Layout, cands: seq<Candidate>, replaced: seq<Replaced>)
    requires EntriesSafe(d, s, cands, replaced) && BackupsListed(s, l, replaced)
    ensures forall p, b :: p in l.paths && b in s.names && IsBackup(p, b) ==> View(s, b) == View(d, p)
  {
    forall p, b | p in l.paths && b in s.names && IsBackup(p, b)
      ensures View(s, b) == View(d, p)
    {
      var j := EntryIndex(d, s, cands, replaced, Replaced(p, Some(b)));
    }
  }

  /** `t` is `s` with the marker added, written or removed. */
  ghost predicate MarkerOnly(s: Disk, t: Disk, l: Layout) {
    && WellFormed(t)
    && (forall q :: q != l.marker ==> SameEntry(s, t, q) && View(s, q) == View(t, q))
    && (l.marker in t.names ==> (l.marker in s.names && t.names[l.marker] == s.names[l.marker]) || t.names[l.marker] >= s.next)
    && (forall i :: i in t.nodes && t.nodes[i].Link? ==> i in s.nodes && s.nodes[i] == t.nodes[i])
  }

  lemma MarkerRooted(d: Disk, s: Disk, t: Disk, l: Layout)
    requires Apart(l) && WellFormed(s) && Rooted(d, s, l) && MarkerOnly(s, t, l)
    ensures Rooted(d, t, l)
  {
    hide Owner, IsAnyCandidate, IsTemporary;
    forall x, y | x in t.names && y in t.names && !IsAnyCandidate(l, x) && !IsAnyCandidate(l, y) && t.names[x] == t.names[y]
      ensures Owner(l, x) == Owner(l, y) || SameEntryNode(d, Owner(l, x), Owner(l, y))
    {
      if x == l.marker && y != l.marker {
        assert SameEntry(s, t, y);
      } else if y == l.marker && x != l.marker {
        assert SameEntry(s, t, x);
      } else if x != y {
        assert SameEntry(s, t, x) && SameEntry(s, t, y);
      }
    }
    forall q | !InSet(l, q)
      ensures SameEntry(d, t, q) && View(d, q) == View(t, q)
    {
      assert q != l.marker;
    }
  }

  lemma MarkerTraced(s: Disk, t: Disk, l: Layout, p: Path, was: Option<Node>, will: Option<Node>)
    requires Apart(l) && p in l.paths && MarkerOnly(s, t, l) && WellFormed(s) && Traced(s, p, was, will)
    requires OneBackup(s, p)
    ensures Traced(t, p, was, will) && OneBackup(t, p)
  {
    forall b | b in t.names && IsBackup(p, b)
      ensures b in s.names && View(t, b).Some? && BackupFine(t, p, b, was)
    {
      assert b != l.marker && p != l.marker;
      assert BackupFine(s, p, b, was);
      if Unshared(s, b) {
        forall q | q in t.names && q != b
          ensures t.names[q] != t.names[b]
        {
          assert q != l.marker ==> SameEntry(s, t, q);
        }
      }
    }
  }

  lemma MarkerTracked(d: Disk, s: Disk, t: Disk, l: Layout, cands: seq<Candidate>)
    requires Apart(l) && Tracked(d, s, l, cands) && MarkerOnly(s, t, l)
    ensures Tracked(d, t, l, cands)
    ensures AllNew(d, s, l, cands) ==> AllNew(d, t, l, cands)
  {
    hide Rooted, Traced, OneBackup, NewView, IsTemporary;
    MarkerRooted(d, s, t, l);
    forall p | p in l.paths
      ensures OneBackup(t, p) && Traced(t, p, View(d, p), NewView(d, cands, p)) && View(t, p) == View(s, p)
    {
      MarkerTraced(s, t, l, p, View(d, p), NewView(d, cands, p));
    }
  }

  lemma MarkerBackups(d: Disk, s: Disk, t: Disk, l: Layout, replaced: seq<Replaced>)
    requires Apart(l) && MarkerOnly(s, t, l) && BackupsListed(s, l, replaced)
    requires forall p, b :: p in l.paths && b in s.names && IsBackup(p, b) ==> View(s, b) == View(d, p)
    ensures BackupsListed(t, l, replaced)
    ensures forall p, b :: p in l.paths && b in t.names && IsBackup(p, b) ==> View(t, b) == View(d, p)
  {
    forall p, b | p in l.paths && b in t.names && IsBackup(p, b)
      ensures b in s.names && View(t, b) == View(s, b)
    {
      assert SameEntry(s, t, b);
    }
  }

  /** Creating the marker is the one step that moves the promise from the old set to the new. */
  lemma CommitPoint(d: Disk, s: Disk, t: Disk, l: Layout, cands: seq<Candidate>, replaced: seq<Replaced>)
    requires Calm(d, l, cands) && Staged(d, s, l, cands, replaced) && MarkerOnly(s, t, l) && l.marker in t.names
    requires |replaced| == |cands| && Forward(d, s, cands, |cands|)
    ensures Committed(d, t, l, cands, replaced)
  {
    hide Tracked, EntriesSafe, RestStaged, BackupsListed, OthersAsBefore, Forward, Distinct, StagedSet, MarkerOnly,
         NewView, Rooted;
    StagedTracked(d, s, l, cands, replaced);
    StagedBackups(d, s, l, cands, replaced);
    MarkerBackups(d, s, t, l, replaced);
    forall p | p in l.paths
      ensures View(s, p) == NewView(d, cands, p)
    {
      AllReplaced(d, s, l, cands, replaced, p);
    }
    MarkerTracked(d, s, t, l, cands);
  }

  lemma MarkerCreated(s: Disk, l: Layout, content: seq<byte>)
    requires WellFormed(s) && l.marker !in s.names
    ensures MarkerOnly(s, Created(s, l.marker, File([])), l)
    ensures MarkerOnly(s, Overwritten(Created(s, l.marker, File([])), l.marker, content), l)
  {
  }

  lemma MarkerRemoved(s: Disk, l: Layout)
    requires WellFormed(s)
    ensures MarkerOnly(s, Unlinked(s, l.marker), l)
  {
  }

  /** The marker does not stand in the way of a rollback. */
  lemma StagedMarked(d: Disk, s: Disk, t: Disk, l: Layout, cands: seq<Candidate>, replaced: seq<Replaced>)
    requires Calm(d, l, cands) && Staged(d, s, l, cands, replaced) && MarkerOnly(s, t, l) && |replaced| == |cands|
    ensures Staged(d, t, l, cands, replaced)
  {
    hide IsCandidate, EntrySafe, IsTemporary, Rooted, StagedSet, Distinct;
    MarkerRooted(d, s, t, l);
    forall j | 0 <= j < |replaced|
      ensures EntrySafe(d, t, replaced[j], cands[j])
    {
      assert EntrySafe(d, s, replaced[j], cands[j]);
      Elsewhere(d, s, l, cands, replaced[j], j, j);
      EntryUntouched(d, s, t, replaced[j], cands[j]);
    }
    forall p, b | p in l.paths && b in t.names && IsBackup(p, b)
      ensures Replaced(p, Some(b)) in replaced
    {
      assert SameEntry(s, t, b);
    }
  }

  /** A backup behind the marker is removed. */
  lemma DropBackup(d: Disk, s: Disk, l: Layout, cands: seq<Candidate>, rest: seq<Replaced>, b: Path)
    requires Apart(l) && Committed(d, s, l, cands, rest) && IsTemporary(l, b) && b !in l.paths && b != l.marker
    ensures Committed(d, Unlinked(s, b), l, cands, rest)
  {
    hide NewView, IsTemporary, Owner;
    var t := Unlinked(s, b);
    assert forall q :: q != b ==> SameEntry(s, t, q) && View(s, q) == View(t, q);
    RootedStep(d, s, t, l, b);
    forall p | p in l.paths
      ensures OneBackup(t, p) && Traced(t, p, View(d, p), NewView(d, cands, p))
    {
      assert OneBackup(s, p) && Traced(s, p, View(d, p), NewView(d, cands, p));
      forall c | c in t.names && IsBackup(p, c)
        ensures View(t, c).Some? && BackupFine(t, p, c, View(d, p))
      {
        assert BackupFine(s, p, c, View(d, p));
      }
    }
  }

  // ---------- When backups are left behind ----------

  /** The install has removed its marker: a path whose backup could not be removed falls back to its
      old entry, and every other path keeps its new one. */
  ghost predicate Concluded(d: Disk, s: Disk, l: Layout, cands: seq<Candidate>) {
    && Tracked(d, s, l, cands) && AllNew(d, s, l, cands) && l.marker !in s.names
    && forall p :: p in l.paths ==> Outcome(s, l, p) == if HasBackup(s, p) then View(d, p) else NewView(d, cands, p)
  }

  lemma MarkerDropped(d: Disk, s: Disk, l: Layout, cands: seq<Candidate>, rest: seq<Replaced>)
    requires Apart(l) && Committed(d, s, l, cands, rest)
    ensures Concluded(d, Unlinked(s, l.marker), l, cands)
  {
    hide Tracked, NewView, MarkerOnly, BackupsListed;
    var t := Unlinked(s, l.marker);
    TrackedIs(d, s, l, cands);
    MarkerRemoved(s, l);
    MarkerTracked(d, s, t, l, cands);
    TrackedIs(d, t, l, cands);
    forall p | p in l.paths
      ensures Outcome(t, l, p) == if HasBackup(t, p) then View(d, p) else NewView(d, cands, p)
    {
      if HasBackup(t, p) {
        var b :| b in t.names && IsBackup(p, b);
        assert OneBackup(t, p) && b in s.names && View(t, b) == View(s, b);
      }
    }
  }

  lemma TrackedIs(d: Disk, s: Disk, l: Layout, cands: seq<Candidate>)
    requires Tracked(d, s, l, cands)
    ensures WellFormed(s) && OneBackupEach(s, l)
  {
  }

  /** The new set is what recovery keeps if and only if every path whose backup is left holds what it
      held before. */
  lemma ConcludedIsNew(d: Disk, s: Disk, l: Layout, cands: seq<Candidate>)
    requires Concluded(d, s, l, cands)
    ensures (forall p :: p in l.paths ==> Outcome(s, l, p) == NewView(d, cands, p)) <==>
            (forall p :: p in l.paths && HasBackup(s, p) ==> View(d, p) == NewView(d, cands, p))
    ensures (forall p :: p in l.paths ==> !HasBackup(s, p)) ==> AfterCommit(d, s, l, cands) && NoLeftovers(s, l)
  {
    hide Tracked, NewView, HasBackup, Outcome;
  }
}
