/** installCandidates: renames every staged candidate over its install path, with a backup of
    each replaced entry, a rollback, and a commit marker. */
module Install {
  import opened Options
  import opened FileSystem
  import opened InstallSet
  import opened Recovery
  import opened InstallLinks
  import opened InstallStates
  import opened InstallPromise
  import opened Rollback

  // ---------- One backup ----------

  /** Every new state is `d` with a backup of `p` in the making. */
  ghost predicate AllInFlight(d: Disk, before: set<Disk>, reached: set<Disk>, p: Path, b: Path) {
    before <= reached && forall s :: s in reached && s !in before ==> InFlight(d, s, p, b)
  }

  lemma CopyStart(d: Disk, s: Disk, p: Path, b: Path)
    requires InFlight(d, s, p, b) && b !in s.names
    ensures View(s, p) == View(d, p) && View(d, p).Some?
    ensures Copying(d, Created(s, b, File([])), p, b, [])
  {
    hide Partial, IsBackup;
    var t := Created(s, b, File([]));
    assert SameBut(d.names, t.names, b);
    assert WellFormed(t) && Grows(d, t);
    assert Partial(View(d, p).value, File([])) by {
      EmptyIsPartial(View(d, p).value);
    }
  }

  lemma EmptyIsPartial(n: Node)
    ensures Partial(n, File([]))
  {
  }

  lemma InFlightViews(d: Disk, s: Disk, p: Path, b: Path)
    requires InFlight(d, s, p, b)
    ensures View(s, p) == View(d, p) && View(d, p).Some?
  {
  }

  /** The environment refuses nothing that the backup `b` of `p` needs, hard links aside. */
  ghost predicate Grants(fs: Fs, p: Path, b: Path) {
    forall op, q, t :: op != Op.HardLink && op != Op.Discard && (q == p || q == b) ==> !fs.fails(op, q, t)
  }

  method CopyFile(fs: Fs, p: Path, b: Path, ghost d: Disk) returns (ok: bool)
    requires fs.Valid() && InFlight(d, fs.disk, p, b)
    requires View(d, p).value.File?
    modifies fs
    ensures fs.Valid() && InFlight(d, fs.disk, p, b) && AllInFlight(d, old(fs.reached), fs.reached, p, b)
    ensures ok ==> b in fs.disk.names && View(fs.disk, b) == View(d, p)
    ensures b in old(fs.disk).names ==> !ok && fs.disk == old(fs.disk)
    ensures Grants(fs, p, b) && b !in old(fs.disk).names ==> ok
    ensures (forall t :: fs.fails(Probe, b, t)) ==> !ok
  {
    hide InFlight;
    ghost var before := fs.reached;
    InFlightViews(d, fs.disk, p, b);
    if b !in fs.disk.names {
      CopyStart(d, fs.disk, p, b);
    }
    var content := View(fs.disk, p).value.content;
    ok := fs.Look(p);
    if !ok {
      return;
    }
    ok := fs.CreateNew(Create, b, File([]));
    if !ok {
      return;
    }
    assert content[..0] == [];
    for i := 0 to |content|
      invariant fs.Valid() && Copying(d, fs.disk, p, b, content[..i])
      invariant AllInFlight(d, before, fs.reached, p, b)
    {
      CopyStep(d, fs.disk, p, b, content, i);
      ok := fs.Overwrite(b, content[..i + 1]);
      if !ok {
        return;
      }
    }
    assert content[..|content|] == content;
    ok := fs.Look(b);
  }

  lemma UnlinkedInFlight(d: Disk, s: Disk, p: Path, b: Path)
    requires InFlight(d, s, p, b)
    ensures InFlight(d, Unlinked(s, b), p, b) && Unlinked(s, b).names == d.names
  {
  }

  lemma LinkInFlight(d: Disk, s: Disk, p: Path, b: Path)
    requires InFlight(d, s, p, b) && b !in s.names
    ensures View(s, p) == View(d, p) && View(d, p).Some?
    ensures View(d, p).value.File? ==>
              InFlight(d, HardLinked(s, p, b), p, b) && View(HardLinked(s, p, b), b) == View(d, p)
    ensures View(d, p).value.Link? ==>
              InFlight(d, Created(s, b, View(d, p).value), p, b) && View(Created(s, b, View(d, p).value), b) == View(d, p)
  {
    assert View(s, p) == View(d, p);
    if View(d, p).value.File? {
      assert SameBut(d.names, HardLinked(s, p, b).names, b);
    } else {
      assert SameBut(d.names, Created(s, b, View(d, p).value).names, b);
    }
  }

  /** The environment refuses to remove any backup of `p`. */
  ghost predicate NoRemoval(fs: Fs, p: Path) {
    forall b, t :: IsBackup(p, b) ==> fs.fails(Op.Unlink, b, t)
  }

  /** Fills the backup name: a new symlink for a symlink, else a hard link, else a copy.  Each needs the
      name to be free. */
  method FillBackup(fs: Fs, l: Layout, p: Path, b: Path, ghost d: Disk) returns (ok: bool)
    requires fs.Valid() && p in l.paths && IsBackup(p, b) && InFlight(d, fs.disk, p, b)
    modifies fs
    ensures fs.Valid() && InFlight(d, fs.disk, p, b) && AllInFlight(d, old(fs.reached), fs.reached, p, b)
    ensures ok ==> b in fs.disk.names && View(fs.disk, b) == View(d, p)
    ensures !ok && ReliableRemoval(fs, l) && b !in old(fs.disk).names ==> b !in fs.disk.names
    ensures b in old(fs.disk).names ==> !ok && (NoRemoval(fs, p) ==> fs.disk == old(fs.disk))
    ensures Grants(fs, p, b) && b !in old(fs.disk).names ==> ok
  {
    hide InFlight, IsBackup, IsCandidate;
    InFlightViews(d, fs.disk, p, b);
    if b !in fs.disk.names {
      LinkInFlight(d, fs.disk, p, b);
    }
    match View(fs.disk, p).value {
      case Link(target) =>
        ok := fs.Look(p);
        if ok {
          ok := fs.CreateNew(Symlink, b, Link(target));
        }
      case File(_) =>
        ok := fs.HardLink(p, b);
        if !ok {
          ok := CopyFile(fs, p, b, d);
          if !ok {
            UnlinkedInFlight(d, fs.disk, p, b);
            var _ := fs.Unlink(b);
          }
        }
    }
  }

  lemma ReservedInFlight(d: Disk, p: Path, b: Path)
    requires WellFormed(d) && p in d.names && b !in d.names && IsBackup(p, b)
    ensures InFlight(d, Created(d, b, File([])), p, b) && Unlinked(Created(d, b, File([])), b).names == d.names
    ensures Created(d, b, File([])) != d && b in Created(d, b, File([])).names
  {
    assert b in Created(d, b, File([])).names;
  }

  /** Every new state is `d`, or `d` with some backup of `p` in the making if a name was reserved. */
  ghost predicate BackupStates(d: Disk, before: set<Disk>, reached: set<Disk>, p: Path, reserved: bool) {
    && before <= reached && (reserved ==> Reserved(d, reached, p))
    && forall s :: s in reached && s !in before ==> s == d || (reserved && exists b :: InFlight(d, s, p, b))
  }

  lemma BackupStatesStep(d: Disk, before: set<Disk>, mid: set<Disk>, reached: set<Disk>, p: Path, b: Path)
    requires BackupStates(d, before, mid, p, true) && AllInFlight(d, mid, reached, p, b)
    ensures BackupStates(d, before, reached, p, true)
  {
    hide InFlight, IsBackup;
  }

  /** The environment lets a backup name of `p` be reserved. */
  ghost predicate Reservable(fs: Fs, p: Path) {
    && (forall t :: !fs.fails(Probe, p, t))
    && (forall b, t :: IsBackup(p, b) ==> !fs.fails(Create, b, t))
  }

  ghost predicate Backable(fs: Fs, p: Path) {
    Reservable(fs, p) && forall b :: IsBackup(p, b) ==> Grants(fs, p, b)
  }

  /** The environment refuses nothing that the replacement by `c` needs. */
  ghost predicate Replaceable(fs: Fs, c: Candidate) {
    Backable(fs, c.installPath) && forall t :: !fs.fails(Op.Rename, c.path, t)
  }

  /** backupInstalledBinary.  Whenever it has reserved a backup name, the empty file under that name was
      there for a kill to leave; a kill can also leave the first part of a copy. */
  method BackupInstalled(fs: Fs, l: Layout, p: Path) returns (ok: bool, backup: Option<Path>, ghost reserved: bool)
    requires fs.Valid() && Apart(l) && p in l.paths
    modifies fs
    ensures fs.Valid() && BackupStates(old(fs.disk), old(fs.reached), fs.reached, p, reserved)
    ensures reserved ==> p in old(fs.disk).names
    ensures !ok ==> backup.None? && (fs.disk == old(fs.disk) || (reserved && exists b :: InFlight(old(fs.disk), fs.disk, p, b)))
    ensures !ok && ReliableRemoval(fs, l) ==> fs.disk.names == old(fs.disk).names
    ensures reserved && NoRemoval(fs, p) ==>
              !ok && exists b :: IsBackup(p, b) && b !in old(fs.disk).names && fs.disk == Created(old(fs.disk), b, File([]))
    ensures ok ==> (backup.Some? <==> reserved)
    ensures ok && backup.None? ==> p !in old(fs.disk).names && fs.disk == old(fs.disk)
    ensures ok && backup.Some? ==>
              && InFlight(old(fs.disk), fs.disk, p, backup.value)
              && backup.value in fs.disk.names
              && View(fs.disk, backup.value) == View(old(fs.disk), p)
    ensures Backable(fs, p) && !HasBackup(old(fs.disk), p) ==> ok
    ensures Reservable(fs, p) && p in old(fs.disk).names && !HasBackup(old(fs.disk), p) ==> reserved
  {
    hide InFlight, IsCandidate;
    ghost var d, before := fs.disk, fs.reached;
    backup, reserved := None, false;
    ok := fs.Look(p);
    if !ok {
      return;
    }
    if p !in fs.disk.names {
      return;
    }
    var b;
    ok, b := fs.CreateTemp(p.dir, BackupPrefix(p));
    if !ok {
      return;
    }
    reserved := true;
    assert IsBackup(p, b);
    ReservedInFlight(d, p, b);
    assert Reserved(d, fs.reached, p);
    UnlinkedInFlight(d, fs.disk, p, b);
    var _ := fs.Unlink(b);
    ghost var mid := fs.reached;
    hide IsBackup;
    ok := FillBackup(fs, l, p, b, d);
    BackupStatesStep(d, before, mid, fs.reached, p, b);
    if ok {
      backup := Some(b);
    } else if ReliableRemoval(fs, l) {
      SameNames(d, fs.disk, p, b);
    }
  }

  lemma SameNames(d: Disk, s: Disk, p: Path, b: Path)
    requires InFlight(d, s, p, b) && b !in s.names
    ensures s.names == d.names
  {
  }

  // ---------- Rollback ----------

  ghost predicate Trail(snaps: seq<Disk>, replaced: seq<Replaced>, cands: seq<Candidate>) {
    && |snaps| == |replaced| + 1 <= |cands| + 1
    && (forall j :: 0 <= j < |replaced| ==> Advanced(snaps[j], snaps[j + 1], replaced[j], cands[j]))
  }

  method UndoEntry(fs: Fs, e: Replaced) returns (ok: bool)
    requires fs.Valid()
    modifies fs
    ensures fs.Valid() && fs.reached == old(fs.reached) + {fs.disk}
    ensures if ok then Undone(old(fs.disk), fs.disk, e) else fs.disk == old(fs.disk)
    ensures e.backup.None? && e.installPath in old(fs.disk).names && SureUndo(fs, e.installPath) ==> ok
    ensures e.backup.Some? && e.backup.value in old(fs.disk).names && IsBackup(e.installPath, e.backup.value) ==>
              SureUndo(fs, e.installPath) ==> ok
  {
    match e.backup
    case None => ok := fs.Unlink(e.installPath);
    case Some(b) => ok := fs.Rename(b, e.installPath);
  }

  /** The environment refuses no step that undoes an entry of `p`. */
  ghost predicate SureUndo(fs: Fs, p: Path) {
    && (forall t :: !fs.fails(Op.Unlink, p, t))
    && (forall b, t :: IsBackup(p, b) ==> !fs.fails(Op.Rename, b, t))
  }

  ghost predicate ReliableUndo(fs: Fs, l: Layout) {
    forall p :: p in l.paths ==> SureUndo(fs, p)
  }

  /** The disk without the backup that could not be removed. */
  ghost function Bare(d: Disk, left: Option<Stuck>): Disk {
    match left
    case None => d
    case Some(x) => Unlinked(d, x.backup)
  }

  /** The undone entry is on the disk, or its backup is. */
  lemma EntryIsThere(d: Disk, s: Disk, t: Disk, l: Layout, cands: seq<Candidate>, e: Replaced, c: Candidate)
    requires Apart(l) && c in cands && Advanced(s, t, e, c) && SameAs(d, t, l, cands)
    requires forall x :: x in cands ==> x.installPath in l.paths && IsCandidate(x.installPath, x.path)
    ensures match e.backup
            case None => e.installPath in d.names
            case Some(b) => b in d.names && IsBackup(e.installPath, b)
  {
    hide IsCandidatePath;
    NamesOfEntry(l, cands, c, e);
    match e.backup
    case None => assert SameFileAs(d, t, cands, e.installPath);
    case Some(b) => assert SameFileAs(d, t, cands, b);
  }

  /** While the backups are renamed back every entry stays safe. */
  ghost predicate Restoring(d: Disk, cur: Disk, before: set<Disk>, reached: set<Disk>, l: Layout,
                            cands: seq<Candidate>, replaced: seq<Replaced>, left: Option<Stuck>, marked: bool) {
    before <= reached &&
    (Calm(d, l, cands) ==>
       && Rolling(d, cur, l, cands, replaced, left) && (l.marker in cur.names <==> marked)
       && AllStaged(d, before, reached, l, cands, replaced, left, marked))
  }

  lemma RestoringStep(d: Disk, cur: Disk, now: Disk, before: set<Disk>, reached: set<Disk>, l: Layout,
                      cands: seq<Candidate>, replaced: seq<Replaced>, left: Option<Stuck>, marked: bool, i: nat,
                      done: bool)
    requires i < |replaced| && Restoring(d, cur, before, reached, l, cands, replaced, left, marked)
    requires if done then Undone(cur, now, replaced[i]) else now == cur
    ensures Restoring(d, now, before, reached + {now}, l, cands, replaced, left, marked)
  {
    hide Staged, Leftover, Calm, Undone;
    if Calm(d, l, cands) && done {
      match left
      case None => UndoStep(d, cur, now, l, cands, replaced, i);
      case Some(x) => UndoBeside(d, cur, now, l, cands, replaced, x.backup, i);
    }
  }

  lemma BareNames(d: Disk, left: Option<Stuck>)
    ensures forall q :: q in Bare(d, left).names ==> q in d.names
  {
  }

  lemma AdvancedPath(s: Disk, t: Disk, e: Replaced, c: Candidate)
    requires Advanced(s, t, e, c)
    ensures e.installPath == c.installPath
  {
  }

  lemma UndoneNames(cur: Disk, now: Disk, l: Layout, e: Replaced, done: bool)
    requires Apart(l) && e.installPath in l.paths && if done then Undone(cur, now, e) else now == cur
    ensures NoNewCandidates(cur, now, l)
  {
  }

  /** The backup that is left over does not matter to the undoing of another. */
  lemma UndoneBare(cur: Disk, now: Disk, e: Replaced, left: Option<Stuck>)
    requires Undone(cur, now, e)
    requires left.Some? ==> left.value.backup != e.installPath
    requires e.backup.Some? ==> e.backup.value in Bare(cur, left).names
    ensures Undone(Bare(cur, left), Bare(now, left), e)
  {
  }

  lemma UndoneIsExact(d: Disk, s: Disk, t: Disk, u: Disk, l: Layout, cands: seq<Candidate>, e: Replaced, c: Candidate)
    requires Apart(l) && c in cands && Undone(d, u, e)
    requires forall x :: x in cands ==> x.installPath in l.paths && IsCandidate(x.installPath, x.path)
    requires Advanced(s, t, e, c) && SameAs(d, t, l, cands)
    ensures SameAs(u, s, l, cands)
  {
    hide Advanced, SameAs;
    UndoIsExact(d, s, t, u, l, cands, e, c);
  }

  /** One step of the restore closure. */
  method UndoOne(fs: Fs, l: Layout, cands: seq<Candidate>, replaced: seq<Replaced>, i: nat, ok: bool,
                 ghost d: Disk, ghost snaps: seq<Disk>, ghost before: set<Disk>, ghost left: Option<Stuck>,
                 ghost marked: bool)
    returns (still: bool)
    requires fs.Valid() && Apart(l) && StagedSet(d, l, cands) && Trail(snaps, replaced, cands) && i < |replaced|
    requires left.Some? ==> left.value.backup !in l.paths
    requires ok ==> SameAs(Bare(fs.disk, left), snaps[i + 1], l, cands)
    requires Restoring(d, fs.disk, before, fs.reached, l, cands, replaced, left, marked)
    modifies fs
    ensures fs.Valid()
    ensures still ==> SameAs(Bare(fs.disk, left), snaps[i], l, cands)
    ensures ok && ReliableUndo(fs, l) ==> still
    ensures NoNewCandidates(old(fs.disk), fs.disk, l)
    ensures Restoring(d, fs.disk, before, fs.reached, l, cands, replaced, left, marked)
  {
    hide NoNewCandidates, SameAs, Restoring, Advanced, Apart, IsCandidate, Unshared, Bare, Undone, IsBackup;
    ghost var cur, reached := fs.disk, fs.reached;
    assert cands[i] in cands;
    if ok {
      EntryIsThere(Bare(cur, left), snaps[i], snaps[i + 1], l, cands, replaced[i], cands[i]);
      BareNames(cur, left);
      AdvancedPath(snaps[i], snaps[i + 1], replaced[i], cands[i]);
    }
    assert replaced[i].installPath in l.paths by {
      AdvancedPath(snaps[i], snaps[i + 1], replaced[i], cands[i]);
    }
    var done := UndoEntry(fs, replaced[i]);
    UndoneNames(cur, fs.disk, l, replaced[i], done);
    if ok && done {
      UndoneBare(cur, fs.disk, replaced[i], left);
      UndoneIsExact(Bare(cur, left), snaps[i], snaps[i + 1], Bare(fs.disk, left), l, cands, replaced[i], cands[i]);
    }
    RestoringStep(d, cur, fs.disk, before, reached, l, cands, replaced, left, marked, i, done);
    still := ok && done;
  }

  /** The restore closure: renames the backups back in reverse order, and goes on after a
      failed step. */
  method Restore(fs: Fs, l: Layout, cands: seq<Candidate>, replaced: seq<Replaced>,
                 ghost d: Disk, ghost snaps: seq<Disk>, ghost left: Option<Stuck>,
                 ghost marked: bool) returns (ok: bool)
    requires fs.Valid() && Apart(l) && StagedSet(d, l, cands) && Trail(snaps, replaced, cands)
    requires left.Some? ==> left.value.backup !in l.paths
    requires SameAs(Bare(fs.disk, left), snaps[|replaced|], l, cands)
    requires Calm(d, l, cands) ==>
               Rolling(d, fs.disk, l, cands, replaced, left) && (l.marker in fs.disk.names <==> marked)
    modifies fs
    ensures fs.Valid()
    ensures ok ==> SameAs(Bare(fs.disk, left), snaps[0], l, cands)
    ensures ReliableUndo(fs, l) ==> ok
    ensures NoNewCandidates(old(fs.disk), fs.disk, l)
    ensures Restoring(d, fs.disk, old(fs.reached), fs.reached, l, cands, replaced, left, marked)
  {
    hide IsAnyCandidate, SameAs, Advanced, Apart, StagedSet, Rolling, Calm, Bare;
    ghost var start, before := fs.disk, fs.reached;
    ok := true;
    for i := |replaced| downto 0
      invariant fs.Valid()
      invariant ok ==> SameAs(Bare(fs.disk, left), snaps[i], l, cands)
      invariant ReliableUndo(fs, l) ==> ok
      invariant NoNewCandidates(start, fs.disk, l)
      invariant Restoring(d, fs.disk, before, fs.reached, l, cands, replaced, left, marked)
    {
      ok := UndoOne(fs, l, cands, replaced, i, ok, d, snaps, before, left, marked);
    }
  }

  // ---------- One replacement ----------

  /** A backup step that failed has left nothing, or the backup `left`. */
  ghost predicate Failed(s: Disk, e: Disk, p: Path, left: Option<Stuck>) {
    match left
    case None => e.names == s.names && (e == s || exists b :: InFlight(s, e, p, b))
    case Some(x) => InFlight(s, e, p, x.backup) && View(e, x.backup) == Some(x.node)
  }

  lemma FailedLeaves(s: Disk, e: Disk, p: Path) returns (left: Option<Stuck>)
    requires e == s || exists b :: InFlight(s, e, p, b)
    ensures Failed(s, e, p, left) && (left.Some? <==> e.names != s.names)
  {
    left := None;
    if e.names != s.names {
      var b :| InFlight(s, e, p, b);
      left := Some(Stuck(b, e.nodes[e.names[b]]));
    }
  }

  lemma OnlyTheReserved(s: Disk, e: Disk, p: Path, left: Option<Stuck>, b: Path)
    requires Failed(s, e, p, left) && b !in s.names && e == Created(s, b, File([]))
    ensures left == Some(Stuck(b, File([])))
  {
    assert b in e.names;
  }

  /** Backs up one entry and renames its candidate over it; takes the backup away again when
      the rename fails. */
  method ReplaceOne(fs: Fs, l: Layout, c: Candidate)
    returns (ok: bool, backup: Option<Path>, ghost t: Disk, ghost reserved: bool, ghost left: Option<Stuck>)
    requires fs.Valid() && Apart(l) && c.installPath in l.paths
    modifies fs
    ensures fs.Valid()
    ensures ReplacementStates(old(fs.disk), old(fs.reached), fs.reached, c.installPath, reserved, ok, fs.disk)
    ensures ok ==>
              && BackedUp(old(fs.disk), t, c.installPath, backup)
              && c.path in t.names && fs.disk == Renamed(t, c.path, c.installPath)
              && (backup.Some? <==> reserved)
    ensures !ok ==> Failed(old(fs.disk), fs.disk, c.installPath, left)
    ensures !ok && left.Some? ==> reserved && !ReliableRemoval(fs, l)
    ensures reserved ==> c.installPath in old(fs.disk).names
    ensures ok && !reserved ==> c.installPath !in old(fs.disk).names
    ensures reserved && NoRemoval(fs, c.installPath) ==> !ok && left.Some? && left.value.node == File([])
    ensures Replaceable(fs, c) && !HasBackup(old(fs.disk), c.installPath) && c.path in old(fs.disk).names ==> ok
    ensures Reservable(fs, c.installPath) && !HasBackup(old(fs.disk), c.installPath) ==>
              c.installPath in old(fs.disk).names ==> reserved
  {
    hide Reservable, InFlight, IsBackup, IsCandidate, Apart, Failed, NoRemoval, ReliableRemoval;
    ghost var d, before := fs.disk, fs.reached;
    left := None;
    ok, backup, reserved := BackupInstalled(fs, l, c.installPath);
    t := fs.disk;
    if !ok {
      left := FailedLeaves(d, t, c.installPath);
      if reserved && NoRemoval(fs, c.installPath) {
        ghost var b :| IsBackup(c.installPath, b) && b !in d.names && t == Created(d, b, File([]));
        OnlyTheReserved(d, t, c.installPath, left, b);
      }
      return;
    }
    ok := fs.Rename(c.path, c.installPath);
    if !ok {
      if backup.Some? {
        InFlightIsBackup(d, t, c.installPath, backup.value);
        UnlinkedInFlight(d, t, c.installPath, backup.value);
        var gone := fs.Unlink(backup.value);
        RemovalMade(fs, l, c.installPath, backup.value);
      }
      left := FailedLeaves(d, fs.disk, c.installPath);
    }
  }

  lemma RemovalMade(fs: Fs, l: Layout, p: Path, b: Path)
    requires p in l.paths && IsBackup(p, b)
    ensures ReliableRemoval(fs, l) ==> forall t :: !fs.fails(Op.Unlink, b, t)
  {
  }

  lemma InFlightIsBackup(d: Disk, s: Disk, p: Path, b: Path)
    requires InFlight(d, s, p, b)
    ensures IsBackup(p, b)
  {
  }

  // ---------- All replacements ----------

  ghost predicate BackupsNamed(l: Layout, replaced: seq<Replaced>) {
    forall e :: e in replaced && e.backup.Some? ==> e.installPath in l.paths && IsBackup(e.installPath, e.backup.value)
  }

  /** What a rollback needs to know between two replacements. */
  ghost predicate Trailed(d: Disk, e: Disk, l: Layout, cands: seq<Candidate>, replaced: seq<Replaced>,
                          snaps: seq<Disk>) {
    && Trail(snaps, replaced, cands) && snaps[0] == d && snaps[|replaced|] == e
    && BackupsNamed(l, replaced) && l.marker !in e.names
    && (forall j :: |replaced| <= j < |cands| ==> Unshared(e, cands[j].path))
  }

  /** Each entry so far was backed up, and its backup is there, or nothing was installed before. */
  ghost predicate Accounted(d: Disk, e: Disk, replaced: seq<Replaced>, reserved: set<Path>, added: set<Path>) {
    forall r :: r in replaced ==>
      match r.backup
      case None => r.installPath in added && r.installPath !in d.names
      case Some(b) => r.installPath in reserved && r.installPath in d.names && b in e.names
  }

  /** Names were reserved, and entries added, for candidates only. */
  ghost predicate Sourced(d: Disk, cands: seq<Candidate>, reserved: set<Path>, added: set<Path>) {
    && (forall p :: p in reserved ==> IsInstallPath(cands, p))
    && (forall p :: p in added ==> IsInstallPath(cands, p) && p !in d.names)
  }

  lemma SourcedStep(d: Disk, cands: seq<Candidate>, c: Candidate, reserved: set<Path>, added: set<Path>, took: bool,
                    adds: bool)
    requires Sourced(d, cands, reserved, added) && c in cands && (adds ==> c.installPath !in d.names)
    ensures Sourced(d, cands, if took then reserved + {c.installPath} else reserved, if adds then added + {c.installPath} else added)
  {
    assert IsInstallPath(cands, c.installPath);
  }

  /** What a kill between two replacements leaves, and has left before. */
  ghost predicate Promising(d: Disk, e: Disk, before: set<Disk>, reached: set<Disk>, l: Layout, cands: seq<Candidate>,
                            replaced: seq<Replaced>, reserved: set<Path>, added: set<Path>) {
    && Staged(d, e, l, cands, replaced) && Forward(d, e, cands, |replaced|)
    && Accounted(d, e, replaced, reserved, added) && Sourced(d, cands, reserved, added)
    && AllBefore(d, before, reached, l, cands)
    && (AllExact(d, before, l) ==> Judged(d, reached, l, reserved, added))
  }

  lemma TrailedStep(d: Disk, s: Disk, l: Layout, cands: seq<Candidate>, replaced: seq<Replaced>, snaps: seq<Disk>,
                    t: Disk, e: Disk, backup: Option<Path>)
    requires Apart(l) && StagedSet(d, l, cands) && WellFormed(s)
    requires Trailed(d, s, l, cands, replaced, snaps) && |replaced| < |cands|
    requires BackedUp(s, t, cands[|replaced|].installPath, backup)
    requires cands[|replaced|].path in t.names && e == Renamed(t, cands[|replaced|].path, cands[|replaced|].installPath)
    ensures Trailed(d, e, l, cands, replaced + [Replaced(cands[|replaced|].installPath, backup)], snaps + [e])
  {
    hide Advanced, InFlight, IsCandidate;
    var k := |replaced|;
    var c := cands[k];
    assert c in cands && Unshared(s, c.path);
    BackupOf(s, t, c.installPath, backup);
    CandidateElsewhere(l, c, c.installPath, backup);
    BackupNoPath(l, c.installPath, c.installPath, backup);
    AdvancedStep(s, t, c, backup);
    RestStagedStep(d, s, t, l, cands, k, backup);
    MarkerFree(s, t, l, c, backup);
  }

  lemma MarkerFree(s: Disk, t: Disk, l: Layout, c: Candidate, backup: Option<Path>)
    requires Apart(l) && BackedUp(s, t, c.installPath, backup) && c.installPath in l.paths
    requires IsCandidate(c.installPath, c.path)
    requires l.marker !in s.names && c.path in t.names
    ensures l.marker !in Renamed(t, c.path, c.installPath).names
  {
  }

  lemma AccountedStep(d: Disk, s: Disk, e: Disk, l: Layout, cands: seq<Candidate>, replaced: seq<Replaced>,
                      backup: Option<Path>,
                      reserved: set<Path>, added: set<Path>)
    requires Calm(d, l, cands) && Staged(d, s, l, cands, replaced) && |replaced| < |cands|
    requires Accounted(d, s, replaced, reserved, added) && OnlyEntry(s, e, cands[|replaced|], backup)
    requires match backup
             case None => cands[|replaced|].installPath !in s.names
             case Some(b) => IsBackup(cands[|replaced|].installPath, b) && b in e.names && cands[|replaced|].installPath in s.names
    ensures Accounted(d, e, replaced + [Replaced(cands[|replaced|].installPath, backup)],
                      if backup.Some? then reserved + {cands[|replaced|].installPath} else reserved,
                      if backup.None? then added + {cands[|replaced|].installPath} else added)
  {
    hide Rooted, NoLinkToTemporary, RestStaged, OthersAsBefore, BackupsListed, Apart, StagedSet, Distinct;
    var k := |replaced|;
    NextUntouched(d, s, l, cands, replaced);
    StagedIsWellFormed(d, s, l, cands, replaced);
    CalmIsDistinct(d, l, cands);
    forall r | r in replaced && r.backup.Some?
      ensures r.backup.value in e.names
    {
      var j := EntryIndex(d, s, cands, replaced, r);
      Elsewhere(d, s, l, cands, r, j, k);
      assert Unaffected(s, e, r.backup.value);
    }
  }

  lemma PromisingStep(d: Disk, s: Disk, before: set<Disk>, mid: set<Disk>, reached: set<Disk>, l: Layout,
                      cands: seq<Candidate>, replaced: seq<Replaced>, t: Disk, e: Disk, backup: Option<Path>,
                      reserved: set<Path>, added: set<Path>)
    requires Calm(d, l, cands) && l.marker !in s.names && l.marker !in e.names && |replaced| < |cands|
    requires Promising(d, s, before, mid, l, cands, replaced, reserved, added)
    requires BackedUp(s, t, cands[|replaced|].installPath, backup)
    requires cands[|replaced|].path in t.names && e == Renamed(t, cands[|replaced|].path, cands[|replaced|].installPath)
    requires ReplacementStates(s, mid, reached, cands[|replaced|].installPath, backup.Some?, true, e)
    ensures Promising(d, e, before, reached, l, cands, replaced + [Replaced(cands[|replaced|].installPath, backup)],
                      if backup.Some? then reserved + {cands[|replaced|].installPath} else reserved,
                      if backup.None? then added + {cands[|replaced|].installPath} else added)
  {
    hide Staged, Calm, Forward, OnlyEntry, ReplacementStates, AllBefore, AllExact, Harmless, BackedUp, InFlight;
    var c := cands[|replaced|];
    ReplaceStep(d, s, t, l, cands, replaced, backup);
    NextIsFree(d, s, l, cands, replaced);
    ReplacedLook(d, s, t, l, cands, replaced, backup);
    SourcedStep(d, cands, c, reserved, added, backup.Some?, backup.None?);
    AccountedStep(d, s, e, l, cands, replaced, backup, reserved, added);
    AccountedBacked(d, s, replaced, reserved, added);
    if AllExact(d, before, l) {
      ReplacementJudged(d, s, before, mid, reached, l, cands, replaced, reserved, added, backup.Some?, true, e, backup);
    } else {
      ReplacementBefore(d, s, before, mid, reached, l, cands, replaced, backup.Some?, true, e, backup);
    }
  }

  lemma AccountedBacked(d: Disk, s: Disk, replaced: seq<Replaced>, reserved: set<Path>, added: set<Path>)
    requires Accounted(d, s, replaced, reserved, added)
    ensures added == {} ==> AllBacked(replaced)
  {
  }

  lemma NextIsFree(d: Disk, s: Disk, l: Layout, cands: seq<Candidate>, replaced: seq<Replaced>)
    requires Calm(d, l, cands) && Staged(d, s, l, cands, replaced) && |replaced| < |cands|
    ensures cands[|replaced|].installPath in s.names <==> cands[|replaced|].installPath in d.names
  {
    hide NoLinkToTemporary, StagedSet, Distinct, NoLeftovers, Apart;
    NextUntouched(d, s, l, cands, replaced);
    StagedIsWellFormed(d, s, l, cands, replaced);
  }

  lemma ReplacedLook(d: Disk, s: Disk, t: Disk, l: Layout, cands: seq<Candidate>, replaced: seq<Replaced>,
                     backup: Option<Path>)
    requires Calm(d, l, cands) && Staged(d, s, l, cands, replaced) && |replaced| < |cands|
    requires BackedUp(s, t, cands[|replaced|].installPath, backup) && cands[|replaced|].path in t.names
    ensures var c := cands[|replaced|];
            var e := Renamed(t, c.path, c.installPath);
            && OnlyEntry(s, e, c, backup) && View(e, c.installPath).Some?
            && match backup
               case None => c.installPath !in s.names
               case Some(b) => IsBackup(c.installPath, b) && b in e.names && c.installPath in s.names
  {
    hide Rooted, NoLinkToTemporary, EntriesSafe, OthersAsBefore, BackupsListed, Apart, InFlight, OnlyEntry,
         IsCandidate, IsBackup;
    var c := cands[|replaced|];
    assert c in cands && Unshared(s, c.path);
    RenamedEntry(d, s, t, l, c, backup);
    BackupOf(s, t, c.installPath, backup);
  }

  lemma ReplacementBefore(d: Disk, s: Disk, before: set<Disk>, mid: set<Disk>, reached: set<Disk>, l: Layout,
                          cands: seq<Candidate>, replaced: seq<Replaced>, took: bool, done: bool, e: Disk,
                          backup: Option<Path>)
    requires Calm(d, l, cands) && Staged(d, s, l, cands, replaced) && |replaced| < |cands| && l.marker !in s.names
    requires ReplacementStates(s, mid, reached, cands[|replaced|].installPath, took, done, e)
    requires done ==>
               && Staged(d, e, l, cands, replaced + [Replaced(cands[|replaced|].installPath, backup)])
               && l.marker !in e.names
    requires AllBefore(d, before, mid, l, cands)
    ensures AllBefore(d, before, reached, l, cands)
  {
    hide Calm, Staged, BeforeCommit, ExactOld, ReplacementStates;
    forall x | x in reached && x !in mid
      ensures BeforeCommit(d, x, l, cands)
    {
      ReplacementPromises(d, s, mid, reached, l, cands, replaced, took, done, e, backup, x);
    }
  }

  /** A replacement that failed has left the names as they were, or one backup more. */
  lemma ReplacementFailed(d: Disk, s: Disk, e: Disk, l: Layout, cands: seq<Candidate>, replaced: seq<Replaced>,
                          left: Option<Stuck>)
    requires WellFormed(s) && WellFormed(e) && |replaced| < |cands|
    requires Failed(s, e, cands[|replaced|].installPath, left) && (left.Some? ==> e.names != s.names)
    ensures SameAs(Bare(e, left), s, l, cands) && (left.Some? ==> IsBackup(cands[|replaced|].installPath, left.value.backup))
    ensures Calm(d, l, cands) && Staged(d, s, l, cands, replaced) ==>
              Rolling(d, e, l, cands, replaced, left) && (l.marker in e.names <==> l.marker in s.names)
  {
    hide Staged, Leftover, Calm;
    if Calm(d, l, cands) && Staged(d, s, l, cands, replaced) && e != s {
      var b :| InFlight(s, e, cands[|replaced|].installPath, b) && (left.Some? ==> b == left.value.backup);
      InFlightLeaves(d, s, e, l, cands, replaced, b);
    }
  }

  /** The loop over the candidates has failed there and is rolled back. */
  ghost predicate OldSetKept(d: Disk, e: Disk, before: set<Disk>, reached: set<Disk>, l: Layout, cands: seq<Candidate>,
                             reserved: set<Path>, added: set<Path>, stuck: Option<(Path, Node)>) {
    && RolledTo(d, e, l, cands, reserved, stuck)
    && AllBefore(d, before, reached, l, cands) && Sourced(d, cands, reserved, added)
    && (AllExact(d, before, l) ==> Judged(d, reached, l, reserved, added))
  }

  /** Recovery restores the old set; or one path has a backup left that shows the node `stuck.1`, and recovery
      installs that there. */
  ghost predicate RolledTo(d: Disk, e: Disk, l: Layout, cands: seq<Candidate>, reserved: set<Path>,
                           stuck: Option<(Path, Node)>) {
    && BeforeCommit(d, e, l, cands)
    && match stuck
       case None => KeepsOld(d, e, l, cands)
       case Some(x) => x.0 in reserved && l.marker !in e.names && Outcome(e, l, x.0) == Some(x.1)
  }

  ghost function StuckAt(cands: seq<Candidate>, replaced: seq<Replaced>, left: Option<Stuck>): Option<(Path, Node)>
    requires left.Some? ==> |replaced| < |cands|
  {
    if left.None? then None else Some((cands[|replaced|].installPath, left.value.node))
  }

  lemma RolledBack(d: Disk, e: Disk, before: set<Disk>, mid: set<Disk>, reached: set<Disk>, l: Layout,
                   cands: seq<Candidate>, replaced: seq<Replaced>, left: Option<Stuck>, reserved: set<Path>,
                   added: set<Path>)
    requires Calm(d, l, cands) && AllBefore(d, before, mid, l, cands)
    requires AllExact(d, before, l) ==> Judged(d, mid, l, reserved, added)
    requires (added == {} ==> AllBacked(replaced)) && Sourced(d, cands, reserved, added)
    requires left.Some? ==> |replaced| < |cands| && cands[|replaced|].installPath in reserved
    requires Restoring(d, e, mid, reached, l, cands, replaced, left, false)
    ensures OldSetKept(d, e, before, reached, l, cands, reserved, added, StuckAt(cands, replaced, left))
  {
    hide Calm, Rolling, KeepsOld, BeforeCommit, AllExact, Harmless, AllStaged, AllBefore, Outcome;
    RollingPromises(d, e, l, cands, replaced, left);
    if AllExact(d, before, l) {
      RollbackJudged(d, before, mid, reached, l, cands, replaced, left, reserved, added);
    } else {
      RollbackBefore(d, before, mid, reached, l, cands, replaced, left);
    }
  }

  lemma RollbackBefore(d: Disk, before: set<Disk>, mid: set<Disk>, reached: set<Disk>, l: Layout, cands: seq<Candidate>,
                       replaced: seq<Replaced>, left: Option<Stuck>)
    requires Calm(d, l, cands) && AllStaged(d, mid, reached, l, cands, replaced, left, false)
    requires AllBefore(d, before, mid, l, cands)
    ensures AllBefore(d, before, reached, l, cands)
  {
    hide Calm, Rolling, BeforeCommit, ExactOld;
    forall x | x in reached && x !in mid
      ensures BeforeCommit(d, x, l, cands)
    {
      RollingPromises(d, x, l, cands, replaced, left);
    }
  }

  /** Every name is as it was, but for the one backup that could not be removed. */
  ghost predicate SameBeside(e: Disk, d: Disk, l: Layout, cands: seq<Candidate>, stuck: Option<(Path, Node)>) {
    match stuck
    case None => SameAs(e, d, l, cands)
    case Some(x) => exists b :: IsBackup(x.0, b) && SameAs(Unlinked(e, b), d, l, cands)
  }

  /** What one pass of the loop over the candidates leaves when it succeeds, and when it fails and is
      rolled back. */
  method ReplaceNext(fs: Fs, l: Layout, cands: seq<Candidate>, replaced: seq<Replaced>, ghost d: Disk,
                     ghost snaps: seq<Disk>, ghost before: set<Disk>, ghost reserved: set<Path>, ghost added: set<Path>)
    returns (ok: bool, restored: bool, backup: Option<Path>, ghost nowReserved: set<Path>, ghost nowAdded: set<Path>,
             ghost stuck: Option<(Path, Node)>)
    requires fs.Valid() && Apart(l) && StagedSet(d, l, cands) && |replaced| < |cands|
    requires Trailed(d, fs.disk, l, cands, replaced, snaps)
    requires Calm(d, l, cands) ==> Promising(d, fs.disk, before, fs.reached, l, cands, replaced, reserved, added)
    modifies fs
    ensures fs.Valid() && old(fs.reached) <= fs.reached
    ensures ok ==>
              Trailed(d, fs.disk, l, cands, replaced + [Replaced(cands[|replaced|].installPath, backup)], snaps + [fs.disk])
    ensures ok && Calm(d, l, cands) ==>
              Promising(d, fs.disk, before, fs.reached, l, cands,
                        replaced + [Replaced(cands[|replaced|].installPath, backup)], nowReserved, nowAdded)
    ensures !ok && restored ==> SameBeside(fs.disk, d, l, cands, stuck)
    ensures !ok && ReliableUndo(fs, l) ==> restored
    ensures !ok && Calm(d, l, cands) ==>
              OldSetKept(d, fs.disk, before, fs.reached, l, cands, nowReserved, nowAdded, stuck)
    ensures ok || stuck.None? || !ReliableRemoval(fs, l)
    ensures nowReserved == reserved || nowReserved == reserved + {cands[|replaced|].installPath}
    ensures NoRemoval(fs, cands[|replaced|].installPath) && nowReserved != reserved ==>
              !ok && stuck == Some((cands[|replaced|].installPath, File([])))
    ensures NoNewCandidates(old(fs.disk), fs.disk, l)
    ensures Calm(d, l, cands) && Replaceable(fs, cands[|replaced|]) ==> ok
    ensures Calm(d, l, cands) && Reserves(fs, d, cands[|replaced|]) ==> cands[|replaced|].installPath in nowReserved
  {
    hide IsAnyCandidate, Replaceable, Reservable, SameBeside, ReliableUndo, InFlight, Advanced, Staged, SameAs,
         IsCandidate, Unshared, Forward, AllBefore, Judged, AllExact, Distinct,
         BackedUp, ReplacementStates, Calm, BackupsNamed, Apart, Accounted, Trail, Failed, Rolling, NoRemoval,
         ReliableRemoval;
    ghost var s, mid := fs.disk, fs.reached;
    var c := cands[|replaced|];
    assert c in cands;
    if Calm(d, l, cands) {
      NextIsReady(d, s, before, mid, l, cands, replaced, snaps, reserved, added);
    }
    ghost var t, took, left;
    ok, backup, t, took, left := ReplaceOne(fs, l, c);
    ReachedGrows(s, mid, fs.reached, c.installPath, took, ok, fs.disk);
    nowReserved := if took then reserved + {c.installPath} else reserved;
    nowAdded := if ok && backup.None? then added + {c.installPath} else added;
    stuck := None;
    if ok {
      restored := false;
      ReplacedNames(s, t, l, c, backup);
      TrailedStep(d, s, l, cands, replaced, snaps, t, fs.disk, backup);
      if Calm(d, l, cands) {
        PromisingStep(d, s, before, mid, fs.reached, l, cands, replaced, t, fs.disk, backup, reserved, added);
      }
    } else {
      stuck := StuckAt(cands, replaced, left);
      FailedAddsNone(s, fs.disk, l, c.installPath, left);
      FailedNames(s, fs.disk, c.installPath, left);
      ReplacementFailed(d, s, fs.disk, l, cands, replaced, left);
      NoInstallPath(l, c.installPath, left);
      if Calm(d, l, cands) {
        FailedJudged(d, s, before, mid, fs.reached, l, cands, replaced, reserved, added, took, fs.disk);
      }
      ghost var last := fs.reached;
      TrailSnap(d, s, l, cands, replaced, snaps);
      restored := Restore(fs, l, cands, replaced, d, snaps, left, false);
      BareIsBeside(d, fs.disk, l, cands, replaced, left);
      if Calm(d, l, cands) {
        RolledBack(d, fs.disk, before, last, fs.reached, l, cands, replaced, left, nowReserved, nowAdded);
      }
    }
  }

  lemma ReplacedNames(s: Disk, t: Disk, l: Layout, c: Candidate, backup: Option<Path>)
    requires Apart(l) && c.installPath in l.paths && c.path in t.names && BackedUp(s, t, c.installPath, backup)
    ensures NoNewCandidates(s, Renamed(t, c.path, c.installPath), l)
  {
    hide Grows, WellFormed, Partial;
    forall q | IsAnyCandidate(l, q) && q in t.names
      ensures q in s.names
    {
      assert backup.Some? ==> q != backup.value;
    }
    assert !IsAnyCandidate(l, c.installPath);
  }

  lemma FailedAddsNone(s: Disk, e: Disk, l: Layout, p: Path, left: Option<Stuck>)
    requires Apart(l) && p in l.paths && Failed(s, e, p, left)
    ensures NoNewCandidates(s, e, l)
  {
    hide Grows, WellFormed, Partial;
  }

  lemma NoInstallPath(l: Layout, p: Path, left: Option<Stuck>)
    requires Apart(l) && p in l.paths && (left.Some? ==> IsBackup(p, left.value.backup))
    ensures left.Some? ==> left.value.backup !in l.paths
  {
  }

  lemma BareIsBeside(d: Disk, e: Disk, l: Layout, cands: seq<Candidate>, replaced: seq<Replaced>, left: Option<Stuck>)
    requires left.Some? ==> |replaced| < |cands| && IsBackup(cands[|replaced|].installPath, left.value.backup)
    ensures SameAs(Bare(e, left), d, l, cands) ==> SameBeside(e, d, l, cands, StuckAt(cands, replaced, left))
  {
    hide SameAs;
  }

  /** The next candidate is there, and its backup name is still free. */
  lemma NextIsReady(d: Disk, s: Disk, before: set<Disk>, reached: set<Disk>, l: Layout, cands: seq<Candidate>,
                    replaced: seq<Replaced>, snaps: seq<Disk>, reserved: set<Path>, added: set<Path>)
    requires Calm(d, l, cands) && Promising(d, s, before, reached, l, cands, replaced, reserved, added)
    requires Trailed(d, s, l, cands, replaced, snaps) && |replaced| < |cands|
    ensures !HasBackup(s, cands[|replaced|].installPath) && cands[|replaced|].path in s.names
    ensures cands[|replaced|].installPath in s.names <==> cands[|replaced|].installPath in d.names
  {
    hide Calm, Staged, Forward, Accounted, AllBefore, AllExact, Judged, Trail, BackupsNamed, HasBackup;
    NextUntouched(d, s, l, cands, replaced);
    NextIsFree(d, s, l, cands, replaced);
    assert Unshared(s, cands[|replaced|].path);
  }

  lemma FailedNames(s: Disk, e: Disk, p: Path, left: Option<Stuck>)
    requires Failed(s, e, p, left)
    ensures left.Some? ==> e.names != s.names
  {
    if left.Some? {
      assert left.value.backup in e.names && left.value.backup !in s.names;
    }
  }

  lemma ReachedGrows(s: Disk, mid: set<Disk>, reached: set<Disk>, p: Path, took: bool, done: bool, e: Disk)
    requires ReplacementStates(s, mid, reached, p, took, done, e)
    ensures mid <= reached
  {
  }

  lemma TrailSnap(d: Disk, s: Disk, l: Layout, cands: seq<Candidate>, replaced: seq<Replaced>, snaps: seq<Disk>)
    requires Trailed(d, s, l, cands, replaced, snaps)
    ensures |snaps| == |replaced| + 1 && snaps[0] == d && snaps[|replaced|] == s && Trail(snaps, replaced, cands)
  {
  }

  lemma FailedJudged(d: Disk, s: Disk, before: set<Disk>, mid: set<Disk>, reached: set<Disk>, l: Layout,
                     cands: seq<Candidate>, replaced: seq<Replaced>, reserved: set<Path>, added: set<Path>, took: bool,
                     e: Disk)
    requires Calm(d, l, cands) && l.marker !in s.names && |replaced| < |cands|
    requires Promising(d, s, before, mid, l, cands, replaced, reserved, added)
    requires ReplacementStates(s, mid, reached, cands[|replaced|].installPath, took, false, e)
    ensures AllBefore(d, before, reached, l, cands) && (added == {} ==> AllBacked(replaced))
    ensures AllExact(d, before, l) ==>
              Judged(d, reached, l, if took then reserved + {cands[|replaced|].installPath} else reserved, added)
    ensures Sourced(d, cands, if took then reserved + {cands[|replaced|].installPath} else reserved, added)
  {
    hide Calm, Staged, AllBefore, AllExact, Harmless, ReplacementStates;
    SourcedStep(d, cands, cands[|replaced|], reserved, added, took, false);
    AccountedBacked(d, s, replaced, reserved, added);
    if AllExact(d, before, l) {
      ReplacementJudged(d, s, before, mid, reached, l, cands, replaced, reserved, added, took, false, e, None);
    } else {
      ReplacementBefore(d, s, before, mid, reached, l, cands, replaced, took, false, e, None);
    }
  }

  /** The backup name of an entry that was there is reserved when its turn comes. */
  ghost predicate Reserves(fs: Fs, d: Disk, c: Candidate) {
    c.installPath in d.names && Reservable(fs, c.installPath)
  }

  /** Each of the first `n` candidates whose turn comes, and whose backup name can be reserved, has it reserved. */
  ghost predicate AllReserve(fs: Fs, d: Disk, cands: seq<Candidate>, reserved: set<Path>, n: nat)
    requires n <= |cands|
  {
    forall k :: 0 <= k < n && (forall j :: 0 <= j < k ==> Replaceable(fs, cands[j])) && Reserves(fs, d, cands[k]) ==>
      cands[k].installPath in reserved
  }

  lemma NoneReserve(fs: Fs, d: Disk, cands: seq<Candidate>)
    ensures AllReserve(fs, d, cands, {}, 0)
  {
  }

  lemma ReserveStep(fs: Fs, d: Disk, cands: seq<Candidate>, were: set<Path>, reserved: set<Path>, k: nat, ok: bool)
    requires k < |cands| && AllReserve(fs, d, cands, were, k) && were <= reserved
    requires Reserves(fs, d, cands[k]) ==> cands[k].installPath in reserved
    requires Replaceable(fs, cands[k]) ==> ok
    ensures AllReserve(fs, d, cands, reserved, if ok then k + 1 else |cands|)
  {
    hide Replaceable, Reserves;
  }

  /** The loop of installCandidates: replaces every entry, or none if its rollback succeeds. */
  method ReplaceAll(fs: Fs, l: Layout, cands: seq<Candidate>)
    returns (ok: bool, restored: bool, replaced: seq<Replaced>, ghost snaps: seq<Disk>, ghost reserved: set<Path>,
             ghost added: set<Path>, ghost stuck: Option<(Path, Node)>)
    requires fs.Valid() && Apart(l)
    requires StagedSet(fs.disk, l, cands) && l.marker !in fs.disk.names
    modifies fs
    ensures fs.Valid() && old(fs.reached) <= fs.reached
    ensures ok ==> |replaced| == |cands| && Trailed(old(fs.disk), fs.disk, l, cands, replaced, snaps)
    ensures ok && Calm(old(fs.disk), l, cands) ==>
              Promising(old(fs.disk), fs.disk, old(fs.reached), fs.reached, l, cands, replaced, reserved, added)
    ensures !ok && restored ==> SameBeside(fs.disk, old(fs.disk), l, cands, stuck)
    ensures !ok && ReliableUndo(fs, l) ==> restored
    ensures !ok && Calm(old(fs.disk), l, cands) ==>
              OldSetKept(old(fs.disk), fs.disk, old(fs.reached), fs.reached, l, cands, reserved, added, stuck)
    ensures cands == [] ==> ok && fs.disk == old(fs.disk)
    ensures NoNewCandidates(old(fs.disk), fs.disk, l)
    ensures ok || ReliableRemoval(fs, l) ==> stuck.None?
    ensures forall p :: p in reserved && NoRemoval(fs, p) ==> !ok && stuck == Some((p, File([])))
    ensures Calm(old(fs.disk), l, cands) && (forall c :: c in cands ==> Replaceable(fs, c)) ==> ok
    ensures Calm(old(fs.disk), l, cands) ==> AllReserve(fs, old(fs.disk), cands, reserved, |cands|)
  {
    hide IsAnyCandidate, Replaceable, Reserves, AllReserve, SameBeside, ReliableUndo, Advanced, Staged, SameAs,
         Unshared, AllBefore, Judged, AllExact, Calm, Apart, OldSetKept, StagedSet, Promising,
         NoRemoval, ReliableRemoval;
    ghost var d, before := fs.disk, fs.reached;
    replaced, snaps, reserved, added := [], [d], {}, {};
    restored, stuck := false, None;
    if Calm(d, l, cands) {
      PromisingStart(d, before, l, cands);
    }
    TrailedStart(d, l, cands);
    NoneReserve(fs, d, cands);
    hide Trailed;
    for k := 0 to |cands|
      invariant fs.Valid() && before <= fs.reached && |replaced| == k
      invariant cands == [] ==> fs.disk == d
      invariant NoNewCandidates(d, fs.disk, l)
      invariant Trailed(d, fs.disk, l, cands, replaced, snaps)
      invariant stuck.None? && forall p :: p in reserved ==> !NoRemoval(fs, p)
      invariant Calm(d, l, cands) ==> Promising(d, fs.disk, before, fs.reached, l, cands, replaced, reserved, added)
      invariant Calm(d, l, cands) ==> AllReserve(fs, d, cands, reserved, k)
    {
      var backup;
      ghost var were := reserved;
      ok, restored, backup, reserved, added, stuck :=
        ReplaceNext(fs, l, cands, replaced, d, snaps, before, reserved, added);
      if Calm(d, l, cands) {
        ReserveStep(fs, d, cands, were, reserved, k, ok);
      }
      if !ok {
        return;
      }
      stuck := None;
      replaced, snaps := replaced + [Replaced(cands[k].installPath, backup)], snaps + [fs.disk];
    }
    ok := true;
  }

  lemma TrailedStart(d: Disk, l: Layout, cands: seq<Candidate>)
    requires StagedSet(d, l, cands) && l.marker !in d.names
    ensures Trailed(d, d, l, cands, [], [d])
  {
    hide IsCandidate, Advanced;
    forall j | 0 <= j < |cands|
      ensures Unshared(d, cands[j].path)
    {
      assert cands[j] in cands;
    }
  }

  lemma PromisingStart(d: Disk, before: set<Disk>, l: Layout, cands: seq<Candidate>)
    requires Calm(d, l, cands)
    ensures Promising(d, d, before, before, l, cands, [], {}, {})
  {
    hide Calm, Staged, ExactOld;
    StagedStart(d, l, cands);
  }

  // ---------- The commit ----------

  const INSTALLED: seq<byte> := [105, 110, 115, 116, 97, 108, 108, 101, 100, 10]

  /** os.WriteFile: opens with create and truncate, then writes.  A write that fails leaves the file. */
  method WriteMarker(fs: Fs, l: Layout) returns (ok: bool, ghost created: bool)
    requires fs.Valid() && l.marker !in fs.disk.names
    modifies fs
    ensures fs.Valid() && old(fs.reached) <= fs.reached
    ensures ok ==> created
    ensures !created ==> fs.disk == old(fs.disk) && forall s :: s in fs.reached && s !in old(fs.reached) ==>
              s == old(fs.disk)
    ensures created ==>
              && MarkerOnly(old(fs.disk), fs.disk, l) && l.marker in fs.disk.names && Grows(old(fs.disk), fs.disk)
              && (forall s :: s in fs.reached && s !in old(fs.reached) ==>
                    MarkerOnly(old(fs.disk), s, l) && l.marker in s.names)
    ensures created && !ok ==> exists t :: fs.fails(Write, l.marker, t)
    ensures ok ==> exists t :: !fs.fails(Write, l.marker, t)
    ensures (forall t :: !fs.fails(Create, l.marker, t)) ==> created
    ensures forall q :: q in fs.disk.names ==> q in old(fs.disk).names || q == l.marker
    ensures Obliging(fs) ==> ok
  {
    hide MarkerOnly;
    MarkerCreated(fs.disk, l, INSTALLED);
    ok := fs.CreateNew(Create, l.marker, File([]));
    created := ok;
    if ok {
      ok := fs.Overwrite(l.marker, INSTALLED);
    }
  }

  /** The environment never refuses to remove a backup of `p` behind the marker. */
  ghost predicate SureDiscard(fs: Fs, p: Path) {
    forall b, t :: IsBackup(p, b) ==> !fs.fails(Op.Discard, b, t)
  }

  ghost predicate ReliableDiscard(fs: Fs, l: Layout) {
    forall p :: p in l.paths ==> SureDiscard(fs, p)
  }

  /** The environment never lets a backup of `p` be removed behind the marker. */
  ghost predicate NoDiscard(fs: Fs, p: Path) {
    forall b, t :: IsBackup(p, b) ==> fs.fails(Op.Discard, b, t)
  }

  ghost predicate AllCommitted(d: Disk, before: set<Disk>, reached: set<Disk>, l: Layout, cands: seq<Candidate>,
                               replaced: seq<Replaced>) {
    forall s :: s in reached && s !in before ==> Committed(d, s, l, cands, replaced)
  }

  /** Removes the backups behind the marker, looking at no error. */
  method DiscardBackups(fs: Fs, l: Layout, cands: seq<Candidate>, replaced: seq<Replaced>, ghost d: Disk)
    requires fs.Valid() && Apart(l) && BackupsNamed(l, replaced)
    requires Calm(d, l, cands) ==> Committed(d, fs.disk, l, cands, replaced)
    modifies fs
    ensures fs.Valid() && old(fs.reached) <= fs.reached
    ensures Calm(d, l, cands) ==>
              Committed(d, fs.disk, l, cands, replaced) && AllCommitted(d, old(fs.reached), fs.reached, l, cands, replaced)
    ensures forall e :: e in replaced && e.backup.Some? && SureDiscard(fs, e.installPath) ==>
              e.backup.value !in fs.disk.names
    ensures forall p :: p in l.paths && NoDiscard(fs, p) && HasBackup(old(fs.disk), p) ==> HasBackup(fs.disk, p)
    ensures forall q :: q in fs.disk.names ==> q in old(fs.disk).names
  {
    hide Committed, Calm, IsBackup, IsCandidate, Apart, HasBackup;
    ghost var before, start := fs.reached, fs.disk;
    for i := 0 to |replaced|
      invariant fs.Valid() && before <= fs.reached
      invariant Calm(d, l, cands) ==>
                  Committed(d, fs.disk, l, cands, replaced) && AllCommitted(d, before, fs.reached, l, cands, replaced)
      invariant forall j :: 0 <= j < i && replaced[j].backup.Some? && SureDiscard(fs, replaced[j].installPath) ==>
                  replaced[j].backup.value !in fs.disk.names
      invariant forall b :: b in fs.disk.names ==> b in start.names
      invariant forall p, b :: NoDiscard(fs, p) && IsBackup(p, b) && b in start.names ==> b in fs.disk.names
    {
      assert replaced[i] in replaced;
      if replaced[i].backup.Some? {
        var b := replaced[i].backup.value;
        if Calm(d, l, cands) {
          DiscardIsDrop(d, fs.disk, l, cands, replaced, replaced[i].installPath, b);
        }
        fs.Discard(b);
      }
    }
    forall p | p in l.paths && NoDiscard(fs, p) && HasBackup(start, p)
      ensures HasBackup(fs.disk, p)
    {
      StillBacked(start, fs.disk, p);
    }
  }

  lemma StillBacked(s: Disk, t: Disk, p: Path)
    requires HasBackup(s, p) && forall b :: IsBackup(p, b) && b in s.names ==> b in t.names
    ensures HasBackup(t, p)
  {
    var b :| b in s.names && IsBackup(p, b);
    assert b in t.names;
  }

  lemma DiscardIsDrop(d: Disk, s: Disk, l: Layout, cands: seq<Candidate>, replaced: seq<Replaced>, p: Path, b: Path)
    requires Apart(l) && Committed(d, s, l, cands, replaced) && p in l.paths && IsBackup(p, b)
    ensures Committed(d, Unlinked(s, b), l, cands, replaced)
  {
    hide Committed;
    assert IsTemporary(l, b) && b !in l.paths && b != l.marker;
    DropBackup(d, s, l, cands, replaced, b);
  }

  lemma NothingLeft(d: Disk, s: Disk, l: Layout, cands: seq<Candidate>, replaced: seq<Replaced>, p: Path)
    requires Committed(d, s, l, cands, replaced) && p in l.paths
    requires forall b :: Replaced(p, Some(b)) in replaced ==> b !in s.names
    ensures !HasBackup(s, p)
  {
    hide Tracked, AllNew;
    forall b | IsBackup(p, b)
      ensures b !in s.names
    {
      assert b in s.names ==> Replaced(p, Some(b)) in replaced;
    }
  }

  lemma MarkerStays(d: Disk, s: Disk, l: Layout, cands: seq<Candidate>, replaced: seq<Replaced>)
    requires Committed(d, s, l, cands, replaced)
    ensures l.marker in s.names
  {
    hide Tracked, AllNew;
  }

  lemma SameBackups(s: Disk, l: Layout, p: Path)
    requires Apart(l) && p in l.paths
    ensures HasBackup(Unlinked(s, l.marker), p) == HasBackup(s, p)
  {
    if HasBackup(s, p) {
      var b :| b in s.names && IsBackup(p, b);
      assert b in Unlinked(s, l.marker).names;
    }
  }

  /** The last part of installCandidates: removes the backups, and then the marker. */
  method CleanUp(fs: Fs, l: Layout, cands: seq<Candidate>, replaced: seq<Replaced>, ghost d: Disk)
    returns (ok: bool, ghost late: set<Disk>)
    requires fs.Valid() && Apart(l) && BackupsNamed(l, replaced) && l.marker in fs.disk.names
    requires Calm(d, l, cands) ==> Committed(d, fs.disk, l, cands, replaced)
    modifies fs
    ensures fs.Valid() && old(fs.reached) <= late && fs.reached == late + {fs.disk}
    ensures Calm(d, l, cands) ==>
              && AllCommitted(d, old(fs.reached), late, l, cands, replaced)
              && (if ok then Concluded(d, fs.disk, l, cands) else Committed(d, fs.disk, l, cands, replaced))
              && (ok ==> forall p :: p in l.paths && SureDiscard(fs, p) ==> !HasBackup(fs.disk, p))
    ensures ok ==> l.marker !in fs.disk.names
    ensures ok ==> forall p :: p in l.paths && NoDiscard(fs, p) && HasBackup(old(fs.disk), p) ==> HasBackup(fs.disk, p)
    ensures Obliging(fs) && Calm(d, l, cands) ==> ok
    ensures forall q :: q in fs.disk.names ==> q in old(fs.disk).names
  {
    hide Committed, Calm, Apart, HasBackup, Concluded, SureDiscard, NoDiscard, BackupsNamed, AllCommitted;
    ghost var before := fs.reached;
    DiscardBackups(fs, l, cands, replaced, d);
    ghost var last := fs.disk;
    late := fs.reached;
    if Calm(d, l, cands) {
      MarkerStays(d, last, l, cands, replaced);
      MarkerDropped(d, last, l, cands, replaced);
      forall p | p in l.paths && SureDiscard(fs, p)
        ensures !HasBackup(last, p)
      {
        NothingLeft(d, last, l, cands, replaced, p);
      }
    }
    forall p | p in l.paths
      ensures HasBackup(Unlinked(last, l.marker), p) == HasBackup(last, p)
    {
      SameBackups(last, l, p);
    }
    ok := fs.Unlink(l.marker);
  }

  // ---------- The program ----------

  /** What an install has done: the states up to the marker and behind it, the install paths for which
      it has reserved a backup name or that were free, whether the marker was there and was written, the path
      whose backup a failed replacement has left, with what it shows, and the state in which all entries had been
      replaced. */
  datatype Trace = Trace(early: set<Disk>, late: set<Disk>, reserved: set<Path>, added: set<Path>, marked: bool,
                         written: bool, stuck: Option<(Path, Node)>, swapped: Disk)

  /** Every entry was backed up, or was not there before. */
  ghost predicate AllEntries(d: Disk, cands: seq<Candidate>, reserved: set<Path>, added: set<Path>) {
    forall c :: c in cands ==> if c.installPath in d.names then c.installPath in reserved else c.installPath in added
  }

  /** Every entry is the new one, its backup is there, and the marker is not. */
  ghost predicate Swapped(d: Disk, s: Disk, l: Layout, cands: seq<Candidate>) {
    && Tracked(d, s, l, cands) && AllNew(d, s, l, cands) && l.marker !in s.names
    && forall c :: c in cands && c.installPath in d.names ==> HasBackup(s, c.installPath)
  }

  /** What a kill leaves, step by step, when install paths are distinct and nothing was left over. */
  ghost predicate Promises(d: Disk, before: set<Disk>, e: Disk, l: Layout, cands: seq<Candidate>, ok: bool, t: Trace) {
    && AllBefore(d, before, t.early, l, cands) && Sourced(d, cands, t.reserved, t.added)
    && (AllExact(d, before, l) ==> Judged(d, t.early, l, t.reserved, t.added))
    && (!t.marked ==> RolledTo(d, e, l, cands, t.reserved, t.stuck))
    && (t.marked ==>
          && AllEntries(d, cands, t.reserved, t.added)
          && t.swapped in t.early && Swapped(d, t.swapped, l, cands)
          && forall s :: s in t.late ==> l.marker in s.names)
    && (t.written ==>
          && (forall s :: s in t.late ==> AfterCommit(d, s, l, cands))
          && (if ok then Concluded(d, e, l, cands) else AfterCommit(d, e, l, cands)))
    && (t.marked && !t.written ==>
          && (AllExact(d, t.late, l) <==> NothingNew(d, l, cands))
          && l.marker in e.names)
  }

  lemma AllCommittedAfter(d: Disk, states: set<Disk>, l: Layout, cands: seq<Candidate>, replaced: seq<Replaced>)
    requires forall s :: s in states ==> Committed(d, s, l, cands, replaced)
    ensures forall s :: s in states ==> AfterCommit(d, s, l, cands) && l.marker in s.names
  {
    hide Tracked, AllNew, BackupsListed;
  }

  lemma PromisingCommit(d: Disk, s: Disk, before: set<Disk>, reached: set<Disk>, l: Layout, cands: seq<Candidate>,
                        replaced: seq<Replaced>, reserved: set<Path>, added: set<Path>)
    requires Calm(d, l, cands) && Promising(d, s, before, reached, l, cands, replaced, reserved, added)
    requires |replaced| == |cands|
    ensures AllEntries(d, cands, reserved, added)
    ensures forall t :: MarkerOnly(s, t, l) && l.marker in t.names ==>
              Committed(d, t, l, cands, replaced) && Staged(d, t, l, cands, replaced)
  {
    hide Calm, MarkerOnly, Committed, AllBefore, AllExact, Judged, EntrySafe, RestStaged, Rooted, NoLinkToTemporary;
    forall c | c in cands
      ensures if c.installPath in d.names then c.installPath in reserved else c.installPath in added
    {
      var j :| 0 <= j < |cands| && cands[j] == c;
      assert EntrySafe(d, s, replaced[j], cands[j]) && replaced[j] in replaced;
      SafeEntryPath(d, s, replaced[j], cands[j]);
    }
    forall t | MarkerOnly(s, t, l) && l.marker in t.names
      ensures Committed(d, t, l, cands, replaced) && Staged(d, t, l, cands, replaced)
    {
      CommitPoint(d, s, t, l, cands, replaced);
      StagedMarked(d, s, t, l, cands, replaced);
    }
  }

  /** Each backup that was taken is there when the marker is written. */
  lemma BackedAtCommit(d: Disk, s: Disk, t: Disk, l: Layout, cands: seq<Candidate>, replaced: seq<Replaced>,
                       reserved: set<Path>, added: set<Path>, c: Candidate)
    requires Apart(l) && EntriesSafe(d, s, cands, replaced) && |replaced| == |cands|
    requires Accounted(d, s, replaced, reserved, added)
    requires MarkerOnly(s, t, l) && c in cands && c.installPath in d.names && c.installPath in l.paths
    ensures HasBackup(t, c.installPath)
  {
    var j :| 0 <= j < |cands| && cands[j] == c;
    assert EntrySafe(d, s, replaced[j], cands[j]) && replaced[j] in replaced;
    var b := replaced[j].backup.value;
    assert b != l.marker && SameEntry(s, t, b);
  }

  /** The environment lets the install get as far as its marker. */
  ghost predicate Markable(fs: Fs, l: Layout, cands: seq<Candidate>) {
    && cands != [] && (forall c :: c in cands ==> Replaceable(fs, c))
    && (forall t :: !fs.fails(Create, l.marker, t))
  }

  lemma ObligingReplaces(fs: Fs, cands: seq<Candidate>)
    ensures Obliging(fs) ==> forall c :: c in cands ==> Replaceable(fs, c)
  {
  }

  /** Every candidate is installed, and every other path is as it was. */
  ghost predicate NewInPlace(d: Disk, e: Disk, l: Layout, cands: seq<Candidate>) {
    && (forall c :: c in cands ==> View(e, c.installPath) == View(d, c.path))
    && (forall p :: p in l.paths && !IsInstallPath(cands, p) ==> View(e, p) == View(d, p))
  }

  lemma ConcludedInPlace(d: Disk, e: Disk, l: Layout, cands: seq<Candidate>)
    requires Calm(d, l, cands) && Concluded(d, e, l, cands)
    ensures NewInPlace(d, e, l, cands)
  {
    hide Tracked, Outcome, HasBackup, NoLeftovers, NoLinkToTemporary, Apart, NewView;
    forall c | c in cands
      ensures View(e, c.installPath) == View(d, c.path)
    {
      NewViewIs(d, cands, c);
    }
    forall p | p in l.paths && !IsInstallPath(cands, p)
      ensures View(e, p) == View(d, p)
    {
      NotInstalled(d, cands, p);
    }
  }

  lemma NothingToInstall(d: Disk, l: Layout, cands: seq<Candidate>)
    requires Calm(d, l, cands) && cands == []
    ensures NewInPlace(d, d, l, cands) && NoLeftovers(d, l)
  {
  }

  lemma NothingStays(fs: Fs, l: Layout)
    requires l.marker !in fs.disk.names
    requires forall p :: p in l.paths && SureDiscard(fs, p) ==> !HasBackup(fs.disk, p)
    ensures ReliableDiscard(fs, l) ==> NoLeftovers(fs.disk, l)
  {
    hide HasBackup, SureDiscard;
  }

  lemma NotInstalled(d: Disk, cands: seq<Candidate>, p: Path)
    requires !IsInstallPath(cands, p)
    ensures NewView(d, cands, p) == View(d, p)
  {
  }

  /** installCandidates.  It succeeds when nothing is refused, and then every candidate is installed.  For every
      behaviour of the environment: a rollback restores every name if its steps are not refused, even when install
      paths repeat; every state before the marker keeps the old set, up to one unfinished backup, which stays only
      if its removal fails, and exactly the old set if and only if no backup name was reserved over a file with
      content and nothing was installed where nothing was; every state behind a written marker keeps the new set;
      behind a marker whose write failed the contract holds if and only if nothing changes; and at the end exactly
      the paths whose backup could not be removed fall back to their old entries. */
  method InstallCandidates(fs: Fs, l: Layout, cands: seq<Candidate>) returns (ok: bool, restored: bool, ghost trace: Trace)
    requires fs.Valid() && Apart(l)
    requires StagedSet(fs.disk, l, cands) && l.marker !in fs.disk.names
    modifies fs
    ensures fs.Valid() && old(fs.reached) <= trace.early && fs.reached == trace.early + trace.late + {fs.disk}
    ensures !ok && restored ==> SameBeside(fs.disk, old(fs.disk), l, cands, trace.stuck)
    ensures !ok && !trace.written && ReliableUndo(fs, l) ==> restored
    ensures NoNewCandidates(old(fs.disk), fs.disk, l)
    ensures cands == [] ==> ok && !trace.written && fs.disk == old(fs.disk)
    ensures ok || trace.marked || ReliableRemoval(fs, l) ==> trace.stuck.None?
    ensures forall p :: p in trace.reserved && NoRemoval(fs, p) ==>
              !ok && !trace.marked && trace.stuck == Some((p, File([])))
    ensures trace.written ==> trace.marked && exists t :: !fs.fails(Write, l.marker, t)
    ensures ok && cands != [] ==> trace.written
    ensures trace.marked && !trace.written ==> !ok && exists t :: fs.fails(Write, l.marker, t)
    ensures !trace.written ==> fs.disk in trace.early + trace.late
    ensures !trace.marked ==> trace.late == {}
    ensures Calm(old(fs.disk), l, cands) ==>
              && Promises(old(fs.disk), old(fs.reached), fs.disk, l, cands, ok, trace)
              && (ok ==> l.marker !in fs.disk.names)
              && (ok ==> forall p :: p in l.paths && SureDiscard(fs, p) ==> !HasBackup(fs.disk, p))
              && (ok ==> forall c :: c in cands && c.installPath in old(fs.disk).names && NoDiscard(fs, c.installPath) ==>
                           HasBackup(fs.disk, c.installPath))
              && (ok ==> NewInPlace(old(fs.disk), fs.disk, l, cands))
              && (Obliging(fs) ==> ok && (ReliableDiscard(fs, l) ==> NoLeftovers(fs.disk, l)))
              && (Markable(fs, l, cands) ==> trace.marked)
              && AllReserve(fs, old(fs.disk), cands, trace.reserved, |cands|)
  {
    hide IsAnyCandidate, Replaceable, AllReserve, ReliableDiscard, SameBeside, ReliableUndo, Trailed, Promising,
         OldSetKept, SameAs, StagedSet, Calm, Committed, Apart, AllBefore, AllExact, Judged,
         MarkerOnly, Promises, NewInPlace,
         SureDiscard, NoDiscard, HasBackup, NoLeftovers, Restoring, Concluded, NoRemoval,
         ReliableRemoval;
    ObligingReplaces(fs, cands);
    ghost var d, before := fs.disk, fs.reached;
    var replaced;
    ghost var snaps, reserved, added, stuck;
    ok, restored, replaced, snaps, reserved, added, stuck := ReplaceAll(fs, l, cands);
    ghost var s, early := fs.disk, fs.reached;
    trace := Trace(early, {}, reserved, added, false, false, stuck, s);
    if !ok {
      if Calm(d, l, cands) {
        KeptPromises(d, s, before, early, l, cands, reserved, added, stuck, ok);
      }
      return;
    }
    TrailSnap(d, s, l, cands, replaced, snaps);
    TrailNames(d, s, l, cands, replaced, snaps);
    if |replaced| == 0 {
      if Calm(d, l, cands) {
        EmptyPromises(d, s, before, early, l, cands, replaced, reserved, added);
        NothingToInstall(d, l, cands);
      }
      return true, true, trace;
    }
    var written;
    ghost var created;
    written, created := WriteMarker(fs, l);
    ghost var m, mid := fs.disk, fs.reached;
    MarkerAddsNone(d, s, m, l);
    if created {
      SameAsMarker(s, m, l, cands);
    } else {
      SameAsRefl(s, l, cands);
    }
    if Calm(d, l, cands) {
      if created {
        PromisingCommit(d, s, before, early, l, cands, replaced, reserved, added);
      } else {
        PromisingAgain(d, s, before, early, mid, l, cands, replaced, reserved, added);
      }
    }
    if !written {
      ok := false;
      restored := Restore(fs, l, cands, replaced, d, snaps, None, created);
      SameIsBeside(fs.disk, d, l, cands);
      RestoringGrows(d, fs.disk, mid, fs.reached, l, cands, replaced, None, created);
      trace := if created then Trace(early, (fs.reached - early) + {m}, reserved, added, true, false, None, s)
               else Trace(fs.reached, {}, reserved, added, false, false, None, s);
      if Calm(d, l, cands) {
        if created {
          StrayPromises(d, s, m, fs.disk, before, early, mid, fs.reached, l, cands, replaced, reserved, added);
        } else {
          UncommittedPromises(d, s, fs.disk, before, mid, fs.reached, l, cands, replaced, reserved, added);
        }
      }
      return;
    }
    ghost var late;
    ok, late := CleanUp(fs, l, cands, replaced, d);
    restored := ok;
    trace := Trace(early, (late - early) + {m}, reserved, added, true, true, None, s);
    if Calm(d, l, cands) {
      WrittenPromises(d, s, m, fs.disk, before, early, mid, late, l, cands, replaced, reserved, added, ok);
      BackupsAtCommit(d, s, m, before, early, l, cands, replaced, reserved, added);
      if ok {
        ConcludedInPlace(d, fs.disk, l, cands);
        NothingStays(fs, l);
      }
    }
  }

  lemma TrailNames(d: Disk, s: Disk, l: Layout, cands: seq<Candidate>, replaced: seq<Replaced>, snaps: seq<Disk>)
    requires Trailed(d, s, l, cands, replaced, snaps)
    ensures BackupsNamed(l, replaced) && l.marker !in s.names
  {
  }

  lemma MarkerAddsNone(d: Disk, s: Disk, m: Disk, l: Layout)
    requires Apart(l) && NoNewCandidates(d, s, l) && forall q :: q in m.names ==> q in s.names || q == l.marker
    ensures NoNewCandidates(d, m, l)
  {
  }

  lemma SameIsBeside(e: Disk, d: Disk, l: Layout, cands: seq<Candidate>)
    ensures SameAs(e, d, l, cands) ==> SameBeside(e, d, l, cands, None)
  {
    hide SameAs;
  }

  lemma SameAsRefl(s: Disk, l: Layout, cands: seq<Candidate>)
    requires WellFormed(s)
    ensures SameAs(s, s, l, cands)
  {
  }

  lemma SameAsMarker(s: Disk, m: Disk, l: Layout, cands: seq<Candidate>)
    requires WellFormed(s) && MarkerOnly(s, m, l) && Grows(s, m)
    ensures SameAs(m, s, l, cands)
  {
    forall q | !IsCandidatePath(cands, q) && q != l.marker
      ensures SameFileAs(m, s, cands, q)
    {
      assert SameEntry(s, m, q);
    }
  }

  lemma RestoringGrows(d: Disk, e: Disk, mid: set<Disk>, reached: set<Disk>, l: Layout, cands: seq<Candidate>,
                       replaced: seq<Replaced>, left: Option<Stuck>, marked: bool)
    requires Restoring(d, e, mid, reached, l, cands, replaced, left, marked)
    ensures mid <= reached
  {
  }

  lemma KeptPromises(d: Disk, e: Disk, before: set<Disk>, early: set<Disk>, l: Layout, cands: seq<Candidate>,
                     reserved: set<Path>, added: set<Path>, stuck: Option<(Path, Node)>, ok: bool)
    requires OldSetKept(d, e, before, early, l, cands, reserved, added, stuck)
    ensures Promises(d, before, e, l, cands, ok, Trace(early, {}, reserved, added, false, false, stuck, e))
  {
    hide RolledTo, AllBefore, AllExact, Judged;
  }

  lemma EmptyPromises(d: Disk, s: Disk, before: set<Disk>, early: set<Disk>, l: Layout, cands: seq<Candidate>,
                      replaced: seq<Replaced>,
                      reserved: set<Path>, added: set<Path>)
    requires Calm(d, l, cands) && Promising(d, s, before, early, l, cands, replaced, reserved, added)
    requires l.marker !in s.names
    requires |replaced| == |cands| == 0
    ensures Promises(d, before, s, l, cands, true, Trace(early, {}, reserved, added, false, false, None, s))
    ensures forall p :: p in l.paths ==> !HasBackup(s, p)
  {
    hide Calm, KeepsOld, AllBefore, AllExact, Judged, Rooted, EntriesSafe, RestStaged, NoLinkToTemporary;
    StagedKeepsOld(d, s, l, cands, replaced);
    forall p, b | p in l.paths && IsBackup(p, b)
      ensures b !in s.names
    {
      assert b in s.names ==> Replaced(p, Some(b)) in replaced;
    }
  }

  lemma PromisingAgain(d: Disk, s: Disk, before: set<Disk>, early: set<Disk>, mid: set<Disk>, l: Layout,
                       cands: seq<Candidate>,
                       replaced: seq<Replaced>, reserved: set<Path>, added: set<Path>)
    requires Calm(d, l, cands) && Promising(d, s, before, early, l, cands, replaced, reserved, added)
    requires l.marker !in s.names
    requires early <= mid && forall x :: x in mid && x !in early ==> x == s
    ensures Promising(d, s, before, mid, l, cands, replaced, reserved, added) && Staged(d, s, l, cands, replaced)
  {
    hide Calm, Staged, KeepsOld, ExactOld, Forward;
    StagedKeepsOld(d, s, l, cands, replaced);
    AccountedBacked(d, s, replaced, reserved, added);
  }

  lemma UncommittedPromises(d: Disk, s: Disk, e: Disk, before: set<Disk>, mid: set<Disk>, reached: set<Disk>, l: Layout,
                            cands: seq<Candidate>, replaced: seq<Replaced>, reserved: set<Path>, added: set<Path>)
    requires Calm(d, l, cands) && Promising(d, s, before, mid, l, cands, replaced, reserved, added)
    requires Restoring(d, e, mid, reached, l, cands, replaced, None, false)
    ensures Promises(d, before, e, l, cands, false, Trace(reached, {}, reserved, added, false, false, None, s))
  {
    hide Calm, Staged, KeepsOld, AllBefore, AllExact, Judged, Restoring, Forward;
    AccountedBacked(d, s, replaced, reserved, added);
    RolledBack(d, e, before, mid, reached, l, cands, replaced, None, reserved, added);
  }

  lemma SwappedAt(d: Disk, s: Disk, before: set<Disk>, early: set<Disk>, l: Layout, cands: seq<Candidate>,
                  replaced: seq<Replaced>, reserved: set<Path>, added: set<Path>)
    requires Calm(d, l, cands) && Promising(d, s, before, early, l, cands, replaced, reserved, added)
    requires |replaced| == |cands| && l.marker !in s.names
    ensures Swapped(d, s, l, cands)
  {
    hide EntrySafe, RestStaged, BackupsListed, AllBefore, AllExact, Judged, HasBackup, NoLinkToTemporary,
         NoLeftovers, Accounted, Distinct, Rooted, Tracked, NewView, StagedSet;
    StagedTracked(d, s, l, cands, replaced);
    forall p | p in l.paths
      ensures View(s, p) == NewView(d, cands, p)
    {
      AllReplaced(d, s, l, cands, replaced, p);
    }
    forall c | c in cands && c.installPath in d.names
      ensures HasBackup(s, c.installPath)
    {
      BackedUpYet(d, s, l, cands, replaced, reserved, added, c);
    }
  }

  lemma BackedUpYet(d: Disk, s: Disk, l: Layout, cands: seq<Candidate>, replaced: seq<Replaced>,
                    reserved: set<Path>, added: set<Path>, c: Candidate)
    requires EntriesSafe(d, s, cands, replaced) && |replaced| == |cands| && Accounted(d, s, replaced, reserved, added)
    requires c in cands && c.installPath in d.names
    ensures HasBackup(s, c.installPath)
  {
    var j :| 0 <= j < |cands| && cands[j] == c;
    assert EntrySafe(d, s, replaced[j], cands[j]) && replaced[j] in replaced;
    assert replaced[j].backup.value in s.names && IsBackup(c.installPath, replaced[j].backup.value);
  }

  lemma StrayPromises(d: Disk, s: Disk, m: Disk, e: Disk, before: set<Disk>, early: set<Disk>, mid: set<Disk>,
                      reached: set<Disk>,
                      l: Layout, cands: seq<Candidate>, replaced: seq<Replaced>, reserved: set<Path>, added: set<Path>)
    requires Calm(d, l, cands) && Promising(d, s, before, early, l, cands, replaced, reserved, added)
    requires |replaced| == |cands| && s in early && l.marker !in s.names
    requires MarkerOnly(s, m, l) && l.marker in m.names && m in mid
    requires forall x :: x in mid && x !in early ==> MarkerOnly(s, x, l) && l.marker in x.names
    requires Restoring(d, e, mid, reached, l, cands, replaced, None, true)
    ensures Promises(d, before, e, l, cands, false,
                     Trace(early, (reached - early) + {m}, reserved, added, true, false, None, s))
  {
    hide Swapped, Calm, Staged, KeepsOld, AllBefore, AllExact, Judged, MarkerOnly, NothingNew, AllEntries, Forward,
         Accounted;
    SwappedAt(d, s, before, early, l, cands, replaced, reserved, added);
    PromisingCommit(d, s, before, early, l, cands, replaced, reserved, added);
    CommittedIsNew(d, m, l, cands, replaced);
    var late := (reached - early) + {m};
    assert AllStaged(d, {}, late, l, cands, replaced, None, true);
    StrayMarker(d, m, late, l, cands, replaced);
  }

  lemma CommittedIsNew(d: Disk, m: Disk, l: Layout, cands: seq<Candidate>, replaced: seq<Replaced>)
    requires Committed(d, m, l, cands, replaced)
    ensures AllNew(d, m, l, cands)
  {
  }

  lemma WrittenPromises(d: Disk, s: Disk, m: Disk, e: Disk, before: set<Disk>, early: set<Disk>, mid: set<Disk>,
                        late: set<Disk>,
                        l: Layout, cands: seq<Candidate>, replaced: seq<Replaced>, reserved: set<Path>,
                        added: set<Path>, ok: bool)
    requires Calm(d, l, cands) && Promising(d, s, before, early, l, cands, replaced, reserved, added)
    requires |replaced| == |cands| && s in early && l.marker !in s.names
    requires MarkerOnly(s, m, l) && l.marker in m.names
    requires forall x :: x in mid && x !in early ==> MarkerOnly(s, x, l) && l.marker in x.names
    requires AllCommitted(d, mid, late, l, cands, replaced)
    requires if ok then Concluded(d, e, l, cands) else Committed(d, e, l, cands, replaced)
    ensures Promises(d, before, e, l, cands, ok,
                     Trace(early, (late - early) + {m}, reserved, added, true, true, None, s))
  {
    hide Swapped, Calm, Staged, KeepsOld, AllBefore, AllExact, Judged, MarkerOnly, NothingNew, AllEntries, Committed,
         Concluded,
         AfterCommit, Forward, Accounted;
    SwappedAt(d, s, before, early, l, cands, replaced, reserved, added);
    PromisingCommit(d, s, before, early, l, cands, replaced, reserved, added);
    var states := (late - early) + {m} + if ok then {} else {e};
    assert forall x :: x in states ==> Committed(d, x, l, cands, replaced);
    AllCommittedAfter(d, states, l, cands, replaced);
  }

  lemma BackupsAtCommit(d: Disk, s: Disk, m: Disk, before: set<Disk>, early: set<Disk>, l: Layout,
                        cands: seq<Candidate>,
                        replaced: seq<Replaced>, reserved: set<Path>, added: set<Path>)
    requires Calm(d, l, cands) && Promising(d, s, before, early, l, cands, replaced, reserved, added)
    requires |replaced| == |cands|
    requires MarkerOnly(s, m, l)
    ensures forall c :: c in cands && c.installPath in d.names ==>
              c.installPath in l.paths && HasBackup(m, c.installPath)
  {
    hide EntriesSafe, RestStaged, BackupsListed, OthersAsBefore, AllBefore, AllExact, Judged, MarkerOnly, HasBackup,
         NoLinkToTemporary,
         NoLeftovers, Forward, Accounted, Distinct, Rooted;
    forall c | c in cands && c.installPath in d.names
      ensures c.installPath in l.paths && HasBackup(m, c.installPath)
    {
      BackedAtCommit(d, s, m, l, cands, replaced, reserved, added, c);
    }
  }
}
