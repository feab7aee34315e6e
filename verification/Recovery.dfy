/** recoverInterruptedInstall: the program that a later run executes on whatever a killed
    install left, and that may itself be killed. */
module Recovery {
  import opened Options
  import opened FileSystem
  import opened InstallSet

  predicate SameEntryNode(d: Disk, p: Path, q: Path) {
    p in d.names && q in d.names && d.names[p] == d.names[q]
  }

  predicate Unmoved(d: Disk, t: Disk, q: Path) {
    q in d.names && q in t.names && t.names[q] == d.names[q]
  }

  // ---------- What recovery leaves ----------

  /** The backup of `p` resolves to the same file as `p`: recovery takes `p` for not replaced, and drops it. */
  ghost predicate Dropped(d: Disk, p: Path) {
    exists b :: b in d.names && IsBackup(p, b) && SameFile(d, b, p)
  }

  /** What a recovery that finds `p` and its backup as they are on `d` leaves at `p`. */
  ghost function Result(d: Disk, l: Layout, p: Path): Option<Node> {
    if Dropped(d, p) then View(d, p) else Outcome(d, l, p)
  }

  lemma OutcomeOf(d: Disk, l: Layout, p: Path, b: Path)
    requires OneBackup(d, p) && b in d.names && IsBackup(p, b)
    ensures Outcome(d, l, p) == if l.marker in d.names then View(d, p) else View(d, b)
  {
  }

  lemma ResultOf(d: Disk, l: Layout, p: Path, b: Path)
    requires OneBackup(d, p) && b in d.names && IsBackup(p, b)
    ensures Result(d, l, p) == if l.marker in d.names || SameFile(d, b, p) then View(d, p) else View(d, b)
  {
    hide SameFile;
    assert Dropped(d, p) <==> SameFile(d, b, p);
  }

  lemma NoBackupResult(d: Disk, l: Layout, p: Path)
    requires forall b :: IsBackup(p, b) ==> b !in d.names
    ensures Result(d, l, p) == Outcome(d, l, p) == View(d, p) && !HasBackup(d, p)
  {
  }

  // ---------- On the way ----------

  /** `p` and its backups are as they were. */
  ghost predicate InPlace(d: Disk, t: Disk, p: Path) {
    SameEntry(d, t, p) && forall b :: IsBackup(p, b) ==> SameEntry(d, t, b)
  }

  /** Recovery is done with the backups of `p`: none is left, and one may have been renamed over `p`. */
  ghost predicate Handled(d: Disk, t: Disk, p: Path) {
    && (forall b :: IsBackup(p, b) ==> b !in t.names)
    && (SameEntry(d, t, p) || exists b :: b in d.names && IsBackup(p, b) && p in t.names && t.names[p] == d.names[b])
  }

  /** `t` is `d` on the way through a recovery. */
  ghost predicate Underway(d: Disk, t: Disk, l: Layout) {
    && t.nodes == d.nodes && t.next == d.next && OnlySet(d, t, l)
    && (forall q :: q in t.names && q !in l.paths ==> Unmoved(d, t, q))
    && (forall p :: p in l.paths ==> InPlace(d, t, p) || Handled(d, t, p))
  }

  lemma UnderwayRefl(d: Disk, l: Layout)
    ensures Underway(d, d, l)
  {
  }

  lemma InPlaceThen(d: Disk, s: Disk, t: Disk, p: Path)
    requires InPlace(d, s, p) || Handled(d, s, p)
    requires InPlace(s, t, p) || Handled(s, t, p)
    ensures InPlace(d, t, p) || Handled(d, t, p)
    ensures InPlace(d, s, p) && InPlace(s, t, p) ==> InPlace(d, t, p)
  {
    if Handled(d, s, p) {
      assert forall b :: IsBackup(p, b) ==> b !in s.names;
    }
  }

  lemma UnderwayTransitive(d: Disk, s: Disk, t: Disk, l: Layout)
    requires Underway(d, s, l) && Underway(s, t, l)
    ensures Underway(d, t, l)
  {
    hide InSet, InPlace, Handled;
    forall p | p in l.paths
      ensures InPlace(d, t, p) || Handled(d, t, p)
    {
      InPlaceThen(d, s, t, p);
    }
  }

  lemma NoNewBackup(d: Disk, t: Disk, l: Layout, p: Path)
    requires Underway(d, t, l) && p in l.paths
    ensures HasBackup(t, p) ==> HasBackup(d, p)
    ensures OneBackup(d, p) ==> OneBackup(t, p)
    ensures !InPlace(d, t, p) ==> !HasBackup(t, p)
  {
  }

  // ---------- What recovery keeps ----------

  /** Nothing that recovery does elsewhere changes what it does at `p`. */
  ghost predicate FixedTest(d: Disk, l: Layout, p: Path) {
    forall t :: Underway(d, t, l) && InPlace(d, t, p) ==> Result(t, l, p) == Result(d, l, p)
  }

  /** Behind the commit marker nothing is put back, so nothing is asked of the links. */
  ghost predicate FixedTests(d: Disk, l: Layout) {
    l.marker in d.names || forall p :: p in l.paths ==> FixedTest(d, l, p)
  }

  /** No backup shares a symlink with its install path. */
  ghost predicate OwnLinks(d: Disk, l: Layout) {
    forall p, b :: p in l.paths && IsBackup(p, b) && SameEntryNode(d, b, p) ==> View(d, b).Some? && View(d, b).value.File?
  }

  /** A state from which recovery installs a definite set. */
  ghost predicate Recoverable(d: Disk, l: Layout) {
    WellFormed(d) && OneBackupEach(d, l) && OwnLinks(d, l) && FixedTests(d, l)
  }

  /** `s` promises the same set as `d`, and recovery may start over from it. */
  ghost predicate Kept(d: Disk, s: Disk, l: Layout) {
    && Recoverable(s, l)
    && Underway(d, s, l)
    && (forall p :: p in l.paths ==> Result(s, l, p) == Result(d, l, p))
  }

  lemma KeptTransitive(d: Disk, s: Disk, t: Disk, l: Layout)
    requires Kept(d, s, l) && Kept(s, t, l)
    ensures Kept(d, t, l)
  {
    hide Recoverable, Underway, Result;
    UnderwayTransitive(d, s, t, l);
  }

  lemma KeptRefl(d: Disk, l: Layout)
    requires Recoverable(d, l)
    ensures Kept(d, d, l)
  {
    hide Recoverable, Underway, Result;
    UnderwayRefl(d, l);
  }

  lemma NoNewMarker(d: Disk, s: Disk, l: Layout)
    requires Apart(l) && Underway(d, s, l)
    ensures l.marker !in d.names ==> l.marker !in s.names
  {
  }

  /** However far recovery has come, the tests that are left are fixed. */
  lemma FixedBehind(d: Disk, s: Disk, l: Layout)
    requires Apart(l) && Recoverable(d, l) && l.marker !in d.names && Underway(d, s, l)
    ensures FixedTests(s, l)
  {
    hide Underway, Result, InPlace, HasBackup;
    forall p, t | p in l.paths && Underway(s, t, l) && InPlace(s, t, p)
      ensures Result(t, l, p) == Result(s, l, p)
    {
      if InPlace(d, s, p) {
        UnderwayTransitive(d, s, t, l);
        InPlaceThen(d, s, t, p);
        assert FixedTest(d, l, p);
      } else {
        NoNewBackup(d, s, l, p);
        SameWithoutBackup(s, t, l, p);
      }
    }
  }

  lemma SameWithoutBackup(s: Disk, t: Disk, l: Layout, p: Path)
    requires Underway(s, t, l) && InPlace(s, t, p) && !HasBackup(s, p)
    ensures Result(t, l, p) == Result(s, l, p)
  {
    NoBackupResult(s, l, p);
    NoBackupResult(t, l, p);
  }

  /** Where no backup is left nothing is put back. */
  lemma NothingToRestore(d: Disk, l: Layout)
    requires forall p :: p in l.paths ==> !HasBackup(d, p)
    ensures FixedTests(d, l) && OwnLinks(d, l) && OneBackupEach(d, l)
  {
    hide Underway, Result;
    forall p, t | p in l.paths && Underway(d, t, l) && InPlace(d, t, p)
      ensures Result(t, l, p) == Result(d, l, p)
    {
      SameWithoutBackup(d, t, l, p);
    }
  }

  // ---------- One path does not disturb another ----------

  /** Only `p`, its backups and its candidates differ between `d` and `t`. */
  ghost predicate OnlyPath(d: Disk, t: Disk, p: Path) {
    && t.nodes == d.nodes
    && t.next == d.next
    && (forall q :: q != p && !IsBackup(p, q) && !IsCandidate(p, q) ==> SameEntry(d, t, q))
    && (forall q :: q in t.names ==> Unmoved(d, t, q) || q == p)
  }

  lemma OnlyPathIsOnlySet(d: Disk, t: Disk, l: Layout, p: Path)
    requires p in l.paths && OnlyPath(d, t, p)
    ensures OnlySet(d, t, l)
  {
  }

  /** Another path of the set is as it was, with its backups. */
  lemma OtherPathStays(d: Disk, t: Disk, l: Layout, p: Path, q: Path)
    requires Apart(l) && p in l.paths && q in l.paths && q != p && OnlyPath(d, t, p)
    ensures InPlace(d, t, q) && View(t, q) == View(d, q) && HasBackup(t, q) == HasBackup(d, q)
    ensures OneBackup(d, q) ==> OneBackup(t, q)
  {
    assert forall b :: IsBackup(q, b) ==> SameEntry(d, t, b);
    if HasBackup(d, q) {
      var b :| b in d.names && IsBackup(q, b);
      assert b in t.names;
    }
  }

  lemma PathUnderway(d: Disk, t: Disk, l: Layout, p: Path)
    requires Apart(l) && p in l.paths && OnlyPath(d, t, p) && (InPlace(d, t, p) || Handled(d, t, p))
    ensures Underway(d, t, l) && SameEntry(d, t, l.marker) && t.nodes == d.nodes
  {
    hide InPlace, Handled;
    OnlyPathIsOnlySet(d, t, l, p);
    forall q | q in l.paths
      ensures InPlace(d, t, q) || Handled(d, t, q)
    {
      if q != p {
        OtherPathStays(d, t, l, p, q);
      }
    }
  }

  /** Recovery steps on `p` that keep its own result keep the whole set. */
  lemma StepKept(d: Disk, t: Disk, l: Layout, p: Path)
    requires Apart(l) && p in l.paths && Recoverable(d, l)
    requires WellFormed(t) && OnlyPath(d, t, p) && (InPlace(d, t, p) || Handled(d, t, p))
    requires InPlace(d, t, p) || Result(t, l, p) == Result(d, l, p)
    ensures Kept(d, t, l)
  {
    hide Underway, Result, InPlace, Handled, HasBackup, OnlyPath;
    PathUnderway(d, t, l, p);
    if l.marker !in d.names {
      FixedBehind(d, t, l);
    }
    LinksBehind(d, t, l);
    forall q | q in l.paths
      ensures OneBackup(t, q) && Result(t, l, q) == Result(d, l, q)
    {
      NoNewBackup(d, t, l, q);
      if q != p {
        OtherPathStays(d, t, l, p, q);
      }
      if InPlace(d, t, q) {
        if l.marker in d.names {
          MarkedResult(d, t, l, q);
        } else {
          assert FixedTest(d, l, q);
        }
      }
    }
  }

  lemma MarkedResult(d: Disk, t: Disk, l: Layout, q: Path)
    requires l.marker in d.names && l.marker in t.names && InPlace(d, t, q) && t.nodes == d.nodes
    ensures Result(t, l, q) == Result(d, l, q)
  {
  }

  lemma LinksBehind(d: Disk, t: Disk, l: Layout)
    requires OwnLinks(d, l) && Underway(d, t, l)
    ensures OwnLinks(t, l)
  {
    forall p, b | p in l.paths && IsBackup(p, b) && SameEntryNode(t, b, p)
      ensures View(t, b).Some? && View(t, b).value.File?
    {
      assert InPlace(d, t, p);
      assert SameEntryNode(d, b, p);
    }
  }

  /** A temporary file is removed. */
  lemma RemovalIsPath(d: Disk, l: Layout, p: Path, b: Path)
    requires Apart(l) && WellFormed(d) && p in l.paths && (IsBackup(p, b) || IsCandidate(p, b))
    ensures WellFormed(Unlinked(d, b)) && OnlyPath(d, Unlinked(d, b), p) && b != p
    ensures IsCandidate(p, b) ==> InPlace(d, Unlinked(d, b), p)
    ensures OneBackup(d, p) && IsBackup(p, b) && b in d.names ==> Handled(d, Unlinked(d, b), p)
  {
  }

  lemma CandidateRemoved(d: Disk, l: Layout, p: Path, c: Path)
    requires Apart(l) && p in l.paths && Recoverable(d, l) && IsCandidate(p, c)
    ensures Kept(d, Unlinked(d, c), l)
  {
    hide Recoverable, Kept, OnlyPath, InPlace, Handled;
    RecoverableFacts(d, l);
    RemovalIsPath(d, l, p, c);
    StepKept(d, Unlinked(d, c), l, p);
  }

  lemma RecoverableFacts(d: Disk, l: Layout)
    requires Recoverable(d, l)
    ensures WellFormed(d) && OneBackupEach(d, l) && forall p :: p in l.paths ==> OneBackup(d, p)
  {
  }

  /** A backup is dropped behind the marker, or because the test fires. */
  lemma BackupRemoved(d: Disk, l: Layout, p: Path, b: Path)
    requires Apart(l) && p in l.paths && Recoverable(d, l) && b in d.names && IsBackup(p, b)
    requires l.marker in d.names || SameFile(d, b, p)
    ensures Kept(d, Unlinked(d, b), l) && View(Unlinked(d, b), p) == View(d, p) == Result(d, l, p)
  {
    hide Recoverable, Kept, OnlyPath, InPlace, SameFile;
    RecoverableFacts(d, l);
    RemovalIsPath(d, l, p, b);
    ResultOf(d, l, p, b);
    NoBackupResult(Unlinked(d, b), l, p);
    StepKept(d, Unlinked(d, b), l, p);
  }

  /** A backup is renamed over its path. */
  lemma BackupRenamed(d: Disk, l: Layout, p: Path, b: Path)
    requires Apart(l) && p in l.paths && Recoverable(d, l) && b in d.names && IsBackup(p, b)
    requires l.marker !in d.names && !SameFile(d, b, p)
    ensures Kept(d, Renamed(d, b, p), l) && View(Renamed(d, b, p), p) == View(d, b) == Result(d, l, p)
    ensures !HasBackup(Renamed(d, b, p), p)
  {
    var t := Renamed(d, b, p);
    NotOneFile(d, l, p, b);
    RenamedIsPath(d, t, l, p, b);
    hide Recoverable, Kept, OnlyPath, InPlace, Handled, SameFile;
    RecoverableFacts(d, l);
    ResultOf(d, l, p, b);
    NoBackupResult(t, l, p);
    StepKept(d, t, l, p);
  }

  lemma NotOneFile(d: Disk, l: Layout, p: Path, b: Path)
    requires Recoverable(d, l) && p in l.paths && b in d.names && IsBackup(p, b) && !SameFile(d, b, p)
    ensures !SameEntryNode(d, b, p)
  {
  }

  lemma RenamedIsPath(d: Disk, t: Disk, l: Layout, p: Path, b: Path)
    requires Apart(l) && WellFormed(d) && p in l.paths && b in d.names && IsBackup(p, b) && OneBackup(d, p)
    requires !SameEntryNode(d, b, p) && t == Renamed(d, b, p)
    ensures WellFormed(t) && OnlyPath(d, t, p) && Handled(d, t, p) && View(t, p) == View(d, b)
    ensures forall c :: IsBackup(p, c) ==> c !in t.names
  {
    assert b != p;
  }

  // ---------- The program ----------

  /** The environment never refuses to remove a temporary file of the set. */
  ghost predicate ReliableRemoval(fs: Fs, l: Layout) {
    forall p, f, t :: p in l.paths && (IsBackup(p, f) || IsCandidate(p, f)) ==> !fs.fails(Op.Unlink, f, t)
  }

  /** Every state added to `before` promises what `d` promised. */
  ghost predicate AllKept(d: Disk, before: set<Disk>, reached: set<Disk>, l: Layout) {
    forall s :: s in reached && s !in before ==> Kept(d, s, l)
  }

  ghost predicate NoTemporary(d: Disk, p: Path) {
    forall q :: IsBackup(p, q) || IsCandidate(p, q) ==> q !in d.names
  }

  lemma AllKeptExtend(d: Disk, before: set<Disk>, mid: set<Disk>, after: set<Disk>, e: Disk, l: Layout)
    requires AllKept(d, before, mid, l) && Kept(d, e, l) && AllKept(e, mid, after, l)
    ensures AllKept(d, before, after, l)
  {
    hide Kept;
    forall s | s in after && s !in before
      ensures Kept(d, s, l)
    {
      if s !in mid {
        KeptTransitive(d, e, s, l);
      }
    }
  }

  lemma AllKeptOne(d: Disk, before: set<Disk>, e: Disk, l: Layout)
    requires Kept(d, e, l)
    ensures AllKept(d, before, before + {e}, l)
  {
    hide Kept;
  }

  /** What one step on the only backup of `p` leaves. */
  lemma BackupStep(d: Disk, l: Layout, p: Path, b: Path)
    requires Apart(l) && p in l.paths && Recoverable(d, l) && b in d.names && IsBackup(p, b)
    ensures Kept(d, d, l)
    ensures l.marker in d.names || SameFile(d, b, p) ==>
              && Kept(d, Unlinked(d, b), l) && View(d, p) == Result(d, l, p)
              && View(Unlinked(d, b), p) == Result(d, l, p)
    ensures l.marker !in d.names && !SameFile(d, b, p) ==>
              && Kept(d, Renamed(d, b, p), l) && View(Renamed(d, b, p), p) == Result(d, l, p)
              && b !in Renamed(d, b, p).names
  {
    hide Kept, Result, SameFile, Recoverable;
    KeptRefl(d, l);
    if l.marker in d.names || SameFile(d, b, p) {
      BackupRemoved(d, l, p, b);
    } else {
      BackupRenamed(d, l, p, b);
    }
  }

  /** Puts one backup of `p` back, or drops it, as the position in the listing, the marker and
      the `SameFile` test decide.  Without a marker the first backup is what `p` shows afterwards if and only if
      the test fires on an equal entry alone. */
  method RecoverBackup(fs: Fs, l: Layout, p: Path, b: Path, committed: bool, index: nat) returns (ok: bool)
    requires fs.Valid() && Apart(l) && p in l.paths
    requires committed == (l.marker in fs.disk.names)
    requires IsBackup(p, b) && b in fs.disk.names
    modifies fs
    ensures fs.Valid() && OnlyPath(old(fs.disk), fs.disk, p)
    ensures forall q :: IsCandidate(p, q) ==> SameEntry(old(fs.disk), fs.disk, q)
    ensures forall q :: IsBackup(p, q) && q != b ==> SameEntry(old(fs.disk), fs.disk, q)
    ensures ok ==>
              View(fs.disk, p) ==
              if committed || index > 0 || SameFile(old(fs.disk), b, p) then View(old(fs.disk), p)
              else View(old(fs.disk), b)
    ensures ok && !committed && index == 0 ==>
              (View(fs.disk, p) == View(old(fs.disk), b) <==>
               (SameFile(old(fs.disk), b, p) ==> View(old(fs.disk), b) == View(old(fs.disk), p)))
    ensures Obliging(fs) ==> ok
    ensures Recoverable(old(fs.disk), l) && index == 0 ==>
              && AllKept(old(fs.disk), old(fs.reached), fs.reached, l)
              && Kept(old(fs.disk), fs.disk, l)
              && (ok ==> View(fs.disk, p) == Result(old(fs.disk), l, p))
              && (ok && ReliableRemoval(fs, l) ==> b !in fs.disk.names)
  {
    hide Recoverable, Kept, AllKept, Result, Stat;
    ghost var d, before := fs.disk, fs.reached;
    ok := true;
    if Recoverable(d, l) {
      BackupStep(d, l, p, b);
    }
    assert b != p && !IsCandidate(p, b);
    if committed || index > 0 || SameFile(fs.disk, b, p) {
      var _ := fs.Unlink(b);
    } else {
      ok := fs.Rename(b, p);
    }
    if Recoverable(d, l) && index == 0 {
      AllKeptOne(d, before, fs.disk, l);
    }
  }

  lemma RemovalStep(d: Disk, before: set<Disk>, e: Disk, reached: set<Disk>, l: Layout, p: Path, c: Path, now: Disk)
    requires Apart(l) && p in l.paths && IsCandidate(p, c)
    requires Kept(d, e, l) && AllKept(d, before, reached, l) && (now == e || now == Unlinked(e, c))
    ensures Kept(d, now, l) && AllKept(d, before, reached + {now}, l)
  {
    KeptIsRecoverable(d, e, l);
    hide Kept, Recoverable;
    CandidateRemoved(e, l, p, c);
    KeptTransitive(d, e, Unlinked(e, c), l);
  }

  /** Only candidates of `p` are gone. */
  ghost predicate CandidatesLeft(d: Disk, e: Disk, p: Path) {
    && e.nodes == d.nodes
    && e.next == d.next
    && (forall q :: !IsCandidate(p, q) ==> SameEntry(d, e, q))
    && (forall q :: q in e.names ==> Unmoved(d, e, q))
  }

  method RemoveCandidates(fs: Fs, l: Layout, p: Path, candidates: seq<Path>)
    requires fs.Valid() && Apart(l) && p in l.paths
    requires forall q :: q in candidates <==> q in fs.disk.names && IsCandidate(p, q)
    modifies fs
    ensures fs.Valid() && CandidatesLeft(old(fs.disk), fs.disk, p)
    ensures ReliableRemoval(fs, l) ==> forall q :: IsCandidate(p, q) ==> q !in fs.disk.names
    ensures candidates == [] ==> fs.disk == old(fs.disk)
    ensures Recoverable(old(fs.disk), l) ==>
              && AllKept(old(fs.disk), old(fs.reached), fs.reached, l)
              && Kept(old(fs.disk), fs.disk, l)
  {
    hide Recoverable, Kept, AllKept;
    ghost var d, before := fs.disk, fs.reached;
    ghost var fair := Recoverable(d, l);
    if fair {
      KeptRefl(d, l);
      NoneAdded(d, before, l);
    }
    for i := 0 to |candidates|
      invariant fs.Valid() && CandidatesLeft(d, fs.disk, p)
      invariant ReliableRemoval(fs, l) ==> forall q :: IsCandidate(p, q) && q in fs.disk.names ==> q in candidates[i..]
      invariant i == 0 ==> fs.disk == d
      invariant fair ==> Kept(d, fs.disk, l) && AllKept(d, before, fs.reached, l)
    {
      ghost var cur, mid := fs.disk, fs.reached;
      var c := candidates[i];
      Listed(candidates, i);
      assert candidates[i..] == [c] + candidates[i + 1..];
      var _ := fs.Unlink(c);
      if fair {
        RemovalStep(d, before, cur, mid, l, p, c, fs.disk);
      }
    }
  }

  lemma NoneAdded(d: Disk, before: set<Disk>, l: Layout)
    ensures AllKept(d, before, before, l)
  {
  }

  method RestoreBackups(fs: Fs, l: Layout, p: Path, backups: seq<Path>, committed: bool) returns (ok: bool)
    requires fs.Valid() && Apart(l) && p in l.paths
    requires committed == (l.marker in fs.disk.names)
    requires forall b :: b in backups <==> b in fs.disk.names && IsBackup(p, b)
    requires forall i, j :: 0 <= i < j < |backups| ==> backups[i] != backups[j]
    modifies fs
    ensures fs.Valid() && OnlyPath(old(fs.disk), fs.disk, p)
    ensures forall q :: IsCandidate(p, q) ==> SameEntry(old(fs.disk), fs.disk, q)
    ensures backups == [] ==> ok && fs.disk == old(fs.disk)
    ensures Obliging(fs) ==> ok
    ensures Recoverable(old(fs.disk), l) ==>
              && AllKept(old(fs.disk), old(fs.reached), fs.reached, l)
              && Kept(old(fs.disk), fs.disk, l)
              && (ok ==> View(fs.disk, p) == Result(old(fs.disk), l, p))
              && (ok && ReliableRemoval(fs, l) ==> !HasBackup(fs.disk, p))
  {
    hide Kept, AllKept, Result, Recoverable, SameFile;
    ghost var d, before := fs.disk, fs.reached;
    ghost var fair := Recoverable(d, l);
    if fair {
      KeptRefl(d, l);
      RecoverableFacts(d, l);
      NoneAdded(d, before, l);
      OneBackupListed(d, p, backups);
      if backups == [] {
        NoBackupResult(d, l, p);
      }
    }
    for i := 0 to |backups|
      invariant fs.Valid() && OnlyPath(d, fs.disk, p)
      invariant forall q :: IsCandidate(p, q) ==> SameEntry(d, fs.disk, q)
      invariant forall j :: i <= j < |backups| ==> backups[j] in fs.disk.names
      invariant forall q :: IsBackup(p, q) && q in fs.disk.names ==> q in backups
      invariant i == 0 ==> fs.disk == d && fs.reached == before
      invariant fair ==> Kept(d, fs.disk, l) && AllKept(d, before, fs.reached, l)
      invariant fair && i > 0 ==>
        && View(fs.disk, p) == Result(d, l, p)
        && (ReliableRemoval(fs, l) ==> backups[0] !in fs.disk.names)
    {
      assert backups[i] in backups && SameEntry(d, fs.disk, l.marker);
      var done := RecoverBackup(fs, l, p, backups[i], committed, i);
      if !done {
        return false;
      }
    }
    ok := true;
    if fair && backups != [] {
      assert backups == [backups[0]];
    }
  }

  lemma NoBackupOutcome(d: Disk, l: Layout, p: Path)
    requires forall b :: IsBackup(p, b) ==> b !in d.names
    ensures Outcome(d, l, p) == View(d, p) && !HasBackup(d, p)
  {
  }

  lemma Listed(s: seq<Path>, i: nat)
    requires i < |s|
    ensures s[i] in s
  {
  }

  lemma OneBackupListed(d: Disk, p: Path, backups: seq<Path>)
    requires OneBackup(d, p)
    requires forall b :: b in backups <==> b in d.names && IsBackup(p, b)
    requires forall i, j :: 0 <= i < j < |backups| ==> backups[i] != backups[j]
    ensures |backups| <= 1
    ensures backups == [] ==> forall b :: IsBackup(p, b) ==> b !in d.names
  {
    if |backups| >= 2 {
      Listed(backups, 0);
      Listed(backups, 1);
      assert false;
    }
  }

  lemma CandidatesStayed(d: Disk, e: Disk, p: Path)
    requires forall q :: IsCandidate(p, q) ==> SameEntry(d, e, q)
    ensures forall q :: IsCandidate(p, q) ==> (q in e.names <==> q in d.names)
  {
  }

  lemma CandidatesElsewhere(d: Disk, s: Disk, e: Disk, l: Layout, p: Path)
    requires Apart(l) && p in l.paths && OnlyPath(d, s, p) && CandidatesLeft(s, e, p)
    ensures OnlyPath(d, e, p) && View(e, p) == View(s, p)
    ensures NoTemporary(e, p) <==> !HasBackup(s, p) && forall q :: IsCandidate(p, q) ==> q !in e.names
  {
    assert !IsCandidate(p, p);
    assert forall b :: IsBackup(p, b) ==> SameEntry(s, e, b);
  }

  method RecoverPath(fs: Fs, l: Layout, p: Path, committed: bool) returns (ok: bool)
    requires fs.Valid() && Apart(l) && p in l.paths
    requires committed == (l.marker in fs.disk.names)
    modifies fs
    ensures fs.Valid() && OnlyPath(old(fs.disk), fs.disk, p)
    ensures Recoverable(old(fs.disk), l) ==>
              && AllKept(old(fs.disk), old(fs.reached), fs.reached, l)
              && Kept(old(fs.disk), fs.disk, l)
              && (ok ==> View(fs.disk, p) == Result(old(fs.disk), l, p))
              && (ok && ReliableRemoval(fs, l) ==> NoTemporary(fs.disk, p))
    ensures NoTemporary(old(fs.disk), p) ==> ok && fs.disk == old(fs.disk)
    ensures Obliging(fs) ==> ok
  {
    hide Kept, AllKept, Result, Recoverable, HasBackup, Apart, OnlyPath;
    ghost var d, before := fs.disk, fs.reached;
    ghost var fair := Recoverable(d, l);
    var backups := fs.Glob(p.dir, BackupPrefix(p));
    var candidates := fs.Glob(p.dir, CandidatePrefix(p));
    if NoTemporary(d, p) {
      NothingListed(d, p, backups, candidates);
    }
    ok := RestoreBackups(fs, l, p, backups, committed);
    if !ok {
      return;
    }
    ghost var cur, mid := fs.disk, fs.reached;
    CandidatesStayed(d, cur, p);
    RemoveCandidates(fs, l, p, candidates);
    CandidatesElsewhere(d, cur, fs.disk, l, p);
    if fair {
      KeptIsRecoverable(d, cur, l);
      AllKeptExtend(d, before, mid, fs.reached, cur, l);
      KeptTransitive(d, cur, fs.disk, l);
    }
  }

  lemma KeptIsRecoverable(d: Disk, s: Disk, l: Layout)
    requires Kept(d, s, l)
    ensures Recoverable(s, l)
  {
  }

  lemma NothingListed(d: Disk, p: Path, backups: seq<Path>, candidates: seq<Path>)
    requires NoTemporary(d, p)
    requires forall b :: b in backups <==> b in d.names && IsBackup(p, b)
    requires forall q :: q in candidates <==> q in d.names && IsCandidate(p, q)
    ensures backups == [] && candidates == []
  {
    if backups != [] {
      Listed(backups, 0);
      assert false;
    }
    if candidates != [] {
      Listed(candidates, 0);
      assert false;
    }
  }

  /** `p` holds what was promised, and its temporary files are gone if they could be removed. */
  ghost predicate Cleaned(d: Disk, e: Disk, l: Layout, p: Path, reliable: bool) {
    View(e, p) == Result(d, l, p) && (reliable ==> NoTemporary(e, p))
  }

  /** Recovery has kept the promise of `d` and has cleaned up the first `i` paths. */
  ghost predicate Progress(d: Disk, before: set<Disk>, e: Disk, reached: set<Disk>, l: Layout, i: nat, reliable: bool)
    requires i <= |l.paths|
  {
    && Kept(d, e, l)
    && AllKept(d, before, reached, l)
    && (forall j :: 0 <= j < i ==> Cleaned(d, e, l, l.paths[j], reliable))
  }

  lemma StaysClean(d: Disk, cur: Disk, e: Disk, l: Layout, p: Path, q: Path, reliable: bool)
    requires Apart(l) && p in l.paths && q in l.paths && q != p && OnlyPath(cur, e, p)
    requires Cleaned(d, cur, l, q, reliable)
    ensures Cleaned(d, e, l, q, reliable)
  {
    hide Result;
    assert SameEntry(cur, e, q);
    forall f | IsBackup(q, f) || IsCandidate(q, f)
      ensures f in e.names ==> f in cur.names
    {
      assert f != p;
    }
  }

  lemma ProgressStep(d: Disk, before: set<Disk>, cur: Disk, mid: set<Disk>, e: Disk, reached: set<Disk>,
                     l: Layout, i: nat, ok: bool, reliable: bool)
    requires Apart(l) && i < |l.paths| && Progress(d, before, cur, mid, l, i, reliable)
    requires OnlyPath(cur, e, l.paths[i]) && Kept(cur, e, l) && AllKept(cur, mid, reached, l)
    requires ok ==> Cleaned(cur, e, l, l.paths[i], reliable)
    ensures Kept(d, e, l) && AllKept(d, before, reached, l)
    ensures ok ==> Progress(d, before, e, reached, l, i + 1, reliable)
  {
    hide Kept, AllKept, Result, OnlyPath, NoTemporary;
    AllKeptExtend(d, before, mid, reached, cur, l);
    KeptTransitive(d, cur, e, l);
    KeptResults(d, cur, l);
    forall j | 0 <= j < i && ok
      ensures Cleaned(d, e, l, l.paths[j], reliable)
    {
      if l.paths[j] != l.paths[i] {
        StaysClean(d, cur, e, l, l.paths[i], l.paths[j], reliable);
      }
    }
  }

  /** What each path promises once the marker is gone: a backup that could not be removed counts again. */
  ghost predicate Fallback(d: Disk, e: Disk, l: Layout) {
    forall p :: p in l.paths ==>
      Outcome(e, l, p) == if HasBackup(e, p) then Outcome(Unlinked(d, l.marker), l, p) else Result(d, l, p)
  }

  /** The last step, the removal of the marker, from `e` to `f`. */
  lemma Finished(d: Disk, before: set<Disk>, e: Disk, f: Disk, reached: set<Disk>, l: Layout, reliable: bool)
    requires Apart(l) && Recoverable(d, l) && Progress(d, before, e, reached, l, |l.paths|, reliable)
    requires f == Unlinked(e, l.marker)
    requires SameEntry(d, e, l.marker)
    ensures forall p :: p in l.paths ==> View(f, p) == Result(d, l, p)
    ensures l.marker !in d.names ==> f == e
    ensures Fallback(d, f, l) && OneBackupEach(f, l) && WellFormed(f) && OnlySet(d, f, l)
    ensures reliable ==> Settled(f, l) && Kept(d, f, l)
  {
    hide Result, Handled, InPlace, FixedTests, OwnLinks, AllKept, HasBackup;
    FinishedViews(d, before, e, f, reached, l, reliable);
    MarkerGone(e, f, l);
    UnderwayTransitive(d, e, f, l);
    forall p | p in l.paths
      ensures OneBackup(f, p)
      ensures Outcome(f, l, p) == if HasBackup(f, p) then Outcome(Unlinked(d, l.marker), l, p) else Result(d, l, p)
    {
      FinishedPath(d, e, f, l, p);
    }
    if reliable {
      forall p | p in l.paths
        ensures !HasBackup(f, p) && Result(f, l, p) == View(f, p)
      {
        assert NoTemporary(f, p);
        NoBackupResult(f, l, p);
      }
      NothingToRestore(f, l);
    }
  }

  lemma MarkerGone(e: Disk, f: Disk, l: Layout)
    requires Apart(l) && f == Unlinked(e, l.marker)
    ensures Underway(e, f, l) && (WellFormed(e) ==> WellFormed(f))
  {
    assert forall p :: p in l.paths ==> InPlace(e, f, p);
  }

  lemma FinishedViews(d: Disk, before: set<Disk>, e: Disk, f: Disk, reached: set<Disk>, l: Layout, reliable: bool)
    requires Apart(l) && Progress(d, before, e, reached, l, |l.paths|, reliable)
    requires f == Unlinked(e, l.marker) && SameEntry(d, e, l.marker)
    ensures forall p :: p in l.paths ==> View(f, p) == Result(d, l, p)
    ensures reliable ==> forall p :: p in l.paths ==> NoTemporary(f, p)
    ensures l.marker !in d.names ==> f == e
  {
    hide Kept, AllKept, Result;
    forall p | p in l.paths
      ensures Cleaned(d, f, l, p, reliable)
    {
      var j :| 0 <= j < |l.paths| && l.paths[j] == p;
      assert Cleaned(d, e, l, l.paths[j], reliable);
    }
  }

  lemma FinishedPath(d: Disk, e: Disk, f: Disk, l: Layout, p: Path)
    requires Apart(l) && p in l.paths && Recoverable(d, l) && Kept(d, e, l) && f == Unlinked(e, l.marker)
    requires SameEntry(d, e, l.marker) && View(f, p) == Result(d, l, p)
    ensures OneBackup(f, p)
    ensures Outcome(f, l, p) == if HasBackup(f, p) then Outcome(Unlinked(d, l.marker), l, p) else Result(d, l, p)
  {
    hide FixedTests, OwnLinks, OnlySet, Result, InPlace, Handled;
    assert OneBackup(e, p) && OneBackup(d, p);
    if HasBackup(f, p) {
      var b :| b in f.names && IsBackup(p, b);
      assert b !in l.paths && Unmoved(d, e, b);
      assert b in Unlinked(d, l.marker).names;
      OutcomeOf(f, l, p, b);
      OutcomeOf(Unlinked(d, l.marker), l, p, b);
    } else {
      NoBackupOutcome(f, l, p);
    }
  }

  /** recoverInterruptedInstall.  Whatever recoverable state it starts from, every state that a
      kill can leave it in promises the same set and is itself recoverable; when it succeeds it
      has put that set in place.  If removals fail behind the marker, exactly the paths whose
      backup is left fall back to it; if none fails nothing is left behind, and on such a disk
      recovery does nothing. */
  method Recover(fs: Fs, l: Layout) returns (ok: bool)
    requires fs.Valid() && Apart(l)
    modifies fs
    ensures fs.Valid() && OnlySet(old(fs.disk), fs.disk, l)
    ensures Recoverable(old(fs.disk), l) ==>
              && AllKept(old(fs.disk), old(fs.reached), fs.reached - {fs.disk}, l)
              && (!ok || l.marker !in old(fs.disk).names || ReliableRemoval(fs, l) ==> Kept(old(fs.disk), fs.disk, l))
    ensures Recoverable(old(fs.disk), l) && ok ==>
              && OneBackupEach(fs.disk, l) && l.marker !in fs.disk.names && Fallback(old(fs.disk), fs.disk, l)
              && (forall p :: p in l.paths ==> View(fs.disk, p) == Result(old(fs.disk), l, p))
              && (ReliableRemoval(fs, l) ==> Settled(fs.disk, l))
    ensures Settled(old(fs.disk), l) ==> ok && fs.disk == old(fs.disk)
    ensures Obliging(fs) ==> ok
  {
    hide Kept, AllKept, Recoverable, Result, Fallback, HasBackup, OneBackupEach, NoTemporary, ReliableRemoval;
    ghost var d, before := fs.disk, fs.reached;
    ghost var fair := Recoverable(d, l);
    ghost var reliable := ReliableRemoval(fs, l);
    if fair {
      KeptRefl(d, l);
      NoneAdded(d, before, l);
    }
    var committed := l.marker in fs.disk.names;
    for i := 0 to |l.paths|
      invariant fs.Valid() && OnlySet(d, fs.disk, l) && SameEntry(d, fs.disk, l.marker)
      invariant fair ==> Progress(d, before, fs.disk, fs.reached, l, i, reliable)
      invariant Settled(d, l) ==> fs.disk == d
    {
      ghost var cur, mid := fs.disk, fs.reached;
      ok := RecoverPath(fs, l, l.paths[i], committed);
      OnlyPathIsOnlySet(cur, fs.disk, l, l.paths[i]);
      assert SameEntry(cur, fs.disk, l.marker);
      if Settled(d, l) {
        SettledPath(d, l, l.paths[i]);
      }
      if fair {
        KeptIsRecoverable(d, cur, l);
        ProgressStep(d, before, cur, mid, fs.disk, fs.reached, l, i, ok, reliable);
      }
      if !ok {
        if fair {
          AllKeptBut(d, before, fs.reached, fs.reached, fs.disk, l);
        }
        return;
      }
    }
    ghost var last, reached := fs.disk, fs.reached;
    if fair {
      Finished(d, before, last, Unlinked(last, l.marker), reached, l, reliable);
    }
    ok := true;
    if committed {
      ok := fs.Unlink(l.marker);
    }
    if fair {
      AllKeptBut(d, before, reached, fs.reached, fs.disk, l);
    }
  }

  lemma SettledPath(d: Disk, l: Layout, p: Path)
    requires Settled(d, l) && p in l.paths
    ensures NoTemporary(d, p)
  {
    assert !HasBackup(d, p);
  }

  lemma AllKeptBut(d: Disk, before: set<Disk>, mid: set<Disk>, reached: set<Disk>, f: Disk, l: Layout)
    requires AllKept(d, before, mid, l) && reached <= mid + {f}
    ensures AllKept(d, before, reached - {f}, l)
    ensures Kept(d, f, l) ==> AllKept(d, before, reached, l)
  {
    hide Kept;
  }

  lemma KeptMarker(d: Disk, s: Disk, l: Layout)
    requires Apart(l) && Kept(d, s, l)
    ensures l.marker !in d.names ==> l.marker !in s.names
  {
    NoNewMarker(d, s, l);
  }

  /** Recovery, killed and started again any number of times, in states of the killer's choice, and
      then left to run: the set it installs is the one that the first start would have installed.  Without a
      marker no removal needs to succeed. */
  method RecoverMany(fs: Fs, l: Layout, kills: seq<Disk>) returns (ok: bool)
    requires fs.Valid() && Apart(l) && Recoverable(fs.disk, l)
    requires l.marker !in fs.disk.names || ReliableRemoval(fs, l)
    modifies fs
    ensures fs.Valid() && Kept(old(fs.disk), fs.disk, l)
    ensures ok ==> forall p :: p in l.paths ==> View(fs.disk, p) == Result(old(fs.disk), l, p)
    ensures ok && ReliableRemoval(fs, l) ==> Settled(fs.disk, l)
    ensures Obliging(fs) ==> ok
  {
    hide Kept, AllKept, Recoverable, Result, Fallback, Settled, OneBackupEach, ReliableRemoval;
    ghost var d := fs.disk;
    KeptRefl(d, l);
    for i := 0 to |kills|
      invariant fs.Valid() && Kept(d, fs.disk, l)
    {
      fs.Restart();
      ghost var start := fs.disk;
      KeptIsRecoverable(d, start, l);
      KeptMarker(d, start, l);
      var _ := Recover(fs, l);
      KilledInRecovery(d, start, fs.disk, fs.reached, l);
      if kills[i] in fs.reached {
        KeptIsRecoverable(d, kills[i], l);
        RecoverableIsWellFormed(kills[i], l);
        fs.Kill(kills[i]);
      }
    }
    ghost var last := fs.disk;
    KeptIsRecoverable(d, last, l);
    KeptMarker(d, last, l);
    ok := Recover(fs, l);
    KeptTransitive(d, last, fs.disk, l);
    KeptResults(d, last, l);
  }

  lemma KilledInRecovery(d: Disk, start: Disk, e: Disk, reached: set<Disk>, l: Layout)
    requires Apart(l) && Kept(d, start, l) && Kept(start, e, l) && AllKept(start, {start}, reached - {e}, l)
    ensures forall s :: s in reached ==> Kept(d, s, l)
  {
    hide Kept;
    forall s | s in reached
      ensures Kept(d, s, l)
    {
      if s != start {
        KeptTransitive(d, start, s, l);
      }
    }
  }

  lemma RecoverableIsWellFormed(d: Disk, l: Layout)
    requires Recoverable(d, l)
    ensures WellFormed(d)
  {
  }

  lemma KeptResults(d: Disk, s: Disk, l: Layout)
    requires Kept(d, s, l)
    ensures forall p :: p in l.paths ==> Result(s, l, p) == Result(d, l, p)
  {
  }
}
