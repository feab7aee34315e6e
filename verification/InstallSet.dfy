/** The names of one install set and what an interrupted install of it means.  `Outcome` is what the
    backups promise to the next recovery at an install path; every theorem about kills says which steps keep
    it. */
module InstallSet {
  import opened Options
  import opened FileSystem

  /** The install paths that one update replaces together, and the commit marker. */
  datatype Layout = Layout(paths: seq<Path>, marker: Path)

  function BackupPrefix(p: Path): string {
    "." + p.base + "-previous-"
  }

  function CandidatePrefix(p: Path): string {
    "." + p.base + "-candidate-"
  }

  /** Whether the glob pattern `prefix*` lists `name`. */
  predicate Matches(prefix: string, name: string) {
    prefix <= name
  }

  predicate IsBackup(p: Path, q: Path) {
    q.dir == p.dir && Matches(BackupPrefix(p), q.base)
  }

  predicate IsCandidate(p: Path, q: Path) {
    q.dir == p.dir && Matches(CandidatePrefix(p), q.base)
  }

  predicate IsTemporary(l: Layout, q: Path) {
    exists p :: p in l.paths && (IsBackup(p, q) || IsCandidate(p, q))
  }

  predicate IsAnyCandidate(l: Layout, q: Path) {
    exists p :: p in l.paths && IsCandidate(p, q)
  }

  predicate InSet(l: Layout, q: Path) {
    q == l.marker || q in l.paths || IsTemporary(l, q)
  }

  // ---------- Names that recovery cannot mix up ----------

  predicate Overlap(a: string, b: string) {
    a <= b || b <= a
  }

  function MarkerPath(stateDir: string): Path {
    Path(stateDir, "update-install-committed")
  }

  /** What a caller can check about the names of a set. */
  predicate WellNamed(l: Layout) {
    && l.marker == MarkerPath(l.marker.dir)
    && l.marker !in l.paths
    && (forall p, q :: p in l.paths && q in l.paths && p != q && p.dir == q.dir ==>
          !Overlap(BackupPrefix(p), BackupPrefix(q)))
    && (forall p, q :: p in l.paths && q in l.paths && p.dir == q.dir ==>
          !Overlap(BackupPrefix(p), CandidatePrefix(q)))
    && (forall p, q :: p in l.paths && q in l.paths ==> !IsBackup(p, q) && !IsCandidate(p, q))
  }

  /** What recovery needs of the names: no file name plays two roles. */
  ghost predicate Apart(l: Layout) {
    && l.marker !in l.paths
    && (forall p :: p in l.paths ==> !IsBackup(p, l.marker) && !IsCandidate(p, l.marker))
    && (forall p, q :: p in l.paths && q in l.paths ==> !IsBackup(p, q) && !IsCandidate(p, q))
    && (forall p, q, f :: p in l.paths && q in l.paths && IsBackup(p, f) && IsBackup(q, f) ==> p == q)
    && (forall p, q, f :: p in l.paths && q in l.paths && IsBackup(p, f) ==> !IsCandidate(q, f))
  }

  /** Two patterns `a*` and `b*` list a common name exactly when one prefix extends the other. */
  lemma CommonName(a: string, b: string)
    ensures (exists s :: Matches(a, s) && Matches(b, s)) <==> Overlap(a, b)
  {
    if Overlap(a, b) {
      var s := if a <= b then b else a;
      assert Matches(a, s) && Matches(b, s);
    }
    if exists s :: Matches(a, s) && Matches(b, s) {
      var s :| Matches(a, s) && Matches(b, s);
      assert a == s[..|a|] && b == s[..|b|];
      if |a| <= |b| {
        assert a == b[..|a|];
      } else {
        assert b == a[..|b|];
      }
    }
  }

  lemma MarkerIsNoTemporary(stateDir: string, p: Path)
    ensures !IsBackup(p, MarkerPath(stateDir)) && !IsCandidate(p, MarkerPath(stateDir))
  {
    assert BackupPrefix(p)[0] == '.' && CandidatePrefix(p)[0] == '.';
    assert MarkerPath(stateDir).base[0] == 'u';
  }

  /** The name check is exact: it passes if and only if no file name plays two roles. */
  lemma WellNamedIsExact(l: Layout)
    requires l.marker == MarkerPath(l.marker.dir)
    ensures WellNamed(l) <==> Apart(l)
  {
    forall p, q | p in l.paths && q in l.paths && p.dir == q.dir
      ensures Overlap(BackupPrefix(p), BackupPrefix(q)) <==>
              exists f :: IsBackup(p, f) && IsBackup(q, f)
      ensures Overlap(BackupPrefix(p), CandidatePrefix(q)) <==>
              exists f :: IsBackup(p, f) && IsCandidate(q, f)
    {
      OverlapIsSharedFile(p, q);
    }
    forall p | p in l.paths
      ensures !IsBackup(p, l.marker) && !IsCandidate(p, l.marker)
    {
      MarkerIsNoTemporary(l.marker.dir, p);
    }
  }

  lemma OverlapIsSharedFile(p: Path, q: Path)
    requires p.dir == q.dir
    ensures Overlap(BackupPrefix(p), BackupPrefix(q)) <==>
            exists f :: IsBackup(p, f) && IsBackup(q, f)
    ensures Overlap(BackupPrefix(p), CandidatePrefix(q)) <==>
            exists f :: IsBackup(p, f) && IsCandidate(q, f)
  {
    CommonName(BackupPrefix(p), BackupPrefix(q));
    CommonName(BackupPrefix(p), CandidatePrefix(q));
    if Overlap(BackupPrefix(p), BackupPrefix(q)) {
      var s :| Matches(BackupPrefix(p), s) && Matches(BackupPrefix(q), s);
      assert IsBackup(p, Path(p.dir, s)) && IsBackup(q, Path(p.dir, s));
    }
    if Overlap(BackupPrefix(p), CandidatePrefix(q)) {
      var s :| Matches(BackupPrefix(p), s) && Matches(CandidatePrefix(q), s);
      assert IsBackup(p, Path(p.dir, s)) && IsCandidate(q, Path(p.dir, s));
    }
  }

  // ---------- What the backups promise ----------

  ghost predicate HasBackup(d: Disk, p: Path) {
    exists b :: b in d.names && IsBackup(p, b)
  }

  ghost predicate OneBackup(d: Disk, p: Path) {
    forall b, c :: b in d.names && c in d.names && IsBackup(p, b) && IsBackup(p, c) ==> b == c
  }

  ghost predicate OneBackupEach(d: Disk, l: Layout) {
    forall p :: p in l.paths ==> OneBackup(d, p)
  }

  /** The entry that the next recovery finds for `p`: its backup, unless there is none or the install was
      committed. */
  ghost function Outcome(d: Disk, l: Layout, p: Path): Option<Node> {
    if l.marker in d.names || !HasBackup(d, p) then View(d, p)
    else var b :| b in d.names && IsBackup(p, b); View(d, b)
  }

  /** Nothing of an install is left behind. */
  ghost predicate Settled(d: Disk, l: Layout) {
    && NoLeftovers(d, l)
    && (forall p, q :: p in l.paths && IsCandidate(p, q) ==> q !in d.names)
  }

  ghost predicate NoCandidates(d: Disk, l: Layout) {
    forall q :: IsAnyCandidate(l, q) ==> q !in d.names
  }

  /** Every candidate on `e` was there on `d`. */
  ghost predicate NoNewCandidates(d: Disk, e: Disk, l: Layout) {
    forall q :: IsAnyCandidate(l, q) && q in e.names ==> q in d.names
  }

  /** Neither a marker nor a backup is left. */
  ghost predicate NoLeftovers(d: Disk, l: Layout) {
    && l.marker !in d.names
    && (forall p :: p in l.paths ==> !HasBackup(d, p))
  }

  // ---------- What surrounds the set ----------

  /** Nothing outside the set and its temporary files differs. */
  ghost predicate OnlySet(d: Disk, t: Disk, l: Layout) {
    forall q :: !InSet(l, q) ==> SameEntry(d, t, q) && View(d, q) == View(t, q)
  }
}
