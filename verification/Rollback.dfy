/** Why the reverse order of the rollback undoes an install exactly, even when one install path
    occurs twice: every entry is undone on the disk that its own replacement left. */
module Rollback {
  import opened Options
  import opened FileSystem
  import opened InstallSet
  import opened InstallLinks
  import opened InstallStates

  predicate IsCandidatePath(cands: seq<Candidate>, q: Path) {
    exists c :: c in cands && c.path == q
  }

  predicate IsInstallPath(cands: seq<Candidate>, q: Path) {
    exists c :: c in cands && c.installPath == q
  }

  /** `t` is `s` after candidate `c` was backed up and renamed into place as entry `e`. */
  ghost predicate Advanced(s: Disk, t: Disk, e: Replaced, c: Candidate) {
    var p := c.installPath;
    && e.installPath == p
    && WellFormed(s) && WellFormed(t) && Grows(s, t)
    && p in t.names && c.path !in t.names
    && (forall q :: q != p && q != c.path && Some(q) != e.backup ==> SameEntry(s, t, q))
    && match e.backup
       case None => p !in s.names
       case Some(b) =>
         && IsBackup(p, b) && b !in s.names && b in t.names
         && View(s, p).Some? && View(t, b) == View(s, p)
         && t.names[b] != t.names[p]
         && (t.names[b] == s.names[p] || t.names[b] >= s.next)
  }

  /** Apart from the candidates and the marker, `d` shows what `s` shows.  An install path may by
      now be a fresh copy of what it was. */
  ghost predicate SameAs(d: Disk, s: Disk, l: Layout, cands: seq<Candidate>) {
    && WellFormed(d) && WellFormed(s) && Grows(s, d)
    && forall q :: !IsCandidatePath(cands, q) && q != l.marker ==> SameFileAs(d, s, cands, q)
  }

  ghost predicate SameFileAs(d: Disk, s: Disk, cands: seq<Candidate>, q: Path) {
    && (q in d.names <==> q in s.names)
    && (q in d.names ==>
          && View(d, q) == View(s, q)
          && (d.names[q] == s.names[q] || (d.names[q] >= s.next && IsInstallPath(cands, q))))
  }

  lemma AdvancedStep(s: Disk, t: Disk, c: Candidate, backup: Option<Path>)
    requires WellFormed(s) && BackedUp(s, t, c.installPath, backup)
    requires c.path in t.names && Unshared(s, c.path) && c.path != c.installPath
    requires backup != Some(c.path) && backup != Some(c.installPath)
    ensures Advanced(s, Renamed(t, c.path, c.installPath), Replaced(c.installPath, backup), c)
  {
    assert SameEntry(s, t, c.path);
    var e := Renamed(t, c.path, c.installPath);
    forall q | q != c.installPath && q != c.path && Some(q) != backup
      ensures SameEntry(s, e, q)
    {
      assert SameEntry(s, t, q);
    }
  }

  /** Undoing the last entry leads back to the disk before it, as far as anyone can see. */
  lemma UndoIsExact(d: Disk, s: Disk, t: Disk, u: Disk, l: Layout, cands: seq<Candidate>, e: Replaced, c: Candidate)
    requires Apart(l) && c in cands
    requires forall x :: x in cands ==> x.installPath in l.paths && IsCandidate(x.installPath, x.path)
    requires Advanced(s, t, e, c) && SameAs(d, t, l, cands)
    requires e.backup.Some? && e.backup.value in d.names ==> u == Renamed(d, e.backup.value, e.installPath)
    requires e.backup.None? ==> u == Unlinked(d, e.installPath)
    ensures e.backup.Some? ==> e.backup.value in d.names
    ensures SameAs(u, s, l, cands)
  {
    var p := e.installPath;
    NamesOfEntry(l, cands, c, e);
    assert SameFileAs(d, t, cands, p);
    if e.backup.Some? {
      assert SameFileAs(d, t, cands, e.backup.value);
    }
    forall q | !IsCandidatePath(cands, q) && q != l.marker
      ensures SameFileAs(u, s, cands, q)
    {
      assert SameFileAs(d, t, cands, q);
      if q != p && Some(q) != e.backup {
        assert SameEntry(s, t, q);
      }
    }
  }

  lemma NamesOfEntry(l: Layout, cands: seq<Candidate>, c: Candidate, e: Replaced)
    requires Apart(l) && c in cands && e.installPath == c.installPath
    requires forall x :: x in cands ==> x.installPath in l.paths && IsCandidate(x.installPath, x.path)
    requires e.backup.Some? ==> IsBackup(e.installPath, e.backup.value)
    ensures !IsCandidatePath(cands, e.installPath) && IsInstallPath(cands, e.installPath) && e.installPath != l.marker
    ensures e.backup.Some? ==>
              && !IsCandidatePath(cands, e.backup.value) && !IsInstallPath(cands, e.backup.value)
              && e.backup.value != l.marker && e.backup.value != e.installPath
  {
  }
}
