/** Where the crash contract of the installer stops: runs in which it fails, and for each assumption
    exactly when the contract holds without it. */
module InstallLimits {
  import opened Options
  import opened FileSystem
  import opened InstallSet
  import opened Recovery
  import opened InstallLinks
  import opened InstallStates
  import opened InstallPromise
  import opened Install
  import opened InstallRuns
  import opened Rollback

  // ---------- A kill before the marker ----------

  lemma CalmIsExact(d: Disk, l: Layout, cands: seq<Candidate>)
    requires Calm(d, l, cands)
    ensures AllExact(d, {d}, l) && StagedSet(d, l, cands) && l.marker !in d.names && Apart(l)
  {
    forall p | p in l.paths
      ensures Outcome(d, l, p) == View(d, p)
    {
      assert !HasBackup(d, p);
    }
  }

  /** The install holds empty files only. */
  predicate OnlyEmptyFiles(d: Disk, cands: seq<Candidate>) {
    forall c :: c in cands ==> View(d, c.installPath) == Some(File([]))
  }

  lemma HarmlessIsEmpty(d: Disk, cands: seq<Candidate>, reserved: set<Path>, added: set<Path>)
    requires WellFormed(d) && AllEntries(d, cands, reserved, added) && Sourced(d, cands, reserved, added)
    ensures Harmless(d, reserved, added) <==> OnlyEmptyFiles(d, cands)
  {
    if OnlyEmptyFiles(d, cands) {
      forall p | p in reserved
        ensures View(d, p) == Some(File([]))
      {
        var c :| c in cands && c.installPath == p;
      }
      forall p | IsInstallPath(cands, p)
        ensures p in d.names
      {
        var c :| c in cands && c.installPath == p;
        assert View(d, c.installPath) == Some(File([]));
      }
      assert forall p :: p !in added;
    }
    if Harmless(d, reserved, added) {
      forall c | c in cands
        ensures View(d, c.installPath) == Some(File([]))
      {
        assert c.installPath !in added;
      }
    }
  }

  /** The contract says that a kill before the marker ends with the old set.  A run that installs
      anything keeps it, in all the states before the marker, if and only if every install path held an empty
      regular file: the run reserves each backup name with an empty file, which recovery installs, and
      an entry that was not there before has no backup at all. */
  method KilledBeforeCommit(fs: Fs, l: Layout, cands: seq<Candidate>) returns (ok: bool, ghost early: set<Disk>)
    requires fs.Valid() && Calm(fs.disk, l, cands) && fs.reached == {fs.disk} && cands != []
    modifies fs
    ensures fs.Valid() && early <= fs.reached && old(fs.disk) in early
    ensures forall s :: s in early ==> l.marker !in s.names
    ensures ok ==> forall s :: s in fs.reached ==> s in early || l.marker in s.names || s == fs.disk
    ensures ok ==> (AllExact(old(fs.disk), early, l) <==> OnlyEmptyFiles(old(fs.disk), cands))
    ensures Obliging(fs) ==> ok
  {
    hide AllExact, AllBefore, Calm, NothingNew, AfterCommit, KeepsOld, Concluded, NoRemoval, Apart,
         StagedSet, Harmless, AllEntries, OnlyEmptyFiles, Swapped;
    ghost var d := fs.disk;
    CalmIsExact(d, l, cands);
    var restored;
    ghost var trace;
    ok, restored, trace := InstallCandidates(fs, l, cands);
    early := trace.early;
    EarlyUnmarked(d, early, l, cands);
    if ok {
      HarmlessIsEmpty(d, cands, trace.reserved, trace.added);
    }
  }

  lemma EarlyUnmarked(d: Disk, early: set<Disk>, l: Layout, cands: seq<Candidate>)
    requires AllBefore(d, {d}, early, l, cands) && l.marker !in d.names
    ensures forall s :: s in early ==> l.marker !in s.names
  {
    hide Tracked, PromisesOld;
    forall s | s in early && s != d
      ensures l.marker !in s.names
    {
      assert BeforeCommit(d, s, l, cands);
    }
  }

  /** What the backups promise is what recovery installs, unless a changed link leads out of the set to the
      file that the old one led to. */
  lemma BackupsDecide(d: Disk, s: Disk, l: Layout, cands: seq<Candidate>, gens: seq<Generation>, g: Generation,
                      h: Generation)
    requires Changes(d, d, l, cands, gens, g, h) && BeforeCommit(d, s, l, cands)
    ensures Recoverable(s, l)
    ensures forall p :: p in l.paths ==>
              Result(s, l, p) == if Exchanged(s, l, g, h, p) && Alike(d, l, p, g[p], h[p]) then At(h, p) else Outcome(s, l, p)
  {
    hide Tracked, Recoverable, Rooted, NoLinkToTemporary, Result, Outcome, Alike, PromisesOld;
    assert Tracked(d, s, l, cands) && l.marker !in s.names;
    TrackedIsSound(d, d, s, l, cands, gens, g, h);
  }

  // ---------- The removal of a backup behind the marker ----------

  /** The error of that removal is ignored and the marker goes: an entry whose backup stays falls back to what
      it was, although the install has succeeded.  If each backup either can be removed or cannot, the set is the
      new one if and only if every entry with a backup that cannot be removed was not changed. */
  method StuckBackup(fs: Fs, l: Layout, cands: seq<Candidate>) returns (ok: bool)
    requires fs.Valid() && Calm(fs.disk, l, cands)
    requires forall p :: p in l.paths ==> NoDiscard(fs, p) || SureDiscard(fs, p)
    modifies fs
    ensures fs.Valid()
    ensures ok ==> forall c :: c in cands && c.installPath in old(fs.disk).names && NoDiscard(fs, c.installPath) ==>
                     && Outcome(fs.disk, l, c.installPath) == View(old(fs.disk), c.installPath)
                     && View(fs.disk, c.installPath) == View(old(fs.disk), c.path)
    ensures ok ==> ((forall p :: p in l.paths ==> Outcome(fs.disk, l, p) == NewView(old(fs.disk), cands, p)) <==>
                    (forall c :: c in cands && c.installPath in old(fs.disk).names && NoDiscard(fs, c.installPath) ==>
                       View(old(fs.disk), c.installPath) == View(old(fs.disk), c.path)))
    ensures Obliging(fs) ==> ok
  {
    hide AllExact, AllBefore, Judged, Calm, NothingNew, AfterCommit, KeepsOld, Apart, StagedSet,
         AllEntries, NoDiscard, SureDiscard, HasBackup, NewView, Outcome, Tracked, Swapped, NoRemoval;
    ghost var d := fs.disk;
    CalmIsExact(d, l, cands);
    var restored;
    ghost var trace;
    ok, restored, trace := InstallCandidates(fs, l, cands);
    if ok {
      if trace.written {
        StuckAreOld(fs, d, fs.disk, l, cands);
      } else {
        NothingStuck(d, fs.disk, l, cands);
      }
    }
  }

  lemma NothingStuck(d: Disk, e: Disk, l: Layout, cands: seq<Candidate>)
    requires Calm(d, l, cands) && cands == [] && KeepsOld(d, e, l, cands)
    ensures forall p :: p in l.paths ==> Outcome(e, l, p) == NewView(d, cands, p)
  {
    hide Tracked, Outcome;
  }

  lemma StuckAreOld(fs: Fs, d: Disk, e: Disk, l: Layout, cands: seq<Candidate>)
    requires Calm(d, l, cands) && Concluded(d, e, l, cands)
    requires forall p :: p in l.paths ==> NoDiscard(fs, p) || SureDiscard(fs, p)
    requires forall p :: p in l.paths && SureDiscard(fs, p) ==> !HasBackup(e, p)
    requires forall c :: c in cands && c.installPath in d.names && NoDiscard(fs, c.installPath) ==>
               HasBackup(e, c.installPath)
    ensures forall c :: c in cands && c.installPath in d.names && NoDiscard(fs, c.installPath) ==>
              && Outcome(e, l, c.installPath) == View(d, c.installPath)
              && View(e, c.installPath) == View(d, c.path)
    ensures (forall p :: p in l.paths ==> Outcome(e, l, p) == NewView(d, cands, p)) <==>
            (forall c :: c in cands && c.installPath in d.names && NoDiscard(fs, c.installPath) ==>
               View(d, c.installPath) == View(d, c.path))
  {
    ConcludedIsNew(d, e, l, cands);
    hide NoDiscard, SureDiscard, HasBackup, Outcome, Calm, Concluded, NewView;
    forall c | c in cands
      ensures c.installPath in l.paths && NewView(d, cands, c.installPath) == View(d, c.path) == View(e, c.installPath)
      ensures HasBackup(e, c.installPath) ==> Outcome(e, l, c.installPath) == View(d, c.installPath)
    {
      CandidateInSet(d, l, cands, c);
      NewViewIs(d, cands, c);
      ConcludedAt(d, e, l, cands, c.installPath);
    }
    forall p | p in l.paths && HasBackup(e, p) && NewView(d, cands, p) != View(d, p)
      ensures exists c :: c in cands && c.installPath == p && p in d.names && NoDiscard(fs, p)
    {
      BackedIsInstalled(d, e, l, cands, p);
    }
  }

  lemma ConcludedAt(d: Disk, e: Disk, l: Layout, cands: seq<Candidate>, p: Path)
    requires Concluded(d, e, l, cands) && p in l.paths
    ensures View(e, p) == NewView(d, cands, p) && (HasBackup(e, p) ==> Outcome(e, l, p) == View(d, p))
  {
    hide Tracked, NewView, HasBackup, Outcome;
  }

  lemma BackedIsInstalled(d: Disk, e: Disk, l: Layout, cands: seq<Candidate>, p: Path)
    requires Concluded(d, e, l, cands) && p in l.paths && HasBackup(e, p) && NewView(d, cands, p) != View(d, p)
    ensures exists c :: c in cands && c.installPath == p && p in d.names
  {
    var b :| b in e.names && IsBackup(p, b);
    assert Traced(e, p, View(d, p), NewView(d, cands, p));
    assert BackupFine(e, p, b, View(d, p));
    assert View(e, p) == NewView(d, cands, p);
  }

  lemma CandidateInSet(d: Disk, l: Layout, cands: seq<Candidate>, c: Candidate)
    requires Calm(d, l, cands) && c in cands
    ensures c.installPath in l.paths && Distinct(cands)
  {
  }

  // ---------- The write of the marker ----------

  /** A marker write that fails leaves the marker.  From then on, while the install is rolled back, recovery keeps
      whatever is in place: the contract holds in all those states if and only if the install changes nothing. */
  method FailedMarkerWrite(fs: Fs, l: Layout, cands: seq<Candidate>)
    returns (ok: bool, ghost marked: bool, ghost late: set<Disk>)
    requires fs.Valid() && Calm(fs.disk, l, cands) && cands != [] && fs.reached == {fs.disk}
    requires forall t :: fs.fails(Write, l.marker, t)
    modifies fs
    ensures fs.Valid() && !ok && late <= fs.reached
    ensures marked <==> l.marker in fs.disk.names
    ensures Markable(fs, l, cands) ==> marked
    ensures forall s :: s in fs.reached ==> (s in late <==> l.marker in s.names)
    ensures marked ==> fs.disk in late && (AllExact(old(fs.disk), late, l) <==> NothingNew(old(fs.disk), l, cands))
  {
    hide Markable, AllExact, AllBefore, Judged, Calm, NothingNew, AfterCommit, KeepsOld, Concluded, Apart,
         StagedSet, AllEntries, Swapped, NoRemoval;
    ghost var d := fs.disk;
    CalmIsExact(d, l, cands);
    var restored;
    ghost var trace;
    ok, restored, trace := InstallCandidates(fs, l, cands);
    marked, late := trace.marked, trace.late;
    EarlyUnmarked(d, trace.early, l, cands);
    if !marked {
      RolledUnmarked(d, fs.disk, l, cands, trace);
    }
  }

  lemma RolledUnmarked(d: Disk, e: Disk, l: Layout, cands: seq<Candidate>, t: Trace)
    requires RolledTo(d, e, l, cands, t.reserved, t.stuck)
    ensures l.marker !in e.names
  {
    hide Tracked, PromisesOld;
  }

  // ---------- The removal of a reserved name ----------

  /** Its error is ignored too: as soon as the name is reserved, the empty file stays under it, no backup can be
      made, and the install stops with an error and without a marker.  The next recovery keeps the entry if and only if it
      was empty. */
  method StuckReservation(fs: Fs, l: Layout, cands: seq<Candidate>, k: nat) returns (ok: bool, ghost reserved: bool)
    requires fs.Valid() && Calm(fs.disk, l, cands) && k < |cands| && NoRemoval(fs, cands[k].installPath)
    modifies fs
    ensures fs.Valid()
    ensures cands[k].installPath in old(fs.disk).names ==> !ok
    ensures (forall j :: 0 <= j < k ==> Replaceable(fs, cands[j])) && Reserves(fs, old(fs.disk), cands[k]) ==> reserved
    ensures reserved ==>
              && !ok && l.marker !in fs.disk.names
              && (Outcome(fs.disk, l, cands[k].installPath) == View(old(fs.disk), cands[k].installPath) <==>
                  View(old(fs.disk), cands[k].installPath) == Some(File([])))
  {
    hide Replaceable, Reserves, AllExact, AllBefore, Judged, Calm, NothingNew, AfterCommit, KeepsOld, Concluded, Apart,
         BeforeCommit,
         StagedSet, Swapped, NoRemoval, SureDiscard, NoDiscard, HasBackup, Outcome;
    ghost var d := fs.disk;
    CalmIsExact(d, l, cands);
    var restored;
    ghost var trace;
    ok, restored, trace := InstallCandidates(fs, l, cands);
    assert cands[k] in cands;
    reserved := cands[k].installPath in trace.reserved;
  }

  // ---------- Two backups of one path ----------

  /** With two leftover backups of one path, a kill between the two steps of recovery makes the
      next recovery install the other backup: recovery is then re-entrant exactly when both show one entry. */
  lemma TwoBackups(d: Disk, l: Layout, p: Path, a: Path, b: Path)
    requires WellFormed(d) && l.marker !in d.names && l.marker != p
    requires IsBackup(p, a) && IsBackup(p, b) && a != b && !IsBackup(p, p)
    requires forall c :: c in d.names && IsBackup(p, c) <==> c == a || c == b
    requires p in d.names && d.names[a] != d.names[p]
    ensures var t := Renamed(d, a, p);
            && View(t, p) == View(d, a) && Outcome(t, l, p) == View(d, b)
            && (Outcome(t, l, p) == View(t, p) <==> View(d, a) == View(d, b))
  {
    var t := Renamed(d, a, p);
    assert b in t.names && OneBackup(t, p);
  }

  // ---------- Recovery over another set ----------

  /** Recovery over a part of the set leaves every other path as the killed install did, with its backup: the
      paths of the part are rolled back, the others are not.  If the install was committed, the
      marker is gone with the backups of the others still there, so a later recovery of the whole set rolls
      just those back. */
  method RecoveredInPart(fs: Fs, l: Layout, part: Layout, p: Path, q: Path, b: Path) returns (ok: bool)
    requires fs.Valid() && Apart(l) && Apart(part) && Recoverable(fs.disk, part) && OneBackupEach(fs.disk, l)
    requires part.marker == l.marker && p in part.paths && q in l.paths && q !in part.paths
    requires forall x :: x in part.paths ==> x in l.paths
    requires b in fs.disk.names && IsBackup(q, b)
    modifies fs
    ensures fs.Valid()
    ensures ok ==>
              && View(fs.disk, p) == Result(old(fs.disk), l, p)
              && View(fs.disk, q) == View(old(fs.disk), q)
              && l.marker !in fs.disk.names && Outcome(fs.disk, l, q) == View(old(fs.disk), b)
    ensures Obliging(fs) ==> ok
  {
    hide AllKept, Kept, Recoverable, Settled, Fallback, OneBackupEach, Result;
    ghost var d := fs.disk;
    assert !InSet(part, q) && !InSet(part, b);
    SameResult(d, part, l, p);
    assert forall x :: IsBackup(q, x) ==> !InSet(part, x);
    ok := Recover(fs, part);
    assert SameEntry(d, fs.disk, q) && SameEntry(d, fs.disk, b);
    assert OneBackup(d, q) by {
      EachIsOne(d, l, q);
    }
    assert OneBackup(fs.disk, q) by {
      forall x | IsBackup(q, x)
        ensures SameEntry(d, fs.disk, x)
      {
        assert !InSet(part, x);
      }
    }
    if ok {
      OutcomeOf(fs.disk, l, q, b);
    }
  }

  lemma SameResult(d: Disk, part: Layout, l: Layout, p: Path)
    requires part.marker == l.marker
    ensures Result(d, part, p) == Result(d, l, p)
  {
    assert Outcome(d, part, p) == Outcome(d, l, p);
  }

  lemma EachIsOne(d: Disk, l: Layout, q: Path)
    requires OneBackupEach(d, l) && q in l.paths
    ensures OneBackup(d, q)
  {
  }

  // ---------- Links that lead out of the set to one file ----------

  function Views(d: Disk, l: Layout): Generation {
    map p | p in l.paths && View(d, p).Some? :: View(d, p).value
  }

  ghost function NewViews(d: Disk, l: Layout, cands: seq<Candidate>): Generation {
    map p | p in l.paths && NewView(d, cands, p).Some? :: NewView(d, cands, p).value
  }

  lemma ViewsChange(d: Disk, l: Layout, cands: seq<Candidate>, gens: seq<Generation>)
    requires Calm(d, l, cands) && gens == [Views(d, l), NewViews(d, l, cands)] && LinksDiscerned(d, l, gens)
    ensures Changes(d, d, l, cands, gens, Views(d, l), NewViews(d, l, cands))
  {
    hide LinksDiscerned, Apart, NewView, Rooted, Calm, Fits, Views, NewViews;
    CalmIsRooted(d, l, cands);
    ViewsFit(d, l, cands, gens);
    forall p | p in l.paths
      ensures View(d, p) == At(Views(d, l), p) && NewView(d, cands, p) == At(NewViews(d, l, cands), p)
    {
      ViewsAt(d, l, cands, p);
    }
  }

  lemma ViewsFit(d: Disk, l: Layout, cands: seq<Candidate>, gens: seq<Generation>)
    requires gens == [Views(d, l), NewViews(d, l, cands)]
    ensures Fits(l, gens, Views(d, l)) && Fits(l, gens, NewViews(d, l, cands))
  {
    hide View, NewView, Views, NewViews;
    assert gens[0] == Views(d, l) && gens[1] == NewViews(d, l, cands);
  }

  lemma CalmIsRooted(d: Disk, l: Layout, cands: seq<Candidate>)
    requires Calm(d, l, cands)
    ensures Rooted(d, d, l) && WellFormed(d) && Apart(l)
  {
    hide Rooted;
    RootedRefl(d, l);
  }

  lemma LinksMeet(d: Disk, l: Layout, p: Path, x: Path)
    requires View(d, p).Some? && View(d, p).value.Link? && View(d, x).Some? && View(d, x).value.Link?
    requires Out(d, l, View(d, p).value) && Out(d, l, View(d, x).value) && View(d, p) != View(d, x)
    ensures Alike(d, l, p, View(d, p).value, View(d, x).value) <==> SameFile(d, p, x)
  {
    hide Out, Resolve;
    LinkStat(d, p);
    LinkStat(d, x);
  }

  lemma {:induction false} LinkStat(d: Disk, x: Path)
    requires View(d, x).Some? && View(d, x).value.Link?
    ensures Stat(d, x) == Resolve(d, View(d, x).value.target, MAX_HOPS - 1)
  {
  }

  /** Where the new link is in place before the marker, the backup is there and shows the old one. */
  lemma KilledLink(d: Disk, s: Disk, l: Layout, cands: seq<Candidate>, c: Candidate)
    requires Calm(d, l, cands) && BeforeCommit(d, s, l, cands) && c in cands
    requires LinksDiscerned(d, l, [Views(d, l), NewViews(d, l, cands)])
    requires View(d, c.installPath).Some? && View(d, c.installPath).value.Link?
    requires View(d, c.path).Some? && View(d, c.path).value.Link?
    requires Out(d, l, View(d, c.installPath).value) && Out(d, l, View(d, c.path).value)
    requires View(d, c.installPath) != View(d, c.path)
    ensures Recoverable(s, l) && c.installPath in l.paths
    ensures View(s, c.installPath) == View(d, c.path) ==>
              Result(s, l, c.installPath) ==
              if SameFile(d, c.installPath, c.path) then View(d, c.path) else View(d, c.installPath)
  {
    hide Calm, LinksDiscerned, Recoverable, Result, Out, BeforeCommit, SameFile, Outcome, HasBackup, NewView, Alike,
         Changes, Views, NewViews, Distinct, Rooted, Apart;
    var p, g, h := c.installPath, Views(d, l), NewViews(d, l, cands);
    CandidateInSet(d, l, cands, c);
    NewViewIs(d, cands, c);
    ViewsAt(d, l, cands, p);
    CalmIsRooted(d, l, cands);
    ViewsChange(d, l, cands, [g, h]);
    BackupsDecide(d, s, l, cands, [g, h], g, h);
    LinksMeet(d, l, p, c.path);
    if View(s, p) == View(d, c.path) {
      OldIsBacked(d, s, l, cands, p);
    }
  }

  lemma ViewsAt(d: Disk, l: Layout, cands: seq<Candidate>, p: Path)
    requires p in l.paths
    ensures At(Views(d, l), p) == View(d, p) && At(NewViews(d, l, cands), p) == NewView(d, cands, p)
  {
    hide NewView;
  }

  /** An entry that was there before, and is the new one now, has a backup that shows the old one. */
  lemma OldIsBacked(d: Disk, s: Disk, l: Layout, cands: seq<Candidate>, p: Path)
    requires WellFormed(d) && BeforeCommit(d, s, l, cands) && p in l.paths && View(d, p).Some?
    requires View(s, p) != View(d, p)
    ensures l.marker !in s.names && Outcome(s, l, p) == View(d, p) && HasBackup(s, p)
  {
    hide Tracked, NewView;
    assert PromisesOld(d, s, l, cands, p);
  }

  lemma SwappedShows(d: Disk, s: Disk, l: Layout, cands: seq<Candidate>, c: Candidate)
    requires Calm(d, l, cands) && Swapped(d, s, l, cands) && c in cands
    ensures View(s, c.installPath) == View(d, c.path)
  {
    hide Calm, Tracked, NewView;
    CandidateInSet(d, l, cands, c);
    NewViewIs(d, cands, c);
  }

  /** An install that is killed in the state `kill`, if it passes through it before the marker. */
  method InstallUpTo(fs: Fs, l: Layout, cands: seq<Candidate>, c: Candidate, kill: Disk)
    returns (killed: bool, ghost early: set<Disk>, ghost marked: bool)
    requires fs.Valid() && Calm(fs.disk, l, cands) && fs.reached == {fs.disk} && c in cands
    modifies fs
    ensures fs.Valid() && (killed ==> fs.disk == kill)
    ensures forall s :: s in early ==> s == old(fs.disk) || BeforeCommit(old(fs.disk), s, l, cands)
    ensures kill in early && kill != old(fs.disk) ==> killed
    ensures marked ==> exists s :: s in early && View(s, c.installPath) == View(old(fs.disk), c.path)
    ensures Markable(fs, l, cands) ==> marked
  {
    hide AllExact, Judged, Calm, AfterCommit, KeepsOld, Concluded, Apart, StagedSet, Swapped, NoRemoval, Markable,
         SureDiscard, NoDiscard, HasBackup, BeforeCommit;
    var d := fs.disk;
    CalmIsExact(d, l, cands);
    var ok, restored;
    ghost var trace;
    ok, restored, trace := InstallCandidates(fs, l, cands);
    early, marked := trace.early, trace.marked;
    EarlyUnmarked(d, early, l, cands);
    if marked {
      SwappedShows(d, trace.swapped, l, cands, c);
    }
    killed := kill in fs.reached && kill != d && l.marker !in kill.names;
    if killed {
      if kill != fs.disk {
        BeforeIsWellFormed(d, kill, l, cands);
      }
      fs.Kill(kill);
    }
  }

  lemma BeforeIsWellFormed(d: Disk, s: Disk, l: Layout, cands: seq<Candidate>)
    requires BeforeCommit(d, s, l, cands)
    ensures WellFormed(s)
  {
    hide PromisesOld;
  }

  /** An install that changes a link into another one, both of which lead out of the set, is killed before its
      marker when the new link is in place, and recovered: the old link is back if and only if the
      new one did not lead to the same file before the install.  Every install that gets as far as its
      marker passes through such a state. */
  method ChangedLink(fs: Fs, l: Layout, cands: seq<Candidate>, c: Candidate, kill: Disk)
    returns (ok: bool, ghost early: set<Disk>, ghost marked: bool)
    requires fs.Valid() && Calm(fs.disk, l, cands) && fs.reached == {fs.disk} && c in cands
    requires LinksDiscerned(fs.disk, l, [Views(fs.disk, l), NewViews(fs.disk, l, cands)])
    requires View(fs.disk, c.installPath).Some? && View(fs.disk, c.installPath).value.Link?
    requires View(fs.disk, c.path).Some? && View(fs.disk, c.path).value.Link?
    requires Out(fs.disk, l, View(fs.disk, c.installPath).value) && Out(fs.disk, l, View(fs.disk, c.path).value)
    requires View(fs.disk, c.installPath) != View(fs.disk, c.path)
    modifies fs
    ensures fs.Valid()
    ensures ok && kill in early && View(kill, c.installPath) == View(old(fs.disk), c.path) ==>
              (View(fs.disk, c.installPath) == View(old(fs.disk), c.installPath) <==>
               !SameFile(old(fs.disk), c.installPath, c.path))
    ensures marked ==> exists s :: s in early && View(s, c.installPath) == View(old(fs.disk), c.path)
    ensures Markable(fs, l, cands) ==> marked
    ensures Obliging(fs) && kill in early && kill != old(fs.disk) ==> ok
  {
    hide AllExact, Judged, Calm, AfterCommit, Concluded, Apart, LinksDiscerned, BeforeCommit, Recoverable, Markable,
         StagedSet, Swapped, NoRemoval, SureDiscard, NoDiscard, HasBackup, Result, Out, Views, NewViews, Stat;
    ghost var d := fs.disk;
    CalmIsApart(d, l, cands);
    ok, early, marked := InstallUpTo(fs, l, cands, c, kill);
    if ok {
      if kill in early && kill != d {
        KilledLink(d, kill, l, cands, c);
      }
      ok := Recover(fs, l);
    }
  }

  // ---------- A link to the file that it replaces ----------

  predicate IsFile(n: Option<Node>) {
    n.Some? && n.value.File?
  }

  /** `p` is a link to the file `q`, which has no backup, and `b` is a backup of `p`; every other backup is a file for a
      file. */
  ghost predicate LinkedTo(s: Disk, l: Layout, p: Path, b: Path, q: Path) {
    && p in l.paths && b in s.names && IsBackup(p, b)
    && View(s, p) == Some(Link(q)) && IsFile(View(s, q)) && !HasBackup(s, q)
    && forall x, y :: x in l.paths && x != p && y in s.names && IsBackup(x, y) ==>
         IsFile(View(s, y)) && (View(s, x).None? || IsFile(View(s, x)))
  }

  lemma LinkTest(s: Disk, t: Disk, l: Layout, p: Path, b: Path, q: Path)
    requires Apart(l) && OneBackup(s, p) && LinkedTo(s, l, p, b, q) && l.marker !in s.names && !IsTemporary(l, q)
    requires IsFile(View(s, b)) && Underway(s, t, l) && InPlace(s, t, p)
    ensures Result(t, l, p) == if s.names[b] == s.names[q] then Some(Link(q)) else View(s, b)
  {
    NoNewMarker(s, t, l);
    NoNewBackup(s, t, l, p);
    assert SameEntry(s, t, b) && SameEntry(s, t, p);
    TargetStays(s, t, l, q);
    assert Resolve(t, q, MAX_HOPS - 1) == Some(t.names[q]);
    assert Stat(t, p) == Some(t.names[q]) && Stat(t, b) == Some(t.names[b]);
    hide Stat;
    ResultOf(t, l, p, b);
  }

  lemma TargetStays(s: Disk, t: Disk, l: Layout, q: Path)
    requires Underway(s, t, l) && q in s.names && !IsTemporary(l, q) && q != l.marker && !HasBackup(s, q)
    ensures SameEntry(s, t, q)
  {
  }

  /** Between files the test only ever fires on equal ones. */
  lemma FileTest(s: Disk, t: Disk, l: Layout, p: Path)
    requires Apart(l) && OneBackup(s, p) && l.marker !in s.names && Underway(s, t, l) && InPlace(s, t, p)
    requires p in l.paths && (View(s, p).None? || IsFile(View(s, p)))
    requires forall y :: y in s.names && IsBackup(p, y) ==> IsFile(View(s, y))
    ensures Result(t, l, p) == Outcome(s, l, p)
  {
    hide Stat;
    NoNewMarker(s, t, l);
    NoNewBackup(s, t, l, p);
    if b :| b in s.names && IsBackup(p, b) {
      assert SameEntry(s, t, b) && SameEntry(s, t, p);
      OutcomeOf(s, l, p, b);
      ResultOf(t, l, p, b);
      if View(t, p).Some? {
        FilesResolve(t, p, b);
      } else {
        NothingThere(t, b, p);
      }
    } else {
      NoBackupResult(s, l, p);
      SameWithoutBackup(s, t, l, p);
      assert Result(t, l, p) == Result(s, l, p) == Outcome(s, l, p);
    }
  }

  /** With a link at `p` to the file `q`, recovery drops the backup of `p` if and only if it is a hard link to
      that file. */
  lemma LinkResult(s: Disk, l: Layout, p: Path, b: Path, q: Path)
    requires WellFormed(s) && OneBackupEach(s, l) && Apart(l) && LinkedTo(s, l, p, b, q) && l.marker !in s.names
    requires !IsTemporary(l, q) && IsFile(View(s, b))
    ensures Recoverable(s, l)
    ensures Result(s, l, p) == if s.names[b] == s.names[q] then Some(Link(q)) else View(s, b)
  {
    EveryPathHasOne(s, l);
    OnlyFiles(s, l, p, b, q);
    hide Result, Underway, InPlace, Apart, IsTemporary, OneBackupEach, OneBackup, Outcome;
    UnderwayRefl(s, l);
    InPlaceRefl(s, p);
    LinkTest(s, s, l, p, b, q);
    forall x, t | x in l.paths && Underway(s, t, l) && InPlace(s, t, x)
      ensures Result(t, l, x) == Result(s, l, x)
    {
      if x == p {
        LinkTest(s, t, l, p, b, q);
      } else {
        OtherTest(s, t, l, p, b, q, x);
      }
    }
  }

  lemma OtherTest(s: Disk, t: Disk, l: Layout, p: Path, b: Path, q: Path, x: Path)
    requires Apart(l) && OneBackup(s, x) && LinkedTo(s, l, p, b, q) && l.marker !in s.names
    requires x in l.paths && x != p && Underway(s, t, l) && InPlace(s, t, x)
    ensures Result(t, l, x) == Result(s, l, x)
  {
    hide Result, Underway, InPlace, Apart, Outcome, OneBackup;
    if HasBackup(s, x) {
      UnderwayRefl(s, l);
      InPlaceRefl(s, x);
      FilesOnly(s, l, p, b, q, x);
      FileTest(s, s, l, x);
      FileTest(s, t, l, x);
    } else {
      SameWithoutBackup(s, t, l, x);
    }
  }

  lemma FilesOnly(s: Disk, l: Layout, p: Path, b: Path, q: Path, x: Path)
    requires LinkedTo(s, l, p, b, q) && x in l.paths && x != p && HasBackup(s, x)
    ensures View(s, x).None? || IsFile(View(s, x))
    ensures forall y :: y in s.names && IsBackup(x, y) ==> IsFile(View(s, y))
  {
  }

  lemma EveryPathHasOne(s: Disk, l: Layout)
    requires OneBackupEach(s, l)
    ensures forall p :: p in l.paths ==> OneBackup(s, p)
  {
    hide OneBackup;
  }

  lemma OnlyFiles(s: Disk, l: Layout, p: Path, b: Path, q: Path)
    requires OneBackup(s, p) && LinkedTo(s, l, p, b, q) && IsFile(View(s, b))
    ensures OwnLinks(s, l)
  {
  }

  /** What the backup shows when the new entry is in place. */
  lemma FileIsBacked(d: Disk, s: Disk, l: Layout, cands: seq<Candidate>, p: Path, b: Path)
    requires WellFormed(d) && BeforeCommit(d, s, l, cands) && p in l.paths && b in s.names && IsBackup(p, b)
    requires View(d, p).Some? && View(s, p) != View(d, p)
    ensures View(s, b) == View(d, p) && WellFormed(s) && OneBackupEach(s, l) && l.marker !in s.names
  {
    OldIsBacked(d, s, l, cands, p);
    BeforeIsWellFormed(d, s, l, cands);
    hide BeforeCommit;
    OutcomeOf(s, l, p, b);
  }

  /** An install that replaces a file by a link to a file `q`, inside or outside the set, is killed before its
      marker when the link is in place, and recovered: the old file is back if and only if its backup is not a hard
      link to `q`.  A backup is a hard link where the file system allows one, so the link stays if the old file was
      one more name of `q`. */
  method MaskedSymlink(fs: Fs, l: Layout, cands: seq<Candidate>, c: Candidate, q: Path, kill: Disk, b: Path)
    returns (ok: bool, ghost early: set<Disk>, ghost marked: bool)
    requires fs.Valid() && Calm(fs.disk, l, cands) && fs.reached == {fs.disk} && c in cands
    requires IsFile(View(fs.disk, c.installPath)) && View(fs.disk, c.path) == Some(Link(q))
    requires LinkedTo(kill, l, c.installPath, b, q)
    modifies fs
    ensures fs.Valid()
    ensures ok && kill in early ==>
              View(fs.disk, c.installPath) ==
              if kill.names[b] == kill.names[q] then Some(Link(q)) else View(old(fs.disk), c.installPath)
    ensures marked ==> exists s :: s in early && View(s, c.installPath) == Some(Link(q))
    ensures Markable(fs, l, cands) ==> marked
    ensures Obliging(fs) && kill in early ==> ok
  {
    hide Markable, AllExact, Judged, Calm, AfterCommit, Concluded, Apart, BeforeCommit, Recoverable,
         StagedSet, Swapped, NoRemoval, SureDiscard, NoDiscard, HasBackup, Result, OneBackupEach;
    ghost var d := fs.disk;
    CalmIsApart(d, l, cands);
    ok, early, marked := InstallUpTo(fs, l, cands, c, kill);
    if ok {
      if kill in early {
        FileIsBacked(d, kill, l, cands, c.installPath, b);
        CleanTarget(d, l, cands, c, q);
        LinkResult(kill, l, c.installPath, b, q);
      }
      ok := Recover(fs, l);
    }
  }

  lemma CleanTarget(d: Disk, l: Layout, cands: seq<Candidate>, c: Candidate, q: Path)
    requires Calm(d, l, cands) && c in cands && View(d, c.path) == Some(Link(q))
    ensures !IsTemporary(l, q) && c.installPath in l.paths
  {
  }

  /** The check of the links refuses a release that replaces a file by a link to another name of it. */
  lemma OwnFileNotDiscerned(w: Disk, l: Layout, gens: seq<Generation>, p: Path, q: Path, n: Node)
    requires p in l.paths && p != q && SameEntryNode(w, p, q) && n.File? && View(w, q).Some? && View(w, q).value.File?
    requires MayHold(gens, p, n) && MayHold(gens, p, Link(q))
    ensures !LinksDiscerned(w, l, gens)
  {
    hide MayHold, LeadsOut;
    forall a, b | LeadsInto(w, l, gens, p, n, a) && LeadsInto(w, l, gens, p, Link(q), b)
      ensures !NeverMeet(w, a, b)
    {
      assert p in a && q in b;
    }
    assert Resolve(w, q, MAX_HOPS - 1) == Some(w.names[q]);
    assert !Discerned(w, l, gens, p, n, Link(q)) && !Alike(w, l, p, n, Link(q));
    hide Discerned, Alike;
  }
}
