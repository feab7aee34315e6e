/** What all the states of one install promise, up to the commit and behind it: when the contract that a
    kill before the marker restores the old set holds, and when it does not. */
module InstallPromise {
  import opened Options
  import opened FileSystem
  import opened InstallSet
  import opened Recovery
  import opened InstallLinks
  import opened InstallStates

  /** Every new state keeps the old set, up to one unfinished backup. */
  ghost predicate AllBefore(d: Disk, before: set<Disk>, reached: set<Disk>, l: Layout, cands: seq<Candidate>) {
    forall s :: s in reached && s !in before ==> BeforeCommit(d, s, l, cands)
  }

  /** The contract of ApplyAll for a kill before the marker, in each of the states. */
  ghost predicate AllExact(d: Disk, states: set<Disk>, l: Layout) {
    forall s :: s in states ==> ExactOld(d, s, l)
  }

  /** Nothing was installed where nothing was, and backup names were reserved for empty files only. */
  ghost predicate Harmless(d: Disk, reserved: set<Path>, added: set<Path>) {
    added == {} && forall p :: p in reserved ==> View(d, p) == Some(File([]))
  }

  ghost predicate Judged(d: Disk, states: set<Disk>, l: Layout, reserved: set<Path>, added: set<Path>) {
    AllExact(d, states, l) <==> Harmless(d, reserved, added)
  }

  /** The empty file that reserves a backup name of `p` was there. */
  ghost predicate Reserved(s: Disk, reached: set<Disk>, p: Path) {
    exists b :: IsBackup(p, b) && b !in s.names && Created(s, b, File([])) in reached
  }

  /** The states that one replacement of `p`, from `s` to `e` if it is done, has added. */
  ghost predicate ReplacementStates(s: Disk, mid: set<Disk>, reached: set<Disk>, p: Path, reserved: bool, done: bool,
                                    e: Disk) {
    && mid <= reached && (done ==> e in reached)
    && (reserved ==> Reserved(s, reached, p))
    && forall x :: x in reached && x !in mid ==> x == s || (done && x == e) || (reserved && exists b :: InFlight(s, x, p, b))
  }

  // ---------- What breaks the contract ----------

  /** A kill right after os.CreateTemp has reserved the backup name makes recovery install an empty file
      over the untouched entry. */
  lemma ReservationCounts(d: Disk, s: Disk, l: Layout, cands: seq<Candidate>, replaced: seq<Replaced>,
                          reached: set<Disk>)
    requires Calm(d, l, cands) && Staged(d, s, l, cands, replaced) && |replaced| < |cands| && l.marker !in s.names
    requires Reserved(s, reached, cands[|replaced|].installPath)
    requires View(d, cands[|replaced|].installPath) != Some(File([]))
    ensures !AllExact(d, reached, l)
  {
    hide Staged, StagedSet, Distinct, NoLeftovers, NoLinkToTemporary;
    var p := cands[|replaced|].installPath;
    NextUntouched(d, s, l, cands, replaced);
    var b :| IsBackup(p, b) && b !in s.names && Created(s, b, File([])) in reached;
    StagedIsWellFormed(d, s, l, cands, replaced);
    ReservedOutcome(s, l, p, b);
  }

  lemma StagedIsWellFormed(d: Disk, s: Disk, l: Layout, cands: seq<Candidate>, replaced: seq<Replaced>)
    requires Staged(d, s, l, cands, replaced)
    ensures WellFormed(s)
  {
  }

  lemma ReservedOutcome(s: Disk, l: Layout, p: Path, b: Path)
    requires WellFormed(s) && !HasBackup(s, p) && l.marker !in s.names && l.marker != b && IsBackup(p, b)
    requires b !in s.names
    ensures Outcome(Created(s, b, File([])), l, p) == Some(File([]))
  {
    assert OneBackup(Created(s, b, File([])), p);
  }

  /** An entry installed where nothing was stays after a kill. */
  lemma FreshEntryCounts(d: Disk, e: Disk, l: Layout, cands: seq<Candidate>, replaced: seq<Replaced>,
                         reached: set<Disk>)
    requires Calm(d, l, cands) && Staged(d, e, l, cands, replaced) && l.marker !in e.names && e in reached
    requires replaced != [] && replaced[|replaced| - 1].backup.None?
    requires View(e, replaced[|replaced| - 1].installPath).Some?
    ensures !AllExact(d, reached, l)
  {
    hide Rooted, RestStaged, OthersAsBefore, NoLinkToTemporary, NoLeftovers, StagedSet, Distinct, Apart;
    var k := |replaced| - 1;
    var p := replaced[k].installPath;
    assert EntrySafe(d, e, replaced[k], cands[k]);
    assert p in l.paths by {
      Elsewhere(d, e, l, cands, replaced[k], k, k);
    }
    StagedOneBackup(d, e, l, cands, replaced, p) by {
      CalmIsDistinct(d, l, cands);
    }
    forall j | 0 <= j < |replaced|
      ensures replaced[j].installPath == p ==> j == k
    {
      assert EntrySafe(d, e, replaced[j], cands[j]);
      Elsewhere(d, e, l, cands, replaced[j], j, k);
    }
    assert forall b :: Replaced(p, Some(b)) !in replaced;
    NoBackupOutcome(e, l, p);
    assert Outcome(e, l, p) != View(d, p);
  }

  lemma CalmIsDistinct(d: Disk, l: Layout, cands: seq<Candidate>)
    requires Calm(d, l, cands)
    ensures Distinct(cands) && Apart(l) && WellFormed(d)
  {
  }

  // ---------- One replacement ----------

  ghost predicate AllBacked(replaced: seq<Replaced>) {
    forall e :: e in replaced ==> e.backup.Some?
  }

  /** Every state of a replacement keeps the old set up to the unfinished backup, and exactly if nothing
      counts against it. */
  lemma ReplacementPromises(d: Disk, s: Disk, mid: set<Disk>, reached: set<Disk>, l: Layout, cands: seq<Candidate>,
                            replaced: seq<Replaced>, reserved: bool, done: bool, e: Disk, backup: Option<Path>, x: Disk)
    requires Calm(d, l, cands) && Staged(d, s, l, cands, replaced) && |replaced| < |cands| && l.marker !in s.names
    requires ReplacementStates(s, mid, reached, cands[|replaced|].installPath, reserved, done, e)
    requires done ==>
               && Staged(d, e, l, cands, replaced + [Replaced(cands[|replaced|].installPath, backup)])
               && l.marker !in e.names
    requires x in reached && x !in mid
    ensures BeforeCommit(d, x, l, cands)
    ensures (AllBacked(replaced) && (reserved ==> View(d, cands[|replaced|].installPath) == Some(File([]))) &&
             (done ==> backup.Some?)) ==> ExactOld(d, x, l)
  {
    hide Calm, Staged, KeepsOld, ExactOld, InFlight, Reserved;
    if x == s {
      StagedKeepsOld(d, s, l, cands, replaced);
    } else if done && x == e {
      StagedKeepsOld(d, e, l, cands, replaced + [Replaced(cands[|replaced|].installPath, backup)]);
    } else {
      var b :| InFlight(s, x, cands[|replaced|].installPath, b);
      KilledInBackup(d, s, x, l, cands, replaced, b);
    }
  }

  /** The judgement over the states so far stays right. */
  lemma ReplacementJudged(d: Disk, s: Disk, before: set<Disk>, mid: set<Disk>, reached: set<Disk>, l: Layout,
                          cands: seq<Candidate>, replaced: seq<Replaced>, reserved: set<Path>, added: set<Path>,
                          took: bool, done: bool, e: Disk, backup: Option<Path>)
    requires Calm(d, l, cands) && Staged(d, s, l, cands, replaced) && |replaced| < |cands| && l.marker !in s.names
    requires ReplacementStates(s, mid, reached, cands[|replaced|].installPath, took, done, e)
    requires done ==>
               && Staged(d, e, l, cands, replaced + [Replaced(cands[|replaced|].installPath, backup)])
               && l.marker !in e.names && View(e, cands[|replaced|].installPath).Some?
    requires AllBefore(d, before, mid, l, cands) && Judged(d, mid, l, reserved, added) && (added == {} ==> AllBacked(replaced))
    ensures AllBefore(d, before, reached, l, cands)
    ensures Judged(d, reached, l, if took then reserved + {cands[|replaced|].installPath} else reserved,
                   if done && backup.None? then added + {cands[|replaced|].installPath} else added)
  {
    hide Calm, Staged, BeforeCommit, ExactOld, InFlight, Reserved;
    var p := cands[|replaced|].installPath;
    forall x | x in reached && x !in mid
      ensures BeforeCommit(d, x, l, cands)
      ensures AllBacked(replaced) && (took ==> View(d, p) == Some(File([]))) && (done ==> backup.Some?) ==>
                ExactOld(d, x, l)
    {
      ReplacementPromises(d, s, mid, reached, l, cands, replaced, took, done, e, backup, x);
    }
    if took && View(d, p) != Some(File([])) {
      ReservationCounts(d, s, l, cands, replaced, reached);
    }
    if done && backup.None? {
      FreshEntryCounts(d, e, l, cands, replaced + [Replaced(p, backup)], reached);
    }
  }

  // ---------- The rollback ----------

  /** A backup that could not be removed, and what it shows. */
  datatype Stuck = Stuck(backup: Path, node: Node)

  /** A state of a rollback, with the backup of the next entry left over or with none. */
  ghost predicate Rolling(d: Disk, s: Disk, l: Layout, cands: seq<Candidate>, replaced: seq<Replaced>,
                          left: Option<Stuck>) {
    match left
    case None => Staged(d, s, l, cands, replaced)
    case Some(x) => Leftover(d, s, l, cands, replaced, x.backup) && View(s, x.backup) == Some(x.node)
  }

  /** Every new state is one of a rollback, with or without the marker. */
  ghost predicate AllStaged(d: Disk, before: set<Disk>, reached: set<Disk>, l: Layout, cands: seq<Candidate>,
                            replaced: seq<Replaced>, left: Option<Stuck>, marked: bool) {
    forall s :: s in reached && s !in before ==> Rolling(d, s, l, cands, replaced, left) && (l.marker in s.names <==> marked)
  }

  /** What a kill in the rollback leaves. */
  lemma RollingPromises(d: Disk, s: Disk, l: Layout, cands: seq<Candidate>, replaced: seq<Replaced>,
                        left: Option<Stuck>)
    requires Calm(d, l, cands) && Rolling(d, s, l, cands, replaced, left) && l.marker !in s.names
    ensures BeforeCommit(d, s, l, cands) && (left.None? ==> KeepsOld(d, s, l, cands))
    ensures left.Some? ==> Outcome(s, l, cands[|replaced|].installPath) == Some(left.value.node)
    ensures AllBacked(replaced) && (left.Some? ==> View(d, cands[|replaced|].installPath) == Some(File([]))) ==>
              ExactOld(d, s, l)
  {
    hide Calm, Staged, KeepsOld, TornAt, ExactOld, Outcome;
    match left
    case None => StagedKeepsOld(d, s, l, cands, replaced);
    case Some(x) =>
      LeftoverKeeps(d, s, l, cands, replaced, x.backup);
      LeftoverPromises(d, s, l, cands, replaced, x.backup);
  }

  lemma RollbackJudged(d: Disk, before: set<Disk>, mid: set<Disk>, reached: set<Disk>, l: Layout, cands: seq<Candidate>,
                       replaced: seq<Replaced>, left: Option<Stuck>, reserved: set<Path>, added: set<Path>)
    requires Calm(d, l, cands) && mid <= reached && AllStaged(d, mid, reached, l, cands, replaced, left, false)
    requires left.Some? ==> |replaced| < |cands| && cands[|replaced|].installPath in reserved
    requires AllBefore(d, before, mid, l, cands) && Judged(d, mid, l, reserved, added)
    requires added == {} ==> AllBacked(replaced)
    ensures AllBefore(d, before, reached, l, cands) && Judged(d, reached, l, reserved, added)
  {
    hide Calm, Rolling, BeforeCommit, ExactOld, AllBacked;
    forall x | x in reached && x !in mid
      ensures BeforeCommit(d, x, l, cands) && (Harmless(d, reserved, added) ==> ExactOld(d, x, l))
    {
      RollingPromises(d, x, l, cands, replaced, left);
    }
  }

  // ---------- A marker that a failed write has left ----------

  /** The install changes no entry. */
  ghost predicate NothingNew(d: Disk, l: Layout, cands: seq<Candidate>) {
    forall p :: p in l.paths ==> NewView(d, cands, p) == View(d, p)
  }

  lemma MarkedPath(d: Disk, x: Disk, l: Layout, cands: seq<Candidate>, replaced: seq<Replaced>, p: Path)
    requires Calm(d, l, cands) && Staged(d, x, l, cands, replaced) && l.marker in x.names && p in l.paths
    requires NewView(d, cands, p) == View(d, p)
    ensures Outcome(x, l, p) == View(d, p)
  {
    hide NewView, StagedSet, Distinct, NoLeftovers, NoLinkToTemporary, Rooted, RestStaged, OthersAsBefore,
         BackupsListed, Apart;
    StagedPath(d, x, l, cands, replaced, p);
    if View(d, p).Some? {
      StagedOccupied(d, x, l, cands, replaced, p);
    } else if p in x.names {
      var e :| e in replaced && e.installPath == p && e.backup.None?;
      var j := EntryIndex(d, x, cands, replaced, e);
      StagedNode(d, l, cands, j);
      NewViewIs(d, cands, cands[j]);
    }
  }

  lemma StagedNode(d: Disk, l: Layout, cands: seq<Candidate>, j: nat)
    requires Calm(d, l, cands) && j < |cands|
    ensures View(d, cands[j].path).Some? && Distinct(cands)
  {
    assert cands[j] in cands && Unshared(d, cands[j].path);
  }

  /** Behind a marker that the failed write has left, recovery keeps whatever is in place: the contract
      holds in every state of the rollback if and only if the install changes nothing. */
  lemma StrayMarker(d: Disk, m: Disk, late: set<Disk>, l: Layout, cands: seq<Candidate>, replaced: seq<Replaced>)
    requires Calm(d, l, cands) && m in late && l.marker in m.names && AllNew(d, m, l, cands)
    requires AllStaged(d, {}, late, l, cands, replaced, None, true)
    ensures AllExact(d, late, l) <==> NothingNew(d, l, cands)
  {
    hide NewView, Calm, Staged;
    if AllExact(d, late, l) {
      assert ExactOld(d, m, l);
      forall p | p in l.paths
        ensures NewView(d, cands, p) == View(d, p)
      {
        assert Outcome(m, l, p) == View(m, p);
      }
    }
    if NothingNew(d, l, cands) {
      forall x, p | x in late && p in l.paths
        ensures Outcome(x, l, p) == View(d, p)
      {
        MarkedPath(d, x, l, cands, replaced, p);
      }
    }
  }
}
