/** InstallReleaseBinaries over any number of runs: recovery, staging, install and cleanup, each
    run completed, failed or killed at any step. */
module InstallRuns {
  import opened Options
  import opened FileSystem
  import opened InstallSet
  import opened Recovery
  import opened InstallLinks
  import opened InstallStates
  import opened InstallPromise
  import opened InstallStaging
  import opened Install

  // ---------- What a disk promises ----------

  ghost predicate Sound(w: Disk, s: Disk, l: Layout) {
    Recoverable(s, l) && NoLinkToTemporary(s, l) && Rooted(w, s, l)
  }

  /** `s` promises generation `g` to the next recovery. */
  ghost predicate Holds(w: Disk, s: Disk, l: Layout, g: Generation) {
    Sound(w, s, l) && forall p :: p in l.paths ==> Result(s, l, p) == At(g, p)
  }

  /** The generation that recovery would install. */
  ghost function Found(s: Disk, l: Layout): Generation {
    map p | p in l.paths && Result(s, l, p).Some? :: Result(s, l, p).value
  }

  lemma FoundHolds(w: Disk, s: Disk, l: Layout)
    requires Sound(w, s, l)
    ensures Holds(w, s, l, Found(s, l))
  {
    hide Sound, Result;
  }

  /** The backup of `p` is a first part of the entry in place, and not all of it. */
  ghost predicate Unfinished(s: Disk, p: Path) {
    exists b :: b in s.names && IsBackup(p, b) && FirstPart(View(s, p), View(s, b))
  }

  predicate FirstPart(whole: Option<Node>, part: Option<Node>) {
    whole.Some? && part.Some? && part != whole && Partial(whole.value, part.value)
  }

  /** What a run from `g` to `h` that does not commit makes of `p`: the old entry, the new link if both lead out of
      the set to one file, or the new entry where nothing was. */
  ghost predicate Reverts(w: Disk, l: Layout, g: Generation, h: Generation, k: Generation, p: Path) {
    || At(k, p) == At(g, p)
    || (p in k && At(k, p) == At(h, p) && (p in g ==> Alike(w, l, p, g[p], k[p])))
  }

  /** The kill has left an unfinished backup of `p`, and recovery installs it. */
  ghost predicate Tears(s: Disk, g: Generation, k: Generation, p: Path) {
    p in g && p in k && Unfinished(s, p) && View(s, p) == At(g, p) && FirstPart(At(g, p), At(k, p))
  }

  ghost predicate Partly(w: Disk, s: Disk, l: Layout, g: Generation, h: Generation, k: Generation, torn: Option<Path>) {
    forall p :: p in l.paths ==> Reverts(w, l, g, h, k, p) || (torn == Some(p) && Tears(s, g, k, p))
  }

  /** The new generation, or the old one up to one torn entry. */
  ghost predicate Promised(w: Disk, s: Disk, l: Layout, g: Generation, h: Generation) {
    && Sound(w, s, l)
    && (Holds(w, s, l, h) || exists torn :: Partly(w, s, l, g, h, Found(s, l), torn))
  }

  ghost predicate AllHold(w: Disk, before: set<Disk>, reached: set<Disk>, l: Layout, g: Generation, h: Generation) {
    forall s :: s in reached && s !in before ==> Promised(w, s, l, g, h)
  }

  lemma HoldsFacts(w: Disk, d: Disk, l: Layout, g: Generation)
    requires Holds(w, d, l, g)
    ensures Recoverable(d, l) && NoLinkToTemporary(d, l) && Rooted(w, d, l) && WellFormed(d) && Sound(w, d, l)
  {
  }

  /** A generation that a run may end with is a promise in every state that holds it. */
  lemma HoldsPromised(w: Disk, s: Disk, l: Layout, g: Generation, h: Generation, k: Generation)
    requires Holds(w, s, l, k) && (k == h || forall p :: p in l.paths ==> Reverts(w, l, g, h, k, p))
    ensures Promised(w, s, l, g, h)
  {
    hide Sound, Result, Alike;
    if k != h {
      assert forall p :: p in l.paths ==> At(Found(s, l), p) == At(k, p);
      assert Partly(w, s, l, g, h, Found(s, l), None);
    }
  }

  /** A state that recovery passes through still promises the generation. */
  lemma KeptHolds(w: Disk, d: Disk, s: Disk, l: Layout, g: Generation)
    requires Apart(l) && Holds(w, d, l, g) && Kept(d, s, l)
    ensures Holds(w, s, l, g)
  {
    hide InPlace, Handled, Kin, Result, Recoverable;
    KinBehind(w, d, s, l);
    OnlySetTransitive(w, d, s, l);
  }

  /** Staging changes nothing that recovery would put back. */
  lemma StagedHolds(w: Disk, d: Disk, s: Disk, l: Layout, g: Generation)
    requires Apart(l) && Holds(w, d, l, g) && NoLeftovers(d, l) && CandidatesOnly(d, s, l)
    ensures Holds(w, s, l, g) && NoLeftovers(s, l)
  {
    hide Kin, OnlySet, IsTemporary, FixedTests, Result;
    CandidatesRooted(w, d, s, l);
    assert !IsAnyCandidate(l, l.marker);
    forall p, b | p in l.paths && IsBackup(p, b)
      ensures b !in s.names
    {
      assert !HasBackup(d, p) && !IsAnyCandidate(l, b);
    }
    NothingToRestore(s, l);
    forall p | p in l.paths
      ensures Result(s, l, p) == At(g, p)
    {
      assert !HasBackup(d, p) && !HasBackup(s, p) && !IsAnyCandidate(l, p);
      NoBackupResult(d, l, p);
      NoBackupResult(s, l, p);
      assert View(s, p) == View(d, p);
    }
  }

  // ---------- The promises of an install are the promises of the run ----------

  /** The install changes the set from `g` to `h`, and what a caller can check of the links holds. */
  ghost predicate Changes(w: Disk, d: Disk, l: Layout, cands: seq<Candidate>, gens: seq<Generation>, g: Generation,
                          h: Generation) {
    && Apart(l) && LinksDiscerned(w, l, gens) && Fits(l, gens, g) && Fits(l, gens, h) && Rooted(w, d, l)
    && forall p :: p in l.paths ==> View(d, p) == At(g, p) && NewView(d, cands, p) == At(h, p)
  }

  lemma TrackedIsSound(w: Disk, d: Disk, s: Disk, l: Layout, cands: seq<Candidate>, gens: seq<Generation>,
                       g: Generation, h: Generation)
    requires Changes(w, d, l, cands, gens, g, h) && Tracked(d, s, l, cands)
    ensures Sound(w, s, l)
    ensures l.marker !in s.names ==> forall p :: p in l.paths ==> Result(s, l, p) == Restores(w, s, l, g, h, p)
  {
    hide Rooted, NoLinkToTemporary, OneBackupEach, LinksDiscerned, Fits, NewView, Apart, Traced, Result, Restores,
         Recoverable;
    RootedTransitive(w, d, s, l);
    assert AllTraced(s, l, g, h);
    TracedIsRecoverable(w, s, l, gens, g, h);
  }

  /** Without a marker recovery reverts each entry that the backups promise. */
  lemma OldReverts(w: Disk, d: Disk, s: Disk, l: Layout, cands: seq<Candidate>, g: Generation, h: Generation,
                   k: Generation,
                   p: Path)
    requires View(d, p) == At(g, p) && NewView(d, cands, p) == At(h, p) && PromisesOld(d, s, l, cands, p)
    requires WellFormed(d) && At(k, p) == Restores(w, s, l, g, h, p)
    ensures Reverts(w, l, g, h, k, p)
  {
    hide Outcome, NewView, Alike, HasBackup;
  }

  /** The torn entry. */
  lemma TornTears(w: Disk, d: Disk, s: Disk, l: Layout, cands: seq<Candidate>, g: Generation, h: Generation,
                  k: Generation,
                  t: Path)
    requires TornAt(d, s, l, cands, t) && View(d, t) == At(g, t) && At(k, t) == Restores(w, s, l, g, h, t)
    ensures Tears(s, g, k, t)
  {
    hide Alike, NewView, Traced, Rooted, NoLinkToTemporary;
    assert OneBackup(s, t);
    var b :| b in s.names && IsBackup(t, b);
    OutcomeOf(s, l, t, b);
  }

  lemma PromisesHold(w: Disk, d: Disk, s: Disk, l: Layout, cands: seq<Candidate>, gens: seq<Generation>,
                     g: Generation, h: Generation)
    requires Changes(w, d, l, cands, gens, g, h) && WellFormed(d)
    ensures KeepsOld(d, s, l, cands) ==>
              Sound(w, s, l) && forall p :: p in l.paths ==> Reverts(w, l, g, h, Found(s, l), p)
    ensures AfterCommit(d, s, l, cands) ==> Holds(w, s, l, h)
    ensures BeforeCommit(d, s, l, cands) ==> Promised(w, s, l, g, h)
  {
    hide Tracked, Rooted, Sound, Outcome, HasBackup, NewView, LinksDiscerned, Fits, Apart, Result, Restores,
         Reverts, Tears, PromisesOld;
    if Tracked(d, s, l, cands) {
      TrackedIsSound(w, d, s, l, cands, gens, g, h);
    }
    if AfterCommit(d, s, l, cands) {
      CommittedHolds(d, s, l, cands);
    }
    var k := Found(s, l);
    assert forall p :: p in l.paths ==> At(k, p) == Result(s, l, p);
    if KeepsOld(d, s, l, cands) {
      forall p | p in l.paths
        ensures Reverts(w, l, g, h, k, p)
      {
        OldReverts(w, d, s, l, cands, g, h, k, p);
      }
      assert Partly(w, s, l, g, h, k, None);
    } else if t :| TornAt(d, s, l, cands, t) {
      forall p | p in l.paths
        ensures Reverts(w, l, g, h, k, p) || (p == t && Tears(s, g, k, p))
      {
        if p == t {
          TornTears(w, d, s, l, cands, g, h, k, t);
        } else {
          OldReverts(w, d, s, l, cands, g, h, k, p);
        }
      }
      assert Partly(w, s, l, g, h, k, Some(t));
    }
  }

  lemma CommittedHolds(d: Disk, s: Disk, l: Layout, cands: seq<Candidate>)
    requires AfterCommit(d, s, l, cands)
    ensures forall p :: p in l.paths ==> Result(s, l, p) == NewView(d, cands, p)
  {
    hide Tracked, NewView;
  }

  lemma NothingLeftOver(fs: Fs, l: Layout)
    requires ReliableDiscard(fs, l) && l.marker !in fs.disk.names
    requires forall p :: p in l.paths && SureDiscard(fs, p) ==> !HasBackup(fs.disk, p)
    ensures NoLeftovers(fs.disk, l)
  {
    hide SureDiscard;
  }

  method InstallStaged(fs: Fs, l: Layout, release: seq<Entry>, cands: seq<Candidate>, ghost w: Disk,
                       ghost gens: seq<Generation>, ghost g: Generation, ghost h: Generation)
    returns (ok: bool, ghost k: Generation)
    requires fs.Valid() && Apart(l) && ReliableRemoval(fs, l) && ReliableDiscard(fs, l) && CleanMarkerWrite(fs, l)
    requires Covers(l, release) && h == g + Named(release)
    requires LinksDiscerned(w, l, gens) && Fits(l, gens, g) && Fits(l, gens, h)
    requires Holds(w, fs.disk, l, g) && NoLeftovers(fs.disk, l)
    requires |cands| == |release| && StagedSoFar(fs.disk, l, release, cands)
    modifies fs
    ensures fs.Valid()
    ensures AllHold(w, old(fs.reached), fs.reached, l, g, h)
    ensures Holds(w, fs.disk, l, k) && (k == h || forall p :: p in l.paths ==> Reverts(w, l, g, h, k, p))
    ensures ok ==> k == h && NoLeftovers(fs.disk, l)
    ensures NoNewCandidates(old(fs.disk), fs.disk, l)
    ensures Obliging(fs) ==> ok
  {
    hide NoNewCandidates, Holds, Apart, ReliableRemoval, ReliableDiscard, CleanMarkerWrite, Covers, LinksDiscerned,
         Fits,
         NoLeftovers, StagedSoFar, Changes, NoLinkToTemporary, Rooted, Recoverable, Calm, Promises, AfterCommit,
         KeepsOld, BeforeCommit, Reverts, NoRemoval, Sound;
    ghost var d, before := fs.disk, fs.reached;
    HoldsFacts(w, d, l, g);
    StagedIsCalm(d, l, release, cands);
    CalmFacts(d, l, cands);
    StagedChanges(w, d, l, release, cands, gens, g, h);
    ghost var trace;
    var restored;
    ok, restored, trace := InstallCandidates(fs, l, cands);
    NoStrayMarker(fs, l, trace);
    if ok {
      NothingLeftOver(fs, l);
    }
    PromisedStates(w, d, before, fs.disk, fs.reached, l, cands, gens, g, h, ok, trace);
    if ok {
      NewIsInPlace(w, d, before, fs.disk, l, cands, gens, g, h, trace);
    }
    k := if Holds(w, fs.disk, l, h) then h else Found(fs.disk, l);
    if !Holds(w, fs.disk, l, h) {
      FoundHolds(w, fs.disk, l);
    }
  }

  lemma CalmFacts(d: Disk, l: Layout, cands: seq<Candidate>)
    requires Calm(d, l, cands)
    ensures StagedSet(d, l, cands) && Distinct(cands) && l.marker !in d.names
  {
  }

  /** A marker write that fails leaves no marker behind. */
  ghost predicate CleanMarkerWrite(fs: Fs, l: Layout) {
    forall t :: !fs.fails(Write, l.marker, t)
  }

  lemma NoStrayMarker(fs: Fs, l: Layout, trace: Trace)
    requires CleanMarkerWrite(fs, l)
    requires trace.marked && !trace.written ==> exists t :: fs.fails(Write, l.marker, t)
    ensures trace.marked ==> trace.written
  {
  }

  lemma {:induction false} StagedChanges(w: Disk, d: Disk, l: Layout, release: seq<Entry>, cands: seq<Candidate>,
                                         gens: seq<Generation>,
                      g: Generation, h: Generation)
    requires Apart(l) && Covers(l, release) && h == g + Named(release) && LinksDiscerned(w, l, gens)
    requires Fits(l, gens, g) && Fits(l, gens, h)
    requires Holds(w, d, l, g) && NoLeftovers(d, l) && |cands| == |release| && StagedSoFar(d, l, release, cands)
    ensures Changes(w, d, l, cands, gens, g, h)
  {
    hide Apart, LinksDiscerned, Fits, Rooted, Recoverable, NoLinkToTemporary, StagedSoFar, NewView, Named, Result;
    forall p | p in l.paths
      ensures View(d, p) == At(g, p) && NewView(d, cands, p) == At(h, p)
    {
      StagedNewView(d, l, release, cands, p);
      assert !HasBackup(d, p);
      NoBackupResult(d, l, p);
    }
  }

  lemma PromisedStates(w: Disk, d: Disk, before: set<Disk>, e: Disk, reached: set<Disk>, l: Layout,
                       cands: seq<Candidate>, gens: seq<Generation>, g: Generation, h: Generation, ok: bool, t: Trace)
    requires Changes(w, d, l, cands, gens, g, h) && WellFormed(d) && Promises(d, before, e, l, cands, ok, t)
    requires reached == t.early + t.late + {e} && (t.marked ==> t.written) && t.stuck.None?
    requires ok ==> NoLeftovers(e, l)
    requires !t.marked ==> t.late == {}
    ensures AllHold(w, before, reached, l, g, h)
    ensures Holds(w, e, l, h) || (Sound(w, e, l) && forall p :: p in l.paths ==> Reverts(w, l, g, h, Found(e, l), p))
  {
    hide Changes, AfterCommit, KeepsOld, BeforeCommit, Holds, Judged, AllExact, NothingNew, AllEntries,
         Concluded, NoLeftovers, Sound, Reverts, Swapped, Partly;
    if ok && t.written {
      ConcludedAfter(d, e, l, cands);
    }
    PromisesHold(w, d, e, l, cands, gens, g, h);
    forall s | s in reached && s !in before
      ensures Promised(w, s, l, g, h)
    {
      PromisesHold(w, d, s, l, cands, gens, g, h);
      NewPromised(w, s, l, g, h);
    }
  }

  lemma NewPromised(w: Disk, s: Disk, l: Layout, g: Generation, h: Generation)
    ensures Holds(w, s, l, h) ==> Promised(w, s, l, g, h)
  {
    hide Sound, Result;
  }

  lemma ConcludedAfter(d: Disk, e: Disk, l: Layout, cands: seq<Candidate>)
    requires Concluded(d, e, l, cands) && NoLeftovers(e, l)
    ensures AfterCommit(d, e, l, cands)
  {
    hide Tracked, NewView, Outcome;
  }

  lemma NewIsInPlace(w: Disk, d: Disk, before: set<Disk>, e: Disk, l: Layout, cands: seq<Candidate>,
                     gens: seq<Generation>, g: Generation, h: Generation, t: Trace)
    requires Changes(w, d, l, cands, gens, g, h) && WellFormed(d) && Promises(d, before, e, l, cands, true, t)
    requires (cands != [] ==> t.written) && (t.written ==> t.marked) && t.stuck.None?
    requires NoLeftovers(e, l) && Distinct(cands)
    ensures Holds(w, e, l, h)
  {
    hide Changes, AfterCommit, KeepsOld, BeforeCommit, Judged, AllExact, NothingNew, AllEntries, Concluded,
         Distinct, Sound, Result, Reverts, Swapped;
    if t.written {
      ConcludedAfter(d, e, l, cands);
    }
    PromisesHold(w, d, e, l, cands, gens, g, h);
    if !t.written {
      assert forall p :: p in l.paths ==> At(Found(e, l), p) == Result(e, l, p);
      NothingInstalled(w, d, l, cands, gens, g, h, Found(e, l));
    }
  }

  lemma NothingInstalled(w: Disk, d: Disk, l: Layout, cands: seq<Candidate>, gens: seq<Generation>,
                         g: Generation, h: Generation, k: Generation)
    requires Changes(w, d, l, cands, gens, g, h) && cands == []
    requires forall p :: p in l.paths ==> Reverts(w, l, g, h, k, p)
    ensures forall p :: p in l.paths ==> At(k, p) == At(h, p)
  {
    hide Rooted, LinksDiscerned, Fits, Apart, Alike;
  }

  // ---------- One run ----------

  lemma CandidatesHold(w: Disk, d: Disk, before: set<Disk>, reached: set<Disk>, l: Layout, g: Generation, h: Generation)
    requires Apart(l) && Holds(w, d, l, g) && NoLeftovers(d, l) && AllCandidatesOnly(d, before, reached, l)
    ensures AllHold(w, before, reached, l, g, h)
  {
    hide Holds, CandidatesOnly, Promised;
    forall s | s in reached && s !in before
      ensures Promised(w, s, l, g, h)
    {
      StagedHolds(w, d, s, l, g);
      HoldsPromised(w, s, l, g, h, g);
    }
  }

  lemma KeptAllHold(w: Disk, d: Disk, before: set<Disk>, reached: set<Disk>, l: Layout, k: Generation, g: Generation,
                    h: Generation)
    requires Apart(l) && Holds(w, d, l, k) && AllKept(d, before, reached, l)
    requires k == h || forall p :: p in l.paths ==> Reverts(w, l, g, h, k, p)
    ensures AllHold(w, before, reached, l, g, h)
  {
    hide Holds, Kept, Promised, Reverts;
    forall s | s in reached && s !in before
      ensures Promised(w, s, l, g, h)
    {
      KeptHolds(w, d, s, l, k);
      HoldsPromised(w, s, l, g, h, k);
    }
  }

  lemma SameReverts(w: Disk, l: Layout, g: Generation, h: Generation)
    ensures forall p :: p in l.paths ==> Reverts(w, l, g, h, g, p)
  {
  }

  /** Recovery of a disk that promises a generation puts that generation in place. */
  method RecoverHeld(fs: Fs, l: Layout, ghost w: Disk, ghost g: Generation, ghost h: Generation) returns (ok: bool)
    requires fs.Valid() && Apart(l) && ReliableRemoval(fs, l) && Holds(w, fs.disk, l, g)
    modifies fs
    ensures fs.Valid() && Holds(w, fs.disk, l, g)
    ensures AllHold(w, old(fs.reached), fs.reached, l, g, h)
    ensures ok ==> Settled(fs.disk, l) && forall p :: p in l.paths ==> View(fs.disk, p) == At(g, p)
    ensures Obliging(fs) ==> ok
  {
    hide Kept, AllKept, Recoverable, Result, Fallback, Settled, OneBackupEach, ReliableRemoval, NoLinkToTemporary,
         Rooted, Apart, Reverts, Sound;
    ghost var d, before := fs.disk, fs.reached;
    assert forall p :: p in l.paths ==> Result(d, l, p) == At(g, p);
    hide Holds;
    HoldsFacts(w, d, l, g);
    ok := Recover(fs, l);
    KeptToo(d, before, fs.disk, fs.reached, l);
    SameReverts(w, l, g, h);
    KeptAllHold(w, d, before, fs.reached, l, g, g, h);
    KeptHolds(w, d, fs.disk, l, g);
  }

  lemma KeptToo(d: Disk, before: set<Disk>, e: Disk, reached: set<Disk>, l: Layout)
    requires AllKept(d, before, reached - {e}, l) && Kept(d, e, l)
    ensures AllKept(d, before, reached, l)
  {
    hide Kept;
  }

  lemma AllHoldJoin(w: Disk, before: set<Disk>, mid: set<Disk>, reached: set<Disk>, l: Layout, g: Generation,
                    h: Generation)
    requires AllHold(w, before, mid, l, g, h) && AllHold(w, mid, reached, l, g, h)
    ensures AllHold(w, before, reached, l, g, h)
  {
    hide Promised;
  }

  // ---------- When a run succeeds ----------

  /** In generation `g` the chain of links from `q` ends at a file. */
  ghost predicate Leads(w: Disk, l: Layout, g: Generation, q: Path, hops: nat)
    decreases hops
  {
    match if q in l.paths then At(g, q) else if InSet(l, q) then None else View(w, q)
    case None => false
    case Some(File(_)) => true
    case Some(Link(target)) => hops > 0 && Leads(w, l, g, target, hops - 1)
  }

  /** No link of the release leads to nothing in the generation before it. */
  ghost predicate TargetsExist(w: Disk, l: Layout, g: Generation, release: seq<Entry>) {
    forall e :: e in release && e.node.Link? ==> Leads(w, l, g, e.node.target, MAX_HOPS)
  }

  lemma {:induction false} SettledLeads(w: Disk, s: Disk, l: Layout, g: Generation, q: Path, hops: nat)
    requires Settled(s, l) && OnlySet(w, s, l) && forall p :: p in l.paths ==> View(s, p) == At(g, p)
    ensures Resolve(s, q, hops).Some? <==> Leads(w, l, g, q, hops)
    decreases hops
  {
    if q !in l.paths {
      SettledView(w, s, l, q);
    }
    hide Settled, InSet, OnlySet;
    match View(s, q)
    case Some(Link(target)) =>
      if hops > 0 {
        SettledLeads(w, s, l, g, target, hops - 1);
      }
    case _ =>
  }

  lemma SettledView(w: Disk, s: Disk, l: Layout, q: Path)
    requires Settled(s, l) && OnlySet(w, s, l) && q !in l.paths
    ensures View(s, q) == if InSet(l, q) then None else View(w, q)
  {
    if IsTemporary(l, q) {
      var p :| p in l.paths && (IsBackup(p, q) || IsCandidate(p, q));
      assert !HasBackup(s, p);
    }
  }

  lemma SettledTargets(w: Disk, s: Disk, l: Layout, g: Generation, release: seq<Entry>)
    requires Settled(s, l) && Rooted(w, s, l) && forall p :: p in l.paths ==> View(s, p) == At(g, p)
    ensures TargetsThere(s, release) <==> TargetsExist(w, l, g, release)
    ensures NoCandidates(s, l)
  {
    hide Settled, Kin, Leads, OnlySet;
    forall e | e in release && e.node.Link?
      ensures TargetThere(s, e) <==> Leads(w, l, g, e.node.target, MAX_HOPS)
    {
      SettledLeads(w, s, l, g, e.node.target, MAX_HOPS);
    }
    SettledHasNone(s, l);
  }

  lemma SettledHasNone(s: Disk, l: Layout)
    requires Settled(s, l)
    ensures NoCandidates(s, l)
  {
  }

  /** InstallReleaseBinaries.  The run recovers what an earlier run left, stages the release and installs it; when
      nothing is refused it succeeds if and only if no link of the release leads to nothing.  Wherever it is
      killed, the disk promises the generation before the run, up to one entry whose backup was unfinished, or the
      one it installs. */
  method InstallRelease(fs: Fs, l: Layout, release: seq<Entry>, ghost w: Disk, ghost gens: seq<Generation>,
                        ghost g: Generation, ghost h: Generation)
    returns (ok: bool, ghost k: Generation)
    requires fs.Valid() && Apart(l) && ReliableRemoval(fs, l) && ReliableDiscard(fs, l) && CleanMarkerWrite(fs, l)
    requires Covers(l, release) && CleanLinks(l, release) && h == g + Named(release)
    requires LinksDiscerned(w, l, gens) && Fits(l, gens, g) && Fits(l, gens, h)
    requires Holds(w, fs.disk, l, g)
    modifies fs
    ensures fs.Valid()
    ensures AllHold(w, old(fs.reached), fs.reached, l, g, h)
    ensures Holds(w, fs.disk, l, k) && (k == h || forall p :: p in l.paths ==> Reverts(w, l, g, h, k, p))
    ensures ok ==> k == h && Settled(fs.disk, l) && forall p :: p in l.paths ==> View(fs.disk, p) == At(h, p)
    ensures Obliging(fs) ==> NoCandidates(fs.disk, l)
    ensures ok ==> TargetsExist(w, l, g, release)
    ensures Obliging(fs) && PlainSuffixes(fs) && TargetsExist(w, l, g, release) ==> ok
  {
    hide OnlyStaged, NoNewCandidates, TargetsThere, TargetsExist, PlainSuffixes, NoCandidates, Holds, Apart,
         ReliableRemoval, ReliableDiscard, CleanMarkerWrite, Covers, LinksDiscerned, Fits,
         NoLeftovers, StagedSoFar, NoLinkToTemporary, Rooted, Recoverable, CleanLinks, AllHold, CandidatesOnly,
         AllCandidatesOnly, Kept, AllKept, IsCandidate, Reverts, Named, Settled, Sound;
    ghost var before := fs.reached;
    k := g;
    SameReverts(w, l, g, h);
    ok := RecoverHeld(fs, l, w, g, h);
    if !ok {
      return;
    }
    ghost var recovered, mid := fs.disk, fs.reached;
    SettledFacts(recovered, l);
    HoldsFacts(w, recovered, l, g);
    SettledTargets(w, recovered, l, g, release);
    var cands;
    ok, cands := StageAll(fs, l, release);
    ghost var staged := fs.reached;
    CandidatesHold(w, recovered, mid, staged, l, g, h);
    StagedHolds(w, recovered, fs.disk, l, g);
    AllHoldJoin(w, before, mid, staged, l, g, h);
    if ok {
      ghost var prepared := fs.disk;
      ok, k := InstallStaged(fs, l, release, cands, w, gens, g, h);
      StillOnlyStaged(prepared, fs.disk, l, cands);
      AllHoldJoin(w, before, staged, fs.reached, l, g, h);
    }
    ghost var last, late := fs.disk, fs.reached;
    HoldsFacts(w, last, l, k);
    DiscardStaged(fs, l, cands);
    KeptAllHold(w, last, late, fs.reached, l, k, g, h);
    AllHoldJoin(w, before, late, fs.reached, l, g, h);
    KeptHolds(w, last, fs.disk, l, k);
    if ok {
      OnlyCandidatesGone(w, last, fs.disk, l, h);
      NothingIsLeft(fs.disk, l);
    }
  }

  lemma StillOnlyStaged(d: Disk, e: Disk, l: Layout, cands: seq<Candidate>)
    requires OnlyStaged(d, l, cands) && NoNewCandidates(d, e, l)
    ensures OnlyStaged(e, l, cands)
  {
    hide IsAnyCandidate;
  }

  lemma NothingIsLeft(d: Disk, l: Layout)
    requires NoLeftovers(d, l) && NoCandidates(d, l)
    ensures Settled(d, l)
  {
    hide NoLeftovers;
    forall p, q | p in l.paths && IsCandidate(p, q)
      ensures q !in d.names
    {
      assert IsAnyCandidate(l, q);
    }
  }

  lemma SettledFacts(d: Disk, l: Layout)
    requires Settled(d, l)
    ensures NoLeftovers(d, l)
  {
  }

  lemma OnlyCandidatesGone(w: Disk, d: Disk, s: Disk, l: Layout, h: Generation)
    requires Apart(l) && Holds(w, s, l, h) && NoLeftovers(d, l)
    requires forall q :: !IsAnyCandidate(l, q) ==> SameEntry(d, s, q)
    ensures NoLeftovers(s, l) && forall p :: p in l.paths ==> View(s, p) == At(h, p)
  {
    hide Sound, Result;
    assert SameEntry(d, s, l.marker);
    forall p | p in l.paths
      ensures !HasBackup(s, p) && View(s, p) == At(h, p)
    {
      assert !HasBackup(d, p);
      forall b | IsBackup(p, b)
        ensures b !in s.names
      {
        assert SameEntry(d, s, b);
      }
      NoBackupResult(s, l, p);
    }
  }

  // ---------- Any number of runs ----------

  /** What each path may come to hold: the generation installed at first, and the entries of each release. */
  ghost function Gens(g: Generation, releases: seq<seq<Entry>>): (gens: seq<Generation>)
    ensures |gens| == |releases| + 1 && gens[0] == g
    ensures forall i :: 0 <= i < |releases| ==> gens[i + 1] == Named(releases[i])
  {
    [g] + seq(|releases|, i requires 0 <= i < |releases| => Named(releases[i]))
  }

  /** The first generation with the releases installed over it that took effect. */
  ghost function Built(g: Generation, releases: seq<seq<Entry>>, took: seq<bool>): Generation
    requires |took| == |releases|
  {
    if took == [] then g
    else
      var n := |took| - 1;
      var before := Built(g, releases[..n], took[..n]);
      if took[n] then before + Named(releases[n]) else before
  }

  lemma {:induction false} BuiltStep(g: Generation, releases: seq<seq<Entry>>, took: seq<bool>, now: bool)
    requires |took| < |releases|
    ensures Built(g, releases[..|took| + 1], took + [now]) ==
            if now then Built(g, releases[..|took|], took) + Named(releases[|took|]) else Built(g, releases[..|took|], took)
  {
    assert (took + [now])[..|took|] == took && releases[..|took| + 1][..|took|] == releases[..|took|];
  }

  /** The entry of the generation, or a link that leads out of the set to the same file; where the generation
      has none, an entry of some run. */
  ghost predicate Near(w: Disk, l: Layout, gens: seq<Generation>, g: Generation, p: Path, n: Node) {
    if p in g then Alike(w, l, p, g[p], n) else MayHold(gens, p, n)
  }

  /** `x` is such an entry, or a first part of one if `p` is torn. */
  ghost predicate Shows(w: Disk, l: Layout, gens: seq<Generation>, g: Generation, p: Path, x: Option<Node>,
                        torn: set<Path>) {
    match x
    case None => p !in g
    case Some(v) => exists n :: Near(w, l, gens, g, p, n) && Partial(n, v) && (p in torn || v == n)
  }

  ghost predicate Frays(w: Disk, l: Layout, gens: seq<Generation>, g: Generation, k: Generation, torn: set<Path>) {
    Fits(l, gens, k) && forall p :: p in l.paths ==> Shows(w, l, gens, g, p, At(k, p), torn)
  }

  lemma FraysStart(w: Disk, l: Layout, gens: seq<Generation>)
    requires gens != []
    ensures Frays(w, l, gens, gens[0], gens[0], {})
  {
    var g := gens[0];
    forall p | p in l.paths && p in g
      ensures MayHold(gens, p, g[p]) && Shows(w, l, gens, g, p, At(g, p), {})
    {
      assert Near(w, l, gens, g, p, g[p]);
    }
  }

  lemma ReleaseMayHold(gens: seq<Generation>, i: nat, p: Path)
    requires i < |gens| && p in gens[i]
    ensures MayHold(gens, p, gens[i][p])
  {
  }

  /** A release that takes effect puts its own entries in place, and leaves the others. */
  lemma FraysInstalled(w: Disk, l: Layout, gens: seq<Generation>, g: Generation, k: Generation, torn: set<Path>, i: nat)
    requires Frays(w, l, gens, g, k, torn) && i < |gens|
    ensures Frays(w, l, gens, g + gens[i], k + gens[i], torn - gens[i].Keys)
  {
    hide Alike, MayHold;
    var r := gens[i];
    forall p | p in l.paths
      ensures p in k + r ==> (k + r)[p].File? || MayHold(gens, p, (k + r)[p])
      ensures Shows(w, l, gens, g + r, p, At(k + r, p), torn - r.Keys)
    {
      if p in r {
        ReleaseMayHold(gens, i, p);
        AlikeRefl(w, l, p, r[p]);
        assert Near(w, l, gens, g + r, p, r[p]);
      } else {
        ShowsStill(w, l, gens, g, g + r, p, At(k, p), torn, torn - r.Keys);
      }
    }
  }

  lemma AlikeRefl(w: Disk, l: Layout, p: Path, n: Node)
    ensures Alike(w, l, p, n, n)
  {
  }

  lemma ShowsStill(w: Disk, l: Layout, gens: seq<Generation>, g: Generation, h: Generation, p: Path, x: Option<Node>,
                   torn: set<Path>, now: set<Path>)
    requires Shows(w, l, gens, g, p, x, torn) && At(g, p) == At(h, p) && (p in torn ==> p in now)
    ensures Shows(w, l, gens, h, p, x, now)
  {
    hide Alike, MayHold;
    if x.Some? {
      var n :| Near(w, l, gens, g, p, n) && Partial(n, x.value) && (p in torn || x.value == n);
      assert Near(w, l, gens, h, p, n);
    }
  }

  lemma PartialTransitive(a: Node, b: Node, c: Node)
    requires Partial(a, b) && Partial(b, c)
    ensures Partial(a, c)
  {
  }

  /** A run that does not take effect. */
  lemma FraysReverted(w: Disk, s: Disk, l: Layout, gens: seq<Generation>, g: Generation, k: Generation,
                      torn: set<Path>, i: nat,
                      now: Generation, tear: Option<Path>)
    requires Frays(w, l, gens, g, k, torn) && i < |gens| && Partly(w, s, l, k, k + gens[i], now, tear)
    ensures Frays(w, l, gens, g, now, if tear.Some? then torn + {tear.value} else torn)
  {
    hide Alike, MayHold, Unfinished, Near;
    var after := if tear.Some? then torn + {tear.value} else torn;
    forall p | p in l.paths
      ensures p in now ==> now[p].File? || MayHold(gens, p, now[p])
      ensures Shows(w, l, gens, g, p, At(now, p), after)
    {
      if At(now, p) == At(k, p) {
        ShowsStill(w, l, gens, g, g, p, At(k, p), torn, after);
      } else if Reverts(w, l, k, k + gens[i], now, p) {
        ReleaseMayHold(gens, i, p);
        NewEntryStays(w, l, gens, g, k, p, now[p], torn, after);
      } else {
        var n :| Near(w, l, gens, g, p, n) && Partial(n, k[p]) && (p in torn || k[p] == n);
        PartialTransitive(n, k[p], now[p]);
      }
    }
  }

  lemma NewEntryStays(w: Disk, l: Layout, gens: seq<Generation>, g: Generation, k: Generation, p: Path, v: Node,
                      torn: set<Path>, after: set<Path>)
    requires Shows(w, l, gens, g, p, At(k, p), torn) && MayHold(gens, p, v)
    requires p in k ==> Alike(w, l, p, k[p], v) && k[p] != v
    ensures Shows(w, l, gens, g, p, Some(v), after)
  {
    hide MayHold, LeadsOut;
    if p in k {
      var n :| Near(w, l, gens, g, p, n) && Partial(n, k[p]);
      assert n == k[p];
      if p in g {
        AlikeTransitive(w, l, p, g[p], k[p], v);
      }
    }
    assert Near(w, l, gens, g, p, v);
  }

  lemma FraysFits(w: Disk, l: Layout, gens: seq<Generation>, g: Generation, k: Generation, torn: set<Path>, i: nat)
    requires Frays(w, l, gens, g, k, torn) && i < |gens|
    ensures Fits(l, gens, k) && Fits(l, gens, k + gens[i])
  {
    hide MayHold, Shows;
    forall p | p in l.paths && p in gens[i]
      ensures MayHold(gens, p, gens[i][p])
    {
      ReleaseMayHold(gens, i, p);
    }
  }

  /** One run, which may be killed in the state `kill`. */
  method RunOnce(fs: Fs, l: Layout, release: seq<Entry>, kill: Option<Disk>, ghost w: Disk, ghost gens: seq<Generation>,
                 ghost g: Generation, ghost h: Generation)
    returns (completed: bool, ghost k: Generation, ghost took: bool, ghost tear: Option<Path>)
    requires fs.Valid() && Apart(l) && ReliableRemoval(fs, l) && ReliableDiscard(fs, l) && CleanMarkerWrite(fs, l)
    requires Covers(l, release) && CleanLinks(l, release) && h == g + Named(release)
    requires LinksDiscerned(w, l, gens) && Fits(l, gens, g) && Fits(l, gens, h)
    requires Holds(w, fs.disk, l, g)
    modifies fs
    ensures fs.Valid() && Holds(w, fs.disk, l, k)
    ensures took ==> k == h
    ensures !took ==> Partly(w, fs.disk, l, g, h, k, tear)
    ensures completed ==> took && TargetsExist(w, l, g, release)
    ensures kill.None? && Obliging(fs) && PlainSuffixes(fs) && TargetsExist(w, l, g, release) ==> completed
    ensures !took && tear.Some? ==> kill.Some? && Unfinished(kill.value, tear.value)
  {
    hide Holds, Apart, ReliableRemoval, ReliableDiscard, CleanMarkerWrite, Covers, LinksDiscerned, Fits, CleanLinks,
         Reverts, Named, Found, Sound, NoLeftovers;
    tear := None;
    fs.Restart();
    ghost var start := fs.disk;
    completed, k := InstallRelease(fs, l, release, w, gens, g, h);
    took := k == h;
    if kill.Some? && kill.value in fs.reached {
      completed := false;
      StartPromised(w, start, kill.value, l, g, h);
      took, tear := KilledIn(w, kill.value, l, g, h);
      k := if took then h else Found(kill.value, l);
      fs.Kill(kill.value);
    }
  }

  lemma StartPromised(w: Disk, start: Disk, s: Disk, l: Layout, g: Generation, h: Generation)
    requires Holds(w, start, l, g) && (s == start || Promised(w, s, l, g, h))
    ensures Promised(w, s, l, g, h) && WellFormed(s)
  {
    hide Result, Reverts, NoLinkToTemporary, Rooted;
    if s == start {
      SameReverts(w, l, g, h);
      HoldsPromised(w, s, l, g, h, g);
    }
  }

  lemma KilledIn(w: Disk, s: Disk, l: Layout, g: Generation, h: Generation) returns (took: bool, tear: Option<Path>)
    requires Promised(w, s, l, g, h)
    ensures Holds(w, s, l, if took then h else Found(s, l))
    ensures !took ==> Partly(w, s, l, g, h, Found(s, l), tear) && (tear.Some? ==> Unfinished(s, tear.value))
  {
    hide Sound, Result, Reverts, Found, Unfinished;
    took, tear := Holds(w, s, l, h), None;
    if !took {
      FoundHolds(w, s, l);
      var torn :| Partly(w, s, l, g, h, Found(s, l), torn);
      if torn.Some? && torn.value in l.paths && Tears(s, g, Found(s, l), torn.value) {
        tear := torn;
      }
    }
  }

  /** Each link of the release leads to a file outside the set, or to an entry of it that is always there and
      always a file. */
  ghost predicate TargetsStand(w: Disk, l: Layout, gens: seq<Generation>, release: seq<Entry>) {
    forall e :: e in release && e.node.Link? ==>
      || (LeadsOut(w, l, e.node.target, MAX_HOPS) && Stat(w, e.node.target).Some?)
      || (e.node.target in l.paths && gens != [] && e.node.target in gens[0] &&
          forall n :: MayHold(gens, e.node.target, n) ==> n.File?)
  }

  lemma {:induction false} OutLeads(w: Disk, l: Layout, g: Generation, q: Path, hops: nat)
    requires LeadsOut(w, l, q, hops) && Resolve(w, q, hops).Some?
    ensures Leads(w, l, g, q, hops)
    decreases hops
  {
    assert q !in l.paths;
    match View(w, q)
    case Some(Link(target)) => OutLeads(w, l, g, target, hops - 1);
    case _ =>
  }

  lemma {:induction false} BuiltKeeps(g: Generation, releases: seq<seq<Entry>>, took: seq<bool>)
    requires |took| == |releases|
    ensures g.Keys <= Built(g, releases, took).Keys
    decreases |took|
  {
    if took != [] {
      BuiltKeeps(g, releases[..|took| - 1], took[..|took| - 1]);
    }
  }

  lemma StandingExist(w: Disk, l: Layout, gens: seq<Generation>, g: Generation, k: Generation, torn: set<Path>,
                      release: seq<Entry>)
    requires Frays(w, l, gens, g, k, torn) && gens != [] && gens[0].Keys <= g.Keys && TargetsStand(w, l, gens, release)
    ensures TargetsExist(w, l, k, release)
  {
    hide Near, Partial, MayHold, LeadsOut, Leads;
    forall e | e in release && e.node.Link?
      ensures Leads(w, l, k, e.node.target, MAX_HOPS)
    {
      var q := e.node.target;
      if LeadsOut(w, l, q, MAX_HOPS) && Stat(w, q).Some? {
        OutLeads(w, l, k, q, MAX_HOPS);
      } else {
        assert Shows(w, l, gens, g, q, At(k, q), torn);
        FileLeads(w, l, k, q);
      }
    }
  }

  lemma {:induction false} FileLeads(w: Disk, l: Layout, g: Generation, q: Path)
    requires q in l.paths && q in g && g[q].File?
    ensures Leads(w, l, g, q, MAX_HOPS)
  {
  }

  /** Any number of runs, each completed, failed, or killed in any state it passes through, and then one recovery:
      the disk holds the binaries of the first generation and of the runs that took effect, and every completed
      run did.  When nothing is refused, runs that are not killed complete.  An entry may be a first part of
      itself where a kill has left an unfinished backup of it, and a link may be another one to the same file
      outside the set. */
  method RunMany(fs: Fs, l: Layout, releases: seq<seq<Entry>>, kills: seq<Option<Disk>>, ghost w: Disk,
                 ghost g: Generation)
    returns (ok: bool, completed: seq<bool>, ghost took: seq<bool>, ghost torn: set<Path>)
    requires fs.Valid() && Apart(l) && ReliableRemoval(fs, l) && ReliableDiscard(fs, l) && CleanMarkerWrite(fs, l)
    requires forall i :: 0 <= i < |releases| ==> Covers(l, releases[i]) && CleanLinks(l, releases[i])
    requires LinksDiscerned(w, l, Gens(g, releases)) && Holds(w, fs.disk, l, g)
    requires |kills| == |releases|
    modifies fs
    ensures fs.Valid() && |completed| == |took| == |releases|
    ensures forall i :: 0 <= i < |releases| && completed[i] ==> took[i]
    ensures Obliging(fs) && PlainSuffixes(fs) ==>
              && ok
              && forall i :: 0 <= i < |releases| && kills[i].None? && TargetsStand(w, l, Gens(g, releases), releases[i]) ==>
                   completed[i]
    ensures forall p :: p in torn ==>
              exists i :: 0 <= i < |kills| && !took[i] && kills[i].Some? && Unfinished(kills[i].value, p)
    ensures ok ==> Settled(fs.disk, l) && forall p :: p in l.paths ==>
                     Shows(w, l, Gens(g, releases), Built(g, releases, took), p, View(fs.disk, p), torn)
  {
    hide Holds, Apart, ReliableRemoval, ReliableDiscard, CleanMarkerWrite, Covers, LinksDiscerned, Fits, CleanLinks,
         Partly, Shows, Frays, Named, Settled, Built, Gens, Unfinished;
    ghost var gens, k := Gens(g, releases), g;
    completed, took, torn := [], [], {};
    BuiltStart(g);
    FraysStart(w, l, gens);
    assert releases[..0] == [];
    for i := 0 to |releases|
      invariant fs.Valid() && |completed| == |took| == i && Holds(w, fs.disk, l, k)
      invariant Frays(w, l, gens, Built(g, releases[..i], took), k, torn)
      invariant forall j :: 0 <= j < i && completed[j] ==> took[j]
      invariant Obliging(fs) && PlainSuffixes(fs) ==>
                  forall j :: 0 <= j < i && kills[j].None? && TargetsStand(w, l, gens, releases[j]) ==> completed[j]
      invariant forall p :: p in torn ==>
                  exists j :: 0 <= j < i && !took[j] && kills[j].Some? && Unfinished(kills[j].value, p)
    {
      ghost var before, were := Built(g, releases[..i], took), took;
      FraysFits(w, l, gens, before, k, torn, i + 1);
      BuiltKeeps(g, releases[..i], took);
      if TargetsStand(w, l, gens, releases[i]) {
        StandingExist(w, l, gens, before, k, torn, releases[i]);
      }
      var done;
      ghost var now, did, tear;
      done, now, did, tear := RunOnce(fs, l, releases[i], kills[i], w, gens, k, k + Named(releases[i]));
      BuiltStep(g, releases, took, did);
      ghost var was := torn;
      if did {
        FraysInstalled(w, l, gens, before, k, torn, i + 1);
        torn := torn - gens[i + 1].Keys;
      } else {
        FraysReverted(w, fs.disk, l, gens, before, k, torn, i + 1, now, tear);
        torn := if tear.Some? then torn + {tear.value} else torn;
      }
      completed, took, k := completed + [done], took + [did], now;
      forall p | p in torn
        ensures exists j :: 0 <= j < i + 1 && !took[j] && kills[j].Some? && Unfinished(kills[j].value, p)
      {
        if p in was {
          var j :| 0 <= j < i && !were[j] && kills[j].Some? && Unfinished(kills[j].value, p);
          assert took[j] == were[j];
        } else {
          assert took[i] == did;
        }
      }
    }
    assert releases[..|releases|] == releases;
    ok := RecoverHeld(fs, l, w, k, k);
    FraysShows(w, l, gens, Built(g, releases, took), k, torn);
  }

  lemma {:induction false} BuiltStart(g: Generation)
    ensures Built(g, [], []) == g
  {
  }

  lemma FraysShows(w: Disk, l: Layout, gens: seq<Generation>, g: Generation, k: Generation, torn: set<Path>)
    requires Frays(w, l, gens, g, k, torn)
    ensures forall p :: p in l.paths ==> Shows(w, l, gens, g, p, At(k, p), torn)
  {
    hide Shows;
  }
}
