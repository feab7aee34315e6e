/** Staging of a release: every entry is written as a hidden candidate beside its install path, which
    changes nothing that recovery would put back. */
module InstallStaging {
  import opened Options
  import opened FileSystem
  import opened InstallSet
  import opened Recovery
  import opened InstallLinks
  import opened InstallStates

  /** One binary or symlink of a release. */
  datatype Entry = Entry(installPath: Path, node: Node)

  /** A release names install paths of the set, each at most once. */
  predicate Covers(l: Layout, release: seq<Entry>) {
    && (forall i, j :: 0 <= i < j < |release| ==> release[i].installPath != release[j].installPath)
    && (forall e :: e in release ==> e.installPath in l.paths)
  }

  /** The entries of a release by their install paths. */
  function Named(release: seq<Entry>): Generation {
    if release == [] then map[]
    else
      var e := release[|release| - 1];
      Named(release[..|release| - 1])[e.installPath := e.node]
  }

  lemma {:induction false} NamedIs(release: seq<Entry>)
    requires forall i, j :: 0 <= i < j < |release| ==> release[i].installPath != release[j].installPath
    ensures forall i :: 0 <= i < |release| ==> At(Named(release), release[i].installPath) == Some(release[i].node)
    ensures forall p :: p in Named(release) ==> exists i :: 0 <= i < |release| && release[i].installPath == p
    decreases |release|
  {
    if release != [] {
      var n := |release| - 1;
      NamedIs(release[..n]);
      forall i | 0 <= i < n
        ensures At(Named(release), release[i].installPath) == Some(release[i].node)
      {
        assert release[..n][i] == release[i];
      }
      forall p | p in Named(release)
        ensures exists i :: 0 <= i < |release| && release[i].installPath == p
      {
        if p in Named(release[..n]) {
          var i :| 0 <= i < n && release[..n][i].installPath == p;
          assert release[i].installPath == p;
        }
      }
    }
  }

  predicate CleanLinks(l: Layout, release: seq<Entry>) {
    forall e :: e in release && e.node.Link? ==> !IsTemporary(l, e.node.target)
  }

  // ---------- What staging changes ----------

  /** `s` is `d` with candidates added or removed. */
  ghost predicate CandidatesOnly(d: Disk, s: Disk, l: Layout) {
    && WellFormed(d) && WellFormed(s) && Grows(d, s) && NoLinkToTemporary(s, l)
    && (forall q :: !IsAnyCandidate(l, q) ==> (q in d.names <==> q in s.names))
    && (forall q :: q in s.names ==> (q in d.names && s.names[q] == d.names[q]) || (IsAnyCandidate(l, q) && s.names[q] >= d.next))
  }

  ghost predicate AllCandidatesOnly(d: Disk, before: set<Disk>, reached: set<Disk>, l: Layout) {
    forall s :: s in reached && s !in before ==> CandidatesOnly(d, s, l)
  }

  /** `s` is `d` with the new file `c` in the making. */
  ghost predicate NewCandidate(d: Disk, s: Disk, l: Layout, c: Path) {
    && CandidatesOnly(d, s, l) && c !in d.names && IsAnyCandidate(l, c)
    && SameBut(d.names, s.names, c)
    && (c in s.names ==> s.names[c] >= d.next)
  }

  lemma CandidatesOnlyTransitive(d: Disk, s: Disk, t: Disk, l: Layout)
    requires CandidatesOnly(d, s, l) && CandidatesOnly(s, t, l)
    ensures CandidatesOnly(d, t, l)
  {
    hide IsAnyCandidate, IsTemporary;
  }

  lemma CandidatesRooted(d: Disk, s: Disk, t: Disk, l: Layout)
    requires Rooted(d, s, l) && CandidatesOnly(s, t, l)
    ensures Rooted(d, t, l)
  {
    hide Owner;
    forall q | !InSet(l, q)
      ensures SameEntry(d, t, q) && View(d, q) == View(t, q)
    {
      assert !IsAnyCandidate(l, q);
    }
  }

  // ---------- One candidate ----------

  lemma CandidateStep(d: Disk, s: Disk, l: Layout, c: Path, content: seq<byte>)
    requires NewCandidate(d, s, l, c) && c in s.names
    ensures NewCandidate(d, Overwritten(s, c, content), l, c)
    ensures View(Overwritten(s, c, content), c) == Some(File(content))
  {
    hide IsAnyCandidate, IsTemporary;
  }

  method StageFile(fs: Fs, l: Layout, c: Path, content: seq<byte>, ghost d: Disk) returns (ok: bool)
    requires fs.Valid() && NewCandidate(d, fs.disk, l, c) && View(fs.disk, c) == Some(File([]))
    modifies fs
    ensures fs.Valid() && NewCandidate(d, fs.disk, l, c)
    ensures ok ==> View(fs.disk, c) == Some(File(content))
    ensures Obliging(fs) ==> ok
    ensures AllCandidatesOnly(d, old(fs.reached), fs.reached, l)
  {
    ghost var before := fs.reached;
    assert content[..0] == [];
    hide CandidatesOnly;
    for i := 0 to |content|
      invariant fs.Valid() && NewCandidate(d, fs.disk, l, c)
      invariant View(fs.disk, c) == Some(File(content[..i]))
      invariant AllCandidatesOnly(d, before, fs.reached, l)
    {
      CandidateStep(d, fs.disk, l, c, content[..i + 1]);
      ok := fs.Overwrite(c, content[..i + 1]);
      if !ok {
        return;
      }
    }
    assert content[..|content|] == content;
    ok := fs.Look(c);
  }

  lemma UnlinkStep(d: Disk, s: Disk, l: Layout, c: Path)
    requires NewCandidate(d, s, l, c)
    ensures NewCandidate(d, Unlinked(s, c), l, c)
  {
    hide IsAnyCandidate, IsTemporary;
  }

  lemma LinkStep(d: Disk, s: Disk, l: Layout, c: Path, n: Node)
    requires NewCandidate(d, s, l, c) && c !in s.names && (n.Link? ==> !IsTemporary(l, n.target))
    ensures NewCandidate(d, Created(s, c, n), l, c) && View(Created(s, c, n), c) == Some(n)
  {
    hide IsAnyCandidate, IsTemporary;
  }

  method StageNode(fs: Fs, l: Layout, c: Path, n: Node, ghost d: Disk) returns (ok: bool)
    requires fs.Valid() && NewCandidate(d, fs.disk, l, c) && View(fs.disk, c) == Some(File([]))
    requires n.Link? ==> !IsTemporary(l, n.target)
    modifies fs
    ensures fs.Valid() && NewCandidate(d, fs.disk, l, c)
    ensures ok ==> View(fs.disk, c) == Some(n)
    ensures Obliging(fs) ==> ok
    ensures !ok && (forall t :: !fs.fails(Op.Unlink, c, t)) ==> c !in fs.disk.names
    ensures AllCandidatesOnly(d, old(fs.reached), fs.reached, l)
  {
    hide CandidatesOnly, IsTemporary;
    match n {
      case File(content) =>
        ok := StageFile(fs, l, c, content, d);
        if !ok {
          UnlinkStep(d, fs.disk, l, c);
          var _ := fs.Unlink(c);
        }
      case Link(target) =>
        UnlinkStep(d, fs.disk, l, c);
        var _ := fs.Unlink(c);
        if c !in fs.disk.names {
          LinkStep(d, fs.disk, l, c, n);
        }
        ok := fs.CreateNew(Symlink, c, n);
    }
  }

  lemma CandidateCreated(d: Disk, l: Layout, c: Path)
    requires WellFormed(d) && NoLinkToTemporary(d, l) && c !in d.names && IsAnyCandidate(l, c)
    ensures NewCandidate(d, Created(d, c, File([])), l, c) && View(Created(d, c, File([])), c) == Some(File([]))
    ensures CandidatesOnly(d, d, l)
  {
    hide IsTemporary;
  }

  function Drawn(p: Path, suffix: string): Path {
    Path(p.dir, CandidatePrefix(p) + suffix)
  }

  /** The random part of a temporary name is a number. */
  ghost predicate PlainSuffixes(fs: Fs) {
    forall t :: '-' !in fs.suffixes(t)
  }

  lemma LastDash(a: string, s: string, b: string, t: string)
    requires a + s == b + t && a != [] && a[|a| - 1] == '-' && '-' !in t
    ensures |a| <= |b|
  {
    assert (a + s)[|a| - 1] == '-';
    assert forall k :: |b| <= k < |b + t| ==> (b + t)[k] in t;
  }

  /** Candidates of two install paths are never given one name. */
  lemma DrawnOnce(p: Path, q: Path, s: string, t: string)
    requires Drawn(p, s) == Drawn(q, t) && '-' !in s && '-' !in t
    ensures p == q
  {
    var a, b := CandidatePrefix(p), CandidatePrefix(q);
    LastDash(a, s, b, t);
    LastDash(b, t, a, s);
    assert a == (a + s)[..|a|] == (b + t)[..|b|] == b;
    assert a[1..1 + |p.base|] == p.base && b[1..1 + |q.base|] == q.base;
  }

  /** The target of a link is there. */
  predicate TargetThere(d: Disk, e: Entry) {
    e.node.Link? ==> Stat(d, e.node.target).Some?
  }

  /** Writes one entry of the release as a hidden candidate in its install directory.  The
      target of a symlink must exist. */
  method StageOne(fs: Fs, l: Layout, e: Entry) returns (ok: bool, c: Path)
    requires fs.Valid() && e.installPath in l.paths && NoLinkToTemporary(fs.disk, l)
    requires e.node.Link? ==> !IsTemporary(l, e.node.target)
    modifies fs
    ensures fs.Valid() && CandidatesOnly(old(fs.disk), fs.disk, l)
    ensures AllCandidatesOnly(old(fs.disk), old(fs.reached), fs.reached, l)
    ensures ok ==>
              && NewCandidate(old(fs.disk), fs.disk, l, c) && IsCandidate(e.installPath, c)
              && View(fs.disk, c) == Some(e.node)
              && TargetThere(old(fs.disk), e) && (exists t :: c == Drawn(e.installPath, fs.suffixes(t)))
    ensures Obliging(fs) && (forall t :: Drawn(e.installPath, fs.suffixes(t)) !in old(fs.disk).names) ==>
              TargetThere(old(fs.disk), e) ==> ok
    ensures !ok && ReliableRemoval(fs, l) ==> fs.disk.names == old(fs.disk).names
  {
    hide CandidatesOnly, IsTemporary, NoLinkToTemporary;
    ghost var d := fs.disk;
    CandidatesOnlyRefl(d, l);
    if e.node.Link? && Stat(fs.disk, e.node.target).None? {
      return false, e.installPath;
    }
    ok, c := fs.CreateTemp(e.installPath.dir, CandidatePrefix(e.installPath));
    if !ok {
      return;
    }
    assert IsCandidate(e.installPath, c) && IsAnyCandidate(l, c);
    CandidateCreated(d, l, c);
    ok := StageNode(fs, l, c, e.node, d);
  }

  lemma CandidatesOnlyRefl(d: Disk, l: Layout)
    requires WellFormed(d) && NoLinkToTemporary(d, l)
    ensures CandidatesOnly(d, d, l)
  {
  }

  // ---------- The whole release ----------

  /** The first candidates of the release are staged on `s`. */
  ghost predicate StagedSoFar(s: Disk, l: Layout, release: seq<Entry>, cands: seq<Candidate>) {
    && |cands| <= |release|
    && (forall i :: 0 <= i < |cands| ==>
          && cands[i].installPath == release[i].installPath
          && IsCandidate(cands[i].installPath, cands[i].path)
          && Unshared(s, cands[i].path) && View(s, cands[i].path) == Some(release[i].node))
    && (forall i, j :: 0 <= i < j < |cands| ==> cands[i].path != cands[j].path)
  }

  lemma StagedOneMore(d: Disk, s: Disk, l: Layout, release: seq<Entry>, cands: seq<Candidate>, c: Path)
    requires StagedSoFar(d, l, release, cands) && |cands| < |release|
    requires NewCandidate(d, s, l, c) && IsCandidate(release[|cands|].installPath, c)
    requires View(s, c) == Some(release[|cands|].node)
    ensures StagedSoFar(s, l, release, cands + [Candidate(c, release[|cands|].installPath)])
  {
    hide IsAnyCandidate, IsTemporary, IsCandidate;
    assert Unshared(s, c);
    forall i | 0 <= i < |cands|
      ensures Unshared(s, cands[i].path) && View(s, cands[i].path) == Some(release[i].node) && cands[i].path != c
    {
      assert Unshared(d, cands[i].path);
    }
  }

  lemma StagingStep(d: Disk, before: set<Disk>, cur: Disk, mid: set<Disk>, s: Disk, reached: set<Disk>, l: Layout)
    requires CandidatesOnly(d, cur, l) && AllCandidatesOnly(d, before, mid, l)
    requires CandidatesOnly(cur, s, l) && AllCandidatesOnly(cur, mid, reached, l)
    ensures CandidatesOnly(d, s, l) && AllCandidatesOnly(d, before, reached, l)
  {
    hide CandidatesOnly;
    CandidatesOnlyTransitive(d, cur, s, l);
    forall x | x in reached && x !in before
      ensures CandidatesOnly(d, x, l)
    {
      if x !in mid {
        CandidatesOnlyTransitive(d, cur, x, l);
      }
    }
  }

  lemma StagedLinksClean(d: Disk, s: Disk, l: Layout)
    requires CandidatesOnly(d, s, l)
    ensures NoLinkToTemporary(s, l)
  {
  }

  /** No link of the release leads to nothing. */
  predicate TargetsThere(d: Disk, release: seq<Entry>) {
    forall e :: e in release ==> TargetThere(d, e)
  }

  /** What a link outside the temporary files leads to does not change while candidates are added. */
  lemma {:induction false} StatStays(d: Disk, s: Disk, l: Layout, q: Path, hops: nat)
    requires CandidatesOnly(d, s, l) && !IsTemporary(l, q)
    ensures Resolve(s, q, hops) == Resolve(d, q, hops)
    decreases hops
  {
    hide IsTemporary;
    NoTemporaryNoCandidate(l, q);
    assert View(s, q) == View(d, q);
    match View(s, q)
    case Some(Link(target)) =>
      assert s.nodes[s.names[q]] == Link(target);
      if hops > 0 {
        StatStays(d, s, l, target, hops - 1);
      }
    case _ =>
  }

  lemma NoTemporaryNoCandidate(l: Layout, q: Path)
    requires !IsTemporary(l, q)
    ensures !IsAnyCandidate(l, q)
  {
  }

  lemma TargetStays(d: Disk, s: Disk, l: Layout, e: Entry)
    requires CandidatesOnly(d, s, l) && (e.node.Link? ==> !IsTemporary(l, e.node.target))
    ensures TargetThere(s, e) <==> TargetThere(d, e)
  {
    hide CandidatesOnly, IsTemporary;
    if e.node.Link? {
      StatStays(d, s, l, e.node.target, MAX_HOPS);
    }
  }

  /** Every candidate on the disk was drawn for one of the entries staged so far. */
  ghost predicate OnlyDrawn(fs: Fs, s: Disk, l: Layout, release: seq<Entry>, n: nat)
    requires n <= |release|
  {
    forall q :: IsAnyCandidate(l, q) && q in s.names ==>
      exists i, t :: 0 <= i < n && q == Drawn(release[i].installPath, fs.suffixes(t))
  }

  lemma NextIsFree(fs: Fs, s: Disk, l: Layout, release: seq<Entry>, n: nat)
    requires Covers(l, release) && n < |release| && OnlyDrawn(fs, s, l, release, n) && PlainSuffixes(fs)
    ensures forall t :: Drawn(release[n].installPath, fs.suffixes(t)) !in s.names
  {
    var p := release[n].installPath;
    assert release[n] in release;
    forall t
      ensures Drawn(p, fs.suffixes(t)) !in s.names
    {
      var q := Drawn(p, fs.suffixes(t));
      assert IsCandidate(p, q) && IsAnyCandidate(l, q);
      if q in s.names {
        var i, u :| 0 <= i < n && q == Drawn(release[i].installPath, fs.suffixes(u));
        DrawnOnce(p, release[i].installPath, fs.suffixes(t), fs.suffixes(u));
      }
    }
  }

  lemma DrawnOneMore(fs: Fs, d: Disk, s: Disk, l: Layout, release: seq<Entry>, n: nat, c: Path)
    requires n < |release| && OnlyDrawn(fs, d, l, release, n) && NewCandidate(d, s, l, c)
    requires exists t :: c == Drawn(release[n].installPath, fs.suffixes(t))
    ensures OnlyDrawn(fs, s, l, release, n + 1)
  {
    hide CandidatesOnly, IsAnyCandidate, Drawn;
    forall q | IsAnyCandidate(l, q) && q in s.names
      ensures exists i, t :: 0 <= i < n + 1 && q == Drawn(release[i].installPath, fs.suffixes(t))
    {
      if q != c {
        var i, t :| 0 <= i < n && q == Drawn(release[i].installPath, fs.suffixes(t));
        assert q == Drawn(release[i].installPath, fs.suffixes(t));
      }
    }
  }

  lemma NothingDrawn(fs: Fs, d: Disk, l: Layout, release: seq<Entry>)
    requires NoCandidates(d, l)
    ensures OnlyDrawn(fs, d, l, release, 0)
  {
  }

  /** Every candidate on the disk is one of these. */
  ghost predicate OnlyStaged(s: Disk, l: Layout, cands: seq<Candidate>) {
    forall q :: IsAnyCandidate(l, q) && q in s.names ==> exists c :: c in cands && c.path == q
  }

  lemma StagedOnlyOneMore(d: Disk, s: Disk, l: Layout, cands: seq<Candidate>, c: Candidate)
    requires OnlyStaged(d, l, cands) && NewCandidate(d, s, l, c.path)
    ensures OnlyStaged(s, l, cands + [c])
  {
    hide CandidatesOnly, IsAnyCandidate;
    assert c in cands + [c];
    forall q | IsAnyCandidate(l, q) && q in s.names
      ensures exists x :: x in cands + [c] && x.path == q
    {
      if q != c.path {
        var x :| x in cands && x.path == q;
        assert x in cands + [c];
      }
    }
  }

  lemma SameNamesSameStaged(d: Disk, s: Disk, l: Layout, cands: seq<Candidate>)
    requires OnlyStaged(d, l, cands) && s.names == d.names
    ensures OnlyStaged(s, l, cands)
  {
  }

  lemma NothingStaged(d: Disk, l: Layout)
    ensures NoCandidates(d, l) ==> OnlyStaged(d, l, [])
  {
  }

  /** Stages a release in order.  If nothing is refused, it succeeds if and only if no link leads to nothing. */
  method StageAll(fs: Fs, l: Layout, release: seq<Entry>) returns (ok: bool, cands: seq<Candidate>)
    requires fs.Valid() && Covers(l, release) && CleanLinks(l, release)
    requires NoLinkToTemporary(fs.disk, l)
    modifies fs
    ensures fs.Valid() && CandidatesOnly(old(fs.disk), fs.disk, l)
    ensures AllCandidatesOnly(old(fs.disk), old(fs.reached), fs.reached, l)
    ensures forall c :: c in cands ==> c.installPath in l.paths && IsCandidate(c.installPath, c.path)
    ensures ok ==> |cands| == |release| && StagedSoFar(fs.disk, l, release, cands)
    ensures ok ==> TargetsThere(old(fs.disk), release)
    ensures NoCandidates(old(fs.disk), l) && ReliableRemoval(fs, l) ==> OnlyStaged(fs.disk, l, cands)
    ensures Obliging(fs) && PlainSuffixes(fs) && NoCandidates(old(fs.disk), l) && TargetsThere(old(fs.disk), release) ==>
              ok
  {
    hide OnlyStaged, ReliableRemoval, TargetThere, Drawn, OnlyDrawn, NoCandidates, CandidatesOnly, IsTemporary,
         NoLinkToTemporary, AllCandidatesOnly, NewCandidate, IsCandidate, Unshared;
    ghost var d, before := fs.disk, fs.reached;
    CandidatesOnlyRefl(d, l);
    NoneStaged(d, before, l);
    ghost var fair := PlainSuffixes(fs) && NoCandidates(d, l);
    if fair {
      NothingDrawn(fs, d, l, release);
    }
    NothingStaged(d, l);
    cands := [];
    for i := 0 to |release|
      invariant fs.Valid() && CandidatesOnly(d, fs.disk, l) && AllCandidatesOnly(d, before, fs.reached, l)
      invariant |cands| == i && StagedSoFar(fs.disk, l, release, cands)
      invariant forall j :: 0 <= j < i ==> TargetThere(d, release[j])
      invariant fair ==> OnlyDrawn(fs, fs.disk, l, release, i)
      invariant NoCandidates(d, l) ==> OnlyStaged(fs.disk, l, cands)
      invariant forall c :: c in cands ==> c.installPath in l.paths && IsCandidate(c.installPath, c.path)
    {
      ghost var cur, mid := fs.disk, fs.reached;
      assert release[i] in release;
      StagedLinksClean(d, cur, l);
      TargetStays(d, cur, l, release[i]);
      if fair {
        NextIsFree(fs, cur, l, release, i);
      }
      var c;
      ok, c := StageOne(fs, l, release[i]);
      StagingStep(d, before, cur, mid, fs.disk, fs.reached, l);
      if !ok {
        if NoCandidates(d, l) && ReliableRemoval(fs, l) {
          SameNamesSameStaged(cur, fs.disk, l, cands);
        }
        return;
      }
      if NoCandidates(d, l) {
        StagedOnlyOneMore(cur, fs.disk, l, cands, Candidate(c, release[i].installPath));
      }
      StagedOneMore(cur, fs.disk, l, release, cands, c);
      if fair {
        DrawnOneMore(fs, cur, fs.disk, l, release, i, c);
      }
      cands := cands + [Candidate(c, release[i].installPath)];
    }
    ok := true;
  }

  lemma NoneStaged(d: Disk, before: set<Disk>, l: Layout)
    ensures AllCandidatesOnly(d, before, before, l)
  {
  }

  /** The deferred cleanup: removes what is left of the candidates. */
  method DiscardStaged(fs: Fs, l: Layout, cands: seq<Candidate>)
    requires fs.Valid() && Apart(l) && Recoverable(fs.disk, l)
    requires forall c :: c in cands ==> c.installPath in l.paths && IsCandidate(c.installPath, c.path)
    modifies fs
    ensures fs.Valid() && Kept(old(fs.disk), fs.disk, l) && AllKept(old(fs.disk), old(fs.reached), fs.reached, l)
    ensures forall q :: !IsAnyCandidate(l, q) ==> SameEntry(old(fs.disk), fs.disk, q)
    ensures ReliableRemoval(fs, l) && OnlyStaged(old(fs.disk), l, cands) ==> NoCandidates(fs.disk, l)
  {
    hide ReliableRemoval, OnlyStaged, NoCandidates, Kept, Recoverable, AllKept, IsCandidate, Apart;
    ghost var d, before := fs.disk, fs.reached;
    KeptRefl(d, l);
    NoneAdded(d, before, l);
    for i := 0 to |cands|
      invariant fs.Valid() && Kept(d, fs.disk, l) && AllKept(d, before, fs.reached, l)
      invariant forall q :: !IsAnyCandidate(l, q) ==> SameEntry(d, fs.disk, q)
      invariant forall q :: q in fs.disk.names ==> q in d.names
      invariant ReliableRemoval(fs, l) ==> forall j :: 0 <= j < i ==> cands[j].path !in fs.disk.names
    {
      ghost var cur, mid := fs.disk, fs.reached;
      Removable(fs, l, cands[i].installPath, cands[i].path);
      assert cands[i] in cands && IsAnyCandidate(l, cands[i].path);
      var _ := fs.Unlink(cands[i].path);
      RemovalStep(d, before, cur, mid, l, cands[i].installPath, cands[i].path, fs.disk);
    }
    if ReliableRemoval(fs, l) && OnlyStaged(d, l, cands) {
      AllRemoved(d, fs.disk, l, cands);
    }
  }

  lemma Removable(fs: Fs, l: Layout, p: Path, c: Path)
    requires p in l.paths && IsCandidate(p, c)
    ensures ReliableRemoval(fs, l) ==> forall t :: !fs.fails(Op.Unlink, c, t)
  {
  }

  lemma AllRemoved(d: Disk, e: Disk, l: Layout, cands: seq<Candidate>)
    requires OnlyStaged(d, l, cands) && (forall q :: q in e.names ==> q in d.names)
    requires forall c :: c in cands ==> c.path !in e.names
    ensures NoCandidates(e, l)
  {
    hide IsAnyCandidate;
  }

  /** A staged release is what installCandidates expects. */
  lemma StagedIsCalm(s: Disk, l: Layout, release: seq<Entry>, cands: seq<Candidate>)
    requires Apart(l) && WellFormed(s) && NoLeftovers(s, l) && NoLinkToTemporary(s, l)
    requires Covers(l, release) && |cands| == |release| && StagedSoFar(s, l, release, cands)
    ensures Calm(s, l, cands)
  {
    hide IsCandidate, Unshared, NoLeftovers, NoLinkToTemporary, Apart;
    forall c | c in cands
      ensures c.installPath in l.paths && IsCandidate(c.installPath, c.path) && Unshared(s, c.path)
    {
      var i :| 0 <= i < |cands| && cands[i] == c;
      assert release[i] in release;
    }
  }

  /** What the install paths hold after the install of a staged release. */
  lemma {:induction false} StagedNewView(s: Disk, l: Layout, release: seq<Entry>, cands: seq<Candidate>, p: Path)
    requires Covers(l, release) && |cands| == |release| && StagedSoFar(s, l, release, cands)
    ensures NewView(s, cands, p) == if p in Named(release) then At(Named(release), p) else View(s, p)
  {
    hide IsCandidate, Unshared, NewView;
    NamedIs(release);
    assert Distinct(cands);
    if p in Named(release) {
      var i :| 0 <= i < |release| && release[i].installPath == p;
      NewViewIs(s, cands, cands[i]);
    } else {
      forall c | c in cands
        ensures c.installPath != p
      {
        var i :| 0 <= i < |cands| && cands[i] == c;
        assert At(Named(release), release[i].installPath).Some?;
      }
      NewViewNone(s, cands, p);
    }
  }

  lemma NewViewNone(s: Disk, cands: seq<Candidate>, p: Path)
    requires forall c :: c in cands ==> c.installPath != p
    ensures NewView(s, cands, p) == View(s, p)
  {
  }
}
