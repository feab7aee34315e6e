/** Symbolic links among the entries of a set.  Recovery drops a backup that resolves to the same file
    as its install path; this module says from what a caller knows before an install which backups are
    dropped so, whichever of the changed links are in place. */
module InstallLinks {
  import opened Options
  import opened FileSystem
  import opened InstallSet
  import opened Recovery

  ghost predicate NoLinkToTemporary(d: Disk, l: Layout) {
    forall i :: i in d.nodes && d.nodes[i].Link? ==> !IsTemporary(l, d.nodes[i].target)
  }

  ghost predicate Unshared(d: Disk, p: Path) {
    p in d.names && forall q :: q in d.names && q != p ==> d.names[q] != d.names[p]
  }

  // ---------- Names that share a file ----------

  /** A backup belongs to its install path, and every other name to itself. */
  ghost function Owner(l: Layout, q: Path): Path {
    if exists p :: p in l.paths && IsBackup(p, q) then
      var p :| p in l.paths && IsBackup(p, q); p
    else q
  }

  lemma OwnerOfBackup(l: Layout, p: Path, b: Path)
    requires Apart(l) && p in l.paths && IsBackup(p, b)
    ensures Owner(l, b) == p
  {
  }

  /** Names of different owners share an inode only if the owners did on `d`. */
  ghost predicate Kin(d: Disk, s: Disk, l: Layout) {
    forall x, y :: x in s.names && y in s.names && !IsAnyCandidate(l, x) && !IsAnyCandidate(l, y) && s.names[x] == s.names[y] ==>
      Owner(l, x) == Owner(l, y) || SameEntryNode(d, Owner(l, x), Owner(l, y))
  }

  /** `s` comes from `d` by changes to the set alone. */
  ghost predicate Rooted(d: Disk, s: Disk, l: Layout) {
    Kin(d, s, l) && OnlySet(d, s, l)
  }

  lemma RootedRefl(d: Disk, l: Layout)
    requires forall p :: p in l.paths ==> !HasBackup(d, p)
    ensures Rooted(d, d, l)
  {
    forall x | x in d.names
      ensures Owner(l, x) == x
    {
      forall p | p in l.paths
        ensures !IsBackup(p, x)
      {
        assert !HasBackup(d, p);
      }
    }
  }

  lemma OwnerOwnsItself(d: Disk, l: Layout, x: Path)
    requires Apart(l) && !IsAnyCandidate(l, x)
    ensures Owner(l, Owner(l, x)) == Owner(l, x) && !IsAnyCandidate(l, Owner(l, x))
  {
  }

  lemma RootedTransitive(d: Disk, s: Disk, t: Disk, l: Layout)
    requires Apart(l) && Rooted(d, s, l) && Rooted(s, t, l)
    ensures Rooted(d, t, l)
  {
    hide Owner, IsAnyCandidate, InSet;
    forall x, y | x in t.names && y in t.names && !IsAnyCandidate(l, x) && !IsAnyCandidate(l, y) && t.names[x] == t.names[y]
      ensures Owner(l, x) == Owner(l, y) || SameEntryNode(d, Owner(l, x), Owner(l, y))
    {
      OwnerOwnsItself(d, l, x);
      OwnerOwnsItself(d, l, y);
    }
  }

  /** The name under which `t` has got the inode of `x` from `s`. */
  lemma Origin(s: Disk, t: Disk, l: Layout, x: Path) returns (y: Path)
    requires Apart(l) && Underway(s, t, l) && x in t.names && !IsAnyCandidate(l, x)
    ensures y in s.names && s.names[y] == t.names[x] && !IsAnyCandidate(l, y) && Owner(l, y) == Owner(l, x)
    ensures y == x || (x in l.paths && IsBackup(x, y) && y !in t.names)
  {
    y := x;
    if !Unmoved(s, t, x) {
      assert !InPlace(s, t, x);
      assert Handled(s, t, x);
      y :| y in s.names && IsBackup(x, y) && y !in t.names && t.names[x] == s.names[y];
      OwnerOfBackup(l, x, y);
    }
  }

  lemma KinBehind(d: Disk, s: Disk, t: Disk, l: Layout)
    requires Apart(l) && Kin(d, s, l) && Underway(s, t, l)
    ensures Kin(d, t, l)
  {
    hide Owner, IsAnyCandidate, Underway, Apart;
    forall x, y | x in t.names && y in t.names && !IsAnyCandidate(l, x) && !IsAnyCandidate(l, y) && t.names[x] == t.names[y]
      ensures Owner(l, x) == Owner(l, y) || SameEntryNode(d, Owner(l, x), Owner(l, y))
    {
      var v := Origin(s, t, l, x);
      var w := Origin(s, t, l, y);
    }
  }

  // ---------- What a caller can check of the links ----------

  /** What the install paths of the set hold, or those of them that a release names. */
  type Generation = map<Path, Node>

  function At(g: Generation, p: Path): Option<Node> {
    if p in g then Some(g[p]) else None
  }

  /** The chain of links that starts at `q` stays outside the set. */
  ghost predicate LeadsOut(d: Disk, l: Layout, q: Path, hops: nat)
    decreases hops
  {
    !InSet(l, q) &&
    match View(d, q)
    case Some(Link(target)) => hops == 0 || LeadsOut(d, l, target, hops - 1)
    case _ => true
  }

  /** The entry is a file, or a link that leads out of the set. */
  ghost predicate Out(d: Disk, l: Layout, n: Node) {
    n.Link? ==> LeadsOut(d, l, n.target, MAX_HOPS - 1)
  }

  /** The file outside the set that entry `n` of `p` can be one with. */
  function Far(d: Disk, p: Path, n: Node): Option<nat> {
    match n
    case File(_) => if p in d.names then Some(d.names[p]) else None
    case Link(q) => Resolve(d, q, MAX_HOPS - 1)
  }

  ghost predicate Meet(d: Disk, p: Path, n: Node, m: Node) {
    Far(d, p, n).Some? && Far(d, p, n) == Far(d, p, m)
  }

  /** Equal entries, or links that lead out of the set to one file. */
  ghost predicate Alike(d: Disk, l: Layout, p: Path, n: Node, m: Node) {
    n == m || (n.Link? && m.Link? && Out(d, l, n) && Out(d, l, m) && Meet(d, p, n, m))
  }

  lemma AlikeTransitive(d: Disk, l: Layout, p: Path, a: Node, b: Node, c: Node)
    requires Alike(d, l, p, a, b) && Alike(d, l, p, b, c)
    ensures Alike(d, l, p, a, c)
  {
    hide LeadsOut;
  }

  function OutEnd(d: Disk, q: Path, hops: nat): Path
    decreases hops
  {
    match View(d, q)
    case Some(Link(target)) => if hops == 0 then q else OutEnd(d, target, hops - 1)
    case _ => q
  }

  /** Where a chain outside the set leads does not change while only the set does. */
  lemma {:induction false} OutResolves(d: Disk, t: Disk, l: Layout, q: Path, hops: nat)
    requires OnlySet(d, t, l) && LeadsOut(d, l, q, hops)
    ensures Resolve(t, q, hops) == Resolve(d, q, hops)
    decreases hops
  {
    hide InSet;
    match View(d, q)
    case Some(Link(target)) =>
      if hops > 0 {
        OutResolves(d, t, l, target, hops - 1);
      }
    case _ =>
      assert SameEntry(d, t, q);
  }

  lemma {:induction false} OutEndIs(d: Disk, l: Layout, q: Path, hops: nat)
    requires LeadsOut(d, l, q, hops) && Resolve(d, q, hops).Some?
    ensures var f := OutEnd(d, q, hops); !InSet(l, f) && f in d.names && Some(d.names[f]) == Resolve(d, q, hops)
    decreases hops
  {
    hide InSet;
    match View(d, q)
    case Some(Link(target)) => OutEndIs(d, l, target, hops - 1);
    case _ =>
  }

  predicate MayHold(gens: seq<Generation>, p: Path, n: Node) {
    exists i :: 0 <= i < |gens| && p in gens[i] && gens[i][p] == n
  }

  /** An entry of the set may come from any generation; every other name stays as it is on `d`. */
  ghost predicate MayShow(d: Disk, l: Layout, gens: seq<Generation>, p: Path, n: Node) {
    if p in l.paths then MayHold(gens, p, n) else View(d, p) == Some(n)
  }

  /** No link leads out of `names`. */
  ghost predicate ClosedUnder(d: Disk, l: Layout, gens: seq<Generation>, names: set<Path>) {
    forall x, q :: x in names && MayShow(d, l, gens, x, Link(q)) ==> q in names
  }

  /** The entry `n` of `p` is a file of `p`, or a link that leads to nothing but `names`. */
  ghost predicate LeadsInto(d: Disk, l: Layout, gens: seq<Generation>, p: Path, n: Node, names: set<Path>) {
    match n
    case File(_) => p in names
    case Link(q) => q in names && ClosedUnder(d, l, gens, names)
  }

  /** No name of the one set is a name of the other, nor a hard link to one. */
  ghost predicate NeverMeet(d: Disk, a: set<Path>, b: set<Path>) {
    forall x, y :: x in a && y in b ==> x != y && !SameEntryNode(d, x, y)
  }

  /** Both lead nowhere but out of the set, and not to one file. */
  ghost predicate LeadApart(d: Disk, l: Layout, p: Path, n: Node, m: Node) {
    Out(d, l, n) && Out(d, l, m) && !Meet(d, p, n, m)
  }

  /** The entries `n` and `m` of `p` are equal, or both files, or never resolve to one file. */
  ghost predicate Discerned(d: Disk, l: Layout, gens: seq<Generation>, p: Path, n: Node, m: Node) {
    || n == m
    || (n.File? && m.File?)
    || LeadApart(d, l, p, n, m)
    || exists a, b :: LeadsInto(d, l, gens, p, n, a) && LeadsInto(d, l, gens, p, m, b) && NeverMeet(d, a, b)
  }

  /** Any two entries that one path may come to hold are told apart, or are links that lead out of the set to
      one file; and so for each with a file. */
  ghost predicate LinksDiscerned(d: Disk, l: Layout, gens: seq<Generation>) {
    forall p, n, m :: p in l.paths && (MayHold(gens, p, n) || n.File?) && (MayHold(gens, p, m) || m.File?) ==>
      Discerned(d, l, gens, p, n, m) || Alike(d, l, p, n, m)
  }

  lemma {:induction false} OutEndIn(d: Disk, l: Layout, gens: seq<Generation>, names: set<Path>, q: Path, hops: nat)
    requires LeadsOut(d, l, q, hops) && ClosedUnder(d, l, gens, names) && q in names
    ensures OutEnd(d, q, hops) in names
    decreases hops
  {
    match View(d, q)
    case Some(Link(target)) =>
      if hops > 0 {
        assert MayShow(d, l, gens, q, Link(target));
        OutEndIn(d, l, gens, names, target, hops - 1);
      }
    case _ =>
  }

  /** The name of the file that an entry leads to, in each set of names that it leads into. */
  lemma FarName(d: Disk, l: Layout, gens: seq<Generation>, p: Path, n: Node, names: set<Path>) returns (f: Path)
    requires Out(d, l, n) && LeadsInto(d, l, gens, p, n, names) && Far(d, p, n).Some?
    ensures f in names && f in d.names && Some(d.names[f]) == Far(d, p, n)
  {
    hide InSet, LeadsOut;
    match n
    case File(_) => f := p;
    case Link(q) =>
      f := OutEnd(d, q, MAX_HOPS - 1);
      OutEndIs(d, l, q, MAX_HOPS - 1);
      OutEndIn(d, l, gens, names, q, MAX_HOPS - 1);
  }

  /** Entries that lead out of the set are told apart exactly when they are equal, both files, or lead to
      different files. */
  lemma DiscernedOutIff(d: Disk, l: Layout, gens: seq<Generation>, p: Path, n: Node, m: Node)
    requires Out(d, l, n) && Out(d, l, m)
    ensures Discerned(d, l, gens, p, n, m) <==> n == m || (n.File? && m.File?) || !Meet(d, p, n, m)
  {
    hide Out, LeadsInto, Far;
    if n != m && Meet(d, p, n, m) && !(n.File? && m.File?) {
      forall a, b | LeadsInto(d, l, gens, p, n, a) && LeadsInto(d, l, gens, p, m, b)
        ensures !NeverMeet(d, a, b)
      {
        var x := FarName(d, l, gens, p, n, a);
        var y := FarName(d, l, gens, p, m, b);
        assert x == y || SameEntryNode(d, x, y);
      }
    }
  }

  /** `g` holds entries of the generations, or files in their place. */
  ghost predicate Fits(l: Layout, gens: seq<Generation>, g: Generation) {
    forall p :: p in l.paths && p in g ==> g[p].File? || MayHold(gens, p, g[p])
  }

  // ---------- The backups of a state ----------

  /** `b` shows what `p` held, as a fresh inode if that was a link; or it is an unfinished backup. */
  ghost predicate BackupFine(s: Disk, p: Path, b: Path, was: Option<Node>) {
    || (View(s, b) == was && (was.Some? && was.value.Link? ==> !SameEntryNode(s, b, p)))
    || (View(s, b).Some? && View(s, b).value.File? && Unshared(s, b) && View(s, p) == was)
  }

  /** `p` is on its way from `was` to `will`, or back. */
  ghost predicate Traced(s: Disk, p: Path, was: Option<Node>, will: Option<Node>) {
    && (p in s.names ==> View(s, p) == was || View(s, p) == will)
    && (forall b :: b in s.names && IsBackup(p, b) ==> View(s, b).Some? && BackupFine(s, p, b, was))
  }

  ghost predicate AllTraced(s: Disk, l: Layout, g: Generation, h: Generation) {
    forall p :: p in l.paths ==> Traced(s, p, At(g, p), At(h, p))
  }

  // ---------- Why no backup is lost ----------

  ghost predicate LinksShown(d: Disk, t: Disk, l: Layout, gens: seq<Generation>) {
    forall x, q :: !IsTemporary(l, x) && View(t, x) == Some(Link(q)) ==> MayShow(d, l, gens, x, Link(q))
  }

  lemma ShownBehind(d: Disk, s: Disk, t: Disk, l: Layout, gens: seq<Generation>, g: Generation, h: Generation)
    requires Apart(l) && Rooted(d, s, l) && AllTraced(s, l, g, h) && Fits(l, gens, g) && Fits(l, gens, h)
    requires l.marker !in s.names && Underway(s, t, l)
    ensures LinksShown(d, t, l, gens)
  {
    hide Kin, MayHold, IsTemporary;
    forall x, q | !IsTemporary(l, x) && View(t, x) == Some(Link(q))
      ensures MayShow(d, l, gens, x, Link(q))
    {
      ShownName(d, s, t, l, gens, g, h, x, q);
    }
  }

  lemma ShownName(d: Disk, s: Disk, t: Disk, l: Layout, gens: seq<Generation>, g: Generation, h: Generation, x: Path,
                  q: Path)
    requires Apart(l) && Rooted(d, s, l) && AllTraced(s, l, g, h) && Fits(l, gens, g) && Fits(l, gens, h)
    requires l.marker !in s.names && Underway(s, t, l)
    requires !IsTemporary(l, x) && View(t, x) == Some(Link(q))
    ensures MayShow(d, l, gens, x, Link(q))
  {
    hide Kin, MayHold;
    assert x in l.paths ==> InPlace(s, t, x) || Handled(s, t, x);
    assert x in l.paths ==> Traced(s, x, At(g, x), At(h, x));
    if !Unmoved(s, t, x) {
      var b :| b in s.names && IsBackup(x, b) && b !in t.names && t.names[x] == s.names[b];
      assert View(t, x) == View(s, b);
      assert BackupFine(s, x, b, At(g, x));
    }
  }

  lemma {:induction false} FinalName(d: Disk, t: Disk, l: Layout, gens: seq<Generation>, names: set<Path>, x: Path,
                                     hops: nat)
    returns (f: Path)
    requires LinksShown(d, t, l, gens) && NoLinkToTemporary(t, l) && ClosedUnder(d, l, gens, names)
    requires x in names && !IsTemporary(l, x) && Resolve(t, x, hops).Some?
    ensures f in names && !IsTemporary(l, f) && f in t.names && Some(t.names[f]) == Resolve(t, x, hops)
    decreases hops
  {
    hide MayShow, IsTemporary;
    match View(t, x)
    case Some(File(_)) => f := x;
    case Some(Link(q)) =>
      assert t.nodes[t.names[x]] == Link(q);
      assert MayShow(d, l, gens, x, Link(q));
      f := FinalName(d, t, l, gens, names, q, hops - 1);
  }

  /** The name whose inode an entry of `p`, seen at `at`, resolves to. */
  lemma EntryName(d: Disk, t: Disk, l: Layout, gens: seq<Generation>, p: Path, at: Path, n: Node, names: set<Path>)
    returns (f: Path)
    requires Apart(l) && LinksShown(d, t, l, gens) && NoLinkToTemporary(t, l)
    requires p in l.paths && (at == p || IsBackup(p, at)) && View(t, at) == Some(n)
    requires LeadsInto(d, l, gens, p, n, names) && Stat(t, at).Some?
    ensures f in t.names && !IsAnyCandidate(l, f) && Owner(l, f) in names && Some(t.names[f]) == Stat(t, at)
  {
    match n {
      case File(_) =>
        f := at;
        if at != p {
          OwnerOfBackup(l, p, at);
        }
      case Link(q) =>
        assert t.nodes[t.names[at]] == Link(q);
        f := FinalName(d, t, l, gens, names, q, MAX_HOPS - 1);
    }
  }

  /** Entries that lead out of the set to different files, or to none, stay apart while only the set changes. */
  lemma ApartResolve(d: Disk, t: Disk, l: Layout, p: Path, b: Path, n: Node, m: Node)
    requires Apart(l) && OnlySet(d, t, l) && Kin(d, t, l)
    requires p in l.paths && IsBackup(p, b) && View(t, b) == Some(n) && View(t, p) == Some(m)
    requires LeadApart(d, l, p, n, m) && !(n.File? && m.File?)
    ensures !SameFile(t, b, p)
  {
    hide InSet, LeadsOut, Owner, IsAnyCandidate, Resolve;
    OutStat(d, t, l, b, n);
    OutStat(d, t, l, p, m);
    if n.File? && Far(d, p, m).Some? {
      OutNode(d, t, l, p, b, m);
    } else if m.File? && Far(d, p, n).Some? {
      OutNode(d, t, l, p, p, n);
    }
  }

  /** What an entry that leads out resolves to, wherever it stands. */
  lemma {:induction false} OutStat(d: Disk, t: Disk, l: Layout, x: Path, n: Node)
    requires OnlySet(d, t, l) && Out(d, l, n) && View(t, x) == Some(n)
    ensures Stat(t, x) == if n.File? then Some(t.names[x]) else Resolve(d, n.target, MAX_HOPS - 1)
  {
    match n
    case File(_) =>
    case Link(q) => OutResolves(d, t, l, q, MAX_HOPS - 1);
  }

  /** A file of `p` is not the one outside the set that link `m` leads to, unless it was so on `d`. */
  lemma OutNode(d: Disk, t: Disk, l: Layout, p: Path, x: Path, m: Node)
    requires Apart(l) && OnlySet(d, t, l) && Kin(d, t, l) && m.Link? && Out(d, l, m) && Far(d, p, m).Some?
    requires p in l.paths && (x == p || IsBackup(p, x)) && x in t.names
    requires !(p in d.names && Far(d, p, m) == Some(d.names[p]))
    ensures Far(d, p, m) != Some(t.names[x])
  {
    var f := OutEnd(d, m.target, MAX_HOPS - 1);
    OutEndIs(d, l, m.target, MAX_HOPS - 1);
    assert SameEntry(d, t, f);
    OutsideOwner(l, f);
    InsideOwner(l, p, x);
    hide InSet, Owner, IsAnyCandidate;
    assert t.names[f] == t.names[x] ==> SameEntryNode(d, p, f);
  }

  lemma OutsideOwner(l: Layout, f: Path)
    requires !InSet(l, f)
    ensures Owner(l, f) == f && !IsAnyCandidate(l, f) && f !in l.paths
  {
  }

  lemma InsideOwner(l: Layout, p: Path, x: Path)
    requires Apart(l) && p in l.paths && (x == p || IsBackup(p, x))
    ensures Owner(l, x) == p && !IsAnyCandidate(l, x)
  {
    if x != p {
      OwnerOfBackup(l, p, x);
    }
  }

  /** Entries that are told apart do not resolve to one file. */
  lemma DiscernedResolve(d: Disk, t: Disk, l: Layout, gens: seq<Generation>, p: Path, b: Path, n: Node, m: Node)
    requires Apart(l) && LinksShown(d, t, l, gens) && NoLinkToTemporary(t, l) && Kin(d, t, l) && OnlySet(d, t, l)
    requires p in l.paths && IsBackup(p, b) && View(t, b) == Some(n) && View(t, p) == Some(m)
    requires Discerned(d, l, gens, p, n, m) && n != m && !(n.File? && m.File?)
    ensures !SameFile(t, b, p)
  {
    hide LinksShown, Owner, IsAnyCandidate, LeadsInto, OnlySet, LeadApart;
    if LeadApart(d, l, p, n, m) {
      ApartResolve(d, t, l, p, b, n, m);
    } else if Stat(t, b).Some? && Stat(t, p).Some? {
      var x, y :| LeadsInto(d, l, gens, p, n, x) && LeadsInto(d, l, gens, p, m, y) && NeverMeet(d, x, y);
      var v := EntryName(d, t, l, gens, p, b, n, x);
      var w := EntryName(d, t, l, gens, p, p, m, y);
      assert Owner(l, v) != Owner(l, w) && !SameEntryNode(d, Owner(l, v), Owner(l, w));
      assert t.names[v] != t.names[w];
    }
  }

  /** Two files of one path are one only if they are the same inode, and then they are equal. */
  lemma FilesResolve(t: Disk, p: Path, b: Path)
    requires View(t, b).Some? && View(t, b).value.File? && View(t, p).Some? && View(t, p).value.File?
    ensures SameFile(t, b, p) ==> View(t, b) == View(t, p)
  {
  }

  /** Links that lead out to one file do so wherever they stand. */
  lemma AlikeResolve(d: Disk, t: Disk, l: Layout, p: Path, b: Path, n: Node, m: Node)
    requires OnlySet(d, t, l) && View(t, b) == Some(n) && View(t, p) == Some(m)
    requires Alike(d, l, p, n, m) && n != m
    ensures SameFile(t, b, p)
  {
    hide InSet, LeadsOut, Resolve;
    OutStat(d, t, l, b, n);
    OutStat(d, t, l, p, m);
  }

  /** An unfinished backup is a file of its own. */
  lemma UnfinishedResolves(s: Disk, t: Disk, l: Layout, p: Path, b: Path)
    requires Apart(l) && Underway(s, t, l) && NoLinkToTemporary(t, l) && OneBackup(s, p)
    requires p in l.paths && IsBackup(p, b) && b in t.names && b in s.names && Unshared(s, b)
    requires View(t, b).Some? && View(t, b).value.File?
    ensures !SameFile(t, b, p)
  {
    assert b !in l.paths && Unmoved(s, t, b);
    if Stat(t, p).Some? {
      var f := ResolvedName(t, p, MAX_HOPS);
      assert !IsTemporary(l, f) && Owner(l, f) == f;
      var y := Origin(s, t, l, f);
      OwnerOfBackup(l, p, b);
      assert y != b;
      assert t.names[f] != t.names[b];
    }
  }

  lemma NothingThere(t: Disk, b: Path, p: Path)
    requires View(t, p).None?
    ensures !SameFile(t, b, p)
  {
  }

  // ---------- What recovery makes of a state ----------

  /** What recovery leaves at `p`: the entry that was there, or the new link if both lead out to one file. */
  ghost function Restores(d: Disk, s: Disk, l: Layout, g: Generation, h: Generation, p: Path): Option<Node> {
    if Exchanged(s, l, g, h, p) && Alike(d, l, p, g[p], h[p]) then Some(h[p]) else Outcome(s, l, p)
  }

  /** The new entry is in place, and the backup shows the old one. */
  ghost predicate Exchanged(s: Disk, l: Layout, g: Generation, h: Generation, p: Path) {
    p in g && p in h && HasBackup(s, p) && View(s, p) == Some(h[p]) && Outcome(s, l, p) == Some(g[p])
  }

  /** The test at the backup `b` of `p`. */
  lemma TracedTest(d: Disk, s: Disk, t: Disk, l: Layout, gens: seq<Generation>, g: Generation, h: Generation,
                   p: Path, b: Path)
    requires Apart(l) && WellFormed(s) && OneBackup(s, p) && NoLinkToTemporary(s, l) && Rooted(d, s, l)
    requires LinksDiscerned(d, l, gens) && Fits(l, gens, g) && Fits(l, gens, h) && AllTraced(s, l, g, h)
    requires l.marker !in s.names && Underway(s, t, l) && p in l.paths && b in s.names && IsBackup(p, b)
    requires InPlace(s, t, p)
    ensures View(t, b) == View(s, b) && View(t, p) == View(s, p)
    ensures SameFile(t, b, p) && View(s, b) != View(s, p) ==>
              && p in g && p in h && View(s, p) == Some(h[p]) && View(s, b) == Some(g[p])
              && Alike(d, l, p, g[p], h[p])
    ensures p in g && p in h && View(s, p) == Some(h[p]) && View(s, b) == Some(g[p]) && g[p] != h[p] ==>
              Alike(d, l, p, g[p], h[p]) ==> SameFile(t, b, p)
  {
    hide Discerned, Alike, MayHold, Stat, LinksShown, Kin, IsTemporary, OnlySet;
    assert Traced(s, p, At(g, p), At(h, p));
    assert BackupFine(s, p, b, At(g, p));
    OnlySetTransitive(d, s, t, l);
    if p !in s.names {
      NothingThere(t, b, p);
    } else if View(s, b) != View(s, p) {
      if View(s, b) == At(g, p) {
        ShownBehind(d, s, t, l, gens, g, h);
        KinBehind(d, s, t, l);
        assert Discerned(d, l, gens, p, g[p], h[p]) || Alike(d, l, p, g[p], h[p]);
        if Alike(d, l, p, g[p], h[p]) {
          AlikeResolve(d, t, l, p, b, g[p], h[p]);
        } else if g[p].File? && h[p].File? {
          FilesResolve(t, p, b);
        } else {
          DiscernedResolve(d, t, l, gens, p, b, g[p], h[p]);
        }
      } else {
        UnfinishedResolves(s, t, l, p, b);
      }
    }
  }

  lemma OnlySetTransitive(d: Disk, s: Disk, t: Disk, l: Layout)
    requires OnlySet(d, s, l) && OnlySet(s, t, l)
    ensures OnlySet(d, t, l)
  {
  }

  lemma TracedResult(d: Disk, s: Disk, t: Disk, l: Layout, gens: seq<Generation>, g: Generation, h: Generation, p: Path)
    requires Apart(l) && WellFormed(s) && OneBackup(s, p) && NoLinkToTemporary(s, l) && Rooted(d, s, l)
    requires LinksDiscerned(d, l, gens) && Fits(l, gens, g) && Fits(l, gens, h) && AllTraced(s, l, g, h)
    requires l.marker !in s.names && Underway(s, t, l) && p in l.paths && InPlace(s, t, p)
    ensures Result(t, l, p) == Restores(d, s, l, g, h, p)
  {
    hide LinksDiscerned, Fits, NoLinkToTemporary, Rooted, Alike, SameFile, AllTraced;
    NoNewMarker(s, t, l);
    if b :| b in s.names && IsBackup(p, b) {
      TracedTest(d, s, t, l, gens, g, h, p, b);
      NoNewBackup(s, t, l, p);
      OutcomeOf(s, l, p, b);
      ResultOf(t, l, p, b);
    } else {
      NoBackupResult(s, l, p);
      SameWithoutBackup(s, t, l, p);
    }
  }

  lemma TracedOwnLinks(s: Disk, l: Layout, g: Generation, h: Generation)
    requires AllTraced(s, l, g, h)
    ensures OwnLinks(s, l)
  {
    forall p, b | p in l.paths && IsBackup(p, b) && SameEntryNode(s, b, p)
      ensures View(s, b).Some? && View(s, b).value.File?
    {
      assert Traced(s, p, At(g, p), At(h, p));
      assert BackupFine(s, p, b, At(g, p));
    }
  }

  /** On a state whose entries and backups come from two generations that fit, recovery restores a definite set
      however often it is killed: the backups, except where the new entry is a link that leads out of the set to the
      same file as the old one, and stays. */
  lemma TracedIsRecoverable(d: Disk, s: Disk, l: Layout, gens: seq<Generation>, g: Generation, h: Generation)
    requires Apart(l) && WellFormed(s) && OneBackupEach(s, l) && NoLinkToTemporary(s, l) && Rooted(d, s, l)
    requires LinksDiscerned(d, l, gens) && Fits(l, gens, g) && Fits(l, gens, h) && AllTraced(s, l, g, h)
    ensures Recoverable(s, l)
    ensures l.marker !in s.names ==> forall p :: p in l.paths ==> Result(s, l, p) == Restores(d, s, l, g, h, p)
  {
    hide Apart, Rooted, LinksDiscerned, Fits, AllTraced, Underway, InPlace, Result, Restores, NoLinkToTemporary,
         OwnLinks;
    TracedOwnLinks(s, l, g, h);
    if l.marker !in s.names {
      UnderwayRefl(s, l);
      forall p | p in l.paths
        ensures FixedTest(s, l, p) && Result(s, l, p) == Restores(d, s, l, g, h, p)
      {
        InPlaceRefl(s, p);
        TracedResult(d, s, s, l, gens, g, h, p);
        forall t | Underway(s, t, l) && InPlace(s, t, p)
          ensures Result(t, l, p) == Result(s, l, p)
        {
          TracedResult(d, s, t, l, gens, g, h, p);
        }
      }
    }
  }

  lemma InPlaceRefl(s: Disk, p: Path)
    ensures InPlace(s, s, p)
  {
  }
}
