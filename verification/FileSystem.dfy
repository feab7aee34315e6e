/** The part of a POSIX file system that the installer uses: names point at inodes, and
    inodes hold a regular file or a symbolic link.  Every operation is one atomic step of
    class `Fs`, which keeps the set of all states the disk has been in.  A process can be
    killed in any of those states. */
module FileSystem {
  import opened Options

  newtype byte = b: int | 0 <= b < 256

  datatype Path = Path(dir: string, base: string)

  datatype Node = File(content: seq<byte>) | Link(target: Path)

  datatype Disk = Disk(names: map<Path, nat>, nodes: map<nat, Node>, next: nat)

  ghost predicate WellFormed(d: Disk) {
    && (forall p :: p in d.names ==> d.names[p] in d.nodes)
    && (forall i :: i in d.nodes ==> i < d.next)
  }

  /** What lstat and a read of the name would show. */
  function View(d: Disk, p: Path): Option<Node> {
    if p in d.names && d.names[p] in d.nodes then Some(d.nodes[d.names[p]]) else None
  }

  // ---------- The effect of each operation ----------

  function Unlinked(d: Disk, p: Path): Disk {
    d.(names := d.names - {p})
  }

  /** rename() of POSIX.1-2017: when both names are links to one file, it does nothing. */
  function Renamed(d: Disk, from: Path, to: Path): Disk
    requires from in d.names
  {
    if to in d.names && d.names[to] == d.names[from] then d
    else d.(names := (d.names - {from})[to := d.names[from]])
  }

  function HardLinked(d: Disk, from: Path, to: Path): Disk
    requires from in d.names
  {
    d.(names := d.names[to := d.names[from]])
  }

  function Created(d: Disk, p: Path, n: Node): Disk {
    Disk(d.names[p := d.next], d.nodes[d.next := n], d.next + 1)
  }

  /** Writes through the name, so every other link to the inode sees the new content. */
  function Overwritten(d: Disk, p: Path, content: seq<byte>): Disk
    requires p in d.names
  {
    d.(nodes := d.nodes[d.names[p] := File(content)])
  }

  // ---------- stat() follows links ----------

  const MAX_HOPS: nat := 40

  function Resolve(d: Disk, p: Path, hops: nat): Option<nat>
    decreases hops
  {
    match View(d, p)
    case None => None
    case Some(File(_)) => Some(d.names[p])
    case Some(Link(target)) => if hops == 0 then None else Resolve(d, target, hops - 1)
  }

  function Stat(d: Disk, p: Path): Option<nat> {
    Resolve(d, p, MAX_HOPS)
  }

  /** Whether both names resolve to one file. */
  predicate SameFile(d: Disk, p: Path, q: Path) {
    Stat(d, p).Some? && Stat(d, p) == Stat(d, q)
  }

  // ---------- Comparing two states ----------

  predicate SameEntry(d: Disk, e: Disk, q: Path) {
    && (q in d.names <==> q in e.names)
    && (q in d.names ==> d.names[q] == e.names[q])
  }

  /** No inode of `d` was rewritten on the way to `e`. */
  predicate Grows(d: Disk, e: Disk) {
    && d.next <= e.next
    && (forall i :: i in d.nodes ==> i in e.nodes && e.nodes[i] == d.nodes[i])
  }

  lemma {:induction false} ResolvedName(d: Disk, p: Path, hops: nat) returns (q: Path)
    requires Resolve(d, p, hops).Some?
    ensures q in d.names && Some(d.names[q]) == Resolve(d, p, hops)
    ensures View(d, q).Some? && View(d, q).value.File?
    ensures q == p || exists i :: i in d.nodes && d.nodes[i] == Link(q)
    decreases hops
  {
    match View(d, p)
    case Some(File(_)) => q := p;
    case Some(Link(target)) =>
      q := ResolvedName(d, target, hops - 1);
      assert d.nodes[d.names[p]] == Link(target);
  }

  // ---------- The operations ----------

  datatype Op = Probe | Create | Unlink | Discard | Rename | HardLink | Symlink | Write

  class Fs {
    var disk: Disk
    /** Every state of the disk since the process started. */
    var reached: set<Disk>
    var clock: nat
    /** The environment: which operation on which name fails at which moment. */
    const fails: (Op, Path, nat) -> bool
    /** The environment: the random part of each temporary name. */
    const suffixes: nat -> string

    constructor (start: Disk, fails: (Op, Path, nat) -> bool, suffixes: nat -> string)
      ensures disk == start && reached == {start} && clock == 0
      ensures this.fails == fails && this.suffixes == suffixes
    {
      disk, reached, clock := start, {start}, 0;
      this.fails, this.suffixes := fails, suffixes;
    }

    ghost predicate Valid()
      reads this
    {
      WellFormed(disk) && disk in reached
    }

    /** One attempt at a step that leads to `after` when the operating system allows it. */
    method Attempt(op: Op, p: Path, possible: bool, after: Disk) returns (ok: bool)
      modifies this
      ensures ok <==> possible && !fails(op, p, old(clock))
      ensures disk == if ok then after else old(disk)
      ensures reached == old(reached) + {disk} && clock == old(clock) + 1
    {
      ok := possible && !fails(op, p, clock);
      if ok {
        disk := after;
      }
      reached := reached + {disk};
      clock := clock + 1;
    }

    /** An operation that only looks, such as lstat or readlink, and may fail. */
    method Look(p: Path) returns (ok: bool)
      requires Valid()
      modifies this
      ensures Valid() && disk == old(disk) && reached == old(reached)
      ensures ok <==> !fails(Probe, p, old(clock))
    {
      ok := Attempt(Probe, p, true, disk);
    }

    method Unlink(p: Path) returns (ok: bool)
      requires Valid()
      modifies this
      ensures Valid() && reached == old(reached) + {disk}
      ensures disk == if ok then Unlinked(old(disk), p) else old(disk)
      ensures ok <==> p in old(disk).names && !fails(Op.Unlink, p, old(clock))
    {
      ok := Attempt(Op.Unlink, p, p in disk.names, Unlinked(disk, p));
    }

    /** The removal of a backup behind the commit marker, whose error nobody looks at. */
    method Discard(p: Path)
      requires Valid()
      modifies this
      ensures Valid() && reached == old(reached) + {disk}
      ensures disk == if p in old(disk).names && !fails(Op.Discard, p, old(clock)) then Unlinked(old(disk), p) else old(disk)
    {
      var _ := Attempt(Op.Discard, p, p in disk.names, Unlinked(disk, p));
    }

    method Rename(from: Path, to: Path) returns (ok: bool)
      requires Valid()
      modifies this
      ensures Valid() && reached == old(reached) + {disk}
      ensures ok <==> from in old(disk).names && !fails(Op.Rename, from, old(clock))
      ensures disk == if ok then Renamed(old(disk), from, to) else old(disk)
    {
      if from in disk.names {
        ok := Attempt(Op.Rename, from, true, Renamed(disk, from, to));
      } else {
        ok := Attempt(Op.Rename, from, false, disk);
      }
    }

    /** os.Link refuses a name that exists. */
    method HardLink(from: Path, to: Path) returns (ok: bool)
      requires Valid()
      modifies this
      ensures Valid() && reached == old(reached) + {disk}
      ensures ok <==> from in old(disk).names && to !in old(disk).names && !fails(Op.HardLink, to, old(clock))
      ensures disk == if ok then HardLinked(old(disk), from, to) else old(disk)
    {
      if from in disk.names {
        ok := Attempt(Op.HardLink, to, to !in disk.names, HardLinked(disk, from, to));
      } else {
        ok := Attempt(Op.HardLink, to, false, disk);
      }
    }

    /** Creates a node under a name that must be free: O_EXCL, os.CreateTemp and os.Symlink. */
    method CreateNew(op: Op, p: Path, n: Node) returns (ok: bool)
      requires Valid()
      modifies this
      ensures Valid() && reached == old(reached) + {disk}
      ensures ok <==> p !in old(disk).names && !fails(op, p, old(clock))
      ensures disk == if ok then Created(old(disk), p, n) else old(disk)
    {
      ok := Attempt(op, p, p !in disk.names, Created(disk, p, n));
    }

    method CreateTemp(dir: string, prefix: string) returns (ok: bool, p: Path)
      requires Valid()
      modifies this
      ensures Valid() && reached == old(reached) + {disk}
      ensures p == Path(dir, prefix + suffixes(old(clock)))
      ensures ok <==> p !in old(disk).names && !fails(Create, p, old(clock))
      ensures disk == if ok then Created(old(disk), p, File([])) else old(disk)
    {
      p := Path(dir, prefix + suffixes(clock));
      ok := CreateNew(Create, p, File([]));
    }

    method Overwrite(p: Path, content: seq<byte>) returns (ok: bool)
      requires Valid() && p in disk.names
      modifies this
      ensures Valid() && reached == old(reached) + {disk}
      ensures disk == if ok then Overwritten(old(disk), p, content) else old(disk)
      ensures ok <==> !fails(Write, p, old(clock))
    {
      ok := Attempt(Write, p, true, Overwritten(disk, p, content));
    }

    /** The names in one directory that extend a prefix, in some order, as filepath.Glob of
        the prefix and a star lists them. */
    method Glob(dir: string, prefix: string) returns (found: seq<Path>)
      ensures forall q :: q in found <==> q in disk.names && q.dir == dir && prefix <= q.base
      ensures forall i, j :: 0 <= i < j < |found| ==> found[i] != found[j]
    {
      var left := set q | q in disk.names && q.dir == dir && prefix <= q.base;
      found := [];
      while left != {}
        invariant forall q :: q in found ==> q !in left
        invariant forall q :: q in found || q in left <==> q in disk.names && q.dir == dir && prefix <= q.base
        invariant forall i, j :: 0 <= i < j < |found| ==> found[i] != found[j]
        decreases left
      {
        var q :| q in left;
        found, left := found + [q], left - {q};
      }
    }

    /** A new process starts on the disk as it is. */
    method Restart()
      requires Valid()
      modifies this
      ensures Valid() && disk == old(disk) && reached == {disk}
    {
      reached := {disk};
    }

    /** The process is killed: the disk stays in one of the states it has been in. */
    method Kill(s: Disk)
      requires s in reached && WellFormed(s)
      modifies this
      ensures Valid() && disk == s && reached == {s}
    {
      disk, reached := s, {s};
    }
  }

  /** An environment that refuses nothing that has to succeed: it may have no hard links, and the removal of a
      backup behind the marker may fail. */
  ghost predicate Obliging(fs: Fs) {
    forall op, p, t :: op != Op.HardLink && op != Op.Discard ==> !fs.fails(op, p, t)
  }
}
