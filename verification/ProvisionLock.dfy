/** The directory lock of a provisioning run, as any number of processes take it: making the
    directory, opening and writing the pid file, reading it, probing the holder, renaming the
    directory away and removing it are separate steps that interleave freely. */
module ProvisionLock {
  import opened Options

  type Pid = p: nat | p > 0 witness 1

  /** The lock directory and its pid file, which holds nothing yet when it is open but not written.  Each file
      that is created has a number of its own, as its inode. */
  datatype Dir = Dir(owner: Pid, pid: PidFile)
  datatype PidFile = Missing | Present(file: nat, pid: Option<Pid>)

  /** Where a process stands in acquireProvisionLock, or in the release it returns. */
  datatype Phase =
    | Idle
    | Trying
    | Made
    | Opened(file: nat)
    | Held
    | Leaving
    | Emptied
    | Refused
    | Reading
    | Judging(pid: Pid)
    | Condemning
    | Cleaning
    | Waiting

  /** `files` counts the pid files that were created. */
  datatype State = State(lock: Option<Dir>, phases: map<Pid, Phase>, alive: set<Pid>, makers: set<Pid>, files: nat) {
    function Phase(q: Pid): Phase {
      if q in phases then phases[q] else Idle
    }

    function To(q: Pid, phase: Phase): State {
      this.(phases := phases[q := phase])
    }
  }

  datatype Action =
    | Begin
    | Mkdir
    | OpenPid
    | WritePid
    | WriteFails
    | Release
    | UnlinkPid
    | Rmdir
    | RemoveFails
    | Stat
    | ReadPid
    | Probe
    | Rename
    | RenameFails
    | Clean
    | Retry
    | TimeOut
    | Exit

  datatype Move = Move(q: Pid, action: Action)

  function Locked(s: State, d: Dir): State {
    s.(lock := Some(d))
  }

  /** The effect of one system call, or None when the process is not there. */
  function Act(s: State, m: Move): Option<State> {
    var q := m.q;
    if q !in s.alive then None
    else
      match (m.action, s.Phase(q))
      case (Begin, Idle) => Some(s.To(q, Trying))
      case (Mkdir, Trying) =>
        if s.lock.None? then Some(Locked(s, Dir(q, Missing)).(makers := s.makers + {q}).To(q, Made))
        else Some(s.To(q, Refused))
      case (OpenPid, Made) =>
        if s.lock.None? then Some(s.To(q, Leaving))
        else
          (match s.lock.value.pid
           case Present(file, _) => Some(Locked(s, s.lock.value.(pid := Present(file, None))).To(q, Opened(file)))
           case Missing =>
             Some(Locked(s, s.lock.value.(pid := Present(s.files, None))).(files := s.files + 1).To(q, Opened(s.files))))
      case (WritePid, Opened(file)) =>
        if s.lock.Some? && s.lock.value.pid.Present? && s.lock.value.pid.file == file
        then Some(Locked(s, s.lock.value.(pid := Present(file, Some(q)))).To(q, Held))
        else Some(s.To(q, Held))
      case (WriteFails, Made) => Some(s.To(q, Leaving))
      case (WriteFails, Opened(_)) => Some(s.To(q, Leaving))
      case (Release, Held) => Some(s.To(q, Leaving))
      case (UnlinkPid, Leaving) =>
        if s.lock.None? then Some(s.To(q, Emptied))
        else Some(Locked(s, s.lock.value.(pid := Missing)).To(q, Emptied))
      case (Rmdir, Emptied) =>
        if s.lock.Some? && s.lock.value.pid != Missing then Some(s.To(q, Leaving))
        else Some(s.(lock := None).To(q, Idle))
      case (RemoveFails, Leaving) => Some(s.To(q, Idle))
      case (RemoveFails, Emptied) => Some(s.To(q, Idle))
      case (Stat, Refused) => Some(s.To(q, if s.lock.None? then Idle else Reading))
      case (ReadPid, Reading) =>
        if s.lock.Some? && s.lock.value.pid.Present? && s.lock.value.pid.pid.Some?
        then Some(s.To(q, Judging(s.lock.value.pid.pid.value)))
        else Some(s.To(q, Waiting))
      case (Probe, Judging(p)) => Some(s.To(q, if p in s.alive then Waiting else Condemning))
      case (Rename, Condemning) => if s.lock.None? then None else Some(s.(lock := None).To(q, Cleaning))
      case (RenameFails, Condemning) => Some(s.To(q, Waiting))
      case (Clean, Cleaning) => Some(s.To(q, Trying))
      case (Retry, Waiting) => Some(s.To(q, Trying))
      case (TimeOut, Waiting) => Some(s.To(q, Idle))
      case (Exit, _) => Some(s.(alive := s.alive - {q}))
      case _ => None
  }

  function Run(s: State, moves: seq<Move>): Option<State>
    decreases |moves|
  {
    if moves == [] then Some(s)
    else
      match Act(s, moves[0])
      case None => None
      case Some(t) => Run(t, moves[1..])
  }

  /** Nobody is at the lock, which may be left over from a process that is gone. */
  ghost predicate Fresh(s: State) {
    && s.phases == map[]
    && (s.lock.Some? ==> s.lock.value.owner !in s.alive && PidFits(s.lock.value))
  }

  predicate PidFits(d: Dir) {
    d.pid.Present? && d.pid.pid.Some? ==> d.pid.pid.value == d.owner
  }

  /** At most one live process holds the lock. */
  ghost predicate Exclusive(s: State) {
    forall q, r :: q in s.alive && r in s.alive && s.Phase(q) == Held && s.Phase(r) == Held ==> q == r
  }

  // ---------- Renaming a directory that no live process owns is safe ----------

  /** A process that made the directory and has not yet removed it. */
  predicate Owning(phase: Phase) {
    phase.Opened? || phase in {Made, Held, Leaving, Emptied}
  }

  predicate Owned(s: State) {
    s.lock.Some? && s.lock.value.owner in s.alive && Owning(s.Phase(s.lock.value.owner))
  }

  /** The move does not rename a directory away whose maker is alive and between making and removing it. */
  predicate Harmless(s: State, m: Move) {
    m.action == Rename ==> !Owned(s)
  }

  ghost predicate AllHarmless(s: State, moves: seq<Move>)
    decreases |moves|
  {
    moves == [] || (Harmless(s, moves[0]) && (Act(s, moves[0]).Some? ==> AllHarmless(Act(s, moves[0]).value, moves[1..])))
  }

  ghost predicate Inv(s: State) {
    && (s.lock.Some? ==> PidFits(s.lock.value))
    && forall q :: q in s.alive && Owning(s.Phase(q)) ==> s.lock.Some? && s.lock.value.owner == q
  }

  lemma InvStep(s: State, m: Move)
    requires Inv(s) && Harmless(s, m) && Act(s, m).Some?
    ensures Inv(Act(s, m).value)
  {
    var t := Act(s, m).value;
    forall q | q in t.alive && Owning(t.Phase(q))
      ensures t.lock.Some? && t.lock.value.owner == q
    {
      assert q != m.q ==> s.Phase(q) == t.Phase(q);
    }
  }

  lemma {:induction false} InvRun(s: State, moves: seq<Move>)
    requires Inv(s) && AllHarmless(s, moves) && Run(s, moves).Some?
    ensures Inv(Run(s, moves).value)
    decreases |moves|
  {
    if moves != [] {
      InvStep(s, moves[0]);
      InvRun(Act(s, moves[0]).value, moves[1..]);
    }
  }

  lemma FreshIsInv(s: State)
    requires Fresh(s)
    ensures Inv(s)
  {
  }

  /** Mutual exclusion: as long as no rename hits a directory that a live process owns, at most one
      live process holds the lock, whatever the number of processes and wherever they stop. */
  lemma {:induction false} HarmlessIsExclusive(s: State, moves: seq<Move>)
    requires Fresh(s) && AllHarmless(s, moves) && Run(s, moves).Some?
    ensures Exclusive(Run(s, moves).value)
  {
    FreshIsInv(s);
    InvRun(s, moves);
  }

  // ---------- Runs in which no past holder exits ----------

  /** Nobody who ever made the directory exits. */
  predicate KeepsMakers(s: State, m: Move) {
    m.action == Exit ==> m.q !in s.makers
  }

  ghost predicate AllKeepMakers(s: State, moves: seq<Move>)
    decreases |moves|
  {
    moves == [] || (KeepsMakers(s, moves[0]) && (Act(s, moves[0]).Some? ==> AllKeepMakers(Act(s, moves[0]).value, moves[1..])))
  }

  /** Every pid that was ever read belongs to a live process, so no lock is ever judged stale. */
  ghost predicate NoneStale(s: State) {
    && s.makers <= s.alive
    && (s.lock.Some? ==> s.lock.value.owner in s.makers)
    && forall q :: q in s.alive ==> s.Phase(q) != Condemning && (s.Phase(q).Judging? ==> s.Phase(q).pid in s.makers)
  }

  lemma NoneStaleStep(s: State, m: Move)
    requires Inv(s) && NoneStale(s) && KeepsMakers(s, m) && Act(s, m).Some?
    ensures Harmless(s, m) && NoneStale(Act(s, m).value)
  {
    var t := Act(s, m).value;
    forall q | q in t.alive
      ensures t.Phase(q) != Condemning && (t.Phase(q).Judging? ==> t.Phase(q).pid in t.makers)
    {
      assert q != m.q ==> s.Phase(q) == t.Phase(q);
    }
  }

  lemma {:induction false} NoneStaleRun(s: State, moves: seq<Move>)
    requires Inv(s) && NoneStale(s) && AllKeepMakers(s, moves) && Run(s, moves).Some?
    ensures Inv(Run(s, moves).value) && NoneStale(Run(s, moves).value)
    decreases |moves|
  {
    if moves != [] {
      NoneStaleStep(s, moves[0]);
      InvStep(s, moves[0]);
      NoneStaleRun(Act(s, moves[0]).value, moves[1..]);
    }
  }

  /** From a free lock, and while no past holder exits, no live process ever judges the lock stale, not
      even in the windows at acquire and release in which it has no pid, and at most one process holds it. */
  lemma {:induction false} NoExitIsExclusive(s: State, moves: seq<Move>)
    requires Fresh(s) && s.lock.None? && s.makers == {}
    requires AllKeepMakers(s, moves) && Run(s, moves).Some?
    ensures var t := Run(s, moves).value;
            Exclusive(t) && forall q :: q in t.alive ==> t.Phase(q) != Condemning
  {
    FreshIsInv(s);
    NoneStaleRun(s, moves);
  }

  // ---------- A rename of an owned directory admits two holders ----------

  lemma {:induction false} RunConcat(s: State, a: seq<Move>, b: seq<Move>)
    requires Run(s, a).Some?
    ensures Run(s, a + b) == Run(Run(s, a).value, b)
    decreases |a|
  {
    if a == [] {
      assert a + b == b;
    } else {
      assert (a + b)[1..] == a[1..] + b;
      RunConcat(Act(s, a[0]).value, a[1..], b);
    }
  }

  lemma {:induction false} RunOne(s: State, m: Move)
    ensures Run(s, [m]) == Act(s, m)
  {
    assert [m][1..] == [];
  }

  lemma {:induction false} RunThen(s: State, a: seq<Move>, m: Move)
    requires Run(s, a).Some?
    ensures Run(s, a + [m]) == Act(Run(s, a).value, m)
  {
    RunConcat(s, a, [m]);
    RunOne(Run(s, a).value, m);
  }

  /** Nobody renames, and nobody exits. */
  ghost predicate Quiet(moves: seq<Move>) {
    forall i :: 0 <= i < |moves| ==> moves[i].action != Rename && moves[i].action != Exit
  }

  lemma {:induction false} QuietIsHarmless(s: State, moves: seq<Move>)
    requires Quiet(moves)
    ensures AllHarmless(s, moves)
    decreases |moves|
  {
    if moves != [] && Act(s, moves[0]).Some? {
      QuietIsHarmless(Act(s, moves[0]).value, moves[1..]);
    }
  }

  /** `h` made the directory, whose pid file names it. */
  predicate HeldBy(s: State, h: Pid) {
    s.lock.Some? && s.lock.value.owner == h && s.lock.value.pid.Present? && s.lock.value.pid.pid == Some(h)
  }

  /** A process at the head of the loop takes the free lock. */
  lemma TakesLock(s: State, q: Pid) returns (moves: seq<Move>)
    requires q in s.alive && s.Phase(q) == Trying && s.lock.None?
    ensures Run(s, moves) ==
            Some(State(Some(Dir(q, Present(s.files, Some(q)))), s.phases[q := Held], s.alive, s.makers + {q}, s.files + 1))
    ensures Quiet(moves)
  {
    hide Run;
    RunOne(s, Move(q, Mkdir));
    RunThen(s, [Move(q, Mkdir)], Move(q, OpenPid));
    RunThen(s, [Move(q, Mkdir)] + [Move(q, OpenPid)], Move(q, WritePid));
    moves := [Move(q, Mkdir)] + [Move(q, OpenPid)] + [Move(q, WritePid)];
    assert s.phases[q := Made][q := Opened(s.files)][q := Held] == s.phases[q := Held];
  }

  /** A process finds the lock taken and reads who holds it. */
  lemma ReadsHolder(s: State, q: Pid, h: Pid) returns (moves: seq<Move>)
    requires q in s.alive && s.Phase(q) == Trying && HeldBy(s, h)
    ensures Quiet(moves) && Run(s, moves) == Some(s.To(q, Judging(h)))
  {
    hide Run;
    RunOne(s, Move(q, Mkdir));
    RunThen(s, [Move(q, Mkdir)], Move(q, Stat));
    RunThen(s, [Move(q, Mkdir)] + [Move(q, Stat)], Move(q, ReadPid));
    moves := [Move(q, Mkdir)] + [Move(q, Stat)] + [Move(q, ReadPid)];
    assert s.phases[q := Refused][q := Reading][q := Judging(h)] == s.phases[q := Judging(h)];
  }

  lemma Releases(s: State, h: Pid) returns (moves: seq<Move>)
    requires h in s.alive && s.Phase(h) == Held && HeldBy(s, h)
    ensures Run(s, moves) == Some(s.(lock := None).To(h, Idle))
  {
    hide Run;
    RunOne(s, Move(h, Release));
    RunThen(s, [Move(h, Release)], Move(h, UnlinkPid));
    RunThen(s, [Move(h, Release)] + [Move(h, UnlinkPid)], Move(h, Rmdir));
    moves := [Move(h, Release)] + [Move(h, UnlinkPid)] + [Move(h, Rmdir)];
    assert s.phases[h := Leaving][h := Emptied][h := Idle] == s.phases[h := Idle];
  }

  /** The holder releases the lock and exits. */
  lemma ReleasesAndExits(s: State, h: Pid) returns (moves: seq<Move>)
    requires h in s.alive && s.Phase(h) == Held && HeldBy(s, h)
    ensures Run(s, moves) == Some(State(None, s.phases[h := Idle], s.alive - {h}, s.makers, s.files))
  {
    hide Run;
    moves := Releases(s, h);
    RunThen(s, moves, Move(h, Exit));
    moves := moves + [Move(h, Exit)];
  }

  /** Two processes that both believe to own the directory: the maker of the lost one goes on, past the
      directory of the other or through it, until it holds the lock as well. */
  lemma {:induction false} SecondHolder(s: State, q: Pid, h: Pid) returns (moves: seq<Move>)
    requires q in s.alive && s.Phase(q) == Held && HeldBy(s, q)
    requires q != h && h in s.alive && Owning(s.Phase(h))
    ensures Quiet(moves) && Run(s, moves).Some? && !Exclusive(Run(s, moves).value)
    decreases if s.Phase(h) == Emptied then 1 else 0
  {
    match s.Phase(h) {
      case Held =>
        moves := [];
      case Opened(_) =>
        moves := [Move(h, WritePid)];
        RunOne(s, moves[0]);
      case Made =>
        var open := [Move(h, OpenPid)];
        RunOne(s, open[0]);
        RunThen(s, open, Move(h, WritePid));
        moves := open + [Move(h, WritePid)];
      case Emptied =>
        var back := [Move(h, Rmdir)];
        RunOne(s, back[0]);
        var more := SecondHolder(Run(s, back).value, q, h);
        RunConcat(s, back, more);
        moves := back + more;
      case Leaving =>
        moves := RemovesAndRetakes(s, q, h);
    }
    if s.Phase(h) != Emptied && s.Phase(h) != Leaving {
      assert Run(s, moves).value.Phase(h) == Held && Run(s, moves).value.Phase(q) == Held;
    }
  }

  /** The release of a lost directory removes the one that has taken its place, and its process begins
      again. */
  lemma RemovesAndRetakes(s: State, q: Pid, h: Pid) returns (moves: seq<Move>)
    requires q in s.alive && s.Phase(q) == Held && HeldBy(s, q)
    requires q != h && h in s.alive && s.Phase(h) == Leaving
    ensures Quiet(moves) && Run(s, moves).Some? && !Exclusive(Run(s, moves).value)
  {
    hide Run;
    RunOne(s, Move(h, UnlinkPid));
    RunThen(s, [Move(h, UnlinkPid)], Move(h, Rmdir));
    RunThen(s, [Move(h, UnlinkPid)] + [Move(h, Rmdir)], Move(h, Begin));
    var removes := [Move(h, UnlinkPid)] + [Move(h, Rmdir)] + [Move(h, Begin)];
    var more := TakesLock(Run(s, removes).value, h);
    RunConcat(s, removes, more);
    moves := removes + more;
    var t := Run(s, moves).value;
    assert t.Phase(q) == Held && t.Phase(h) == Held;
  }

  /** Some harmless continuation of s has two live holders. */
  ghost predicate MayClash(s: State) {
    exists moves :: AllHarmless(s, moves) && Run(s, moves).Some? && !Exclusive(Run(s, moves).value)
  }

  lemma HarmfulRename(s: State, q: Pid) returns (moves: seq<Move>)
    requires q in s.alive && s.Phase(q) == Condemning && Owned(s)
    ensures Quiet(moves)
    ensures var t := Act(s, Move(q, Rename));
            t.Some? && Run(t.value, moves).Some? && !Exclusive(Run(t.value, moves).value)
  {
    hide Run;
    var h := s.lock.value.owner;
    var t := Act(s, Move(q, Rename)).value;
    var first := [Move(q, Clean)];
    RunOne(t, first[0]);
    var more := TakesLock(Run(t, first).value, q);
    RunConcat(t, first, more);
    first := first + more;
    more := SecondHolder(Run(t, first).value, q, h);
    RunConcat(t, first, more);
    moves := first + more;
  }

  /** Exactly which renames break mutual exclusion: after the rename of a directory two processes can
      come to hold the lock, with no further such rename, if and only if its maker is alive and between
      making and removing it. */
  lemma RenameIff(s: State, q: Pid)
    requires Inv(s) && q in s.alive && s.Phase(q) == Condemning && s.lock.Some?
    ensures MayClash(Act(s, Move(q, Rename)).value) <==> Owned(s)
  {
    var t := Act(s, Move(q, Rename)).value;
    if Owned(s) {
      var moves := HarmfulRename(s, q);
      QuietIsHarmless(t, moves);
    } else {
      InvStep(s, Move(q, Rename));
      forall moves | AllHarmless(t, moves) && Run(t, moves).Some?
        ensures Exclusive(Run(t, moves).value)
      {
        InvRun(t, moves);
      }
    }
  }

  /** A past holder that releases the lock in order and then exits is enough: a process that has read
      its pid before finds it gone, and removes the lock that a third process has taken since. */
  lemma ExitAdmitsTwoHolders(s: State, a: Pid, b: Pid, c: Pid) returns (moves: seq<Move>)
    requires s.lock.None? && {a, b, c} <= s.alive && a != b && b != c && a != c
    requires s.Phase(a) == s.Phase(b) == s.Phase(c) == Trying
    ensures Run(s, moves).Some? && !Exclusive(Run(s, moves).value)
  {
    hide Run;
    moves := TakesLock(s, a);
    var s1 := Run(s, moves).value;
    var more := ReadsHolder(s1, c, a);
    RunConcat(s, moves, more);
    moves := moves + more;
    var s2 := Run(s, moves).value;
    more := ReleasesAndExits(s2, a);
    RunConcat(s, moves, more);
    moves := moves + more;
    var s3 := Run(s, moves).value;
    more := TakesLock(s3, b);
    RunConcat(s, moves, more);
    moves := moves + more;
    var s4 := Run(s, moves).value;
    RunThen(s, moves, Move(c, Probe));
    moves := moves + [Move(c, Probe)];
    var s5 := Run(s, moves).value;
    RunThen(s, moves, Move(c, Rename));
    more := HarmfulRename(s5, c);
    moves := moves + [Move(c, Rename)];
    RunConcat(s, moves, more);
    moves := moves + more;
  }

  /** A process reads the pid of a holder that is gone. */
  lemma Condemns(s: State, q: Pid, h: Pid) returns (moves: seq<Move>)
    requires q in s.alive && s.Phase(q) == Trying && HeldBy(s, h) && h !in s.alive
    ensures Quiet(moves) && Run(s, moves) == Some(s.To(q, Condemning))
  {
    hide Run;
    moves := ReadsHolder(s, q, h);
    RunThen(s, moves, Move(q, Probe));
    moves := moves + [Move(q, Probe)];
    assert s.phases[q := Judging(h)][q := Condemning] == s.phases[q := Condemning];
  }

  /** A stale lock is enough as well, with no exit at all: two processes judge it, and the slower one
      removes the lock that the faster one has taken in its place. */
  lemma StaleAdmitsTwoHolders(s: State, a: Pid, b: Pid, h: Pid) returns (moves: seq<Move>)
    requires HeldBy(s, h) && h !in s.alive
    requires {a, b} <= s.alive && a != b && s.Phase(a) == s.Phase(b) == Trying
    ensures forall i :: 0 <= i < |moves| ==> moves[i].action != Exit
    ensures Run(s, moves).Some? && !Exclusive(Run(s, moves).value)
  {
    hide Run;
    moves := Condemns(s, a, h);
    var s1 := Run(s, moves).value;
    var more := Condemns(s1, b, h);
    RunConcat(s, moves, more);
    moves := moves + more;
    var s2 := Run(s, moves).value;
    RunThen(s, moves, Move(a, Rename));
    RunThen(s, moves + [Move(a, Rename)], Move(a, Clean));
    moves := moves + [Move(a, Rename)] + [Move(a, Clean)];
    var s3 := Run(s, moves).value;
    more := TakesLock(s3, a);
    RunConcat(s, moves, more);
    moves := moves + more;
    var s4 := Run(s, moves).value;
    RunThen(s, moves, Move(b, Rename));
    more := HarmfulRename(s4, b);
    moves := moves + [Move(b, Rename)];
    RunConcat(s, moves, more);
    moves := moves + more;
  }
}
