/** Provisioning of `.make`: clearing the validation state, installing the assets one by one and
    recording what they came from.  Whatever a state or commit file on disk names, at any moment of
    any run, every required asset comes from that tree. */
module Provision {
  import opened Options
  import opened Lines
  import opened ProvisionState

  datatype File = Regular(content: string) | Symlink(toDirectory: bool) | Directory

  type Tree = map<string, File>

  /** `.make` as a process finds it. */
  datatype View = View(files: Tree, state: Option<string>, commit: Option<string>)

  /** What upstream has served: the tree of each ref and entity tag, and of each commit. */
  datatype Upstream = Upstream(trees: map<Known, Tree>, commits: map<string, Tree>)

  ghost predicate WellServed(up: Upstream) {
    && (forall k :: k in up.trees ==> IsETag(k.etag))
    && (forall c, d :: c in up.commits && d in up.commits ==> |c| == |d|)
  }

  predicate Complete(files: Tree, required: seq<string>) {
    forall a :: a in required ==> a in files && files[a].Regular? && files[a].content != ""
  }

  ghost predicate From(files: Tree, tree: Tree, required: seq<string>) {
    forall a :: a in required ==> a in files && a in tree && files[a] == tree[a]
  }

  /** The commit that go.mk reads from a commit file. */
  function Strip(s: string): string {
    if s != "" && s[|s| - 1] == '\n' then s[..|s| - 1] else s
  }

  /** The state file is honest: if upstream can confirm what it names, the assets are that tree. */
  ghost predicate HonestState(v: View, required: seq<string>, up: Upstream) {
    v.state.Some? && ReadState(v.state.value) in up.trees ==>
      From(v.files, up.trees[ReadState(v.state.value)], required)
  }

  ghost predicate HonestCommit(v: View, required: seq<string>, up: Upstream) {
    v.commit.Some? && Strip(v.commit.value) in up.commits ==>
      From(v.files, up.commits[Strip(v.commit.value)], required)
  }

  ghost predicate Honest(v: View, required: seq<string>, up: Upstream) {
    HonestState(v, required, up) && HonestCommit(v, required, up)
  }

  /** A fetched and unpacked archive, with the entity tag of the response and the commit id in the
      archive; each is empty when there is none. */
  datatype Archive = Archive(staged: Tree, etag: string, commit: string)

  ghost predicate Fits(x: Archive, ref: string, required: seq<string>, up: Upstream) {
    && OneLine(x.etag) && OneLine(x.commit)
    && (x.etag != "" ==> IsETag(x.etag) && Known(x.etag, ref) in up.trees && From(x.staged, up.trees[Known(x.etag, ref)], required))
    && (x.commit != "" ==> x.commit in up.commits && From(x.staged, up.commits[x.commit], required))
  }

  // ---------- A file that is written in place passes through every first part ----------

  lemma StatePartHonest(v: View, ref: string, x: Archive, timestamp: string, required: seq<string>, up: Upstream,
                        k: nat)
    requires WellServed(up) && Fits(x, ref, required, up) && OneLine(ref) && OneLine(timestamp) && x.etag != ""
    requires From(v.files, x.staged, required) && HonestCommit(v, required, up)
    requires k <= |StateContent(ref, x.etag, timestamp)|
    ensures Honest(v.(state := Some(StateContent(ref, x.etag, timestamp)[..k])), required, up)
  {
    TornState(ref, x.etag, timestamp, k);
    var known := ReadState(StateContent(ref, x.etag, timestamp)[..k]);
    if known in up.trees {
      assert known.etag != "";
      TornETagIsNone(x.etag, known.etag);
    }
  }

  ghost predicate PartsHonest(v: View, content: string, required: seq<string>, up: Upstream) {
    forall k :: 0 <= k <= |content| ==> Honest(v.(state := Some(content[..k])), required, up)
  }

  lemma StatePartsHonest(v: View, ref: string, x: Archive, timestamp: string, required: seq<string>, up: Upstream,
                         content: string)
    requires WellServed(up) && Fits(x, ref, required, up) && OneLine(ref) && OneLine(timestamp) && x.etag != ""
    requires From(v.files, x.staged, required) && HonestCommit(v, required, up)
    requires content == StateContent(ref, x.etag, timestamp)
    ensures PartsHonest(v, content, required, up)
  {
    forall k | 0 <= k <= |content|
      ensures Honest(v.(state := Some(content[..k])), required, up)
    {
      StatePartHonest(v, ref, x, timestamp, required, up, k);
    }
  }

  ghost predicate CommitPartsHonest(v: View, content: string, required: seq<string>, up: Upstream) {
    forall k :: 0 <= k <= |content| ==> Honest(v.(commit := Some(content[..k])), required, up)
  }

  lemma CommitPartHonest(v: View, ref: string, x: Archive, required: seq<string>, up: Upstream, k: nat)
    requires WellServed(up) && Fits(x, ref, required, up) && x.commit != ""
    requires From(v.files, x.staged, required) && HonestState(v, required, up)
    requires k <= |x.commit| + 1
    ensures Honest(v.(commit := Some((x.commit + "\n")[..k])), required, up)
  {
    var part := (x.commit + "\n")[..k];
    if k == |x.commit| + 1 {
      assert Strip(part) == x.commit;
    } else {
      assert part == x.commit[..k];
      assert part != "" ==> part[k - 1] in x.commit;
      assert Strip(part) == part;
      if k == |x.commit| {
        assert part == x.commit;
      }
    }
  }

  // ---------- A run and its surroundings ----------

  datatype Config = Config(ref: string, devDir: Option<map<string, string>>, provisioned: bool, inCI: bool)

  datatype Reply = Answer(status: nat) | NoAnswer

  /** What the network gives one run: the reply to the conditional request for an entity tag, the
      archive, and the tree that the ref has upstream now. */
  datatype Network = Network(probe: Known -> Reply, archive: Option<Archive>, current: Tree, timestamp: string)

  /** RFC 9110 section 13.1.2: upstream answers 304 only for an entity tag of what it has now. */
  ghost predicate NetworkFits(net: Network, ref: string, required: seq<string>, up: Upstream) {
    && (net.archive.Some? ==> Fits(net.archive.value, ref, required, up))
    && forall etag :: net.probe(Known(etag, ref)) == Answer(304) ==>
         Known(etag, ref) in up.trees && From(up.trees[Known(etag, ref)], net.current, required)
  }

  /** A regular file can be renamed over the asset: it is not a directory, nor a link to one. */
  predicate Replaceable(files: Tree, a: string) {
    a in files ==> files[a].Regular? || (files[a].Symlink? && !files[a].toDirectory)
  }

  /** The assets on disk may be served. */
  predicate Cached(cfg: Config, v: View, required: seq<string>) {
    !cfg.inCI && Complete(v.files, required)
  }

  /** The run asks upstream about an entity tag, for the ref that it was stored with. */
  predicate Asks(cfg: Config, v: View, required: seq<string>) {
    && cfg.devDir.None? && !cfg.provisioned && Cached(cfg, v, required)
    && v.state.Some? && ReadState(v.state.value).etag != "" && ReadState(v.state.value).ref == cfg.ref
  }

  predicate Confirms(cfg: Config, net: Network, v: View, required: seq<string>) {
    Asks(cfg, v, required) && net.probe(ReadState(v.state.value)) == Answer(304)
  }

  /** Upstream cannot be reached, and the assets on disk are served as they are. */
  predicate ServesFromDisk(cfg: Config, net: Network, v: View, required: seq<string>) {
    Asks(cfg, v, required) && net.probe(ReadState(v.state.value)) == NoAnswer
  }

  /** The run comes to the download. */
  predicate Downloads(cfg: Config, net: Network, v: View, required: seq<string>) {
    cfg.devDir.None? && !cfg.provisioned && !Confirms(cfg, net, v, required) && !ServesFromDisk(cfg, net, v, required)
  }

  /** The asset must be made executable. */
  ghost predicate IsScript(name: string) {
    exists stem :: name == stem + ".sh"
  }

  lemma ScriptIff(name: string)
    ensures IsScript(name) <==> |name| >= 3 && name[|name| - 3..] == ".sh"
  {
    if |name| >= 3 && name[|name| - 3..] == ".sh" {
      assert name == name[..|name| - 3] + ".sh";
    }
  }

  /** The archive can be installed over the assets. */
  predicate Installable(archive: Option<Archive>, files: Tree, required: seq<string>) {
    archive.Some? && Complete(archive.value.staged, required) && forall a :: a in required ==> Replaceable(files, a)
  }

  /** A developer's directory gives a complete set together with what is there. */
  predicate Developable(dir: map<string, string>, files: Tree, required: seq<string>) {
    forall a :: a in required ==>
      if a in dir then Replaceable(files, a) && dir[a] != "" else a in files && files[a].Regular? && files[a].content != ""
  }

  /** The validation state and the commit that an installed archive leaves. */
  predicate Recorded(v: View, ref: string, x: Archive, timestamp: string) {
    && v.state == (if x.etag == "" then None else Some(StateContent(ref, x.etag, timestamp)))
    && v.commit == (if x.commit == "" then None else Some(x.commit + "\n"))
  }

  /** A tree that upstream confirms is the one it has now. */
  lemma ConfirmedIsCurrent(v: View, net: Network, ref: string, required: seq<string>, up: Upstream)
    requires Honest(v, required, up) && NetworkFits(net, ref, required, up) && v.state.Some?
    requires ReadState(v.state.value).ref == ref && net.probe(ReadState(v.state.value)) == Answer(304)
    ensures From(v.files, net.current, required)
  {
    hide ReadState;
  }

  datatype Outcome = Developed | Checked | Confirmed | Served | Installed | Failed

  /** Every asset is the old one, or a required one and the new one. */
  ghost predicate OldOrNew(was: Tree, now: Tree, staged: Tree, required: seq<string>) {
    forall a ::
      || (a in now && a in was && now[a] == was[a]) || (a !in now && a !in was)
      || (a in required && a in now && a in staged && now[a] == staged[a])
  }

  predicate SameAsset(was: Tree, now: Tree, a: string) {
    (a in was <==> a in now) && (a in was ==> was[a] == now[a])
  }

  /** A run, and where it is stopped if it is. */
  datatype Run = Run(cfg: Config, net: Network, stop: Option<View>)

  ghost predicate RunFits(run: Run, required: seq<string>, up: Upstream) {
    OneLine(run.cfg.ref) && OneLine(run.net.timestamp) && NetworkFits(run.net, run.cfg.ref, required, up)
  }

  lemma AllCommitPartsHonest(v: View, ref: string, x: Archive, required: seq<string>, up: Upstream, content: string)
    requires WellServed(up) && Fits(x, ref, required, up) && x.commit != ""
    requires From(v.files, x.staged, required) && HonestState(v, required, up)
    requires content == x.commit + "\n"
    ensures CommitPartsHonest(v, content, required, up)
  {
    forall k | 0 <= k <= |content|
      ensures Honest(v.(commit := Some(content[..k])), required, up)
    {
      CommitPartHonest(v, ref, x, required, up, k);
    }
  }

  /** The tree as an upgrade finds it that requires the assets in now where was required the ones
      before: the new ones are there, but not as upstream has them. */
  function Outdated(tree: Tree, was: seq<string>, now: seq<string>): (files: Tree)
    requires Complete(tree, was)
    ensures Complete(files, now) && From(files, tree, was)
    ensures forall a :: a in now && a !in was && a in tree ==> files[a] != tree[a]
  {
    map a | a in was + now ::
      if a in was then tree[a]
      else Regular(if a in tree && tree[a].Regular? then tree[a].content + "\n" else "\n")
  }

  /** Exactly which changes of the asset list keep what is on disk honest: those that add no asset.
      For any other some directory is complete and honest for the old list, and its state names a tree
      that a required asset does not come from. */
  lemma ListChangeIff(ref: string, etag: string, timestamp: string, was: seq<string>, now: seq<string>, up: Upstream)
    requires OneLine(ref) && OneLine(etag) && OneLine(timestamp)
    requires Known(etag, ref) in up.trees && Complete(up.trees[Known(etag, ref)], was)
    ensures (forall v: View :: Complete(v.files, now) && Honest(v, was, up) ==> Honest(v, now, up))
            <==> forall a :: a in now ==> a in was
    ensures (forall v: View :: Honest(v, was, up) ==> Honest(v, now, up)) <==> forall a :: a in now ==> a in was
  {
    var tree := up.trees[Known(etag, ref)];
    var content := StateContent(ref, etag, timestamp);
    var v := View(Outdated(tree, was, now), Some(content), None);
    TornState(ref, etag, timestamp, |content|);
    assert content[..|content|] == content;
    assert Honest(v, was, up);
    if a :| a in now && a !in was {
      assert !From(v.files, tree, now);
      assert !Honest(v, now, up);
    }
  }

  // ---------- The directory ----------

  datatype Call = Probe | Remove | MakeDirectory | CreateTemp | Open | Copy | Chmod | Move | Write

  class MakeDir {
    var view: View
    /** Every state of the directory since the process started. */
    var reached: set<View>
    var clock: nat
    /** The environment: which call fails at which moment. */
    const fails: (Call, nat) -> bool
    /** The environment: how much of a file a failed write leaves. */
    const torn: nat -> nat

    constructor (start: View, fails: (Call, nat) -> bool, torn: nat -> nat)
      ensures view == start && reached == {start}
    {
      view, reached, clock := start, {start}, 0;
      this.fails, this.torn := fails, torn;
    }

    ghost predicate Valid(required: seq<string>, up: Upstream)
      reads this
    {
      view in reached && forall v :: v in reached ==> Honest(v, required, up)
    }

    /** The environment refuses every call of this kind. */
    ghost predicate Refused(call: Call) {
      forall t :: fails(call, t)
    }

    /** No call of any other kind fails. */
    ghost predicate OnlyRefuses(call: Call) {
      forall c, t :: c != call ==> !fails(c, t)
    }

    /** No call fails. */
    ghost predicate Unfailing() {
      forall call, t :: !fails(call, t)
    }

    method Try(call: Call) returns (ok: bool)
      modifies `clock
      ensures ok <==> !fails(call, old(clock))
    {
      ok := !fails(call, clock);
      clock := clock + 1;
    }

    method RemoveState() returns (ok: bool)
      modifies this
      ensures view == if ok then old(view).(state := None) else old(view)
      ensures reached == old(reached) + {view}
      ensures old(view).state.None? || Unfailing() ==> ok
    {
      ok := Try(Remove);
      if ok || view.state.None? {
        view, ok := view.(state := None), true;
      }
      reached := reached + {view};
    }

    method RemoveCommit() returns (ok: bool)
      modifies this
      ensures view == if ok then old(view).(commit := None) else old(view)
      ensures reached == old(reached) + {view}
      ensures old(view).commit.None? || Unfailing() ==> ok
    {
      ok := Try(Remove);
      if ok || view.commit.None? {
        view, ok := view.(commit := None), true;
      }
      reached := reached + {view};
    }

    /** os.WriteFile on the state file: it may stop after any part of the content. */
    method WriteState(content: string) returns (ok: bool)
      modifies this
      ensures view.files == old(view).files && view.commit == old(view).commit && view in reached
      ensures ok ==> view.state == Some(content)
      ensures Unfailing() ==> ok
      ensures Refused(Open) || Refused(Write) ==> !ok
      ensures forall v :: v in reached ==>
                v in old(reached) || v == old(view) ||
                exists k :: 0 <= k <= |content| && v == old(view).(state := Some(content[..k]))
    {
      var before := view;
      ok := Try(Open);
      if ok {
        ok := Try(Write);
        var k := if ok || torn(clock) > |content| then |content| else torn(clock);
        assert content[..|content|] == content;
        view := view.(state := Some(content[..k]));
      }
      reached := reached + {view} + set k | 0 <= k <= |content| :: before.(state := Some(content[..k]));
    }

    /** os.WriteFile on the commit file. */
    method WriteCommit(content: string) returns (ok: bool)
      modifies this
      ensures view.files == old(view).files && view.state == old(view).state && view in reached
      ensures ok ==> view.commit == Some(content)
      ensures Unfailing() ==> ok
      ensures Refused(Open) || Refused(Write) ==> !ok
      ensures forall v :: v in reached ==>
                v in old(reached) || v == old(view) ||
                exists k :: 0 <= k <= |content| && v == old(view).(commit := Some(content[..k]))
    {
      var before := view;
      ok := Try(Open);
      if ok {
        ok := Try(Write);
        var k := if ok || torn(clock) > |content| then |content| else torn(clock);
        assert content[..|content|] == content;
        view := view.(commit := Some(content[..k]));
      }
      reached := reached + {view} + set k | 0 <= k <= |content| :: before.(commit := Some(content[..k]));
    }

    /** clearProvisionState. */
    method ClearProvisionState(required: seq<string>, up: Upstream) returns (ok: bool)
      requires Valid(required, up)
      modifies this
      ensures Valid(required, up) && view.files == old(view).files
      ensures ok ==> view.state.None? && view.commit.None?
      ensures Unfailing() ==> ok
    {
      var removed := RemoveState();
      if view.state.Some? {
        return false;
      }
      ok := RemoveCommit();
    }

    /** installProvisionAsset: the asset changes only when the finished copy is renamed over it. */
    method InstallProvisionAsset(content: string, name: string, required: seq<string>, up: Upstream) returns (ok: bool)
      requires Valid(required, up) && view.state.None? && view.commit.None?
      modifies this
      ensures Valid(required, up) && view.state.None? && view.commit.None?
      ensures view.files == if ok then old(view).files[name := Regular(content)] else old(view).files
      ensures ok ==> Replaceable(old(view).files, name)
      ensures Unfailing() && Replaceable(old(view).files, name) ==> ok
      ensures Refused(MakeDirectory) || Refused(CreateTemp) || Refused(Open) || Refused(Copy) || Refused(Move) ==> !ok
      ensures OnlyRefuses(Chmod) && Refused(Chmod) && Replaceable(old(view).files, name) ==> (ok <==> !IsScript(name))
    {
      if name in view.files && (view.files[name].Directory? || (view.files[name].Symlink? && view.files[name].toDirectory)) {
        return false;
      }
      ok := Try(MakeDirectory);
      if !ok {
        return;
      }
      ok := Try(CreateTemp);
      if !ok {
        return;
      }
      ok := Try(Open);
      if !ok {
        return;
      }
      ok := Try(Copy);
      if !ok {
        return;
      }
      ScriptIff(name);
      if |name| >= 3 && name[|name| - 3..] == ".sh" {
        ok := Try(Chmod);
        if !ok {
          return;
        }
      }
      ok := Try(Move);
      if ok {
        view := view.(files := view.files[name := Regular(content)]);
        reached := reached + {view};
      }
    }

    /** installProvisionFromStage: also when it stops half way, every required asset is the old or the
        new one. */
    method InstallProvisionFromStage(staged: Tree, required: seq<string>, up: Upstream) returns (ok: bool)
      requires Valid(required, up) && view.state.None? && view.commit.None? && Complete(staged, required)
      modifies this
      ensures Valid(required, up) && view.state.None? && view.commit.None?
      ensures ok ==> From(view.files, staged, required)
      ensures ok ==> forall a :: a in required ==> Replaceable(old(view).files, a)
      ensures OldOrNew(old(view).files, view.files, staged, required)
      ensures Unfailing() && (forall a :: a in required ==> Replaceable(old(view).files, a)) ==> ok
    {
      ok := true;
      for i := 0 to |required|
        invariant ok && Valid(required, up) && view.state.None? && view.commit.None?
        invariant From(view.files, staged, required[..i])
        invariant forall a :: a in required[..i] ==> Replaceable(old(view).files, a)
        invariant forall a :: Replaceable(old(view).files, a) ==> Replaceable(view.files, a)
        invariant forall a :: a !in required[..i] ==> Replaceable(view.files, a) == Replaceable(old(view).files, a)
        invariant OldOrNew(old(view).files, view.files, staged, required)
      {
        var a := required[i];
        assert a in required && required[..i + 1] == required[..i] + [a];
        ok := InstallProvisionAsset(staged[a].content, a, required, up);
        if !ok {
          return;
        }
      }
      assert required[..|required|] == required;
    }

    /** installProvisionFromDevDir: assets that the directory lacks are skipped. */
    method InstallProvisionFromDevDir(devDir: map<string, string>, required: seq<string>,
                                      up: Upstream) returns (ok: bool)
      requires Valid(required, up)
      modifies this
      ensures Valid(required, up)
      ensures ok ==> view.state.None? && view.commit.None?
      ensures ok ==> forall a :: a in required && a in devDir ==> a in view.files && view.files[a] == Regular(devDir[a])
      ensures forall a :: a !in required || a !in devDir ==> SameAsset(old(view).files, view.files, a)
      ensures ok ==> forall a :: a in required && a in devDir ==> Replaceable(old(view).files, a)
      ensures Unfailing() && (forall a :: a in required && a in devDir ==> Replaceable(old(view).files, a)) ==> ok
    {
      hide Honest;
      ok := ClearProvisionState(required, up);
      if !ok {
        return;
      }
      for i := 0 to |required|
        invariant ok && Valid(required, up) && view.state.None? && view.commit.None?
        invariant forall a :: a in required[..i] && a in devDir ==>
                    a in view.files && view.files[a] == Regular(devDir[a]) && Replaceable(old(view).files, a)
        invariant forall a :: a !in required[..i] || a !in devDir ==> SameAsset(old(view).files, view.files, a)
      {
        var a := required[i];
        assert required[..i + 1] == required[..i] + [a];
        if a in devDir {
          ok := InstallProvisionAsset(devDir[a], a, required, up);
          if !ok {
            return;
          }
        }
      }
      assert required[..|required|] == required;
    }

    method WriteCommitOrNone(content: string, required: seq<string>, up: Upstream)
      requires Valid(required, up)
      requires CommitPartsHonest(view, content, required, up)
      modifies this
      ensures Valid(required, up) && view.files == old(view).files && view.state == old(view).state
      ensures Unfailing() ==> view.commit == Some(content)
    {
      var ok := WriteCommit(content);
      if !ok {
        var removed := RemoveCommit();
      }
    }

    method WriteProvisionCommit(ref: string, x: Archive, required: seq<string>, up: Upstream)
      requires Valid(required, up) && WellServed(up) && Fits(x, ref, required, up)
      requires From(view.files, x.staged, required)
      requires x.commit != ""
      modifies this
      ensures Valid(required, up) && view.files == old(view).files && view.state == old(view).state
      ensures Unfailing() ==> view.commit == Some(x.commit + "\n")
    {
      var content := x.commit + "\n";
      assert CommitPartsHonest(view, content, required, up) by {
        assert Honest(view, required, up);
        AllCommitPartsHonest(view, ref, x, required, up, content);
      }
      WriteCommitOrNone(content, required, up);
    }

    /** recordProvisionCommit. */
    method RecordProvisionCommit(ref: string, x: Archive, required: seq<string>, up: Upstream)
      requires Valid(required, up) && WellServed(up) && Fits(x, ref, required, up)
      requires From(view.files, x.staged, required)
      modifies this
      ensures Valid(required, up) && view.files == old(view).files && view.state == old(view).state
      ensures x.commit == "" ==> view == old(view)
      ensures x.commit != "" && Unfailing() ==> view.commit == Some(x.commit + "\n")
    {
      if x.commit != "" {
        WriteProvisionCommit(ref, x, required, up);
      }
    }

    method WriteStateOrNone(content: string, required: seq<string>, up: Upstream)
      requires Valid(required, up)
      requires PartsHonest(view, content, required, up)
      modifies this
      ensures Valid(required, up) && view.files == old(view).files
      ensures view.commit == old(view).commit
      ensures Unfailing() ==> view.state == Some(content)
    {
      var ok := WriteState(content);
      if !ok {
        var removed := RemoveState();
      }
    }

    method WriteProvisionState(ref: string, x: Archive, timestamp: string, required: seq<string>, up: Upstream)
      requires Valid(required, up) && WellServed(up) && Fits(x, ref, required, up)
      requires From(view.files, x.staged, required)
      requires OneLine(ref) && OneLine(timestamp) && x.etag != ""
      modifies this
      ensures Valid(required, up) && view.files == old(view).files
      ensures view.commit == old(view).commit
      ensures Unfailing() ==> view.state == Some(StateContent(ref, x.etag, timestamp))
    {
      var content := StateContent(ref, x.etag, timestamp);
      assert PartsHonest(view, content, required, up) by {
        assert Honest(view, required, up);
        StatePartsHonest(view, ref, x, timestamp, required, up, content);
      }
      WriteStateOrNone(content, required, up);
    }

    /** The end of downloadAndInstallProvision: the validation state is written last. */
    method RecordProvisionState(ref: string, x: Archive, timestamp: string, required: seq<string>, up: Upstream)
      requires Valid(required, up) && WellServed(up) && Fits(x, ref, required, up)
      requires From(view.files, x.staged, required)
      requires OneLine(ref) && OneLine(timestamp)
      modifies this
      ensures Valid(required, up) && view.files == old(view).files
      ensures view.commit == old(view).commit
      ensures Unfailing() && x.etag != "" ==> view.state == Some(StateContent(ref, x.etag, timestamp))
      ensures Unfailing() && x.etag == "" ==> view.state.None?
    {
      if x.etag == "" {
        var removed := RemoveState();
      } else {
        WriteProvisionState(ref, x, timestamp, required, up);
      }
    }

    /** downloadAndInstallProvision, for an archive that was fetched and unpacked, or none. */
    method DownloadAndInstallProvision(ref: string, archive: Option<Archive>, timestamp: string, required: seq<string>,
                                       up: Upstream)
      returns (ok: bool)
      requires Valid(required, up) && WellServed(up) && OneLine(ref) && OneLine(timestamp)
      requires archive.Some? ==> Fits(archive.value, ref, required, up)
      modifies this
      ensures Valid(required, up)
      ensures ok ==> archive.Some? && From(view.files, archive.value.staged, required) && Complete(view.files, required)
      ensures archive.None? ==> view == old(view)
      ensures archive.Some? ==> OldOrNew(old(view).files, view.files, archive.value.staged, required)
      ensures Complete(old(view).files, required) ==> Complete(view.files, required)
      ensures ok ==> Installable(archive, old(view).files, required)
      ensures Unfailing() && Installable(archive, old(view).files, required) ==>
                ok && Recorded(view, ref, archive.value, timestamp)
    {
      if archive.None? || !Complete(archive.value.staged, required) {
        return false;
      }
      var x := archive.value;
      ok := ClearProvisionState(required, up);
      if !ok {
        return;
      }
      ok := InstallProvisionFromStage(x.staged, required, up);
      if !ok {
        return;
      }
      RecordProvisionCommit(ref, x, required, up);
      RecordProvisionState(ref, x, timestamp, required, up);
    }

    // ---------- One run ----------

    /** provisionAssets, once it has the lock.  `probe` is the status of the conditional request, and
        `current` the tree that upstream has for the ref now. */
    method ProvisionAssets(cfg: Config, net: Network, required: seq<string>, up: Upstream) returns (outcome: Outcome)
      requires Valid(required, up) && WellServed(up) && OneLine(cfg.ref) && OneLine(net.timestamp)
      requires NetworkFits(net, cfg.ref, required, up)
      modifies this
      ensures Valid(required, up)
      ensures outcome != Failed ==> Complete(view.files, required)
      ensures outcome == Confirmed ==> view == old(view) && From(view.files, net.current, required)
      ensures outcome == Installed ==> net.archive.Some? && From(view.files, net.archive.value.staged, required)
      ensures outcome == Served ==>
                && !cfg.inCI && Complete(old(view).files, required)
                && (view == old(view) ||
                    (net.archive.Some? && OldOrNew(old(view).files, view.files, net.archive.value.staged, required)))
      ensures outcome == Developed ==> view.state.None? && view.commit.None?
      ensures outcome == Confirmed <==> Confirms(cfg, net, old(view), required)
      ensures ServesFromDisk(cfg, net, old(view), required) ==> outcome == Served && view == old(view)
      ensures cfg.devDir.None? && cfg.provisioned ==>
                view == old(view) && outcome == if Complete(view.files, required) then Checked else Failed
      ensures Unfailing() && cfg.devDir.Some? ==>
                outcome == if Developable(cfg.devDir.value, old(view).files, required) then Developed else Failed
      ensures Unfailing() && Downloads(cfg, net, old(view), required) ==>
                if Installable(net.archive, old(view).files, required)
                then outcome == Installed && Recorded(view, cfg.ref, net.archive.value, net.timestamp)
                else outcome == if Cached(cfg, old(view), required) then Served else Failed
    {
      hide Recorded, OldOrNew, Installable, Honest;
      if cfg.devDir.Some? {
        var ok := InstallProvisionFromDevDir(cfg.devDir.value, required, up);
        if ok && Complete(view.files, required) {
          return Developed;
        }
        return Failed;
      }
      if cfg.provisioned {
        return if Complete(view.files, required) then Checked else Failed;
      }
      var cached := !cfg.inCI && Complete(view.files, required);
      var known := Known("", "");
      if cached && view.state.Some? {
        known := ReadState(view.state.value);
      }
      if known.etag != "" && known.ref == cfg.ref {
        if net.probe(known) == Answer(304) {
          ConfirmedIsCurrent(view, net, cfg.ref, required, up);
          return Confirmed;
        }
        if net.probe(known) == NoAnswer && cached {
          return Served;
        }
      }
      var ok := DownloadAndInstallProvision(cfg.ref, net.archive, net.timestamp, required, up);
      if ok {
        return Installed;
      }
      return if cached then Served else Failed;
    }

    // ---------- Two runs ----------

    /** After a run that downloaded, the next one outside CI asks upstream about the entity tag that was stored, and
        when nothing is new it changes nothing. */
    method ProvisionTwice(cfg: Config, net: Network, again: Config, next: Network, required: seq<string>, up: Upstream)
      returns (first: Outcome, second: Outcome)
      requires Valid(required, up) && WellServed(up) && Unfailing() && OneLine(cfg.ref)
      requires OneLine(net.timestamp) && OneLine(next.timestamp)
      requires NetworkFits(net, cfg.ref, required, up) && NetworkFits(next, again.ref, required, up)
      requires Downloads(cfg, net, view, required) && Installable(net.archive, view.files, required)
      requires again.ref == cfg.ref && again.devDir.None? && !again.provisioned && !again.inCI
      modifies this
      ensures Valid(required, up) && first == Installed
      ensures var etag := net.archive.value.etag;
              second == Confirmed <==> etag != "" && next.probe(Known(etag, cfg.ref)) == Answer(304)
      ensures second == Confirmed ==>
                && From(view.files, net.archive.value.staged, required) && From(view.files, next.current, required)
                && Recorded(view, cfg.ref, net.archive.value, net.timestamp)
    {
      first := ProvisionAssets(cfg, net, required, up);
      ghost var x := net.archive.value;
      if x.etag != "" {
        StateReadsBack(cfg.ref, x.etag, net.timestamp);
      }
      second := ProvisionAssets(again, next, required, up);
    }

    // ---------- Any number of runs ----------

    /** The process is stopped: the directory stays in one of the states it has been in. */
    method Stop(v: View, required: seq<string>, up: Upstream)
      requires Valid(required, up) && v in reached
      modifies this
      ensures Valid(required, up) && view == v && reached == {v}
    {
      view, reached := v, {v};
    }

    /** Over any number of runs, each finished, failed or stopped at any step, the directory is honest
        at every moment. */
    method ProvisionMany(runs: seq<Run>, required: seq<string>, up: Upstream)
      requires Valid(required, up) && WellServed(up)
      requires forall run :: run in runs ==> RunFits(run, required, up)
      modifies this
      ensures Valid(required, up)
    {
      for i := 0 to |runs|
        invariant Valid(required, up)
      {
        var run := runs[i];
        assert run in runs;
        var outcome := ProvisionAssets(run.cfg, run.net, required, up);
        if run.stop.Some? && run.stop.value in reached {
          Stop(run.stop.value, required, up);
        }
      }
    }
  }
}
