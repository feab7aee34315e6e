/** Initializing exactly the submodules that the declared outputs lie in, parents first:
    prepareSubmodulesForOutputs. */
module Submodules {
  import opened Options

  /** What git and the path package do: the submodules that .gitmodules lists in a directory, whether
      an initialization fails, path.Clean, path.Join, and the space around an output. */
  datatype Env = Env(list: string -> Option<seq<string>>, initFails: (string, string) -> bool,
                     clean: string -> string, join: (string, string) -> string, trim: string -> string)

  datatype Event = Listed(dir: string) | Initialized(parent: string, path: string)

  // ---------- The longest prefix ----------

  /** `path` is `target` or a directory above it. */
  predicate Above(path: string, target: string) {
    path == target || path + "/" <= target
  }

  ghost predicate IsLongest(subs: seq<string>, target: string, clean: string -> string, best: string) {
    && (best != "" ==> Above(best, target) && exists sub :: sub in subs && clean(sub) == best)
    && (forall sub :: sub in subs && Above(clean(sub), target) ==> |clean(sub)| <= |best|)
  }

  /** Two directories above one target of the same length are the same. */
  lemma LongestIsUnique(subs: seq<string>, target: string, clean: string -> string, a: string, b: string)
    requires IsLongest(subs, target, clean, a) && IsLongest(subs, target, clean, b)
    ensures a == b
  {
    if a != "" && b != "" {
      assert |a| == |b|;
      assert a == target[..|a|] && b == target[..|b|];
    }
  }

  function Longest(subs: seq<string>, target: string, clean: string -> string): (best: string)
    ensures IsLongest(subs, target, clean, best)
  {
    if subs == [] then ""
    else
      var n := |subs| - 1;
      var best := Longest(subs[..n], target, clean);
      var path := clean(subs[n]);
      assert subs == subs[..n] + [subs[n]];
      if Above(path, target) && |path| > |best| then path else best
  }

  method LongestSubmodulePrefix(subs: seq<string>, target: string, clean: string -> string) returns (best: string)
    ensures best == Longest(subs, target, clean)
    ensures IsLongest(subs, target, clean, best)
  {
    best := "";
    for i := 0 to |subs|
      invariant best == Longest(subs[..i], target, clean)
    {
      assert subs[..i + 1][..i] == subs[..i];
      var path := clean(subs[i]);
      if path == target || path + "/" <= target {
        if |path| > |best| {
          best := path;
        }
      }
    }
    assert subs[..|subs|] == subs;
  }

  // ---------- The descent ----------

  function TrimSlash(s: string): string {
    if s != "" && s[0] == '/' then s[1..] else s
  }

  /** The directories of the submodules that a path descends through, outermost first. */
  function Descent(env: Env, parent: string, remaining: string): seq<string>
    decreases |remaining|
  {
    match env.list(parent)
    case None => []
    case Some(subs) =>
      var m := Longest(subs, remaining, env.clean);
      if m == "" then []
      else
        var full := env.join(parent, m);
        [full] + Descent(env, full, TrimSlash(remaining[|m|..]))
  }

  /** A listed directory is what a path lies in, and no longer one is. */
  ghost predicate LiesIn(subs: seq<string>, target: string, clean: string -> string, m: string) {
    && m != "" && (m == target || m + "/" <= target) && (exists sub :: sub in subs && clean(sub) == m)
    && forall sub :: sub in subs && (clean(sub) == target || clean(sub) + "/" <= target) ==> |clean(sub)| <= |m|
  }

  /** A path inside a submodule descends into it and goes on with what is left of it, so that a submodule in a
      submodule comes right behind its parent. */
  lemma {:induction false} DescendsInto(env: Env, parent: string, m: string, rest: string)
    requires env.list(parent).Some?
    ensures LiesIn(env.list(parent).value, m + "/" + rest, env.clean, m) ==>
              Descent(env, parent, m + "/" + rest) == [env.join(parent, m)] + Descent(env, env.join(parent, m), rest)
    ensures LiesIn(env.list(parent).value, m, env.clean, m) ==>
              Descent(env, parent, m) == [env.join(parent, m)] + Descent(env, env.join(parent, m), "")
  {
    hide LiesIn, Descent;
    if LiesIn(env.list(parent).value, m + "/" + rest, env.clean, m) {
      DescentStep(env, parent, m, m + "/" + rest);
      assert (m + "/" + rest)[|m|..] == "/" + rest && ("/" + rest)[1..] == rest;
    }
    if LiesIn(env.list(parent).value, m, env.clean, m) {
      DescentStep(env, parent, m, m);
      assert m[|m|..] == "";
    }
  }

  lemma {:induction false} DescentStep(env: Env, parent: string, m: string, target: string)
    requires env.list(parent).Some? && LiesIn(env.list(parent).value, target, env.clean, m)
    ensures Descent(env, parent, target) ==
            [env.join(parent, m)] + Descent(env, env.join(parent, m), TrimSlash(target[|m|..]))
  {
    var subs := env.list(parent).value;
    LongestIsUnique(subs, target, env.clean, Longest(subs, target, env.clean), m);
    hide Longest, LiesIn;
  }

  /** A path in no listed directory descends no further; a longer name with the same beginning is no directory of
      it. */
  lemma {:induction false} DescendsNowhere(env: Env, parent: string, target: string)
    requires env.list(parent).Some?
    requires forall sub :: sub in env.list(parent).value ==>
               env.clean(sub) == "" || (env.clean(sub) != target && !(env.clean(sub) + "/" <= target))
    ensures Descent(env, parent, target) == []
  {
    LongestIsUnique(env.list(parent).value, target, env.clean, Longest(env.list(parent).value, target, env.clean), "");
  }

  lemma {:induction false} LibIsNotLibs(env: Env, parent: string)
    requires env.list(parent) == Some(["lib"]) && env.clean("lib") == "lib"
    ensures Descent(env, parent, "libs/out") == []
    ensures Descent(env, parent, "lib/out") == [env.join(parent, "lib")] + Descent(env, env.join(parent, "lib"), "out")
  {
    assert "libs/out"[3] == 's' && ("lib" + "/")[3] == '/';
    DescendsNowhere(env, parent, "libs/out");
    assert "lib" + "/" + "out" == "lib/out";
    DescendsInto(env, parent, "lib", "out");
  }

  /** The output, other than the root itself, descends through the directory. */
  ghost predicate Through(env: Env, output: string, full: string) {
    var t := env.clean(env.trim(output));
    t != "" && t != "." && full in Descent(env, "", t)
  }

  ghost predicate Wanted(env: Env, outputs: seq<string>, full: string) {
    exists o :: o in outputs && Through(env, o, full)
  }

  /** An output as a clean path; none for the root itself. */
  function Target(env: Env, output: string): string {
    var t := env.clean(env.trim(output));
    if t == "." then "" else t
  }

  // ---------- What happened ----------

  function Fulls(env: Env, events: seq<Event>): (fulls: set<string>)
    ensures forall f :: f in fulls <==> exists e :: e in events && e.Initialized? && env.join(e.parent, e.path) == f
  {
    set e | e in events && e.Initialized? :: env.join(e.parent, e.path)
  }

  predicate Succeeds(env: Env, e: Event) {
    match e
    case Listed(dir) => env.list(dir).Some?
    case Initialized(parent, path) => !env.initFails(parent, path)
  }

  predicate AllSucceed(env: Env, events: seq<Event>) {
    forall e :: e in events ==> Succeeds(env, e)
  }

  lemma SucceedOneMore(env: Env, events: seq<Event>, e: Event)
    ensures AllSucceed(env, events + [e]) <==> AllSucceed(env, events) && Succeeds(env, e)
  {
    assert forall x :: x in events + [e] <==> x in events || x == e;
  }

  /** The root and what was initialized can be entered. */
  predicate Entered(env: Env, events: seq<Event>, dir: string) {
    dir == "" || dir in Fulls(env, events)
  }

  /** A directory is listed, and a submodule initialized in it, only once it is there; and no submodule
      is initialized twice. */
  ghost predicate Orderly(env: Env, events: seq<Event>) {
    forall k :: 0 <= k < |events| ==> FitsAfter(env, events[..k], events[k])
  }

  predicate FitsAfter(env: Env, before: seq<Event>, e: Event) {
    match e
    case Listed(dir) => Entered(env, before, dir)
    case Initialized(parent, path) => Entered(env, before, parent) && env.join(parent, path) !in Fulls(env, before)
  }

  lemma OneMoreEvent(env: Env, events: seq<Event>, e: Event)
    requires Orderly(env, events) && FitsAfter(env, events, e)
    ensures Orderly(env, events + [e])
    ensures Fulls(env, events + [e]) == Fulls(env, events) + if e.Initialized? then {env.join(e.parent, e.path)} else {}
  {
    var now := events + [e];
    forall k | 0 <= k < |now|
      ensures FitsAfter(env, now[..k], now[k])
    {
      assert now[..k] == if k < |events| then events[..k] else events;
    }
    assert forall x :: x in now <==> x in events || x == e;
  }

  /** Where the walk along one output stands. */
  ghost predicate Walking(env: Env, target: string, before: seq<Event>, events: seq<Event>,
                          passed: seq<string>, parent: string, remaining: string) {
    && Orderly(env, events) && Entered(env, events, parent)
    && Descent(env, "", target) == passed + Descent(env, parent, remaining)
    && Fulls(env, before) <= Fulls(env, events)
    && (forall f :: f in Fulls(env, events) ==> f in Fulls(env, before) || f in passed)
    && (forall f :: f in passed ==> f in Fulls(env, events))
  }

  lemma {:induction false} WalkStep(env: Env, target: string, before: seq<Event>, events: seq<Event>,
                                    passed: seq<string>,
                 parent: string, remaining: string, m: string, now: seq<Event>)
    requires Walking(env, target, before, events, passed, parent, remaining)
    requires env.list(parent).Some? && m != "" && m == Longest(env.list(parent).value, remaining, env.clean)
    requires Orderly(env, now) && Fulls(env, now) == Fulls(env, events) + {env.join(parent, m)}
    ensures Walking(env, target, before, now, passed + [env.join(parent, m)], env.join(parent, m), TrimSlash(remaining[|m|..]))
  {
    var full := env.join(parent, m);
    var rest := Descent(env, full, TrimSlash(remaining[|m|..]));
    assert passed + ([full] + rest) == passed + [full] + rest;
  }

  /** Lists a directory that is there. */
  lemma ListStep(env: Env, target: string, before: seq<Event>, events: seq<Event>, passed: seq<string>, parent: string,
                 remaining: string)
    requires Walking(env, target, before, events, passed, parent, remaining)
    ensures Walking(env, target, before, events + [Listed(parent)], passed, parent, remaining)
  {
    OneMoreEvent(env, events, Listed(parent));
  }

  lemma WalkStart(env: Env, target: string, before: seq<Event>)
    requires Orderly(env, before)
    ensures Walking(env, target, before, before, [], "", target)
  {
  }

  lemma {:induction false} WalkFacts(env: Env, target: string, before: seq<Event>, events: seq<Event>,
                                     passed: seq<string>,
                  parent: string, remaining: string)
    requires Walking(env, target, before, events, passed, parent, remaining)
    ensures Orderly(env, events) && Entered(env, events, parent) && Fulls(env, before) <= Fulls(env, events)
    ensures forall f :: f in Fulls(env, events) ==> f in Fulls(env, before) || f in Descent(env, "", target)
    ensures Descent(env, parent, remaining) == [] ==> forall f :: f in Descent(env, "", target) ==> f in Fulls(env, events)
  {
    hide Orderly, Descent;
  }

  lemma {:induction false} WalkEnds(env: Env, parent: string, remaining: string)
    requires env.list(parent).Some? && Longest(env.list(parent).value, remaining, env.clean) == ""
    ensures Descent(env, parent, remaining) == []
  {
  }

  lemma {:induction false} LongestFits(subs: seq<string>, target: string, clean: string -> string)
    ensures |Longest(subs, target, clean)| <= |target|
  {
  }

  /** Initializes a submodule that has not been seen. */
  method Init(env: Env, events: seq<Event>, parent: string, path: string) returns (ok: bool, now: seq<Event>)
    requires Orderly(env, events) && Entered(env, events, parent)
    ensures Orderly(env, now) && Fulls(env, now) == Fulls(env, events) + {env.join(parent, path)}
    ensures env.join(parent, path) in Fulls(env, events) ==> ok && now == events
    ensures AllSucceed(env, events) ==> (ok <==> AllSucceed(env, now))
  {
    if env.join(parent, path) in Fulls(env, events) {
      return true, events;
    }
    OneMoreEvent(env, events, Initialized(parent, path));
    SucceedOneMore(env, events, Initialized(parent, path));
    return !env.initFails(parent, path), events + [Initialized(parent, path)];
  }

  /** The walk along one output. */
  method Descend(env: Env, target: string, before: seq<Event>) returns (ok: bool, events: seq<Event>)
    requires Orderly(env, before) && AllSucceed(env, before)
    ensures Orderly(env, events) && Fulls(env, before) <= Fulls(env, events)
    ensures ok <==> AllSucceed(env, events)
    ensures forall f :: f in Fulls(env, events) ==> f in Fulls(env, before) || f in Descent(env, "", target)
    ensures ok ==> forall f :: f in Descent(env, "", target) ==> f in Fulls(env, events)
  {
    hide AllSucceed, Orderly, Walking, Fulls, Descent, Longest, Entered, IsLongest;
    ok, events := true, before;
    var parent, remaining := "", target;
    ghost var passed: seq<string> := [];
    WalkStart(env, target, before);
    while ok
      invariant Walking(env, target, before, events, passed, parent, remaining)
      invariant ok <==> AllSucceed(env, events)
      decreases |remaining|, ok
    {
      ListStep(env, target, before, events, passed, parent, remaining);
      SucceedOneMore(env, events, Listed(parent));
      events := events + [Listed(parent)];
      WalkFacts(env, target, before, events, passed, parent, remaining);
      var subs := env.list(parent);
      if subs.None? {
        return false, events;
      }
      var m := LongestSubmodulePrefix(subs.value, remaining, env.clean);
      if m == "" {
        WalkEnds(env, parent, remaining);
        return true, events;
      }
      LongestFits(subs.value, remaining, env.clean);
      ghost var was := events;
      ok, events := Init(env, events, parent, m);
      WalkStep(env, target, before, was, passed, parent, remaining, m, events);
      parent, remaining, passed := env.join(parent, m), TrimSlash(remaining[|m|..]), passed + [env.join(parent, m)];
    }
    WalkFacts(env, target, before, events, passed, parent, remaining);
  }

  /** prepareSubmodulesForOutputs: initializes exactly the submodules that an output descends through,
      each once and after its parent, lists only directories that are there, and stops at the first
      failure. */
  method PrepareSubmodulesForOutputs(env: Env, outputs: seq<string>) returns (ok: bool, events: seq<Event>)
    ensures Orderly(env, events) && (ok <==> AllSucceed(env, events))
    ensures forall f :: f in Fulls(env, events) ==> Wanted(env, outputs, f)
    ensures ok ==> forall f :: Wanted(env, outputs, f) ==> f in Fulls(env, events)
  {
    ok, events := true, [];
    for i := 0 to |outputs|
      invariant ok && Orderly(env, events) && AllSucceed(env, events)
      invariant forall f :: f in Fulls(env, events) ==> Wanted(env, outputs, f)
      invariant forall f :: Wanted(env, outputs[..i], f) ==> f in Fulls(env, events)
    {
      assert outputs[i] in outputs && outputs[..i + 1] == outputs[..i] + [outputs[i]];
      var target := Target(env, outputs[i]);
      ghost var was := events;
      if target != "" {
        ok, events := Descend(env, target, events);
        if !ok {
          return;
        }
      }
      forall f | Wanted(env, outputs[..i + 1], f)
        ensures f in Fulls(env, events)
      {
        var o :| o in outputs[..i + 1] && Through(env, o, f);
        if o != outputs[i] {
          assert o in outputs[..i];
          assert Wanted(env, outputs[..i], f);
        }
      }
    }
    assert outputs[..|outputs|] == outputs;
  }
}
