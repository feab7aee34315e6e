/** Which local variables of a test hold what it read from a file: the loop of readIsProductionInput
    computes the least set closed under the assignments, in whatever order it visits them. */
module Taint {
  type Object = nat

  /** An expression, by the objects that its identifiers denote and whether the read is part of it. */
  datatype Expr = Expr(objects: set<Object>, hasRead: bool) {
    predicate Uses(tainted: set<Object>) {
      hasRead || exists o :: o in objects && o in tainted
    }
  }

  /** The left side of an assignment: an identifier for an object, or something else, such as an
      index, a field, the blank identifier or an identifier without an object. */
  datatype Target = Ident(obj: Object, isError: bool) | Other

  datatype Assign = Assign(left: seq<Target>, right: seq<Expr>) {
    predicate FromRead(tainted: set<Object>) {
      exists e :: e in right && e.Uses(tainted)
    }

    /** The objects that an assignment can taint. */
    function Targets(): set<Object> {
      set t | t in left && t.Ident? && !t.isError :: t.obj
    }
  }

  datatype Call = Call(isRead: bool, receivesInput: bool, arguments: seq<Expr>)

  datatype Body = Body(assigns: seq<Assign>, calls: seq<Call>)

  // ---------- The least closed set ----------

  ghost predicate Closed(assigns: seq<Assign>, tainted: set<Object>) {
    forall a :: a in assigns && a.FromRead(tainted) ==> a.Targets() <= tainted
  }

  ghost predicate Least(assigns: seq<Assign>, tainted: set<Object>) {
    Closed(assigns, tainted) && forall other :: Closed(assigns, other) ==> tainted <= other
  }

  /** The order of the assignments does not matter, nor how often one occurs. */
  lemma OrderDoesNotMatter(a: seq<Assign>, b: seq<Assign>, s: set<Object>, t: set<Object>)
    requires (forall x :: x in a <==> x in b) && Least(a, s) && Least(b, t)
    ensures s == t
  {
    assert Closed(b, s) && Closed(a, t);
  }

  /** Something on the right side has the read in it, or a tainted object. */
  predicate PutsIn(a: Assign, tainted: set<Object>) {
    exists e :: e in a.right && (e.hasRead || exists x :: x in e.objects && x in tainted)
  }

  /** What is tainted: exactly the identifiers, other than for errors, that stand on the left of an assignment with
      something tainted on its right. */
  lemma TaintedIff(assigns: seq<Assign>, tainted: set<Object>, o: Object)
    requires Least(assigns, tainted)
    ensures o in tainted <==> exists a :: a in assigns && Ident(o, false) in a.left && PutsIn(a, tainted)
  {
    if a :| a in assigns && Ident(o, false) in a.left && PutsIn(a, tainted) {
      assert a.FromRead(tainted) && o in a.Targets();
    }
    var put := set x | x in tainted && exists a :: a in assigns && Ident(x, false) in a.left && PutsIn(a, tainted);
    forall a | a in assigns && a.FromRead(put)
      ensures a.Targets() <= put
    {
      var e :| e in a.right && e.Uses(put);
      assert e.Uses(tainted) && a.FromRead(tainted) && PutsIn(a, tainted);
      forall x | x in a.Targets()
        ensures x in put
      {
        var t :| t in a.left && t.Ident? && !t.isError && t.obj == x;
        assert t == Ident(x, false);
      }
    }
    assert Closed(assigns, put);
  }

  // ---------- Chains of assignments ----------

  /** One assignment puts something that uses `from` into `to`. */
  ghost predicate Flows(assigns: seq<Assign>, from: Object, to: Object) {
    exists a, e :: a in assigns && e in a.right && from in e.objects && to in a.Targets()
  }

  /** One assignment puts something with the read in it into the object. */
  ghost predicate Source(assigns: seq<Assign>, o: Object) {
    exists a, e :: a in assigns && e in a.right && e.hasRead && o in a.Targets()
  }

  /** A chain of assignments from the read. */
  ghost predicate Chain(assigns: seq<Assign>, chain: seq<Object>) {
    && chain != [] && Source(assigns, chain[0])
    && forall i :: 0 < i < |chain| ==> Flows(assigns, chain[i - 1], chain[i])
  }

  ghost predicate Reached(assigns: seq<Assign>, o: Object) {
    exists chain :: Chain(assigns, chain) && chain[|chain| - 1] == o
  }

  lemma ReachedMore(assigns: seq<Assign>, from: Object, to: Object)
    requires Reached(assigns, from) && Flows(assigns, from, to)
    ensures Reached(assigns, to)
  {
    var chain :| Chain(assigns, chain) && chain[|chain| - 1] == from;
    assert Chain(assigns, chain + [to]);
  }

  lemma SourceReached(assigns: seq<Assign>, o: Object)
    requires Source(assigns, o)
    ensures Reached(assigns, o)
  {
    assert Chain(assigns, [o]);
  }

  /** What a tainted right side reaches. */
  lemma TargetReached(assigns: seq<Assign>, a: Assign, tainted: set<Object>, to: Object)
    requires a in assigns && a.FromRead(tainted) && to in a.Targets()
    requires forall o :: o in tainted ==> Reached(assigns, o)
    ensures Reached(assigns, to)
  {
    var e :| e in a.right && e.Uses(tainted);
    if e.hasRead {
      SourceReached(assigns, to);
    } else {
      var o :| o in e.objects && o in tainted;
      assert Flows(assigns, o, to);
      ReachedMore(assigns, o, to);
    }
  }

  lemma {:induction false} ClosedHoldsChain(assigns: seq<Assign>, tainted: set<Object>, chain: seq<Object>)
    requires Closed(assigns, tainted) && Chain(assigns, chain)
    ensures chain[|chain| - 1] in tainted
    decreases |chain|
  {
    var n := |chain| - 1;
    if n == 0 {
      var a, e :| a in assigns && e in a.right && e.hasRead && chain[0] in a.Targets();
      assert e.Uses(tainted) && a.FromRead(tainted);
    } else {
      var front := chain[..n];
      assert Chain(assigns, front) by {
        forall i | 0 < i < n
          ensures Flows(assigns, front[i - 1], front[i])
        {
          assert Flows(assigns, chain[i - 1], chain[i]);
        }
      }
      ClosedHoldsChain(assigns, tainted, front);
      assert Flows(assigns, chain[n - 1], chain[n]);
      var a, e :| a in assigns && e in a.right && chain[n - 1] in e.objects && chain[n] in a.Targets();
      assert e.Uses(tainted) && a.FromRead(tainted);
    }
  }

  /** The least closed set holds exactly the objects that a chain reaches. */
  lemma LeastIsReached(assigns: seq<Assign>, tainted: set<Object>)
    requires Closed(assigns, tainted) && forall o :: o in tainted ==> Reached(assigns, o)
    ensures Least(assigns, tainted)
    ensures forall o :: o in tainted <==> Reached(assigns, o)
  {
    forall o | Reached(assigns, o)
      ensures o in tainted
    {
      var chain :| Chain(assigns, chain) && chain[|chain| - 1] == o;
      ClosedHoldsChain(assigns, tainted, chain);
    }
    forall other | Closed(assigns, other)
      ensures tainted <= other
    {
      forall o | o in tainted
        ensures o in other
      {
        var chain :| Chain(assigns, chain) && chain[|chain| - 1] == o;
        ClosedHoldsChain(assigns, other, chain);
      }
    }
  }

  // ---------- The loop ----------

  ghost function AllTargets(assigns: seq<Assign>): set<Object> {
    if assigns == [] then {} else assigns[0].Targets() + AllTargets(assigns[1..])
  }

  lemma {:induction false} TargetsInAll(assigns: seq<Assign>, a: Assign)
    requires a in assigns
    ensures a.Targets() <= AllTargets(assigns)
    decreases |assigns|
  {
    if a != assigns[0] {
      TargetsInAll(assigns[1..], a);
    }
  }

  /** One assignment of one round. */
  method Visit(a: Assign, before: set<Object>) returns (tainted: set<Object>, changed: bool)
    ensures tainted == if a.FromRead(before) then before + a.Targets() else before
    ensures changed <==> tainted != before
  {
    tainted, changed := before, false;
    var fromRead := false;
    for i := 0 to |a.right|
      invariant fromRead <==> exists j :: 0 <= j < i && a.right[j].Uses(before)
    {
      if a.right[i].Uses(before) {
        fromRead := true;
      }
    }
    assert fromRead <==> a.FromRead(before) by {
      if a.FromRead(before) {
        var e :| e in a.right && e.Uses(before);
        var j :| 0 <= j < |a.right| && a.right[j] == e;
      }
    }
    if !fromRead {
      return;
    }
    for i := 0 to |a.left|
      invariant tainted == before + set t | t in a.left[..i] && t.Ident? && !t.isError :: t.obj
      invariant changed <==> tainted != before
    {
      assert a.left[..i + 1] == a.left[..i] + [a.left[i]];
      var t := a.left[i];
      if t.Other? || t.obj in tainted || t.isError {
        continue;
      }
      tainted := tainted + {t.obj};
      changed := true;
    }
    assert a.left[..|a.left|] == a.left;
  }

  /** One round over all assignments. */
  method Round(assigns: seq<Assign>, before: set<Object>) returns (tainted: set<Object>, changed: bool)
    requires forall o :: o in before ==> Reached(assigns, o)
    requires before <= AllTargets(assigns)
    ensures before <= tainted <= AllTargets(assigns)
    ensures forall o :: o in tainted ==> Reached(assigns, o)
    ensures changed <==> tainted != before
    ensures !changed ==> Closed(assigns, tainted)
  {
    tainted, changed := before, false;
    for i := 0 to |assigns|
      invariant before <= tainted <= AllTargets(assigns)
      invariant forall o :: o in tainted ==> Reached(assigns, o)
      invariant changed <==> tainted != before
      invariant !changed ==> forall j :: 0 <= j < i && assigns[j].FromRead(tainted) ==> assigns[j].Targets() <= tainted
    {
      var a := assigns[i];
      ghost var was := tainted;
      var did;
      tainted, did := Visit(a, tainted);
      TargetsInAll(assigns, a);
      forall o | o in tainted
        ensures Reached(assigns, o)
      {
        if o !in was {
          TargetReached(assigns, a, was, o);
        }
      }
      changed := changed || did;
    }
  }

  /** The taint loop of readIsProductionInput. */
  method TaintLoop(assigns: seq<Assign>) returns (tainted: set<Object>)
    ensures Least(assigns, tainted)
    ensures forall o :: o in tainted <==> Reached(assigns, o)
  {
    tainted := {};
    var changed := true;
    while changed
      invariant tainted <= AllTargets(assigns)
      invariant forall o :: o in tainted ==> Reached(assigns, o)
      invariant !changed ==> Closed(assigns, tainted)
      decreases |AllTargets(assigns)| - |tainted|, changed
    {
      ghost var was := tainted;
      tainted, changed := Round(assigns, tainted);
      Sizes(was, tainted);
      Sizes(tainted, AllTargets(assigns));
    }
    LeastIsReached(assigns, tainted);
  }

  lemma Sizes(s: set<Object>, t: set<Object>)
    requires s <= t
    ensures |s| <= |t|
    ensures s != t ==> |s| < |t|
  {
    var rest := t - s;
    assert t == s + rest;
    assert |t| == |s| + |rest|;
    if s != t {
      assert rest != {};
    }
  }

  /** The content of the read flows into the expression. */
  ghost predicate FlowsInto(assigns: seq<Assign>, e: Expr) {
    e.hasRead || exists o :: o in e.objects && Reached(assigns, o)
  }

  /** A call of production code, other than the read itself, has the content in an argument. */
  ghost predicate Receives(assigns: seq<Assign>, call: Call) {
    !call.isRead && call.receivesInput && exists e :: e in call.arguments && FlowsInto(assigns, e)
  }

  /** readIsProductionInput. */
  method ReadIsProductionInput(body: Body) returns (passed: bool)
    ensures passed <==> exists call :: call in body.calls && Receives(body.assigns, call)
  {
    var tainted := TaintLoop(body.assigns);
    passed := false;
    for i := 0 to |body.calls|
      invariant passed <==> exists j :: 0 <= j < i && Receives(body.assigns, body.calls[j])
    {
      var call := body.calls[i];
      if passed || call.isRead || !call.receivesInput {
        continue;
      }
      for k := 0 to |call.arguments|
        invariant passed <==> exists j :: 0 <= j < k && FlowsInto(body.assigns, call.arguments[j])
      {
        if call.arguments[k].Uses(tainted) {
          passed := true;
        }
      }
      assert passed <==> Receives(body.assigns, call) by {
        if Receives(body.assigns, call) {
          var e :| e in call.arguments && FlowsInto(body.assigns, e);
          var j :| 0 <= j < |call.arguments| && call.arguments[j] == e;
        }
      }
    }
    if call :| call in body.calls && Receives(body.assigns, call) {
      var j :| 0 <= j < |body.calls| && body.calls[j] == call;
    }
  }
}
