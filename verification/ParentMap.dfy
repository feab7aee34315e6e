/** The parent map of a syntax tree: buildParentMap keeps a stack while ast.Inspect enters and leaves
    the nodes. */
module ParentMap {
  type Id = nat

  datatype Tree = Node(id: Id, kids: seq<Tree>)

  datatype Event = Enter(id: Id) | Leave

  // ---------- What ast.Inspect calls the visitor with ----------

  function Events(t: Tree): seq<Event> {
    [Enter(t.id)] + EventsOf(t.kids) + [Leave]
  }

  function EventsOf(kids: seq<Tree>): seq<Event> {
    if kids == [] then [] else Events(kids[0]) + EventsOf(kids[1..])
  }

  // ---------- The tree ----------

  function Ids(t: Tree): set<Id> {
    {t.id} + IdsOf(t.kids)
  }

  function IdsOf(kids: seq<Tree>): set<Id> {
    if kids == [] then {} else Ids(kids[0]) + IdsOf(kids[1..])
  }

  /** Every node occurs once. */
  ghost predicate Proper(t: Tree) {
    t.id !in IdsOf(t.kids) && ProperAll(t.kids)
  }

  ghost predicate ProperAll(kids: seq<Tree>) {
    kids == [] || (Proper(kids[0]) && ProperAll(kids[1..]) && Ids(kids[0]) !! IdsOf(kids[1..]))
  }

  /** `c` is a child of `p` somewhere in the tree. */
  ghost predicate IsParent(t: Tree, p: Id, c: Id) {
    (t.id == p && HasKid(t.kids, c)) || IsParentIn(t.kids, p, c)
  }

  ghost predicate HasKid(kids: seq<Tree>, c: Id) {
    kids != [] && (kids[0].id == c || HasKid(kids[1..], c))
  }

  ghost predicate IsParentIn(kids: seq<Tree>, p: Id, c: Id) {
    kids != [] && (IsParent(kids[0], p, c) || IsParentIn(kids[1..], p, c))
  }

  // ---------- The machine ----------

  datatype Machine = Machine(stack: seq<Id>, parents: map<Id, Id>)

  function Step(m: Machine, e: Event): Machine {
    match e
    case Leave => if |m.stack| > 0 then m.(stack := m.stack[..|m.stack| - 1]) else m
    case Enter(n) =>
      var parents := if |m.stack| > 0 then m.parents[n := m.stack[|m.stack| - 1]] else m.parents;
      Machine(m.stack + [n], parents)
  }

  function Run(m: Machine, events: seq<Event>): Machine
    decreases |events|
  {
    if events == [] then m else Run(Step(m, events[0]), events[1..])
  }

  lemma {:induction false} RunConcat(m: Machine, a: seq<Event>, b: seq<Event>)
    ensures Run(m, a + b) == Run(Run(m, a), b)
    decreases |a|
  {
    if a == [] {
      assert a + b == b;
    } else {
      assert (a + b)[1..] == a[1..] + b;
      RunConcat(Step(m, a[0]), a[1..], b);
    }
  }

  /** The parents below a node. */
  function ParentsOf(t: Tree): map<Id, Id>
    decreases t
  {
    ParentsUnder(t.id, t.kids)
  }

  function ParentsUnder(p: Id, kids: seq<Tree>): map<Id, Id>
    decreases kids
  {
    if kids == [] then map[]
    else map[kids[0].id := p] + ParentsOf(kids[0]) + ParentsUnder(p, kids[1..])
  }

  /** Walking a tree leaves the stack as it was, and adds the parents of the tree. */
  lemma {:induction false} RunTree(m: Machine, t: Tree)
    ensures Run(m, Events(t)) ==
            Machine(m.stack, (if |m.stack| > 0 then m.parents[t.id := m.stack[|m.stack| - 1]] else m.parents) + ParentsOf(t))
    decreases t
  {
    var entered := Step(m, Enter(t.id));
    var walked := Run(entered, EventsOf(t.kids));
    RunConcat(m, [Enter(t.id)] + EventsOf(t.kids), [Leave]);
    RunConcat(m, [Enter(t.id)], EventsOf(t.kids));
    RunKids(entered, t.kids);
    assert walked.stack[..|walked.stack| - 1] == m.stack;
  }

  lemma {:induction false} RunKids(m: Machine, kids: seq<Tree>)
    requires |m.stack| > 0
    ensures Run(m, EventsOf(kids)) == Machine(m.stack, m.parents + ParentsUnder(m.stack[|m.stack| - 1], kids))
    decreases kids
  {
    var p := m.stack[|m.stack| - 1];
    if kids == [] {
      assert m.parents + map[] == m.parents;
    } else {
      var first, rest := kids[0], kids[1..];
      RunConcat(m, Events(first), EventsOf(rest));
      RunTree(m, first);
      var next := m.(parents := m.parents[first.id := p] + ParentsOf(first));
      RunKids(next, rest);
      AddKid(m.parents, first.id, p, ParentsOf(first), ParentsUnder(p, rest));
    }
  }

  lemma AddKid(m: map<Id, Id>, c: Id, p: Id, x: map<Id, Id>, y: map<Id, Id>)
    ensures m[c := p] + x + y == m + (map[c := p] + x + y)
  {
  }

  // ---------- The map holds the true parents ----------

  lemma {:induction false} ParentsKeys(t: Tree)
    requires Proper(t)
    ensures ParentsOf(t).Keys == Ids(t) - {t.id}
    decreases t
  {
    KidsKeys(t.id, t.kids);
  }

  lemma {:induction false} KidsKeys(q: Id, kids: seq<Tree>)
    requires ProperAll(kids)
    ensures ParentsUnder(q, kids).Keys == IdsOf(kids)
    decreases kids
  {
    if kids != [] {
      ParentsKeys(kids[0]);
      KidsKeys(q, kids[1..]);
    }
  }

  lemma {:induction false} ParentsAreTrue(t: Tree, p: Id, c: Id)
    requires Proper(t)
    ensures IsParent(t, p, c) <==> c in ParentsOf(t) && ParentsOf(t)[c] == p
    decreases t
  {
    KidsAreTrue(t.id, t.kids, p, c);
  }

  lemma {:induction false} KidsAreTrue(q: Id, kids: seq<Tree>, p: Id, c: Id)
    requires ProperAll(kids)
    ensures (p == q && HasKid(kids, c)) || IsParentIn(kids, p, c)
            <==> c in ParentsUnder(q, kids) && ParentsUnder(q, kids)[c] == p
    decreases kids
  {
    if kids != [] {
      var first, rest := kids[0], kids[1..];
      ParentsAreTrue(first, p, c);
      KidsAreTrue(q, rest, p, c);
      ParentsKeys(first);
      KidsKeys(q, rest);
    }
  }

  // ---------- The method ----------

  /** buildParentMap. */
  method BuildParentMap(root: Tree) returns (parents: map<Id, Id>, ghost left: seq<Id>)
    ensures left == [] && parents == ParentsOf(root)
    ensures Proper(root) ==> parents.Keys == Ids(root) - {root.id}
    ensures Proper(root) ==> forall p, c :: IsParent(root, p, c) <==> c in parents && parents[c] == p
  {
    var events := Events(root);
    var stack: seq<Id> := [];
    parents := map[];
    for i := 0 to |events|
      invariant Run(Machine(stack, parents), events[i..]) == Run(Machine([], map[]), events)
    {
      assert events[i..][1..] == events[i + 1..];
      match events[i]
      case Leave =>
        if |stack| > 0 {
          stack := stack[..|stack| - 1];
        }
      case Enter(n) =>
        if |stack| > 0 {
          parents := parents[n := stack[|stack| - 1]];
        }
        stack := stack + [n];
    }
    left := stack;
    RunTree(Machine([], map[]), root);
    assert map[] + ParentsOf(root) == ParentsOf(root);
    if Proper(root) {
      ParentsKeys(root);
      forall p, c
        ensures IsParent(root, p, c) <==> c in parents && parents[c] == p
      {
        ParentsAreTrue(root, p, c);
      }
    }
  }

  // ---------- Walking up ----------

  /** How deep a node lies. */
  function Depth(t: Tree, c: Id): (d: nat)
    requires c in Ids(t)
  {
    if c == t.id then 0 else 1 + DepthIn(t.kids, c)
  }

  function DepthIn(kids: seq<Tree>, c: Id): (d: nat)
    requires c in IdsOf(kids)
  {
    if c in Ids(kids[0]) then Depth(kids[0], c) else DepthIn(kids[1..], c)
  }

  /** A parent lies one level above its child. */
  lemma {:induction false} ParentIsAbove(t: Tree, p: Id, c: Id)
    requires Proper(t) && IsParent(t, p, c)
    ensures p in Ids(t) && c in Ids(t) && Depth(t, c) == Depth(t, p) + 1
    decreases t
  {
    if t.id == p && HasKid(t.kids, c) {
      KidDepth(t.kids, c);
    } else {
      ParentIsAboveIn(t.kids, p, c);
    }
  }

  lemma {:induction false} KidDepth(kids: seq<Tree>, c: Id)
    requires ProperAll(kids) && HasKid(kids, c)
    ensures c in IdsOf(kids) && DepthIn(kids, c) == 0
    decreases kids
  {
    if kids[0].id != c {
      KidDepth(kids[1..], c);
    }
  }

  lemma {:induction false} ParentIsAboveIn(kids: seq<Tree>, p: Id, c: Id)
    requires ProperAll(kids) && IsParentIn(kids, p, c)
    ensures p in IdsOf(kids) && c in IdsOf(kids) && DepthIn(kids, c) == DepthIn(kids, p) + 1
    decreases kids
  {
    if IsParent(kids[0], p, c) {
      ParentIsAbove(kids[0], p, c);
    } else {
      ParentIsAboveIn(kids[1..], p, c);
    }
  }

  /** A call in the tree: which child is the function, and whether the call is a tracked slog call. */
  datatype Call = Call(fun: Id, tracked: bool)

  /** Whether the nearest call above a node is tracked and holds the node in its arguments. */
  ghost predicate InArguments(t: Tree, calls: map<Id, Call>, n: Id)
    requires Proper(t) && n in Ids(t)
    decreases Depth(t, n)
  {
    exists p :: IsParent(t, p, n) && p in Ids(t) && Depth(t, p) < Depth(t, n) &&
      if p in calls then calls[p].fun != n && calls[p].tracked else InArguments(t, calls, p)
  }

  /** isInsideTrackedSlogCallArgs: the walk up ends, because each step goes one level up. */
  method IsInsideTrackedSlogCallArgs(t: Tree, parents: map<Id, Id>, calls: map<Id, Call>,
                                     ident: Id) returns (inside: bool)
    requires Proper(t) && ident in Ids(t)
    requires forall p, c :: IsParent(t, p, c) <==> c in parents && parents[c] == p
    ensures inside <==> InArguments(t, calls, ident)
  {
    var node := ident;
    while node in parents
      invariant node in Ids(t)
      invariant InArguments(t, calls, node) <==> InArguments(t, calls, ident)
      decreases Depth(t, node)
    {
      var parent := parents[node];
      ParentIsAbove(t, parent, node);
      if parent in calls {
        return calls[parent].fun != node && calls[parent].tracked;
      }
      node := parent;
    }
    return false;
  }
}
