/** insertMissingPermissionsLines on the lines of one permissions block. */
module WorkflowPermissions {
  import opened WorkflowLine
  import opened WorkflowBlock

  datatype Permission = Permission(key: string, value: string)

  function Grant(n: nat, p: Permission): Line {
    EntryLine(n, p.key, p.value)
  }

  /** A list of grants to require names no key twice. */
  ghost predicate Required(perms: seq<Permission>) {
    forall i, j :: 0 <= i < j < |perms| ==> perms[i].key != perms[j].key
  }

  predicate Bears(line: Line, key: string) {
    !line.skip && line.name == key
  }

  /** The last line that bears the key, or -1. */
  function LastOf(kids: seq<Line>, key: string): (i: int)
    ensures -1 <= i < |kids|
    ensures i >= 0 ==> Bears(kids[i], key)
    ensures forall j :: i < j < |kids| ==> !Bears(kids[j], key)
  {
    if kids == [] then -1
    else if Bears(kids[|kids| - 1], key) then |kids| - 1
    else LastOf(kids[..|kids| - 1], key)
  }

  lemma {:induction false} LastOfUnique(kids: seq<Line>, key: string, i: int)
    requires -1 <= i < |kids| && (i >= 0 ==> Bears(kids[i], key))
    requires forall j :: i < j < |kids| ==> !Bears(kids[j], key)
    ensures LastOf(kids, key) == i
  {
  }

  /** Line `i` with the grant of the key whose last line it is. */
  function FixedLine(kids: seq<Line>, perms: seq<Permission>, i: nat): Line
    requires i < |kids|
  {
    if perms == [] then kids[i]
    else if LastOf(kids, perms[0].key) == i then Grant(kids[i].indent, perms[0])
    else FixedLine(kids, perms[1..], i)
  }

  function Fixed(kids: seq<Line>, perms: seq<Permission>): (r: seq<Line>)
    ensures |r| == |kids|
    ensures forall i :: 0 <= i < |kids| ==> r[i] == FixedLine(kids, perms, i)
  {
    seq(|kids|, i requires 0 <= i < |kids| => FixedLine(kids, perms, i))
  }

  /** The grants whose key no line bears. */
  function Missing(kids: seq<Line>, perms: seq<Permission>, indent: nat): seq<Line> {
    if perms == [] then []
    else (if LastOf(kids, perms[0].key) < 0 then [Grant(indent, perms[0])] else [])
         + Missing(kids, perms[1..], indent)
  }

  function Repaired(kids: seq<Line>, n: nat, perms: seq<Permission>): seq<Line> {
    Inserted(Fixed(kids, perms), ContentEnd(kids), Missing(kids, perms, ChildIndent(kids, n)))
  }

  // ---------- The repair is idempotent ----------

  /** The last line of every required key is its grant. */
  ghost predicate Granted(kids: seq<Line>, perms: seq<Permission>) {
    forall p :: p in perms ==> HasGrant(kids, p)
  }

  ghost predicate HasGrant(kids: seq<Line>, p: Permission) {
    var i := LastOf(kids, p.key);
    i >= 0 && kids[i] == Grant(kids[i].indent, p)
  }

  lemma {:induction false} GrantedLines(kids: seq<Line>, perms: seq<Permission>, indent: nat)
    requires Granted(kids, perms)
    ensures forall i :: 0 <= i < |kids| ==> FixedLine(kids, perms, i) == kids[i]
    ensures Missing(kids, perms, indent) == []
  {
    if perms != [] {
      assert HasGrant(kids, perms[0]);
      forall p | p in perms[1..]
        ensures HasGrant(kids, p)
      {
        assert p in perms;
      }
      GrantedLines(kids, perms[1..], indent);
    }
  }

  lemma GrantedStays(kids: seq<Line>, n: nat, perms: seq<Permission>)
    requires Granted(kids, perms)
    ensures Repaired(kids, n, perms) == kids
  {
    GrantedLines(kids, perms, ChildIndent(kids, n));
    assert Fixed(kids, perms) == kids;
  }

  /** A fixed line bears the key it bore, and is the grant when it is the last of a required key. */
  lemma {:induction false} FixedLineReads(kids: seq<Line>, perms: seq<Permission>, i: nat)
    requires Required(perms) && i < |kids|
    ensures FixedLine(kids, perms, i) == kids[i] ||
            exists p :: p in perms && LastOf(kids, p.key) == i && FixedLine(kids, perms, i) == Grant(kids[i].indent, p)
    ensures forall p :: p in perms && LastOf(kids, p.key) == i ==> FixedLine(kids, perms, i) == Grant(kids[i].indent, p)
  {
    if perms != [] {
      assert perms == [perms[0]] + perms[1..];
      if LastOf(kids, perms[0].key) == i {
        forall p | p in perms && LastOf(kids, p.key) == i
          ensures p == perms[0]
        {
          assert Bears(kids[i], p.key) && Bears(kids[i], perms[0].key);
          var j :| 0 <= j < |perms| && perms[j] == p;
        }
      } else {
        FixedLineReads(kids, perms[1..], i);
      }
    }
  }

  lemma {:induction false} FixedBears(kids: seq<Line>, perms: seq<Permission>, i: nat)
    requires Required(perms) && i < |kids|
    ensures FixedLine(kids, perms, i).skip == kids[i].skip
    ensures FixedLine(kids, perms, i).indent == kids[i].indent
    ensures forall key :: Bears(FixedLine(kids, perms, i), key) <==> Bears(kids[i], key)
  {
    FixedLineReads(kids, perms, i);
    if FixedLine(kids, perms, i) != kids[i] {
      var p :| p in perms && LastOf(kids, p.key) == i && FixedLine(kids, perms, i) == Grant(kids[i].indent, p);
      assert Bears(kids[i], p.key);
    }
  }

  /** The inserted lines: exactly one grant for each required key that was missing. */
  lemma {:induction false} MissingReads(kids: seq<Line>, perms: seq<Permission>, indent: nat)
    requires Required(perms)
    ensures forall line :: line in Missing(kids, perms, indent) ==>
              exists p :: p in perms && LastOf(kids, p.key) < 0 && line == Grant(indent, p)
    ensures forall p :: p in perms && LastOf(kids, p.key) < 0 ==> Grant(indent, p) in Missing(kids, perms, indent)
  {
    if perms != [] {
      assert perms == [perms[0]] + perms[1..];
      MissingReads(kids, perms[1..], indent);
    }
  }

  lemma {:induction false} PresentKeyGranted(kids: seq<Line>, n: nat, perms: seq<Permission>, p: Permission)
    requires Required(perms) && p in perms && LastOf(kids, p.key) >= 0
    ensures HasGrant(Repaired(kids, n, perms), p)
  {
    var indent := ChildIndent(kids, n);
    var fixed, missing, at := Fixed(kids, perms), Missing(kids, perms, indent), ContentEnd(kids);
    var r := Repaired(kids, n, perms);
    var i := LastOf(kids, p.key);
    MissingReads(kids, perms, indent);
    FixedLineReads(kids, perms, i);
    FixedBears(kids, perms, i);
    forall j | i < j < |r|
      ensures !Bears(r[j], p.key)
    {
      if at <= j < at + |missing| {
        assert r[j] in missing;
        var q :| q in perms && LastOf(kids, q.key) < 0 && r[j] == Grant(indent, q);
      } else {
        FixedBears(kids, perms, if j < at then j else j - |missing|);
      }
    }
    LastOfUnique(r, p.key, i);
  }

  /** Only its grant bears a key that was missing. */
  lemma {:induction false} OnlyGrantBears(kids: seq<Line>, n: nat, perms: seq<Permission>, p: Permission, j: nat)
    requires Required(perms) && p in perms && LastOf(kids, p.key) < 0
    requires j < |Repaired(kids, n, perms)| && Bears(Repaired(kids, n, perms)[j], p.key)
    ensures Repaired(kids, n, perms)[j] == Grant(ChildIndent(kids, n), p)
  {
    var indent := ChildIndent(kids, n);
    var missing, at := Missing(kids, perms, indent), ContentEnd(kids);
    if at <= j < at + |missing| {
      MissingReads(kids, perms, indent);
      var line := missing[j - at];
      assert line in missing;
      var q :| q in perms && LastOf(kids, q.key) < 0 && line == Grant(indent, q);
    } else {
      FixedBears(kids, perms, if j < at then j else j - |missing|);
    }
  }

  lemma GrantInserted(kids: seq<Line>, n: nat, perms: seq<Permission>, p: Permission) returns (k: nat)
    requires Required(perms) && p in perms && LastOf(kids, p.key) < 0
    ensures k < |Repaired(kids, n, perms)| && Repaired(kids, n, perms)[k] == Grant(ChildIndent(kids, n), p)
  {
    var indent := ChildIndent(kids, n);
    var missing := Missing(kids, perms, indent);
    MissingReads(kids, perms, indent);
    var i :| 0 <= i < |missing| && missing[i] == Grant(indent, p);
    k := ContentEnd(kids) + i;
  }

  lemma {:induction false} MissingKeyGranted(kids: seq<Line>, n: nat, perms: seq<Permission>, p: Permission)
    requires Required(perms) && p in perms && LastOf(kids, p.key) < 0
    ensures HasGrant(Repaired(kids, n, perms), p)
  {
    var k := GrantInserted(kids, n, perms, p);
    var r := Repaired(kids, n, perms);
    OnlyGrantBears(kids, n, perms, p, LastOf(r, p.key));
  }

  /** Repairing a block once grants every required key, so a second repair changes nothing. */
  lemma RepairedTwice(kids: seq<Line>, n: nat, perms: seq<Permission>)
    requires Required(perms)
    ensures Granted(Repaired(kids, n, perms), perms)
    ensures Repaired(Repaired(kids, n, perms), n, perms) == Repaired(kids, n, perms)
  {
    forall p | p in perms
      ensures HasGrant(Repaired(kids, n, perms), p)
    {
      if LastOf(kids, p.key) >= 0 {
        PresentKeyGranted(kids, n, perms, p);
      } else {
        MissingKeyGranted(kids, n, perms, p);
      }
    }
    GrantedStays(Repaired(kids, n, perms), n, perms);
  }

  lemma RepairedKeepsKids(kids: seq<Line>, n: nat, perms: seq<Permission>)
    requires Required(perms) && AllKids(kids, n)
    ensures AllKids(Repaired(kids, n, perms), n)
  {
    var indent := ChildIndent(kids, n);
    var fixed, missing, at := Fixed(kids, perms), Missing(kids, perms, indent), ContentEnd(kids);
    var r := Repaired(kids, n, perms);
    MissingReads(kids, perms, indent);
    if FirstContent(kids) < |kids| {
      assert kids[FirstContent(kids)] in kids;
    }
    forall line | line in r
      ensures !Ends(line, n)
    {
      var j :| 0 <= j < |r| && r[j] == line;
      if at <= j < at + |missing| {
        assert r[j] in missing;
        var q :| q in perms && LastOf(kids, q.key) < 0 && r[j] == Grant(indent, q);
      } else {
        var i := if j < at then j else j - |missing|;
        FixedBears(kids, perms, i);
        assert kids[i] in kids;
      }
    }
  }

  // ---------- A whole new block ----------

  function Grants(perms: seq<Permission>, indent: nat): seq<Line> {
    seq(|perms|, i requires 0 <= i < |perms| => Grant(indent, perms[i]))
  }

  /** A block of exactly the grants, with blank lines and comments behind it, is complete. */
  lemma GrantsAreGranted(perms: seq<Permission>, indent: nat, skips: seq<Line>)
    requires Required(perms) && forall line :: line in skips ==> line.skip
    ensures Granted(Grants(perms, indent) + skips, perms)
  {
    var kids := Grants(perms, indent) + skips;
    forall p | p in perms
      ensures HasGrant(kids, p)
    {
      var k :| 0 <= k < |perms| && perms[k] == p;
      forall j | k < j < |kids|
        ensures !Bears(kids[j], p.key)
      {
        if j < |perms| {
          assert perms[j] in perms;
        } else {
          assert kids[j] in skips;
        }
      }
      LastOfUnique(kids, p.key, k);
    }
  }
}
