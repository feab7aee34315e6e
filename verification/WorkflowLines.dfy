/** What the repairs of a caller job write, and where: line by line, without the functions that the repairs
    are made of. */
module WorkflowLines {
  import opened Options
  import opened WorkflowLine
  import opened WorkflowBlock
  import opened WorkflowPermissions
  import opened WorkflowJob

  // ---------- The parts of a block ----------

  predicate AllSkip(lines: seq<Line>) {
    forall line :: line in lines ==> line.skip
  }

  /** The lines up to the last one with content, and the blank lines and comments behind it. */
  predicate EndsAt(kids: seq<Line>, front: seq<Line>, tail: seq<Line>) {
    kids == front + tail && AllSkip(tail) && (front != [] ==> !front[|front| - 1].skip)
  }

  /** The indentation of the first line with content; a block without any is indented two deeper than its key. */
  ghost predicate Indented(kids: seq<Line>, n: nat, indent: nat) {
    if AllSkip(kids) then indent == n + 2
    else exists i :: 0 <= i < |kids| && AllSkip(kids[..i]) && !kids[i].skip && kids[i].indent == indent
  }

  lemma IndentedIs(kids: seq<Line>, n: nat, indent: nat)
    requires Indented(kids, n, indent)
    ensures ChildIndent(kids, n) == indent
  {
    if AllSkip(kids) {
      assert forall i :: 0 <= i < |kids| ==> kids[i] in kids;
      FirstContentUnique(kids, |kids|);
    } else {
      var i :| 0 <= i < |kids| && AllSkip(kids[..i]) && !kids[i].skip && kids[i].indent == indent;
      assert forall j :: 0 <= j < i ==> kids[j] == kids[..i][j] && kids[j] in kids[..i];
      FirstContentUnique(kids, i);
    }
  }

  lemma {:induction false} EndsAtIs(kids: seq<Line>, front: seq<Line>, tail: seq<Line>)
    requires EndsAt(kids, front, tail)
    ensures ContentEnd(kids) == |front| && kids[..|front|] == front && kids[|front|..] == tail
  {
    assert front != [] ==> kids[|front| - 1] == front[|front| - 1];
    assert forall j :: 0 <= j < |tail| ==> kids[|front| + j] == tail[j] && tail[j] in tail;
    ContentEndUnique(kids, |front|);
  }

  lemma {:induction false} ContentEndUnique(kids: seq<Line>, e: nat)
    requires e <= |kids| && (e > 0 ==> !kids[e - 1].skip) && forall j :: e <= j < |kids| ==> kids[j].skip
    ensures ContentEnd(kids) == e
  {
  }

  // ---------- One entry ----------

  predicate Names(line: Line, indent: nat, key: string) {
    !line.skip && line.indent == indent && line.name == key
  }

  predicate FirstNamed(kids: seq<Line>, i: int, indent: nat, key: string) {
    0 <= i < |kids| && Names(kids[i], indent, key) && forall j :: 0 <= j < i ==> !Names(kids[j], indent, key)
  }

  /** An entry is set in the first line that names it at the indentation of the block, and else behind the last line
      with content. */
  lemma EntryIsSet(kids: seq<Line>, n: nat, key: string, value: string, indent: nat)
    requires Indented(kids, n, indent)
    ensures forall i :: FirstNamed(kids, i, indent, key) ==>
              Upsert(kids, n, key, value) == kids[i := EntryLine(indent, key, value)]
    ensures forall front, tail :: EndsAt(kids, front, tail) && (forall line :: line in kids ==> !Names(line, indent, key)) ==>
              Upsert(kids, n, key, value) == front + [EntryLine(indent, key, value)] + tail
  {
    IndentedIs(kids, n, indent);
    forall i | FirstNamed(kids, i, indent, key)
      ensures Upsert(kids, n, key, value) == kids[i := EntryLine(indent, key, value)]
    {
      FindEntryUnique(kids, indent, key, i);
    }
    forall front, tail | EndsAt(kids, front, tail) && (forall line :: line in kids ==> !Names(line, indent, key))
      ensures Upsert(kids, n, key, value) == front + [EntryLine(indent, key, value)] + tail
    {
      EndsAtIs(kids, front, tail);
      assert forall i :: 0 <= i < |kids| ==> kids[i] in kids;
      FindEntryUnique(kids, indent, key, |kids|);
    }
  }

  /** The entries of a block are its lines with a colon at its indentation; the last one of a key counts. */
  lemma EntryIsHeld(kids: seq<Line>, n: nat, indent: nat, key: string, value: string)
    requires Indented(kids, n, indent)
    ensures key in Entries(kids, n) && Entries(kids, n)[key] == value <==>
            exists i :: 0 <= i < |kids| && Holds(kids[i], indent, key) && kids[i].value == value
                        && forall j :: i < j < |kids| ==> !Holds(kids[j], indent, key)
  {
    IndentedIs(kids, n, indent);
    LastHolds(kids, indent, key, value);
  }

  predicate Holds(line: Line, indent: nat, key: string) {
    !line.skip && line.colon && line.indent == indent && line.name == key
  }

  lemma {:induction false} LastHolds(kids: seq<Line>, indent: nat, key: string, value: string)
    ensures key in EntriesAt(kids, indent) && EntriesAt(kids, indent)[key] == value <==>
            exists i :: 0 <= i < |kids| && Holds(kids[i], indent, key) && kids[i].value == value
                        && forall j :: i < j < |kids| ==> !Holds(kids[j], indent, key)
  {
    if kids != [] {
      var n := |kids| - 1;
      LastHolds(kids[..n], indent, key, value);
      assert forall i :: 0 <= i < n ==> kids[..n][i] == kids[i];
    }
  }

  // ---------- Permissions ----------

  /** The last line that names the key of a required permission. */
  predicate LastNamed(kids: seq<Line>, i: int, key: string) {
    && 0 <= i < |kids| && !kids[i].skip && kids[i].name == key
    && forall j :: i < j < |kids| ==> kids[j].skip || kids[j].name != key
  }

  predicate Unnamed(kids: seq<Line>, key: string) {
    forall line :: line in kids ==> line.skip || line.name != key
  }

  lemma {:induction false} LastNamedIs(kids: seq<Line>, key: string)
    ensures forall i :: LastNamed(kids, i, key) ==> LastOf(kids, key) == i
    ensures LastOf(kids, key) >= 0 ==> LastNamed(kids, LastOf(kids, key), key)
    ensures Unnamed(kids, key) <==> LastOf(kids, key) < 0
  {
    forall i | LastNamed(kids, i, key)
      ensures LastOf(kids, key) == i
    {
      LastOfUnique(kids, key, i);
    }
    assert forall i :: 0 <= i < |kids| ==> kids[i] in kids;
  }

  /** What becomes of line `i` of a permissions block. */
  ghost predicate Regranted(kids: seq<Line>, perms: seq<Permission>, i: nat, now: Line)
    requires i < |kids|
  {
    && (forall p :: p in perms && LastNamed(kids, i, p.key) ==> now == EntryLine(kids[i].indent, p.key, p.value))
    && ((forall p :: p in perms ==> !LastNamed(kids, i, p.key)) ==> now == kids[i])
  }

  /** The grants of the permissions that no line names, in their order. */
  function Absent(kids: seq<Line>, perms: seq<Permission>): seq<Permission> {
    if perms == [] then []
    else Absent(kids, perms[..|perms| - 1]) + if Unnamed(kids, perms[|perms| - 1].key) then [perms[|perms| - 1]] else []
  }

  lemma {:induction false} MissingIs(kids: seq<Line>, perms: seq<Permission>, indent: nat)
    ensures |Missing(kids, perms, indent)| == |Absent(kids, perms)|
    ensures forall k :: 0 <= k < |Absent(kids, perms)| ==>
              Missing(kids, perms, indent)[k] == EntryLine(indent, Absent(kids, perms)[k].key, Absent(kids, perms)[k].value)
    decreases |perms|
  {
    if perms != [] {
      var n := |perms| - 1;
      var p := perms[n];
      MissingIs(kids, perms[..n], indent);
      MissingConcat(kids, perms[..n], [p], indent);
      assert perms == perms[..n] + [p];
      LastNamedIs(kids, p.key);
      assert Missing(kids, [p], indent) == (if LastOf(kids, p.key) < 0 then [Grant(indent, p)] else []) by {
        assert [p][1..] == [];
      }
    }
  }

  lemma {:induction false} MissingConcat(kids: seq<Line>, a: seq<Permission>, b: seq<Permission>, indent: nat)
    ensures Missing(kids, a + b, indent) == Missing(kids, a, indent) + Missing(kids, b, indent)
    decreases |a|
  {
    if a == [] {
      assert a + b == b;
    } else {
      assert (a + b)[1..] == a[1..] + b;
      MissingConcat(kids, a[1..], b, indent);
    }
  }

  /** The repair of a permissions block: the last line of each required key becomes its grant, the grants that no line
      names come behind the last line with content, in order, and every other line stays. */
  lemma BlockIsGranted(kids: seq<Line>, n: nat, perms: seq<Permission>, indent: nat, front: seq<Line>, tail: seq<Line>)
    returns (now: seq<Line>, more: seq<Line>)
    requires Required(perms) && Indented(kids, n, indent) && EndsAt(kids, front, tail)
    ensures Repaired(kids, n, perms) == now + more + tail && |now| == |front|
    ensures forall i :: 0 <= i < |front| ==> Regranted(kids, perms, i, now[i])
    ensures |more| == |Absent(kids, perms)|
    ensures forall k :: 0 <= k < |more| ==>
              more[k] == EntryLine(indent, Absent(kids, perms)[k].key, Absent(kids, perms)[k].value)
  {
    IndentedIs(kids, n, indent);
    EndsAtIs(kids, front, tail);
    FixedLines(kids, perms, front, tail);
    hide Fixed, FixedLine, Missing, Absent, Regranted, Indented, EndsAt, ContentEnd, ChildIndent;
    now, more := Fixed(kids, perms)[..|front|], Missing(kids, perms, indent);
    MissingIs(kids, perms, indent);
  }

  lemma {:induction false} FixedLines(kids: seq<Line>, perms: seq<Permission>, front: seq<Line>, tail: seq<Line>)
    requires Required(perms) && EndsAt(kids, front, tail)
    ensures forall i :: 0 <= i < |front| ==> Regranted(kids, perms, i, Fixed(kids, perms)[i])
    ensures Fixed(kids, perms)[|front|..] == tail
  {
    hide Regranted, FixedLine;
    var fixed := Fixed(kids, perms);
    forall i | 0 <= i < |kids|
      ensures Regranted(kids, perms, i, fixed[i]) && (kids[i].skip ==> fixed[i] == kids[i])
    {
      LineIsRegranted(kids, perms, i);
    }
    forall j | 0 <= j < |tail|
      ensures fixed[|front| + j] == tail[j]
    {
      assert kids[|front| + j] == tail[j] && tail[j] in tail;
    }
    assert fixed[|front|..] == tail;
  }

  lemma {:induction false} LineIsRegranted(kids: seq<Line>, perms: seq<Permission>, i: nat)
    requires Required(perms) && i < |kids|
    ensures Regranted(kids, perms, i, FixedLine(kids, perms, i))
    ensures kids[i].skip ==> FixedLine(kids, perms, i) == kids[i]
  {
    FixedLineReads(kids, perms, i);
    forall p | p in perms
      ensures LastNamed(kids, i, p.key) <==> LastOf(kids, p.key) == i
    {
      LastNamedIs(kids, p.key);
    }
  }

  // ---------- Whole keys ----------

  /** The job has no child of this key. */
  predicate Lacks(job: Job, key: string) {
    forall line :: line in job.above + job.below ==> !Holds(line, job.child, key)
  }

  lemma LacksIs(job: Job, key: string)
    ensures Lacks(job, key) <==> Locate(job, key).Nowhere?
  {
    var all := job.above + job.below;
    assert forall i :: 0 <= i < |job.above| ==> all[i] == job.above[i] && all[i] in all;
    assert forall i :: 0 <= i < |job.below| ==> all[|job.above| + i] == job.below[i] && all[|job.above| + i] in all;
    assert forall line: Line :: Holds(line, job.child, key) <==> IsChild(line, job.child, key);
  }

  /** A job without permissions gets them right behind its uses line, as deep as its own lines are below its
      header. */
  lemma PermissionsAreAdded(job: Job, perms: seq<Permission>)
    requires Lacks(job, "permissions") && job.parent <= job.child
    ensures var now := RepairPermissions(job, perms);
            && now == job.(below := now.below) && |now.below| == 1 + |perms| + |job.below|
            && now.below[0] == OpeningLine(job.child, "permissions")
            && (forall i :: 0 <= i < |perms| ==>
                  now.below[1 + i] == EntryLine(2 * job.child - job.parent, perms[i].key, perms[i].value))
            && now.below[1 + |perms|..] == job.below
  {
    LacksIs(job, "permissions");
  }

  /** A job without secrets inherits them: one line more, behind the uses line and what documents it.  Any other job
      stays as it is. */
  lemma SecretsAreInherited(job: Job, notes: seq<Line>, rest: seq<Line>)
    requires job.below == notes + rest && AllSkip(notes) && (rest != [] ==> !rest[0].skip)
    ensures EnsureSecrets(job) ==
            if Lacks(job, "secrets") then job.(below := notes + [EntryLine(job.child, "secrets", "inherit")] + rest) else job
  {
    LacksIs(job, "secrets");
    assert forall j :: 0 <= j < |notes| ==> job.below[j] == notes[j] && notes[j] in notes;
    FirstContentUnique(job.below, |notes|);
    assert job.below[..|notes|] == notes && job.below[|notes|..] == rest;
  }

  /** A new with block stands right behind the uses line. */
  lemma WithIsAdded(job: Job, key: string, value: string)
    requires Lacks(job, "with") && Lacks(job, "permissions") && job.parent <= job.child
    ensures UpsertWith(job, key, value) ==
            job.(below := [OpeningLine(job.child, "with"), EntryLine(2 * job.child - job.parent, key, value)] + job.below)
  {
    LacksIs(job, "with");
    LacksIs(job, "permissions");
  }

  /** The lines around a key: `line` is the first child of that key, and `kids` is its block. */
  ghost predicate Around(lines: seq<Line>, n: nat, key: string, front: seq<Line>, line: Line, kids: seq<Line>,
                         rest: seq<Line>) {
    && lines == front + [line] + kids + rest && Holds(line, n, key)
    && (forall x :: x in front ==> !Holds(x, n, key))
    && (forall x :: x in kids ==> x.skip || x.indent > n)
    && (rest != [] ==> !rest[0].skip && rest[0].indent <= n)
  }

  lemma {:induction false} KeyStandsAt(lines: seq<Line>, n: nat, key: string, front: seq<Line>, line: Line,
                                       kids: seq<Line>, rest: seq<Line>)
    requires Around(lines, n, key, front, line, kids, rest)
    ensures FindChild(lines, n, key) == |front| < |lines| && lines[|front|] == line
    ensures Kids(lines, |front|, n) == kids && BlockEnd(lines, |front|, n) == |front| + 1 + |kids|
    ensures lines[..|front| + 1] == front + [line] && lines[|front| + 1 + |kids|..] == rest
    ensures lines[..|front| + 1 + |kids|] == front + [line] + kids
  {
    forall x | x in front
      ensures !IsChild(x, n, key)
    {
      assert !Holds(x, n, key);
    }
    assert lines[..|front|] == front;
    FindChildUnique(lines, n, key, |front|);
    KidsAre(front, line, kids, rest, n);
  }

  lemma {:induction false} NoneAbove(job: Job, key: string)
    requires forall x :: x in job.above ==> !Holds(x, job.child, key)
    ensures FindChild(job.above, job.child, key) == |job.above|
  {
    forall x | x in job.above
      ensures !IsChild(x, job.child, key)
    {
      assert !Holds(x, job.child, key);
    }
    assert job.above[..|job.above|] == job.above;
    FindChildUnique(job.above, job.child, key, |job.above|);
  }

  /** A new with block stands behind the permissions block if there is one below the uses line. */
  lemma WithStandsBehindPermissions(job: Job, front: seq<Line>, line: Line, kids: seq<Line>, rest: seq<Line>,
                                    key: string,
                                    value: string)
    requires Lacks(job, "with") && job.parent <= job.child && line.block
    requires Around(job.below, job.child, "permissions", front, line, kids, rest)
    requires forall x :: x in job.above ==> !Holds(x, job.child, "permissions")
    ensures UpsertWith(job, key, value) ==
            job.(below := front + [line] + kids
                          + [OpeningLine(job.child, "with"), EntryLine(2 * job.child - job.parent, key, value)] + rest)
  {
    LacksIs(job, "with");
    NoneAbove(job, "permissions");
    KeyStandsAt(job.below, job.child, "permissions", front, line, kids, rest);
    hide BlockEnd, FindChild;
  }

  /** A permissions block is repaired where it stands; permissions in another form are left alone. */
  lemma PermissionsAreRepaired(job: Job, front: seq<Line>, line: Line, kids: seq<Line>, rest: seq<Line>,
                               perms: seq<Permission>)
    ensures Around(job.above, job.child, "permissions", front, line, kids, rest) ==>
              RepairPermissions(job, perms) ==
              if line.block then job.(above := front + [line] + Repaired(kids, job.child, perms) + rest) else job
    ensures Around(job.below, job.child, "permissions", front, line, kids, rest) &&
            (forall x :: x in job.above ==> !Holds(x, job.child, "permissions")) ==>
              RepairPermissions(job, perms) ==
              if line.block then job.(below := front + [line] + Repaired(kids, job.child, perms) + rest) else job
  {
    hide Around, Holds, FindChild, Kids, Repaired;
    if Around(job.above, job.child, "permissions", front, line, kids, rest) {
      KeyStandsAt(job.above, job.child, "permissions", front, line, kids, rest);
    }
    if Around(job.below, job.child, "permissions", front, line, kids, rest)
       && forall x :: x in job.above ==> !Holds(x, job.child, "permissions") {
      NoneAbove(job, "permissions");
      KeyStandsAt(job.below, job.child, "permissions", front, line, kids, rest);
    }
  }

  /** An input is set in the with block where that stands; another form is left alone. */
  lemma InputIsSet(job: Job, front: seq<Line>, line: Line, kids: seq<Line>, rest: seq<Line>, key: string, value: string)
    ensures Around(job.above, job.child, "with", front, line, kids, rest) ==>
              UpsertWith(job, key, value) ==
              if line.block then job.(above := front + [line] + Upsert(kids, job.child, key, value) + rest) else job
    ensures Around(job.below, job.child, "with", front, line, kids, rest) &&
            (forall x :: x in job.above ==> !Holds(x, job.child, "with")) ==>
              UpsertWith(job, key, value) ==
              if line.block then job.(below := front + [line] + Upsert(kids, job.child, key, value) + rest) else job
  {
    hide Around, Holds, FindChild, Kids, Upsert;
    if Around(job.above, job.child, "with", front, line, kids, rest) {
      KeyStandsAt(job.above, job.child, "with", front, line, kids, rest);
    }
    if Around(job.below, job.child, "with", front, line, kids, rest)
       && forall x :: x in job.above ==> !Holds(x, job.child, "with") {
      NoneAbove(job, "with");
      KeyStandsAt(job.below, job.child, "with", front, line, kids, rest);
    }
  }

  /** The inputs of a job are the entries of its with block; a job without one has none, and another form cannot
      be read. */
  lemma InputsAreRead(job: Job, front: seq<Line>, line: Line, kids: seq<Line>, rest: seq<Line>)
    ensures Lacks(job, "with") ==> WithEntries(job) == Some(map[])
    ensures Around(job.above, job.child, "with", front, line, kids, rest) ==>
              WithEntries(job) == if line.block then Some(Entries(kids, job.child)) else None
    ensures Around(job.below, job.child, "with", front, line, kids, rest) &&
            (forall x :: x in job.above ==> !Holds(x, job.child, "with")) ==>
              WithEntries(job) == if line.block then Some(Entries(kids, job.child)) else None
  {
    LacksIs(job, "with");
    hide Around, Holds, FindChild, Kids, Entries, Lacks;
    if Around(job.above, job.child, "with", front, line, kids, rest) {
      KeyStandsAt(job.above, job.child, "with", front, line, kids, rest);
    }
    if Around(job.below, job.child, "with", front, line, kids, rest)
       && forall x :: x in job.above ==> !Holds(x, job.child, "with") {
      NoneAbove(job, "with");
      KeyStandsAt(job.below, job.child, "with", front, line, kids, rest);
    }
  }
}
