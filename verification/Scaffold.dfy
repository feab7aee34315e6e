/** The line editing of scaffold.go as it runs, with its loops and indices, proved against the
    specification on jobs.  A line carries what `leadingSpaceCount`, `isBlankOrCommentLine` and
    `strings.Cut` read off its text. */
module Scaffold {
  import opened WorkflowLine
  import opened WorkflowBlock
  import opened WorkflowPermissions
  import opened WorkflowJob
  import opened WorkflowText

  // ---------- Searching ----------

  method LeadingSpaceCount(line: string) returns (count: nat)
    ensures count == Indent(line)
  {
    count := 0;
    while count < |line| && line[count] == ' '
      invariant count <= |line|
      invariant Indent(line) == count + Indent(line[count..])
    {
      count := count + 1;
    }
  }

  method JobHeaderIndexAbove(lines: seq<Line>, from: nat, childIndent: nat) returns (h: int)
    requires from <= |lines|
    ensures h == HeaderAbove(lines, from, childIndent)
  {
    h := from - 1;
    while h >= 0
      invariant -1 <= h < from
      invariant forall i :: h < i < from ==> lines[i].skip || lines[i].indent >= childIndent
    {
      if !lines[h].skip && lines[h].indent < childIndent {
        break;
      }
      h := h - 1;
    }
  }

  method JobBodyEndIndex(lines: seq<Line>, from: nat, jobIndent: nat) returns (e: nat)
    requires from < |lines|
    ensures e == BodyEnd(lines, from, jobIndent)
  {
    e := from + 1;
    while e < |lines|
      invariant from < e <= |lines|
      invariant forall i :: from < i < e ==> !Ends(lines[i], jobIndent)
    {
      if !lines[e].skip && lines[e].indent <= jobIndent {
        break;
      }
      e := e + 1;
    }
  }

  method JobChildKeyLineIndex(lines: seq<Line>, start: nat, end: nat, childIndent: nat,
                              wantKey: string) returns (at: int)
    requires start <= end <= |lines|
    ensures at == -1 || start <= at < end
    ensures at >= 0 ==> IsChild(lines[at], childIndent, wantKey)
    ensures forall i :: start <= i < (if at < 0 then end else at) ==> !IsChild(lines[i], childIndent, wantKey)
  {
    at := start;
    while at < end
      invariant start <= at <= end
      invariant forall i :: start <= i < at ==> !IsChild(lines[i], childIndent, wantKey)
    {
      if IsChild(lines[at], childIndent, wantKey) {
        return;
      }
      at := at + 1;
    }
    at := -1;
  }

  method BlockEndIndex(lines: seq<Line>, blockIndex: nat, jobEnd: nat, parentIndent: nat) returns (index: nat)
    requires blockIndex < jobEnd <= |lines|
    ensures index <= jobEnd && index == blockIndex + 1 + |BlockKids(lines, blockIndex, jobEnd, parentIndent)|
  {
    index := blockIndex + 1;
    while index < jobEnd
      invariant blockIndex + 1 <= index <= jobEnd
      invariant forall i :: blockIndex < i < index ==> !Ends(lines[i], parentIndent)
    {
      if !lines[index].skip && lines[index].indent <= parentIndent {
        break;
      }
      index := index + 1;
    }
    KidsEndUnique(lines[blockIndex + 1..jobEnd], parentIndent, index - blockIndex - 1);
  }

  method AllUsesLineIndices(lines: seq<Line>) returns (indices: seq<nat>)
    ensures indices == CallsFrom(lines, 0)
  {
    indices := [];
    for index := 0 to |lines|
      invariant CallsFrom(lines, 0) == indices + CallsFrom(lines, index)
    {
      if lines[index].calls {
        indices := indices + [index];
      }
    }
  }

  // ---------- Setting one entry of a block ----------

  /** What a loop over a block knows of the part `done`. */
  ghost predicate Scanned(done: seq<Line>, n: nat, childIndent: int) {
    && AllKids(done, n)
    && (childIndent < 0 <==> FirstContent(done) == |done|)
    && (childIndent >= 0 ==> childIndent == done[FirstContent(done)].indent)
  }

  lemma {:induction false} ScanStep(done: seq<Line>, line: Line, n: nat, childIndent: int)
    requires Scanned(done, n, childIndent) && !Ends(line, n)
    ensures Scanned(done + [line], n, if line.skip || childIndent >= 0 then childIndent else line.indent)
    ensures ContentEnd(done + [line]) == if line.skip then ContentEnd(done) else |done| + 1
  {
    var now := done + [line];
    FirstContentUnique(now, if childIndent >= 0 then FirstContent(done) else if line.skip then |now| else |done|);
    assert now[..|now| - 1] == done;
  }

  function BlockKids(lines: seq<Line>, blockIndex: nat, jobEnd: nat, n: nat): seq<Line>
    requires blockIndex < jobEnd <= |lines|
  {
    lines[blockIndex + 1..jobEnd][..KidsEnd(lines[blockIndex + 1..jobEnd], n)]
  }

  /** The lines with the block below `blockIndex` replaced. */
  function BlockReplaced(lines: seq<Line>, blockIndex: nat, jobEnd: nat, n: nat, kids: seq<Line>): seq<Line>
    requires blockIndex < jobEnd <= |lines|
  {
    lines[..blockIndex + 1] + kids + lines[blockIndex + 1 + |BlockKids(lines, blockIndex, jobEnd, n)|..]
  }

  lemma ScannedKids(lines: seq<Line>, blockIndex: nat, jobEnd: nat, index: nat, n: nat, childIndent: int)
    requires blockIndex < index <= jobEnd <= |lines| && Scanned(lines[blockIndex + 1..index], n, childIndent)
    requires index < jobEnd ==> Ends(lines[index], n)
    ensures BlockKids(lines, blockIndex, jobEnd, n) == lines[blockIndex + 1..index]
    ensures ChildIndent(lines[blockIndex + 1..index], n) == if childIndent < 0 then n + 2 else childIndent
  {
    var body, done := lines[blockIndex + 1..jobEnd], lines[blockIndex + 1..index];
    var k := index - blockIndex - 1;
    forall j | 0 <= j < k
      ensures !Ends(body[j], n)
    {
      assert body[j] == done[j];
      assert done[j] in done;
    }
    KidsEndUnique(body, n, k);
    assert body[..k] == done;
  }

  lemma SliceSnoc(lines: seq<Line>, i: nat, j: nat)
    requires i <= j < |lines|
    ensures lines[i..j + 1] == lines[i..j] + [lines[j]]
  {
  }

  /** What the loop over a block knows at `index`: the key is not among the lines behind it, and `at`
      is behind their last content. */
  ghost predicate Finding(lines: seq<Line>, blockIndex: nat, index: nat, n: nat, childIndent: int, key: string,
                          at: nat) {
    && blockIndex < index <= |lines| && blockIndex < at && childIndent >= -1
    && var done := lines[blockIndex + 1..index];
    && Scanned(done, n, childIndent) && at - blockIndex - 1 == ContentEnd(done)
    && (childIndent >= 0 ==> forall i :: 0 <= i < |done| ==> !IsEntryOf(done[i], childIndent, key))
  }

  lemma FindingStart(lines: seq<Line>, blockIndex: nat, n: nat, key: string)
    requires blockIndex < |lines|
    ensures Finding(lines, blockIndex, blockIndex + 1, n, -1, key, blockIndex + 1)
  {
  }

  lemma FindingMore(lines: seq<Line>, blockIndex: nat, index: nat, n: nat, before: int, childIndent: int, key: string,
                    at: nat, now: nat)
    requires Finding(lines, blockIndex, index, n, before, key, at) && index < |lines|
    requires !Ends(lines[index], n) && (childIndent >= 0 ==> !IsEntryOf(lines[index], childIndent, key))
    requires childIndent == if lines[index].skip || before >= 0 then before else lines[index].indent
    requires now == if lines[index].skip then at else index + 1
    ensures Finding(lines, blockIndex, index + 1, n, childIndent, key, now)
  {
    SliceSnoc(lines, blockIndex + 1, index);
    ScanStep(lines[blockIndex + 1..index], lines[index], n, before);
  }

  /** The lines that the loop has gone through are the front of the block. */
  lemma FrontOfBlock(lines: seq<Line>, blockIndex: nat, jobEnd: nat, index: nat, n: nat)
    requires blockIndex < index < jobEnd <= |lines|
    requires AllKids(lines[blockIndex + 1..index], n) && !Ends(lines[index], n)
    ensures lines[blockIndex + 1..index] + [lines[index]] <= BlockKids(lines, blockIndex, jobEnd, n)
  {
    var body, done := lines[blockIndex + 1..jobEnd], lines[blockIndex + 1..index];
    var k := index - blockIndex - 1;
    assert body[..k + 1] == done + [lines[index]];
    forall j | 0 <= j <= k
      ensures !Ends(body[j], n)
    {
      if j < k {
        assert body[j] == done[j] && done[j] in done;
      }
    }
    assert KidsEnd(body, n) > k;
  }

  /** The loop is at the entry. */
  lemma {:induction false} FindingEntry(lines: seq<Line>, blockIndex: nat, jobEnd: nat, index: nat, n: nat,
                                        before: int, key: string, at: nat)
    requires Finding(lines, blockIndex, index, n, before, key, at) && index < jobEnd <= |lines|
    requires !Ends(lines[index], n) && IsEntryOf(lines[index], if before >= 0 then before else lines[index].indent, key)
    ensures var kids, indent := BlockKids(lines, blockIndex, jobEnd, n), lines[index].indent;
            ChildIndent(kids, n) == indent && index - blockIndex - 1 == FindEntry(kids, indent, key) < |kids|
  {
    var kids, done := BlockKids(lines, blockIndex, jobEnd, n), lines[blockIndex + 1..index];
    ScanStep(done, lines[index], n, before);
    FrontOfBlock(lines, blockIndex, jobEnd, index, n);
    forall j | 0 <= j < |done|
      ensures !IsEntryOf(kids[j], lines[index].indent, key)
    {
      assert kids[j] == (done + [lines[index]])[j] == done[j];
    }
    FindEntryUnique(kids, lines[index].indent, key, |done|);
  }

  /** The loop is at the end of the block. */
  lemma {:induction false} FindingDone(lines: seq<Line>, blockIndex: nat, jobEnd: nat, index: nat, n: nat,
                                       childIndent: int, key: string, at: nat)
    requires Finding(lines, blockIndex, index, n, childIndent, key, at) && index <= jobEnd <= |lines|
    requires index < jobEnd ==> Ends(lines[index], n)
    ensures var kids, indent := BlockKids(lines, blockIndex, jobEnd, n), if childIndent < 0 then n + 2 else childIndent;
            ChildIndent(kids, n) == indent && FindEntry(kids, indent, key) == |kids| && at - blockIndex - 1 == ContentEnd(kids)
  {
    ScannedKids(lines, blockIndex, jobEnd, index, n, childIndent);
    var done := lines[blockIndex + 1..index];
    FindEntryUnique(done, ChildIndent(done, n), key, |done|);
  }

  /** The loop of insertOrUpdateBlockEntryLines: finds the line of the key, or where a new line
      goes and how deep it is. */
  method FindBlockEntry(lines: seq<Line>, blockIndex: nat, jobEnd: nat, parentIndent: nat, key: string)
    returns (found: bool, at: nat, childIndent: int)
    requires blockIndex < jobEnd <= |lines|
    ensures var kids := BlockKids(lines, blockIndex, jobEnd, parentIndent);
            && blockIndex < at && childIndent == ChildIndent(kids, parentIndent)
            && (if found then at - blockIndex - 1 == FindEntry(kids, childIndent, key) < |kids|
                else FindEntry(kids, childIndent, key) == |kids| && at - blockIndex - 1 == ContentEnd(kids))
  {
    hide Finding, BlockKids, FindEntry, ChildIndent, ContentEnd;
    childIndent := -1;
    at := blockIndex + 1;
    var index := blockIndex + 1;
    FindingStart(lines, blockIndex, parentIndent, key);
    while index < jobEnd
      invariant blockIndex < index <= jobEnd && blockIndex < at && childIndent >= -1
      invariant Finding(lines, blockIndex, index, parentIndent, childIndent, key, at)
    {
      ghost var before, end := childIndent, at;
      if lines[index].skip {
        FindingMore(lines, blockIndex, index, parentIndent, before, childIndent, key, end, at);
        index := index + 1;
        continue;
      }
      var indent := lines[index].indent;
      if indent <= parentIndent {
        break;
      }
      if childIndent < 0 {
        childIndent := indent;
      }
      at := index + 1;
      if indent == childIndent && lines[index].name == key {
        FindingEntry(lines, blockIndex, jobEnd, index, parentIndent, before, key, end);
        return true, index, indent;
      }
      FindingMore(lines, blockIndex, index, parentIndent, before, childIndent, key, end, at);
      index := index + 1;
    }
    FindingDone(lines, blockIndex, jobEnd, index, parentIndent, childIndent, key, at);
    if childIndent < 0 {
      childIndent := parentIndent + 2;
    }
    found := false;
  }

  /** The entry in place of line `at`, or in front of it. */
  lemma EntryPlaced(lines: seq<Line>, blockIndex: nat, jobEnd: nat, n: nat, found: bool, at: nat, indent: nat,
                    key: string, value: string)
      returns (updated: seq<Line>)
    requires blockIndex < jobEnd <= |lines| && blockIndex < at
    requires var kids := BlockKids(lines, blockIndex, jobEnd, n);
             && indent == ChildIndent(kids, n)
             && (if found then at - blockIndex - 1 == FindEntry(kids, indent, key) < |kids|
                 else FindEntry(kids, indent, key) == |kids| && at - blockIndex - 1 == ContentEnd(kids))
    ensures at <= |lines| && (found ==> at < |lines|)
    ensures var entry := EntryLine(indent, key, value);
            updated == if found then lines[at := entry] else lines[..at] + [entry] + lines[at..]
    ensures updated == BlockReplaced(lines, blockIndex, jobEnd, n, Upsert(BlockKids(lines, blockIndex, jobEnd, n), n, key, value))
  {
    hide EntryLine, FindEntry, ContentEnd, ChildIndent, BlockKids;
    var rest := BlockParts(lines, blockIndex, jobEnd, n);
    var kids, front := BlockKids(lines, blockIndex, jobEnd, n), lines[..blockIndex + 1];
    var entry := EntryLine(indent, key, value);
    var i := at - blockIndex - 1;
    if found {
      updated := lines[at := entry];
      assert updated == front + kids[i := entry] + rest;
    } else {
      updated := lines[..at] + [entry] + lines[at..];
      InsertInMiddle(lines, front, kids, rest, i, at, [entry]);
    }
  }

  method InsertOrUpdateBlockEntryLines(lines: seq<Line>, blockIndex: nat, jobEnd: nat, parentIndent: nat,
                                       key: string, value: string)
    returns (updated: seq<Line>, did: bool)
    requires blockIndex < jobEnd <= |lines|
    ensures updated == BlockReplaced(lines, blockIndex, jobEnd, parentIndent,
                                     Upsert(BlockKids(lines, blockIndex, jobEnd, parentIndent), parentIndent, key, value))
    ensures (did <==> updated != lines) && |updated| >= |lines|
  {
    hide EntryLine, FindEntry, ContentEnd, ChildIndent, BlockKids, BlockReplaced, Upsert;
    var found, at, childIndent := FindBlockEntry(lines, blockIndex, jobEnd, parentIndent, key);
    var entry := EntryLine(childIndent, key, value);
    ghost var placed := EntryPlaced(lines, blockIndex, jobEnd, parentIndent, found, at, childIndent, key, value);
    if found {
      updated := lines[at := entry];
      did := lines[at] != entry;
    } else {
      updated := lines[..at] + [entry] + lines[at..];
      did := true;
    }
  }

  lemma BlockParts(lines: seq<Line>, blockIndex: nat, jobEnd: nat, n: nat) returns (rest: seq<Line>)
    requires blockIndex < jobEnd <= |lines|
    ensures lines == lines[..blockIndex + 1] + BlockKids(lines, blockIndex, jobEnd, n) + rest
    ensures rest == lines[blockIndex + 1 + |BlockKids(lines, blockIndex, jobEnd, n)|..]
  {
    rest := lines[blockIndex + 1 + |BlockKids(lines, blockIndex, jobEnd, n)|..];
  }

  lemma InsertInMiddle(lines: seq<Line>, a: seq<Line>, kids: seq<Line>, rest: seq<Line>, i: nat, at: nat,
                       block: seq<Line>)
    requires lines == a + kids + rest && i <= |kids| && at == |a| + i
    ensures lines[..at] + block + lines[at..] == a + Inserted(kids, i, block) + rest
    ensures |lines[..at] + block + lines[at..]| == |lines| + |block|
    ensures block == [] ==> lines[..at] + block + lines[at..] == lines
  {
    assert lines[..at] == a + kids[..i];
    assert lines[at..] == kids[i..] + rest;
  }

  // ---------- Completing a permissions block ----------

  /** The map of the last line of every key. */
  ghost predicate LastLines(present: map<string, nat>, done: seq<Line>, first: nat) {
    forall key :: (key in present <==> LastOf(done, key) >= 0) && (key in present ==> present[key] == first + LastOf(done, key))
  }

  lemma {:induction false} FixedLineSnoc(kids: seq<Line>, perms: seq<Permission>, p: Permission, i: nat)
    requires i < |kids| && Required(perms + [p])
    ensures FixedLine(kids, perms + [p], i) ==
            if LastOf(kids, p.key) == i then Grant(kids[i].indent, p) else FixedLine(kids, perms, i)
  {
    if perms == [] {
      assert perms + [p] == [p];
      assert [p][1..] == [];
    } else {
      assert (perms + [p])[1..] == perms[1..] + [p];
      assert (perms + [p])[0] == perms[0];
      assert Required(perms[1..] + [p]) by {
        assert forall j :: 0 <= j < |perms| ==> (perms[1..] + [p])[j] == (perms + [p])[j + 1];
      }
      assert (perms + [p])[|perms|] == p;
      FixedLineSnoc(kids, perms[1..], p, i);
    }
  }

  lemma {:induction false} MissingSnoc(kids: seq<Line>, perms: seq<Permission>, p: Permission, indent: nat)
    ensures Missing(kids, perms + [p], indent) ==
            Missing(kids, perms, indent) + (if LastOf(kids, p.key) < 0 then [Grant(indent, p)] else [])
  {
    var more := perms + [p];
    if perms == [] {
      assert more[0] == p && more[1..] == [];
    } else {
      assert more[0] == perms[0] && more[1..] == perms[1..] + [p];
      MissingSnoc(kids, perms[1..], p, indent);
    }
  }

  lemma RequiredPrefix(perms: seq<Permission>, i: nat)
    requires Required(perms) && i < |perms|
    ensures perms[..i + 1] == perms[..i] + [perms[i]] && Required(perms[..i]) && Required(perms[..i] + [perms[i]])
  {
  }

  /** The block with the grants of the first permissions rewritten. */
  ghost predicate Rewritten(updated: seq<Line>, lines: seq<Line>, first: nat, kids: seq<Line>, perms: seq<Permission>) {
    && |updated| == |lines| && first + |kids| <= |lines|
    && (forall j :: 0 <= j < |lines| ==>
          updated[j] == if first <= j < first + |kids| then FixedLine(kids, perms, j - first) else lines[j])
  }

  lemma {:induction false} FixedLines(kids: seq<Line>, perms: seq<Permission>, p: Permission)
    requires Required(perms + [p])
    ensures forall j :: 0 <= j < |kids| ==>
              FixedLine(kids, perms + [p], j) ==
              if LastOf(kids, p.key) == j then Grant(kids[j].indent, p) else FixedLine(kids, perms, j)
  {
    forall j | 0 <= j < |kids|
      ensures FixedLine(kids, perms + [p], j) ==
              if LastOf(kids, p.key) == j then Grant(kids[j].indent, p) else FixedLine(kids, perms, j)
    {
      FixedLineSnoc(kids, perms, p, j);
    }
  }

  /** The line of a permission is as it was while only other permissions have been corrected. */
  lemma {:induction false} LineOfPermission(updated: seq<Line>, lines: seq<Line>, first: nat, kids: seq<Line>,
                         perms: seq<Permission>, p: Permission, index: nat)
    requires Rewritten(updated, lines, first, kids, perms) && kids == lines[first..first + |kids|]
    requires Required(perms) && Required(perms + [p]) && LastOf(kids, p.key) >= 0
    requires index == first + LastOf(kids, p.key)
    ensures updated[index] == lines[index] == kids[index - first]
  {
    var i := index - first;
    FixedLineReads(kids, perms, i);
    forall q | q in perms
      ensures LastOf(kids, q.key) != i
    {
      var a :| 0 <= a < |perms| && perms[a] == q;
      assert (perms + [p])[a].key != (perms + [p])[|perms|].key;
    }
  }

  lemma {:induction false} RewrittenStep(updated: seq<Line>, now: seq<Line>, lines: seq<Line>, first: nat,
                                         kids: seq<Line>,
                      perms: seq<Permission>, p: Permission, at: int)
    requires Rewritten(updated, lines, first, kids, perms) && Required(perms + [p]) && at == LastOf(kids, p.key)
    requires now == if at < 0 then updated else updated[first + at := Grant(kids[at].indent, p)]
    ensures Rewritten(now, lines, first, kids, perms + [p])
  {
    FixedLines(kids, perms, p);
    forall j | 0 <= j < |lines|
      ensures now[j] == if first <= j < first + |kids| then FixedLine(kids, perms + [p], j - first) else lines[j]
    {
    }
  }

  lemma RewrittenStart(lines: seq<Line>, first: nat, kids: seq<Line>)
    requires first + |kids| <= |lines| && kids == lines[first..first + |kids|]
    ensures Rewritten(lines, lines, first, kids, [])
  {
  }

  /** Where the line of a permission stands, if it has one. */
  lemma {:induction false} PresentLine(present: map<string, nat>, lines: seq<Line>, updated: seq<Line>, first: nat,
                                       kids: seq<Line>,
                                       perms: seq<Permission>, p: Permission)
    requires LastLines(present, kids, first) && Rewritten(updated, lines, first, kids, perms)
    ensures |updated| == |lines| && (p.key in present <==> LastOf(kids, p.key) >= 0)
    ensures p.key in present ==> present[p.key] == first + LastOf(kids, p.key) < |lines|
  {
  }

  method RewritePresent(lines: seq<Line>, first: nat, present: map<string, nat>, perms: seq<Permission>,
                        ghost kids: seq<Line>)
    returns (updated: seq<Line>, changed: bool)
    requires Required(perms) && first + |kids| <= |lines| && kids == lines[first..first + |kids|]
    requires LastLines(present, kids, first)
    ensures Rewritten(updated, lines, first, kids, perms)
    ensures changed <==> updated != lines
  {
    hide Rewritten, LastLines, Required, LastOf, Grant;
    updated, changed := lines, false;
    RewrittenStart(lines, first, kids);
    assert perms[..0] == [];
    for i := 0 to |perms|
      invariant Rewritten(updated, lines, first, kids, perms[..i])
      invariant changed <==> updated != lines
    {
      var p := perms[i];
      RequiredPrefix(perms, i);
      PresentLine(present, lines, updated, first, kids, perms[..i], p);
      ghost var was := updated;
      if p.key in present {
        var index := present[p.key];
        LineOfPermission(updated, lines, first, kids, perms[..i], p, index);
        var corrected := EntryLine(updated[index].indent, p.key, p.value);
        GrantIs(kids[index - first].indent, p);
        if updated[index] != corrected {
          updated := updated[index := corrected];
          changed := true;
        }
        assert updated == was[index := corrected];
      }
      RewrittenStep(was, updated, lines, first, kids, perms[..i], p, LastOf(kids, p.key));
    }
    assert perms[..|perms|] == perms;
  }

  lemma GrantIs(n: nat, p: Permission)
    ensures Grant(n, p) == EntryLine(n, p.key, p.value)
  {
  }

  method CollectMissing(present: map<string, nat>, perms: seq<Permission>, childIndent: nat, ghost kids: seq<Line>,
                        ghost first: nat)
    returns (insertions: seq<Line>)
    requires LastLines(present, kids, first)
    ensures insertions == Missing(kids, perms, childIndent)
  {
    insertions := [];
    for i := 0 to |perms|
      invariant insertions == Missing(kids, perms[..i], childIndent)
    {
      assert perms[..i + 1] == perms[..i] + [perms[i]];
      MissingSnoc(kids, perms[..i], perms[i], childIndent);
      if perms[i].key !in present {
        insertions := insertions + [EntryLine(childIndent, perms[i].key, perms[i].value)];
      }
    }
    assert perms[..|perms|] == perms;
  }

  /** The line of every key, a later one in place of an earlier one. */
  function PresentIn(done: seq<Line>, first: nat): map<string, nat> {
    if done == [] then map[]
    else
      var n := |done| - 1;
      var before := PresentIn(done[..n], first);
      if done[n].skip then before else before[done[n].name := first + n]
  }

  lemma {:induction false} PresentAreLast(done: seq<Line>, first: nat)
    ensures LastLines(PresentIn(done, first), done, first)
    decreases |done|
  {
    if done != [] {
      var n := |done| - 1;
      PresentAreLast(done[..n], first);
      assert done == done[..n] + [done[n]];
    }
  }

  /** What the first loop of insertMissingPermissionsLines knows of the part `done`. */
  ghost predicate Collecting(done: seq<Line>, first: nat, n: nat, childIndent: int, present: map<string, nat>,
                             end: nat) {
    Scanned(done, n, childIndent) && present == PresentIn(done, first) && end == ContentEnd(done)
  }

  lemma CollectingStart(lines: seq<Line>, first: nat, n: nat)
    requires first <= |lines|
    ensures Collecting(lines[first..first], first, n, -1, map[], 0)
  {
  }

  lemma {:induction false} CollectingDone(lines: seq<Line>, blockIndex: nat, jobEnd: nat, index: nat, n: nat,
                                          childIndent: int, present: map<string, nat>, end: nat)
    requires blockIndex < index <= jobEnd <= |lines|
    requires Collecting(lines[blockIndex + 1..index], blockIndex + 1, n, childIndent, present, end)
    requires index < jobEnd ==> Ends(lines[index], n)
    ensures var kids := BlockKids(lines, blockIndex, jobEnd, n);
            && present == PresentIn(kids, blockIndex + 1) && end == ContentEnd(kids)
            && ChildIndent(kids, n) == if childIndent < 0 then n + 2 else childIndent
  {
    ScannedKids(lines, blockIndex, jobEnd, index, n, childIndent);
  }

  lemma CollectingSkip(done: seq<Line>, line: Line, now: seq<Line>, first: nat, n: nat, childIndent: int,
                       present: map<string, nat>, end: nat)
    requires now == done + [line]
    requires Collecting(done, first, n, childIndent, present, end) && line.skip
    ensures Collecting(now, first, n, childIndent, present, end)
  {
    ScanStep(done, line, n, childIndent);
    assert now[..|done|] == done;
  }

  lemma CollectingContent(done: seq<Line>, line: Line, now: seq<Line>, first: nat, n: nat, childIndent: int,
                          present: map<string, nat>, end: nat)
    requires now == done + [line]
    requires Collecting(done, first, n, childIndent, present, end) && !line.skip && !Ends(line, n)
    ensures Collecting(now, first, n, if childIndent < 0 then line.indent else childIndent,
                       present[line.name := first + |done|], |done| + 1)
  {
    ScanStep(done, line, n, childIndent);
    assert now[..|done|] == done;
  }

  /** One line of the block. */
  method CollectLine(line: Line, index: nat, n: nat, present: map<string, nat>, childIndent: int, lastChild: nat,
                     ghost done: seq<Line>, ghost now: seq<Line>, ghost first: nat)
    returns (presentNow: map<string, nat>, indentNow: int, lastNow: nat)
    requires now == done + [line] && index == first + |done| && first > 0 && lastChild + 1 >= first
    requires Collecting(done, first, n, childIndent, present, lastChild + 1 - first) && !Ends(line, n)
    ensures lastNow + 1 >= first && Collecting(now, first, n, indentNow, presentNow, lastNow + 1 - first)
  {
    presentNow, indentNow, lastNow := present, childIndent, lastChild;
    if line.skip {
      CollectingSkip(done, line, now, first, n, childIndent, present, lastChild + 1 - first);
      return;
    }
    CollectingContent(done, line, now, first, n, childIndent, present, lastChild + 1 - first);
    if indentNow < 0 {
      indentNow := line.indent;
    }
    presentNow := present[line.name := index];
    lastNow := index;
  }

  /** The first loop of insertMissingPermissionsLines. */
  method CollectPresent(lines: seq<Line>, permissionsIndex: nat, jobEnd: nat, jobChildIndent: nat)
    returns (present: map<string, nat>, childIndent: int, lastChildIndex: nat)
    requires permissionsIndex < jobEnd <= |lines|
    ensures var kids := BlockKids(lines, permissionsIndex, jobEnd, jobChildIndent);
            && present == PresentIn(kids, permissionsIndex + 1)
            && childIndent == ChildIndent(kids, jobChildIndent)
            && lastChildIndex == permissionsIndex + ContentEnd(kids)
  {
    hide Collecting, BlockKids, PresentIn, ChildIndent, ContentEnd;
    present := map[];
    childIndent := -1;
    lastChildIndex := permissionsIndex;
    var index := permissionsIndex + 1;
    ghost var first := permissionsIndex + 1;
    CollectingStart(lines, first, jobChildIndent);
    while index < jobEnd
      invariant permissionsIndex < index <= jobEnd && lastChildIndex + 1 >= first
      invariant Collecting(lines[first..index], first, jobChildIndent, childIndent, present, lastChildIndex + 1 - first)
    {
      if !lines[index].skip && lines[index].indent <= jobChildIndent {
        break;
      }
      SliceSnoc(lines, first, index);
      present, childIndent, lastChildIndex := CollectLine(lines[index], index, jobChildIndent, present, childIndent, lastChildIndex,
                                                          lines[first..index], lines[first..index + 1], first);
      index := index + 1;
    }
    CollectingDone(lines, permissionsIndex, jobEnd, index, jobChildIndent, childIndent, present,
                   lastChildIndex + 1 - first);
    if childIndent < 0 {
      childIndent := jobChildIndent + 2;
    }
  }

  /** The rest of insertMissingPermissionsLines: rewrites present grants and inserts missing ones. */
  method CompleteBlock(lines: seq<Line>, first: nat, present: map<string, nat>, childIndent: nat, insertAt: nat,
                       perms: seq<Permission>, ghost a: seq<Line>, ghost kids: seq<Line>, ghost rest: seq<Line>)
    returns (result: seq<Line>, changed: bool)
    requires Required(perms) && lines == a + kids + rest && |a| == first
    requires LastLines(present, kids, first) && insertAt == first + ContentEnd(kids)
    ensures result == a + Inserted(Fixed(kids, perms), ContentEnd(kids), Missing(kids, perms, childIndent)) + rest
    ensures (changed <==> result != lines) && |result| >= |lines|
  {
    var updated;
    updated, changed := RewritePresent(lines, first, present, perms, kids);
    var insertions := CollectMissing(present, perms, childIndent, kids, first);
    assert |updated| == |lines| && insertAt <= |updated|;
    result := updated[..insertAt] + insertions + updated[insertAt..];
    ghost var fixed := Fixed(kids, perms);
    assert updated == a + fixed + rest by {
      RewrittenParts(updated, lines, a, kids, rest, perms);
    }
    InsertInMiddle(updated, a, fixed, rest, ContentEnd(kids), insertAt, insertions);
    if |insertions| != 0 {
      changed := true;
    }
  }

  method InsertMissingPermissionsLines(lines: seq<Line>, permissionsIndex: nat, jobEnd: nat, jobChildIndent: nat,
                                       perms: seq<Permission>)
    returns (result: seq<Line>, changed: bool)
    requires permissionsIndex < jobEnd <= |lines| && Required(perms)
    ensures result == BlockReplaced(lines, permissionsIndex, jobEnd, jobChildIndent,
                                    Repaired(BlockKids(lines, permissionsIndex, jobEnd, jobChildIndent), jobChildIndent, perms))
    ensures (changed <==> result != lines) && |result| >= |lines|
  {
    var present, childIndent, lastChildIndex := CollectPresent(lines, permissionsIndex, jobEnd, jobChildIndent);
    PresentAreLast(BlockKids(lines, permissionsIndex, jobEnd, jobChildIndent), permissionsIndex + 1);
    var rest := BlockParts(lines, permissionsIndex, jobEnd, jobChildIndent);
    result, changed := CompleteBlock(lines, permissionsIndex + 1, present, childIndent, lastChildIndex + 1, perms,
                                     lines[..permissionsIndex + 1],
                                     BlockKids(lines, permissionsIndex, jobEnd, jobChildIndent), rest);
  }

  lemma RewrittenParts(updated: seq<Line>, lines: seq<Line>, a: seq<Line>, kids: seq<Line>, rest: seq<Line>,
                       perms: seq<Permission>)
    requires lines == a + kids + rest && Rewritten(updated, lines, |a|, kids, perms)
    ensures updated == a + Fixed(kids, perms) + rest
  {
  }

  // ---------- The job around a uses line ----------

  /** The lines of a file around one job. */
  lemma JobParts(lines: seq<Line>, h: nat, u: nat, e: nat) returns (a: seq<Line>, r: seq<Line>)
    requires h < u < |lines| && e == BodyEnd(lines, u, lines[h].indent)
    ensures var job := JobAt(lines, h, u);
            && lines == a + job.above + [job.uses] + job.below + r
            && a == lines[..h + 1] && r == lines[e..]
            && |job.above| == u - h - 1 && |job.below| == e - u - 1
  {
    a, r := lines[..h + 1], lines[e..];
    assert a + lines[h + 1..u] == lines[..u];
    assert lines[..u] + [lines[u]] == lines[..u + 1];
    assert lines[..u + 1] + lines[u + 1..e] == lines[..e];
    assert lines[..e] + r == lines;
  }

  /** The lines of the job, by their numbers in the file. */
  ghost predicate Numbered(lines: seq<Line>, job: Job, h: nat, u: nat, e: nat) {
    && h < u < e <= |lines| && |job.above| == u - h - 1 && |job.below| == e - u - 1 && lines[u] == job.uses
    && (forall i :: h < i < u ==> lines[i] == job.above[i - h - 1])
    && (forall i :: u < i < e ==> lines[i] == job.below[i - u - 1])
  }

  ghost predicate FoundAt(job: Job, h: nat, u: nat, key: string, at: int) {
    || (at < 0 && Locate(job, key).Nowhere?)
    || (h < at < u && Locate(job, key) == Above(at - h - 1))
    || (u < at && Locate(job, key) == Below(at - u - 1))
  }

  /** Where the search over the whole body of the job has ended up. */
  lemma Located(lines: seq<Line>, job: Job, h: nat, u: nat, e: nat, key: string, at: int)
    requires Numbered(lines, job, h, u, e) && UsesLine(job.uses) && key != "uses"
    requires at == -1 || h + 1 <= at < e
    requires at >= 0 ==> IsChild(lines[at], job.child, key)
    requires forall i :: h + 1 <= i < (if at < 0 then e else at) ==> !IsChild(lines[i], job.child, key)
    ensures FoundAt(job, h, u, key, at)
  {
    var n := job.child;
    var stop := if 0 <= at < u then at - h - 1 else |job.above|;
    forall j | 0 <= j < stop
      ensures !IsChild(job.above[j], n, key)
    {
      assert lines[h + 1 + j] == job.above[j];
    }
    FindChildUnique(job.above, n, key, stop);
    if at < 0 || at > u {
      LocatedBelow(lines, job, h, u, e, key, at);
    }
  }

  lemma {:induction false} LocatedBelow(lines: seq<Line>, job: Job, h: nat, u: nat, e: nat, key: string, at: int)
    requires Numbered(lines, job, h, u, e)
    requires at == -1 || u < at < e
    requires at >= 0 ==> IsChild(lines[at], job.child, key)
    requires forall i :: u < i < (if at < 0 then e else at) ==> !IsChild(lines[i], job.child, key)
    ensures FindChild(job.below, job.child, key) == if at < 0 then |job.below| else at - u - 1
  {
    var stop := if at < 0 then |job.below| else at - u - 1;
    forall j | 0 <= j < stop
      ensures !IsChild(job.below[j], job.child, key)
    {
      assert lines[u + 1 + j] == job.below[j];
    }
    FindChildUnique(job.below, job.child, key, stop);
  }

  /** A uses line ends every block above it. */
  lemma {:induction false} KidsEndBeforeUses(x: seq<Line>, w: Line, y: seq<Line>, n: nat)
    requires Ends(w, n)
    ensures KidsEnd(x + [w] + y, n) == KidsEnd(x, n)
    ensures (x + [w] + y)[..KidsEnd(x, n)] == x[..KidsEnd(x, n)]
  {
    var k := KidsEnd(x, n);
    assert k == |x| ==> (x + [w] + y)[k] == w;
    KidsEndUnique(x + [w] + y, n, k);
  }

  /** A block above the uses line ends there at the latest. */
  lemma AboveKids(lines: seq<Line>, a: seq<Line>, job: Job, r: seq<Line>, i: nat, at: nat, e: nat)
    requires lines == a + job.above + [job.uses] + job.below + r && i < |job.above| && Ends(job.uses, job.child)
    requires at == |a| + i && e == |a| + |job.above| + 1 + |job.below|
    ensures BlockKids(lines, at, e, job.child) == Kids(job.above, i, job.child)
  {
    assert lines[at + 1..e] == job.above[i + 1..] + [job.uses] + job.below;
    KidsEndBeforeUses(job.above[i + 1..], job.uses, job.below, job.child);
  }

  lemma AboveBlock(lines: seq<Line>, a: seq<Line>, job: Job, r: seq<Line>, i: nat, at: nat, e: nat, now: seq<Line>)
    requires lines == a + job.above + [job.uses] + job.below + r && i < |job.above| && Ends(job.uses, job.child)
    requires at == |a| + i && e == |a| + |job.above| + 1 + |job.below|
    ensures BlockKids(lines, at, e, job.child) == Kids(job.above, i, job.child)
    ensures BlockReplaced(lines, at, e, job.child, now) == a + JobText(job.(above := WithKids(job.above, i, job.child, now))) + r
  {
    hide Kids, BlockKids;
    AboveKids(lines, a, job, r, i, at, e);
    var kids := Kids(job.above, i, job.child);
    KidsFit(job.above, i, job.child);
    AboveTail(lines, a, job.above, job.uses, job.below, r, i, at + 1, at + 1 + |kids|, kids, now);
  }

  lemma AboveTail(lines: seq<Line>, a: seq<Line>, above: seq<Line>, w: Line, below: seq<Line>, r: seq<Line>, i: nat,
                  p: nat, q: nat, kids: seq<Line>, now: seq<Line>)
    requires lines == a + above + [w] + below + r && i < |above| && i + 1 + |kids| <= |above|
    requires p == |a| + i + 1 && q == p + |kids|
    ensures lines[..p] + now + lines[q..] == a + ((above[..i + 1] + now + above[i + 1 + |kids|..]) + [w] + below) + r
  {
    assert lines[q..] == above[i + 1 + |kids|..] + [w] + below + r;
    assert lines[..p] == a + above[..i + 1];
  }

  lemma BelowKids(lines: seq<Line>, pre: seq<Line>, below: seq<Line>, r: seq<Line>, n: nat, i: nat, at: nat, e: nat)
    requires lines == pre + below + r && i < |below|
    requires at == |pre| + i && e == |pre| + |below|
    ensures BlockKids(lines, at, e, n) == Kids(below, i, n)
  {
    assert lines[at + 1..e] == below[i + 1..];
  }

  lemma BelowBlock(lines: seq<Line>, a: seq<Line>, job: Job, r: seq<Line>, i: nat, at: nat, e: nat, now: seq<Line>)
    requires lines == a + job.above + [job.uses] + job.below + r && i < |job.below|
    requires at == |a| + |job.above| + 1 + i && e == |a| + |job.above| + 1 + |job.below|
    ensures BlockKids(lines, at, e, job.child) == Kids(job.below, i, job.child)
    ensures BlockReplaced(lines, at, e, job.child, now) == a + JobText(job.(below := WithKids(job.below, i, job.child, now))) + r
  {
    hide Kids, BlockKids;
    var pre, kids := a + job.above + [job.uses], Kids(job.below, i, job.child);
    BelowKids(lines, pre, job.below, r, job.child, i, at, e);
    KidsFit(job.below, i, job.child);
    BelowTail(lines, pre, job.below, r, i, at + 1, at + 1 + |kids|, kids, now);
    Enclose(a, job.above, job.uses, WithKids(job.below, i, job.child, now), r);
  }

  lemma KidsFit(lines: seq<Line>, i: nat, n: nat)
    requires i < |lines|
    ensures i + 1 + |Kids(lines, i, n)| <= |lines|
  {
  }

  lemma BelowTail(lines: seq<Line>, pre: seq<Line>, below: seq<Line>, r: seq<Line>, i: nat, p: nat, q: nat,
                  kids: seq<Line>,
                  now: seq<Line>)
    requires lines == pre + below + r && i + 1 + |kids| <= |below|
    requires p == |pre| + i + 1 && q == p + |kids|
    ensures lines[..p] + now + lines[q..] == pre + (below[..i + 1] + now + below[i + 1 + |kids|..]) + r
  {
    assert lines[q..] == below[i + 1 + |kids|..] + r;
    assert lines[..p] == pre + below[..i + 1];
  }

  lemma InsertBelow(lines: seq<Line>, a: seq<Line>, job: Job, r: seq<Line>, k: nat, at: nat, block: seq<Line>)
    requires lines == a + job.above + [job.uses] + job.below + r && k <= |job.below|
    requires at == |a| + |job.above| + 1 + k
    ensures lines[..at] + block + lines[at..] == a + JobText(job.(below := Inserted(job.below, k, block))) + r
    ensures |lines[..at] + block + lines[at..]| == |lines| + |block|
  {
    InsertInMiddle(lines, a + job.above + [job.uses], job.below, r, k, at, block);
    Enclose(a, job.above, job.uses, Inserted(job.below, k, block), r);
  }

  lemma InsertAbove(lines: seq<Line>, a: seq<Line>, job: Job, r: seq<Line>, k: nat, at: nat, block: seq<Line>)
    requires lines == a + job.above + [job.uses] + job.below + r && k <= |job.above| && at == |a| + k
    ensures lines[..at] + block + lines[at..] == a + JobText(job.(above := Inserted(job.above, k, block))) + r
    ensures |lines[..at] + block + lines[at..]| == |lines| + |block|
  {
    assert lines == a + job.above + ([job.uses] + job.below + r);
    InsertInMiddle(lines, a, job.above, [job.uses] + job.below + r, k, at, block);
    Enclose(a, Inserted(job.above, k, block), job.uses, job.below, r);
  }

  lemma Enclose(a: seq<Line>, x: seq<Line>, w: Line, y: seq<Line>, r: seq<Line>)
    ensures a + (x + [w] + y) + r == a + x + ([w] + y + r)
    ensures a + (x + [w] + y) + r == a + x + [w] + y + r
  {
  }

  // ---------- The three repairs at one uses line ----------

  /** The file around the job of one uses line. */
  ghost predicate Around(lines: seq<Line>, a: seq<Line>, job: Job, r: seq<Line>, header: nat, usesIndex: nat,
                         jobEnd: nat) {
    && lines == a + job.above + [job.uses] + job.below + r
    && header < usesIndex < jobEnd <= |lines|
    && |a| == header + 1 && |job.above| == usesIndex - header - 1 && |job.below| == jobEnd - usesIndex - 1
    && job.parent < job.child && job.child == job.uses.indent
  }

  lemma AroundReads(lines: seq<Line>, a: seq<Line>, job: Job, r: seq<Line>, header: nat, usesIndex: nat, jobEnd: nat)
    requires Around(lines, a, job, r, header, usesIndex, jobEnd)
    ensures Numbered(lines, job, header, usesIndex, jobEnd)
    ensures a + JobText(job) + r == lines
  {
    Enclose(a, job.above, job.uses, job.below, r);
  }

  lemma AroundUses(lines: seq<Line>, a: seq<Line>, job: Job, r: seq<Line>, header: nat, usesIndex: nat, jobEnd: nat)
    requires Around(lines, a, job, r, header, usesIndex, jobEnd)
    ensures header < usesIndex < jobEnd <= |lines| && lines[usesIndex] == job.uses && job.uses.indent == job.child
    ensures |job.above| == usesIndex - header - 1 && |job.below| == jobEnd - usesIndex - 1
  {
  }

  method FindJob(lines: seq<Line>, usesIndex: nat, ghost edit: Edit)
    returns (header: int, jobEnd: nat, ghost a: seq<Line>, ghost job: Job, ghost r: seq<Line>)
    requires usesIndex < |lines|
    ensures -1 <= header < usesIndex
    ensures header < 0 ==> EditAt(lines, usesIndex, edit) == lines
    ensures header >= 0 ==> Around(lines, a, job, r, header, usesIndex, jobEnd)
    ensures header == HeaderAbove(lines, usesIndex, lines[usesIndex].indent)
    ensures header >= 0 ==> job == JobAt(lines, header, usesIndex)
    ensures header >= 0 ==> job.parent == lines[header].indent && job.uses == lines[usesIndex]
    ensures header >= 0 ==> EditAt(lines, usesIndex, edit) == a + JobText(edit(job)) + r
  {
    jobEnd, a, r := usesIndex + 1, [], [];
    job := Job(0, 0, [], lines[usesIndex], []);
    header := JobHeaderIndexAbove(lines, usesIndex, lines[usesIndex].indent);
    if header >= 0 {
      jobEnd := JobBodyEndIndex(lines, usesIndex, lines[header].indent);
      a, r := JobParts(lines, header, usesIndex, jobEnd);
      job := JobAt(lines, header, usesIndex);
    }
  }

  method LocateChild(lines: seq<Line>, header: nat, usesIndex: nat, jobEnd: nat, key: string,
                     ghost a: seq<Line>, ghost job: Job, ghost r: seq<Line>) returns (at: int)
    requires Around(lines, a, job, r, header, usesIndex, jobEnd) && key != "uses"
    ensures at == -1 || header < at < jobEnd
    ensures UsesLine(job.uses) ==>
              && FoundAt(job, header, usesIndex, key, at)
              && (0 <= at < usesIndex ==> lines[at] == job.above[at - header - 1])
              && (at > usesIndex ==> lines[at] == job.below[at - usesIndex - 1])
  {
    AroundReads(lines, a, job, r, header, usesIndex, jobEnd);
    at := JobChildKeyLineIndex(lines, header + 1, jobEnd, lines[usesIndex].indent, key);
    if UsesLine(job.uses) {
      Located(lines, job, header, usesIndex, jobEnd, key, at);
    }
  }

  lemma BlockOfJobAbove(lines: seq<Line>, a: seq<Line>, job: Job, r: seq<Line>, header: nat, usesIndex: nat,
                        jobEnd: nat, at: nat, now: seq<Line>)
    requires Around(lines, a, job, r, header, usesIndex, jobEnd) && UsesLine(job.uses) && header < at < usesIndex
    ensures BlockKids(lines, at, jobEnd, job.child) == Kids(job.above, at - header - 1, job.child)
    ensures BlockReplaced(lines, at, jobEnd, job.child, now) ==
            a + JobText(job.(above := WithKids(job.above, at - header - 1, job.child, now))) + r
  {
    hide Kids, BlockKids, BlockReplaced, JobText, WithKids;
    AboveBlock(lines, a, job, r, at - header - 1, at, jobEnd, now);
  }

  lemma BlockOfJobBelow(lines: seq<Line>, a: seq<Line>, job: Job, r: seq<Line>, header: nat, usesIndex: nat,
                        jobEnd: nat, at: nat, now: seq<Line>)
    requires Around(lines, a, job, r, header, usesIndex, jobEnd) && usesIndex < at < jobEnd
    ensures BlockKids(lines, at, jobEnd, job.child) == Kids(job.below, at - usesIndex - 1, job.child)
    ensures BlockReplaced(lines, at, jobEnd, job.child, now) ==
            a + JobText(job.(below := WithKids(job.below, at - usesIndex - 1, job.child, now))) + r
  {
    hide Kids, BlockKids, BlockReplaced, JobText, WithKids;
    BelowBlock(lines, a, job, r, at - usesIndex - 1, at, jobEnd, now);
  }

  /** Replacing the block below the line `at` of the job's body replaces it in the job. */
  lemma BlockOfJob(lines: seq<Line>, a: seq<Line>, job: Job, r: seq<Line>, header: nat, usesIndex: nat, jobEnd: nat,
                   at: nat, now: seq<Line>)
    requires Around(lines, a, job, r, header, usesIndex, jobEnd) && UsesLine(job.uses)
    requires header < at < usesIndex || usesIndex < at < jobEnd
    ensures BlockKids(lines, at, jobEnd, job.child) == KidsAt(job, header, usesIndex, jobEnd, at)
    ensures BlockReplaced(lines, at, jobEnd, job.child, now) ==
            a + JobText(WithKidsAt(job, header, usesIndex, jobEnd, at, now)) + r
  {
    if at < usesIndex {
      BlockOfJobAbove(lines, a, job, r, header, usesIndex, jobEnd, at, now);
    } else {
      BlockOfJobBelow(lines, a, job, r, header, usesIndex, jobEnd, at, now);
    }
  }

  function KidsAt(job: Job, header: nat, usesIndex: nat, jobEnd: nat, at: nat): seq<Line>
    requires |job.above| == usesIndex - header - 1 && |job.below| == jobEnd - usesIndex - 1
    requires header < at < usesIndex || usesIndex < at < jobEnd
  {
    if at < usesIndex then Kids(job.above, at - header - 1, job.child) else Kids(job.below, at - usesIndex - 1, job.child)
  }

  function WithKidsAt(job: Job, header: nat, usesIndex: nat, jobEnd: nat, at: nat, now: seq<Line>): Job
    requires |job.above| == usesIndex - header - 1 && |job.below| == jobEnd - usesIndex - 1
    requires header < at < usesIndex || usesIndex < at < jobEnd
  {
    if at < usesIndex then job.(above := WithKids(job.above, at - header - 1, job.child, now))
    else job.(below := WithKids(job.below, at - usesIndex - 1, job.child, now))
  }

  method NewPermissions(usesIndent: nat, childIndent: nat, perms: seq<Permission>) returns (block: seq<Line>)
    ensures block == [OpeningLine(usesIndent, "permissions")] + Grants(perms, childIndent)
  {
    block := [OpeningLine(usesIndent, "permissions")];
    for i := 0 to |perms|
      invariant block == [OpeningLine(usesIndent, "permissions")] + Grants(perms[..i], childIndent)
    {
      assert perms[..i + 1] == perms[..i] + [perms[i]];
      block := block + [EntryLine(childIndent, perms[i].key, perms[i].value)];
    }
    assert perms[..|perms|] == perms;
  }

  method InsertPermissionsBlockLines(lines: seq<Line>, header: nat, usesIndex: nat, jobEnd: nat, perms: seq<Permission>,
                                     ghost a: seq<Line>, ghost job: Job, ghost r: seq<Line>)
    returns (updated: seq<Line>)
    requires Around(lines, a, job, r, header, usesIndex, jobEnd) && job.parent == lines[header].indent
    ensures Locate(job, "permissions").Nowhere? ==> updated == a + JobText(RepairPermissions(job, perms)) + r
    ensures updated != lines && |updated| >= |lines|
  {
    hide JobText;
    AroundReads(lines, a, job, r, header, usesIndex, jobEnd);
    var usesIndent, jobIndent := lines[usesIndex].indent, lines[header].indent;
    var block := NewPermissions(usesIndent, usesIndent + (usesIndent - jobIndent), perms);
    updated := lines[..usesIndex + 1] + block + lines[usesIndex + 1..];
    InsertBelow(lines, a, job, r, 0, usesIndex + 1, block);
    assert Inserted(job.below, 0, block) == block + job.below;
  }

  function LineAt(job: Job, header: nat, usesIndex: nat, jobEnd: nat, at: nat): Line
    requires |job.above| == usesIndex - header - 1 && |job.below| == jobEnd - usesIndex - 1
    requires header < at < usesIndex || usesIndex < at < jobEnd
  {
    if at < usesIndex then job.above[at - header - 1] else job.below[at - usesIndex - 1]
  }

  lemma RepairsAbove(job: Job, i: nat, perms: seq<Permission>)
    requires Locate(job, "permissions") == Above(i) && job.above[i].block
    ensures RepairPermissions(job, perms) ==
            job.(above := WithKids(job.above, i, job.child, Repaired(Kids(job.above, i, job.child), job.child, perms)))
  {
  }

  lemma RepairsBelow(job: Job, i: nat, perms: seq<Permission>)
    requires Locate(job, "permissions") == Below(i) && job.below[i].block
    ensures RepairPermissions(job, perms) ==
            job.(below := WithKids(job.below, i, job.child, Repaired(Kids(job.below, i, job.child), job.child, perms)))
  {
  }

  lemma RepairsBlockAt(job: Job, h: nat, u: nat, e: nat, at: nat, perms: seq<Permission>)
    requires h < u < e && |job.above| == u - h - 1 && |job.below| == e - u - 1
    requires h < at < u || u < at < e
    requires FoundAt(job, h, u, "permissions", at) && LineAt(job, h, u, e, at).block
    ensures RepairPermissions(job, perms) ==
            WithKidsAt(job, h, u, e, at, Repaired(KidsAt(job, h, u, e, at), job.child, perms))
  {
    hide RepairPermissions, Repaired, Kids, WithKids;
    if at < u {
      var i := at - h - 1;
      assert Locate(job, "permissions") == Above(i);
      RepairsAbove(job, i, perms);
    } else {
      var i := at - u - 1;
      assert Locate(job, "permissions") == Below(i);
      RepairsBelow(job, i, perms);
    }
  }

  lemma PermissionsBlock(lines: seq<Line>, a: seq<Line>, job: Job, r: seq<Line>, header: nat, usesIndex: nat,
                         jobEnd: nat,
                         at: nat, perms: seq<Permission>)
    requires Around(lines, a, job, r, header, usesIndex, jobEnd) && UsesLine(job.uses)
    requires header < at < jobEnd && FoundAt(job, header, usesIndex, "permissions", at)
    requires LineAt(job, header, usesIndex, jobEnd, at).block
    ensures BlockReplaced(lines, at, jobEnd, job.child, Repaired(BlockKids(lines, at, jobEnd, job.child), job.child, perms))
            == a + JobText(RepairPermissions(job, perms)) + r
  {
    RepairsBlockAt(job, header, usesIndex, jobEnd, at, perms);
    BlockOfJob(lines, a, job, r, header, usesIndex, jobEnd, at,
               Repaired(KidsAt(job, header, usesIndex, jobEnd, at), job.child, perms));
  }

  method RepairPermissionsIn(lines: seq<Line>, header: nat, usesIndex: nat, jobEnd: nat, perms: seq<Permission>,
                             ghost a: seq<Line>, ghost job: Job, ghost r: seq<Line>)
    returns (updated: seq<Line>, did: bool)
    requires Around(lines, a, job, r, header, usesIndex, jobEnd) && job.parent == lines[header].indent
    requires Required(perms)
    ensures UsesLine(job.uses) ==> updated == a + JobText(RepairPermissions(job, perms)) + r
    ensures (did <==> updated != lines) && |updated| >= |lines|
  {
    hide JobText, BlockReplaced, BlockKids, Repaired;
    var at := LocateChild(lines, header, usesIndex, jobEnd, "permissions", a, job, r);
    AroundReads(lines, a, job, r, header, usesIndex, jobEnd);
    if at < 0 {
      updated := InsertPermissionsBlockLines(lines, header, usesIndex, jobEnd, perms, a, job, r);
      return updated, true;
    }
    if !lines[at].block {
      return lines, false;
    }
    updated, did := InsertMissingPermissionsLines(lines, at, jobEnd, lines[usesIndex].indent, perms);
    if UsesLine(job.uses) {
      PermissionsBlock(lines, a, job, r, header, usesIndex, jobEnd, at, perms);
    }
  }

  method RepairCallerPermissionsAt(lines: seq<Line>, usesIndex: nat, perms: seq<Permission>)
    returns (updated: seq<Line>, did: bool)
    requires usesIndex < |lines| && Required(perms)
    ensures UsesLine(lines[usesIndex]) ==> updated == EditAt(lines, usesIndex, PermissionsEdit(perms))
    ensures (did <==> updated != lines) && |updated| >= |lines|
  {
    var header, jobEnd;
    ghost var a, job, r;
    header, jobEnd, a, job, r := FindJob(lines, usesIndex, PermissionsEdit(perms));
    if header < 0 {
      return lines, false;
    }
    updated, did := RepairPermissionsIn(lines, header, usesIndex, jobEnd, perms, a, job, r);
  }

  /** Where a line below the uses line and the comments that follow it goes. */
  lemma BehindComments(lines: seq<Line>, a: seq<Line>, job: Job, r: seq<Line>, header: nat, usesIndex: nat,
                       jobEnd: nat, at: nat)
    requires Around(lines, a, job, r, header, usesIndex, jobEnd)
    requires usesIndex < at <= jobEnd && (at < jobEnd ==> !lines[at].skip)
    requires forall i :: usesIndex < i < at ==> lines[i].skip
    ensures at - usesIndex - 1 == FirstContent(job.below)
  {
    assert forall i :: 0 <= i < |job.below| ==> job.below[i] == lines[usesIndex + 1 + i];
    FirstContentUnique(job.below, at - usesIndex - 1);
  }

  method EnsureSecretsIn(lines: seq<Line>, header: nat, usesIndex: nat, jobEnd: nat,
                         ghost a: seq<Line>, ghost job: Job, ghost r: seq<Line>)
    returns (updated: seq<Line>, did: bool)
    requires Around(lines, a, job, r, header, usesIndex, jobEnd)
    ensures UsesLine(job.uses) ==> updated == a + JobText(EnsureSecrets(job)) + r
    ensures (did <==> updated != lines) && |updated| >= |lines|
  {
    var at := LocateChild(lines, header, usesIndex, jobEnd, "secrets", a, job, r);
    AroundReads(lines, a, job, r, header, usesIndex, jobEnd);
    if at >= 0 {
      return lines, false;
    }
    var insertAt := usesIndex + 1;
    while insertAt < jobEnd && lines[insertAt].skip
      invariant usesIndex < insertAt <= jobEnd
      invariant forall i :: usesIndex < i < insertAt ==> lines[i].skip
    {
      insertAt := insertAt + 1;
    }
    BehindComments(lines, a, job, r, header, usesIndex, jobEnd, insertAt);
    var secretsLine := EntryLine(lines[usesIndex].indent, "secrets", "inherit");
    updated := lines[..insertAt] + [secretsLine] + lines[insertAt..];
    did := true;
    InsertBelow(lines, a, job, r, insertAt - usesIndex - 1, insertAt, [secretsLine]);
  }

  method EnsureSecretsInheritAt(lines: seq<Line>, usesIndex: nat) returns (updated: seq<Line>, did: bool)
    requires usesIndex < |lines|
    ensures UsesLine(lines[usesIndex]) ==> updated == EditAt(lines, usesIndex, SecretsEdit())
    ensures (did <==> updated != lines) && |updated| >= |lines|
  {
    var header, jobEnd;
    ghost var a, job, r;
    header, jobEnd, a, job, r := FindJob(lines, usesIndex, SecretsEdit());
    if header < 0 {
      return lines, false;
    }
    updated, did := EnsureSecretsIn(lines, header, usesIndex, jobEnd, a, job, r);
  }
}
