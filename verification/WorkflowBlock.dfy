/** Blocks of lines below a key: where a block ends, which keys it has, and the two edits that
    the workflow repair makes in it. */
module WorkflowBlock {
  import opened WorkflowLine

  // ---------- Finding keys and blocks ----------

  /** `line` is the key line of a child at indentation `n`. */
  predicate IsChild(line: Line, n: nat, key: string) {
    !line.skip && line.colon && line.indent == n && line.name == key
  }

  /** The first child line with the key, or the length. */
  function FindChild(lines: seq<Line>, n: nat, key: string): (i: nat)
    ensures i <= |lines|
    ensures i < |lines| ==> IsChild(lines[i], n, key)
    ensures forall j :: 0 <= j < i ==> !IsChild(lines[j], n, key)
  {
    if lines == [] || IsChild(lines[0], n, key) then 0 else 1 + FindChild(lines[1..], n, key)
  }

  /** `line` ends a block whose key stands at indentation `n`. */
  predicate Ends(line: Line, n: nat) {
    !line.skip && line.indent <= n
  }

  function KidsEnd(lines: seq<Line>, n: nat): (i: nat)
    ensures i <= |lines|
    ensures i < |lines| ==> Ends(lines[i], n)
    ensures forall j :: 0 <= j < i ==> !Ends(lines[j], n)
  {
    if lines == [] || Ends(lines[0], n) then 0 else 1 + KidsEnd(lines[1..], n)
  }

  /** The lines of the block below the key line `i`. */
  function Kids(lines: seq<Line>, i: nat, n: nat): seq<Line>
    requires i < |lines|
  {
    lines[i + 1..][..KidsEnd(lines[i + 1..], n)]
  }

  predicate AllKids(kids: seq<Line>, n: nat) {
    forall line :: line in kids ==> !Ends(line, n)
  }

  /** `rest` does not continue a block at indentation `n`. */
  predicate Closed(rest: seq<Line>, n: nat) {
    rest == [] || Ends(rest[0], n)
  }

  lemma {:induction false} KidsEndUnique(lines: seq<Line>, n: nat, i: nat)
    requires i <= |lines| && (i < |lines| ==> Ends(lines[i], n))
    requires forall j :: 0 <= j < i ==> !Ends(lines[j], n)
    ensures KidsEnd(lines, n) == i
  {
  }

  lemma {:induction false} KidsEndIs(kids: seq<Line>, rest: seq<Line>, n: nat)
    requires AllKids(kids, n) && Closed(rest, n)
    ensures KidsEnd(kids + rest, n) == |kids|
    ensures (kids + rest)[..|kids|] == kids && (kids + rest)[|kids|..] == rest
  {
    var lines := kids + rest;
    forall j | 0 <= j < |kids|
      ensures !Ends(lines[j], n)
    {
      assert kids[j] in kids;
    }
    KidsEndUnique(lines, n, |kids|);
  }

  lemma KidsAre(a: seq<Line>, line: Line, kids: seq<Line>, rest: seq<Line>, n: nat)
    requires AllKids(kids, n) && Closed(rest, n)
    ensures Kids(a + [line] + kids + rest, |a|, n) == kids
  {
    var lines := a + [line] + kids + rest;
    assert lines[|a| + 1..] == kids + rest;
    KidsEndIs(kids, rest, n);
  }

  /** Around the child `i`: what stands before it, its block, and what follows. */
  lemma SplitAt(lines: seq<Line>, i: nat, n: nat) returns (rest: seq<Line>)
    requires i < |lines|
    ensures lines == lines[..i] + [lines[i]] + Kids(lines, i, n) + rest
    ensures AllKids(Kids(lines, i, n), n) && Closed(rest, n)
  {
    rest := lines[i + 1..][KidsEnd(lines[i + 1..], n)..];
  }

  lemma Regroup(a: seq<Line>, b: seq<Line>, c: seq<Line>, d: seq<Line>)
    ensures a + (b + c) + d == a + b + (c + d)
  {
  }

  // ---------- The first and the last content of a block ----------

  function FirstContent(kids: seq<Line>): (i: nat)
    ensures i <= |kids|
    ensures i < |kids| ==> !kids[i].skip
    ensures forall j :: 0 <= j < i ==> kids[j].skip
  {
    if kids == [] || !kids[0].skip then 0 else 1 + FirstContent(kids[1..])
  }

  /** One past the last line with content. */
  function ContentEnd(kids: seq<Line>): (i: nat)
    ensures i <= |kids|
    ensures i > 0 ==> !kids[i - 1].skip
    ensures forall j :: i <= j < |kids| ==> kids[j].skip
  {
    if kids == [] then 0
    else if !kids[|kids| - 1].skip then |kids|
    else ContentEnd(kids[..|kids| - 1])
  }

  /** The indentation of the children, which an empty block does not show. */
  function ChildIndent(kids: seq<Line>, n: nat): nat {
    if FirstContent(kids) < |kids| then kids[FirstContent(kids)].indent else n + 2
  }

  // ---------- Setting one entry of a block ----------

  predicate IsEntryOf(line: Line, indent: nat, key: string) {
    !line.skip && line.indent == indent && line.name == key
  }

  function FindEntry(kids: seq<Line>, indent: nat, key: string): (i: nat)
    ensures i <= |kids|
    ensures i < |kids| ==> IsEntryOf(kids[i], indent, key)
    ensures forall j :: 0 <= j < i ==> !IsEntryOf(kids[j], indent, key)
  {
    if kids == [] || IsEntryOf(kids[0], indent, key) then 0 else 1 + FindEntry(kids[1..], indent, key)
  }

  function Inserted(lines: seq<Line>, at: nat, block: seq<Line>): seq<Line>
    requires at <= |lines|
  {
    lines[..at] + block + lines[at..]
  }

  /** The line `e` replaces the first entry with its key, or joins the block at its end. */
  function Placed(kids: seq<Line>, n: nat, key: string, e: Line): seq<Line> {
    var i := FindEntry(kids, ChildIndent(kids, n), key);
    if i < |kids| then kids[i := e] else Inserted(kids, ContentEnd(kids), [e])
  }

  /** insertOrUpdateBlockEntryLines on the lines of the block. */
  function Upsert(kids: seq<Line>, n: nat, key: string, value: string): seq<Line> {
    Placed(kids, n, key, EntryLine(ChildIndent(kids, n), key, value))
  }

  lemma PlacedKeepsKids(kids: seq<Line>, n: nat, key: string, e: Line)
    requires AllKids(kids, n) && IsEntryOf(e, ChildIndent(kids, n), key)
    ensures AllKids(Placed(kids, n, key, e), n) && ChildIndent(kids, n) > n
  {
    var i := FirstContent(kids);
    if i < |kids| {
      assert kids[i] in kids;
    }
  }

  lemma {:induction false} FirstContentUnique(kids: seq<Line>, i: nat)
    requires i <= |kids| && (i < |kids| ==> !kids[i].skip)
    requires forall j :: 0 <= j < i ==> kids[j].skip
    ensures FirstContent(kids) == i
  {
  }

  lemma {:induction false} FindEntryUnique(kids: seq<Line>, indent: nat, key: string, i: nat)
    requires i <= |kids| && (i < |kids| ==> IsEntryOf(kids[i], indent, key))
    requires forall j :: 0 <= j < i ==> !IsEntryOf(kids[j], indent, key)
    ensures FindEntry(kids, indent, key) == i
  {
  }

  lemma PlacedIndent(kids: seq<Line>, n: nat, key: string, e: Line)
    requires IsEntryOf(e, ChildIndent(kids, n), key)
    ensures ChildIndent(Placed(kids, n, key, e), n) == ChildIndent(kids, n)
  {
    var i := FindEntry(kids, ChildIndent(kids, n), key);
    var r := Placed(kids, n, key, e);
    var f := FirstContent(kids);
    if f == |kids| {
      assert i == |kids| && ContentEnd(kids) == 0;
      FirstContentUnique(r, 0);
    } else {
      assert i < |kids| ==> f <= i;
      assert f < ContentEnd(kids);
      FirstContentUnique(r, f);
    }
  }

  lemma PlacedTwice(kids: seq<Line>, n: nat, key: string, e: Line)
    requires IsEntryOf(e, ChildIndent(kids, n), key)
    ensures Placed(Placed(kids, n, key, e), n, key, e) == Placed(kids, n, key, e)
  {
    var indent := ChildIndent(kids, n);
    var i := FindEntry(kids, indent, key);
    var r := Placed(kids, n, key, e);
    PlacedIndent(kids, n, key, e);
    FindEntryUnique(r, indent, key, if i < |kids| then i else ContentEnd(kids));
  }

  /** Setting an entry twice changes nothing more. */
  lemma UpsertTwice(kids: seq<Line>, n: nat, key: string, value: string)
    ensures Upsert(Upsert(kids, n, key, value), n, key, value) == Upsert(kids, n, key, value)
  {
    var e := EntryLine(ChildIndent(kids, n), key, value);
    PlacedIndent(kids, n, key, e);
    PlacedTwice(kids, n, key, e);
  }

  // ---------- Reading the entries of a block ----------

  /** The entries at one indentation; a later one replaces an earlier one. */
  function EntriesAt(kids: seq<Line>, indent: nat): map<string, string> {
    if kids == [] then map[]
    else
      var m := EntriesAt(kids[..|kids| - 1], indent);
      var line := kids[|kids| - 1];
      if !line.skip && line.indent == indent && line.colon then m[line.name := line.value] else m
  }

  function Entries(kids: seq<Line>, n: nat): map<string, string> {
    EntriesAt(kids, ChildIndent(kids, n))
  }

  /** `key` has at most one line at the indentation. */
  predicate AtMostOnce(kids: seq<Line>, indent: nat, key: string) {
    forall i, j :: 0 <= i < j < |kids| ==> !IsEntryOf(kids[i], indent, key) || !IsEntryOf(kids[j], indent, key)
  }

  lemma {:induction false} EntriesConcat(a: seq<Line>, b: seq<Line>, indent: nat)
    ensures EntriesAt(a + b, indent) == EntriesAt(a, indent) + EntriesAt(b, indent)
  {
    if b == [] {
      assert a + b == a;
    } else {
      assert (a + b)[..|a + b| - 1] == a + b[..|b| - 1];
      EntriesConcat(a, b[..|b| - 1], indent);
    }
  }

  lemma {:induction false} NoEntry(kids: seq<Line>, indent: nat, key: string)
    requires forall line :: line in kids ==> !IsEntryOf(line, indent, key)
    ensures key !in EntriesAt(kids, indent)
  {
    if kids != [] {
      NoEntry(kids[..|kids| - 1], indent, key);
      assert kids[|kids| - 1] in kids;
    }
  }

  /** The edit puts one line between two parts of the block, in place of at most one line. */
  lemma PlacedSplit(kids: seq<Line>, n: nat, key: string, e: Line)
    returns (a: seq<Line>, gone: seq<Line>, b: seq<Line>)
    ensures kids == a + gone + b
    ensures Placed(kids, n, key, e) == a + [e] + b
    ensures gone == [] || (|gone| == 1 && IsEntryOf(gone[0], ChildIndent(kids, n), key))
    ensures AtMostOnce(kids, ChildIndent(kids, n), key) ==>
              forall line :: line in b ==> !IsEntryOf(line, ChildIndent(kids, n), key)
  {
    var i := FindEntry(kids, ChildIndent(kids, n), key);
    if i < |kids| {
      a, gone, b := kids[..i], [kids[i]], kids[i + 1..];
    } else {
      a, gone, b := kids[..ContentEnd(kids)], [], kids[ContentEnd(kids)..];
    }
  }

  lemma PlacedReadsBack(kids: seq<Line>, n: nat, key: string, e: Line)
    requires IsEntryOf(e, ChildIndent(kids, n), key) && e.colon
    ensures Entries(Placed(kids, n, key, e), n) - {key} == Entries(kids, n) - {key}
    ensures AtMostOnce(kids, ChildIndent(kids, n), key) ==>
              key in Entries(Placed(kids, n, key, e), n) && Entries(Placed(kids, n, key, e), n)[key] == e.value
  {
    var indent := ChildIndent(kids, n);
    PlacedIndent(kids, n, key, e);
    var a, gone, b := PlacedSplit(kids, n, key, e);
    EntriesOfThree(a, [e], b, indent);
    EntriesOfThree(a, gone, b, indent);
    OneKeyChanged(EntriesAt(a, indent), EntriesAt(gone, indent), EntriesAt([e], indent), EntriesAt(b, indent), key);
    if AtMostOnce(kids, indent, key) {
      NoEntry(b, indent, key);
    }
  }

  lemma {:induction false} EntriesOfThree(a: seq<Line>, mid: seq<Line>, b: seq<Line>, indent: nat)
    ensures EntriesAt(a + mid + b, indent) == EntriesAt(a, indent) + EntriesAt(mid, indent) + EntriesAt(b, indent)
  {
    EntriesConcat(a + mid, b, indent);
    EntriesConcat(a, mid, indent);
  }

  lemma OneKeyChanged(a: map<string, string>, m: map<string, string>, k: map<string, string>, b: map<string, string>,
                      key: string)
    requires m.Keys <= {key} && k.Keys <= {key}
    ensures (a + m + b) - {key} == (a + k + b) - {key}
  {
  }

  /** Read after write and frame: the written key reads back as the written value, provided it
      had at most one line before; every other key reads as before; and every line but the
      rewritten one is still there, in order. */
  lemma UpsertReadsBack(kids: seq<Line>, n: nat, key: string, value: string)
    returns (a: seq<Line>, gone: seq<Line>, b: seq<Line>)
    ensures Entries(Upsert(kids, n, key, value), n) - {key} == Entries(kids, n) - {key}
    ensures AtMostOnce(kids, ChildIndent(kids, n), key) ==>
              key in Entries(Upsert(kids, n, key, value), n) && Entries(Upsert(kids, n, key, value), n)[key] == value
    ensures kids == a + gone + b && Upsert(kids, n, key, value) == a + [EntryLine(ChildIndent(kids, n), key, value)] + b
    ensures gone == [] || (|gone| == 1 && IsEntryOf(gone[0], ChildIndent(kids, n), key))
  {
    var e := EntryLine(ChildIndent(kids, n), key, value);
    PlacedReadsBack(kids, n, key, e);
    a, gone, b := PlacedSplit(kids, n, key, e);
  }
}
