/** The validation state of provision.go on disk: what a written state file, whole or torn, reads back as. */
module ProvisionState {
  import opened Lines

  datatype Known = Known(etag: string, ref: string)

  /** readProvisionState, line by line; a later line of a kind replaces an earlier one. */
  function ReadLines(lines: seq<string>, known: Known): Known {
    if lines == [] then known
    else ReadLines(lines[1..], ReadLine(lines[0], known))
  }

  function ReadLine(line: string, known: Known): Known {
    var k := if "etag=" <= line then known.(etag := line[5..]) else known;
    if "ref=" <= line then k.(ref := line[4..]) else k
  }

  function ReadState(content: string): Known {
    ReadLines(Split(content), Known("", ""))
  }

  /** Line `i` is the last one with the mark. */
  predicate LastLabelled(lines: seq<string>, mark: string, i: int) {
    && 0 <= i < |lines| && mark <= lines[i]
    && forall j :: i < j < |lines| ==> !(mark <= lines[j])
  }

  predicate Unlabelled(lines: seq<string>, mark: string) {
    forall line :: line in lines ==> !(mark <= line)
  }

  /** The entity tag is what stands on the last line of its kind, and empty where there is none. */
  lemma {:induction false} ReadsLastETag(lines: seq<string>, known: Known, i: int)
    ensures Unlabelled(lines, "etag=") ==> ReadLines(lines, known).etag == known.etag
    ensures LastLabelled(lines, "etag=", i) ==> ReadLines(lines, known).etag == lines[i][5..]
    decreases |lines|
  {
    if lines != [] {
      assert lines == [lines[0]] + lines[1..];
      hide LastLabelled;
      ReadsLastETag(lines[1..], ReadLine(lines[0], known), i - 1);
      UnlabelledRest(lines, "etag=");
      if LastLabelled(lines, "etag=", i) {
        LastInRest(lines, "etag=", i);
      }
    } else {
      assert !LastLabelled(lines, "etag=", i);
    }
  }

  /** And so is the ref. */
  lemma {:induction false} ReadsLastRef(lines: seq<string>, known: Known, i: int)
    ensures Unlabelled(lines, "ref=") ==> ReadLines(lines, known).ref == known.ref
    ensures LastLabelled(lines, "ref=", i) ==> ReadLines(lines, known).ref == lines[i][4..]
    decreases |lines|
  {
    if lines != [] {
      assert lines == [lines[0]] + lines[1..];
      hide LastLabelled;
      ReadsLastRef(lines[1..], ReadLine(lines[0], known), i - 1);
      UnlabelledRest(lines, "ref=");
      if LastLabelled(lines, "ref=", i) {
        LastInRest(lines, "ref=", i);
      }
    } else {
      assert !LastLabelled(lines, "ref=", i);
    }
  }

  lemma UnlabelledRest(lines: seq<string>, mark: string)
    requires lines != []
    ensures Unlabelled(lines, mark) ==> !(mark <= lines[0]) && Unlabelled(lines[1..], mark)
  {
    assert lines[0] in lines && forall line :: line in lines[1..] ==> line in lines;
  }

  lemma LastInRest(lines: seq<string>, mark: string, i: int)
    requires LastLabelled(lines, mark, i)
    ensures 0 <= i < |lines| && mark <= lines[i]
    ensures i == 0 ==> Unlabelled(lines[1..], mark)
    ensures i > 0 ==> LastLabelled(lines[1..], mark, i - 1) && lines[1..][i - 1] == lines[i]
  {
  }

  /** writeProvisionState. */
  function StateContent(ref: string, etag: string, timestamp: string): string {
    "ref=" + ref + "\n" + ("etag=" + etag + "\n" + ("timestamp=" + timestamp + "\n"))
  }

  lemma {:induction false} ReadOne(line: string, known: Known)
    ensures ReadLines([line], known) == ReadLine(line, known)
  {
    assert [line][1..] == [];
  }

  lemma {:induction false} ReadFirst(line: string, more: seq<string>, known: Known)
    ensures ReadLines([line] + more, known) == ReadLines(more, ReadLine(line, known))
  {
    assert ([line] + more)[1..] == more;
  }

  /** A file torn inside its first line names no etag. */
  lemma TornRef(ref: string, k: nat)
    requires OneLine(ref) && k <= 4 + |ref|
    ensures ReadState(("ref=" + ref)[..k]).etag == ""
  {
    var line := ("ref=" + ref)[..k];
    assert OneLine(line);
    assert k > 0 ==> line[0] == 'r';
    SplitOne(line);
    ReadOne(line, Known("", ""));
  }

  lemma RefIsRead(ref: string)
    ensures ReadLine("ref=" + ref, Known("", "")) == Known("", ref)
  {
    var line := "ref=" + ref;
    assert line[0] == 'r' && line[4..] == ref;
    assert line[..4] == "ref=";
  }

  lemma ETagPart(ref: string, etag: string, k: nat)
    requires k <= 5 + |etag|
    ensures ReadLine(("etag=" + etag)[..k], Known("", ref)) == Known(if k < 5 then "" else etag[..k - 5], ref)
  {
    var line := ("etag=" + etag)[..k];
    assert k > 0 ==> line[0] == 'e';
    if k >= 5 {
      assert line[..5] == "etag=" && line[5..] == etag[..k - 5];
    }
  }

  /** A file torn inside its second line names a prefix of the etag. */
  lemma TornETag(ref: string, etag: string, k: nat)
    requires OneLine(ref) && OneLine(etag) && k <= 5 + |etag|
    ensures ReadState("ref=" + ref + "\n" + ("etag=" + etag)[..k]) == Known(if k < 5 then "" else etag[..k - 5], ref)
  {
    var first, line := "ref=" + ref, ("etag=" + etag)[..k];
    assert OneLine(first) && OneLine(line);
    hide ReadLine, ReadLines, Split;
    SplitLine(first, line);
    SplitOne(line);
    ReadFirst(first, [line], Known("", ""));
    RefIsRead(ref);
    ReadOne(line, Known("", ref));
    ETagPart(ref, etag, k);
  }

  /** Whatever follows the second line of the file is not read. */
  lemma TornTimestamp(ref: string, etag: string, timestamp: string, k: nat)
    requires OneLine(ref) && OneLine(etag) && OneLine(timestamp) && k <= 11 + |timestamp|
    ensures ReadState("ref=" + ref + "\n" + ("etag=" + etag + "\n" + ("timestamp=" + timestamp + "\n")[..k])) == Known(etag, ref)
  {
    var tail := ("timestamp=" + timestamp + "\n")[..k];
    SplitLine("ref=" + ref, "etag=" + etag + "\n" + tail);
    SplitLine("etag=" + etag, tail);
    var more := Split(tail);
    ReadFirst("ref=" + ref, ["etag=" + etag] + more, Known("", ""));
    RefIsRead(ref);
    ReadFirst("etag=" + etag, more, Known("", ref));
    assert ReadLine("etag=" + etag, Known("", ref)) == Known(etag, ref) by {
      var line := "etag=" + etag;
      assert line[0] == 'e' && line[..5] == "etag=" && line[5..] == etag;
    }
    TailIsSilent(timestamp, k, Known(etag, ref));
  }

  lemma {:induction false} TailIsSilent(timestamp: string, k: nat, known: Known)
    requires OneLine(timestamp) && k <= 11 + |timestamp|
    ensures ReadLines(Split(("timestamp=" + timestamp + "\n")[..k]), known) == known
  {
    var line := "timestamp=" + timestamp;
    assert OneLine(line);
    if k <= |line| {
      var part := line[..k];
      assert (line + "\n")[..k] == part;
      SplitOne(part);
      ReadOne(part, known);
      assert k > 0 ==> part[0] == 't';
    } else {
      assert (line + "\n")[..k] == line + "\n" + "";
      SplitLine(line, "");
      SplitOne("");
      ReadFirst(line, [""], known);
      ReadOne("", known);
      assert line[0] == 't';
    }
  }

  /** A state file of which any first part was written names the ref and a prefix of the etag, or no
      etag at all; the whole file names both. */
  lemma TornState(ref: string, etag: string, timestamp: string, k: nat)
    requires OneLine(ref) && OneLine(etag) && OneLine(timestamp)
    requires k <= |StateContent(ref, etag, timestamp)|
    ensures var known := ReadState(StateContent(ref, etag, timestamp)[..k]);
            known.etag == "" || (known.ref == ref && known.etag <= etag)
    ensures k == |StateContent(ref, etag, timestamp)| ==>
              ReadState(StateContent(ref, etag, timestamp)[..k]) == Known(etag, ref)
  {
    var first, second, third := "ref=" + ref, "etag=" + etag, "timestamp=" + timestamp + "\n";
    var content := StateContent(ref, etag, timestamp);
    assert content == first + "\n" + (second + "\n" + third);
    if k <= |first| {
      assert content[..k] == first[..k];
      TornRef(ref, k);
    } else if k <= |first| + 1 + |second| {
      var j := k - |first| - 1;
      assert content[..k] == first + "\n" + second[..j];
      TornETag(ref, etag, j);
    } else {
      var j := k - |first| - 1 - |second| - 1;
      assert content[..k] == first + "\n" + (second + "\n" + third[..j]);
      TornTimestamp(ref, etag, timestamp, j);
    }
  }

  /** A whole state file reads back. */
  lemma StateReadsBack(ref: string, etag: string, timestamp: string)
    requires OneLine(ref) && OneLine(etag) && OneLine(timestamp)
    ensures ReadState(StateContent(ref, etag, timestamp)) == Known(etag, ref)
  {
    var content := StateContent(ref, etag, timestamp);
    TornState(ref, etag, timestamp, |content|);
    assert content[..|content|] == content;
  }

  // ---------- Entity tags ----------

  /** An entity tag in the form of RFC 9110 section 8.8.3: quoted, with no quote inside, and marked W/
      when it is weak. */
  predicate IsETag(etag: string) {
    var s := if "W/" <= etag then etag[2..] else etag;
    |s| >= 2 && s[0] == '"' && s[|s| - 1] == '"' && forall i :: 0 < i < |s| - 1 ==> s[i] != '"'
  }

  /** Part of an entity tag is not an entity tag, so a torn one matches nothing upstream. */
  lemma TornETagIsNone(etag: string, part: string)
    requires IsETag(etag) && IsETag(part) && part <= etag
    ensures part == etag
  {
    if "W/" <= etag {
      assert |part| >= 2 ==> part[0] == etag[0] == 'W';
      assert part[0] == 'W' ==> !(part[0] == '"');
      var s, t := etag[2..], part[2..];
      assert t[|t| - 1] == s[|t| - 1];
    } else {
      assert etag[0] == '"' && part[0] == etag[0];
      assert part[|part| - 1] == etag[|part| - 1];
    }
  }
}
