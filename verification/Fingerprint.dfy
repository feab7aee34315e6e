/** The byte stream that reuse.go digests: one labelled record after another.  Values may contain
    newlines, so a record does not end at the first one; the stream can still be read in one way only. */
module Fingerprint {
  import opened Strings

  const NUL := '\0'
  const NEWLINE := '\n'

  datatype Record = Record(kind: string, value: string) {
    predicate Plain() {
      NUL !in kind && NEWLINE !in kind && NUL !in value
    }

    /** writeFingerprintLine. */
    function Bytes(): string {
      kind + [NUL] + value + [NEWLINE]
    }
  }

  function Encode(records: seq<Record>): string {
    if records == [] then "" else records[0].Bytes() + Encode(records[1..])
  }

  ghost predicate AllPlain(records: seq<Record>) {
    forall r :: r in records ==> r.Plain()
  }

  lemma {:induction false} EncodeConcat(a: seq<Record>, b: seq<Record>)
    ensures Encode(a + b) == Encode(a) + Encode(b)
    decreases |a|
  {
    if a == [] {
      assert a + b == b;
    } else {
      assert (a + b)[1..] == a[1..] + b;
      EncodeConcat(a[1..], b);
      assert a[0].Bytes() + (Encode(a[1..]) + Encode(b)) == a[0].Bytes() + Encode(a[1..]) + Encode(b);
    }
  }

  // ---------- Reading the stream ----------

  /** Where what follows the last newline starts. */
  function Tail(s: string): (i: nat)
    ensures i <= |s|
    ensures i > 0 ==> s[i - 1] == NEWLINE
    ensures forall k :: i <= k < |s| ==> s[k] != NEWLINE
  {
    if s == "" || s[|s| - 1] == NEWLINE then |s| else Tail(s[..|s| - 1])
  }

  lemma {:induction false} FirstIs(a: string, c: char, b: string)
    requires c !in a
    ensures Find(a + [c] + b, c) == |a|
    ensures (a + [c] + b)[..|a|] == a && (a + [c] + b)[|a| + 1..] == b
  {
    var s := a + [c] + b;
    assert s[|a|] == c;
    forall j | 0 <= j < |a|
      ensures s[j] != c
    {
      assert s[j] == a[j];
    }
  }

  lemma {:induction false} TailUnique(s: string, i: nat)
    requires i <= |s| && (i > 0 ==> s[i - 1] == NEWLINE)
    requires forall k :: i <= k < |s| ==> s[k] != NEWLINE
    ensures Tail(s) == i
  {
  }

  lemma {:induction false} TailIs(a: string, b: string)
    requires NEWLINE !in b && (a == "" || a[|a| - 1] == NEWLINE)
    ensures Tail(a + b) == |a|
  {
    TailUnique(a + b, |a|);
  }

  /** How long the value at the start of `s` is, with its newline: up to the label of the next record,
      or to the end. */
  function ValueEnd(s: string): (e: nat)
    ensures e <= |s|
  {
    var nul := Find(s, NUL);
    if nul == |s| then |s| else Tail(s[..nul])
  }

  /** The records of a stream. */
  function Decode(s: string): seq<Record>
    decreases |s|
  {
    var nul := Find(s, NUL);
    if nul >= |s| - 1 then []
    else
      var rest := s[nul + 1..];
      var e := ValueEnd(rest);
      if e == 0 then [] else [Record(s[..nul], rest[..e - 1])] + Decode(rest[e..])
  }

  lemma {:induction false} NextValueEnd(value: string, records: seq<Record>)
    requires NUL !in value && AllPlain(records)
    ensures ValueEnd(value + [NEWLINE] + Encode(records)) == |value| + 1
  {
    var s := value + [NEWLINE] + Encode(records);
    if records == [] {
      assert s == value + [NEWLINE];
    } else {
      var next := records[0];
      assert next in records;
      var front := value + [NEWLINE] + next.kind;
      var behind := next.value + [NEWLINE] + Encode(records[1..]);
      assert s == front + [NUL] + behind by {
        assert next.Bytes() + Encode(records[1..]) == next.kind + [NUL] + behind;
      }
      FirstIs(front, NUL, behind);
      TailIs(value + [NEWLINE], next.kind);
      assert s[..|front|] == value + [NEWLINE] + next.kind;
    }
  }

  /** Every list of plain records reads back from its stream. */
  lemma {:induction false} DecodeEncode(records: seq<Record>)
    requires AllPlain(records)
    ensures Decode(Encode(records)) == records
    decreases |records|
  {
    if records != [] {
      var r, more := records[0], records[1..];
      assert r in records;
      var rest := r.value + [NEWLINE] + Encode(more);
      var s := Encode(records);
      assert s == r.kind + [NUL] + rest;
      FirstIs(r.kind, NUL, rest);
      NextValueEnd(r.value, more);
      assert rest[..|r.value|] == r.value && rest[|r.value| + 1..] == Encode(more);
      DecodeEncode(more);
      assert records == [r] + more;
    }
  }

  /** Two lists of plain records with the same stream are the same list. */
  lemma {:induction false} UniquelyDecodable(a: seq<Record>, b: seq<Record>)
    requires AllPlain(a) && AllPlain(b) && Encode(a) == Encode(b)
    ensures a == b
  {
    DecodeEncode(a);
    DecodeEncode(b);
  }

  /** With a NUL in a value two different lists have one stream. */
  lemma NulInValueIsAmbiguous()
    ensures var a, b := [Record("env", "A\0B\nenv\0C")], [Record("env", "A\0B"), Record("env", "C")];
            a != b && Encode(a) == Encode(b)
  {
    var a, b := [Record("env", "A\0B\nenv\0C")], [Record("env", "A\0B"), Record("env", "C")];
    assert b[1..] == [Record("env", "C")] && b[1..][1..] == [] && a[1..] == [];
    assert Encode(b[1..]) == Record("env", "C").Bytes() + "";
    assert Encode(b) == Record("env", "A\0B").Bytes() + Encode(b[1..]);
    assert Encode(a) == Record("env", "A\0B\nenv\0C").Bytes() + "";
    assert |a| != |b|;
  }
}
