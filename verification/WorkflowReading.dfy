/** What the repair reads off the lines that people write: comments, quotes, notes behind a value, and the
    `uses:` lines of other workflows. */
module WorkflowReading {
  import opened Options
  import opened WorkflowLine

  /** A line is skipped if and only if it is blank or its first character that is no space is `#`. */
  lemma {:induction false} SkipIff(n: nat, s: string)
    requires s == "" || !IsSpace(s[0])
    ensures Skip(Spaces(n) + s) <==> s == "" || s[0] == '#'
  {
    if s == "" {
      SpacesAreBlank(n);
      assert Spaces(n) + s == Spaces(n);
    } else {
      SpacesGo(n, s);
      TrimRightKeepsHead(s);
    }
  }

  lemma {:induction false} SpacesAreBlank(n: nat)
    ensures TrimLeft(Spaces(n)) == "" && Trim(Spaces(n)) == ""
  {
    if n > 0 {
      SpacesAreBlank(n - 1);
      assert Spaces(n)[1..] == Spaces(n - 1);
    }
  }

  /** The key of a line is what stands before its first colon; a line without a colon has none. */
  lemma KeyIff(line: string, head: string, tail: string)
    ensures ':' !in Trim(line) ==> Key(line).None? && LooseKey(line) == Trim(Trim(line))
    ensures Trim(line) == head + ":" + tail && ':' !in head ==>
              && Key(line) == Some(Trim(head)) && LooseKey(line) == Trim(head)
              && (BlockForm(line) <==> Trim(tail) == "") && Value(line) == Scalar(tail)
  {
    var t := Trim(line);
    if ':' !in t {
      assert forall i :: 0 <= i < |t| ==> t[i] in t;
      assert t[..|t|] == t;
    }
    if t == head + ":" + tail && ':' !in head {
      assert t == head + (":" + tail);
      FindIsFirst(head, ":" + tail, ':');
      assert t[|head| + 1..] == tail && t[..|head|] == head;
    }
  }

  // ---------- A value and a note behind it ----------

  /** Trimming stops at the last character that is no space. */
  lemma {:induction false} TrimRightStops(a: string, b: string)
    requires a != "" && !IsSpace(a[|a| - 1])
    ensures a <= TrimRight(a + b)
    decreases |b|
  {
    var s := a + b;
    if b == "" {
      assert s == a;
    } else if IsSpace(s[|s| - 1]) {
      assert s[..|s| - 1] == a + b[..|b| - 1];
      TrimRightStops(a, b[..|b| - 1]);
    }
  }

  lemma {:induction false} CommentIsFound(v: string, rest: string)
    requires ' ' !in v && " #" <= rest
    ensures FindComment(v + rest) == |v|
  {
    if v == "" {
      assert v + rest == rest && rest[0] == ' ' && rest[1] == '#';
    } else {
      assert v[0] in v && (v + rest)[1..] == v[1..] + rest;
      CommentIsFound(v[1..], rest);
    }
  }

  /** A word as it stands in the file: bare, or in quotes of either kind. */
  predicate Written(w: string, v: string) {
    v == w || v == "\"" + w + "\"" || v == "'" + w + "'"
  }

  lemma {:induction false} WrittenFacts(w: string, v: string)
    requires Word(w) && Written(w, v)
    ensures v != "" && ' ' !in v && !IsSpace(v[0]) && !IsSpace(v[|v| - 1])
    ensures TrimQuotesRight(TrimQuotesLeft(v)) == w
  {
    WordEnds(w);
    if v == w {
    } else if v == "\"" + w + "\"" {
      QuotesGo(w, '"', v);
    } else {
      QuotesGo(w, '\'', v);
    }
  }

  lemma WordEnds(w: string)
    requires Word(w)
    ensures w != "" && ' ' !in w
    ensures !IsSpace(w[0]) && !IsSpace(w[|w| - 1]) && !IsQuote(w[0]) && !IsQuote(w[|w| - 1])
  {
    assert w[0] in w && w[|w| - 1] in w;
    assert IsSpace(' ');
  }

  lemma {:induction false} QuotesGo(w: string, q: char, v: string)
    requires w != "" && !IsQuote(w[0]) && !IsQuote(w[|w| - 1]) && IsQuote(q) && v == [q] + w + [q] && ' ' !in w
    ensures TrimQuotesRight(TrimQuotesLeft(v)) == w
    ensures ' ' !in v && !IsSpace(v[0]) && !IsSpace(v[|v| - 1])
  {
    var s := w + [q];
    assert v[1..] == s && s[0] == w[0];
    assert TrimQuotesLeft(v) == s;
    assert s[..|s| - 1] == w;
  }

  lemma ScalarForms(w: string, v: string, note: string)
    requires Word(w) && Written(w, v)
    ensures Scalar(" " + v) == w
    ensures Scalar(" " + v + " #" + note) == w
  {
    WrittenFacts(w, v);
    hide TrimQuotesLeft, TrimQuotesRight, Written;
    assert Spaces(1) == " " + Spaces(0) == " ";
    TrimIsInner(1, v);
    NoComment(v);
    NotedScalar(w, v, note);
  }

  lemma NoteTrims(v: string, note: string) returns (more: string)
    requires v != "" && !IsSpace(v[0])
    ensures Trim(" " + v + " #" + note) == v + (" #" + more)
  {
    var a := v + " #";
    var s := a + note;
    assert !IsSpace(a[|a| - 1]);
    hide IsSpace, TrimLeft, TrimRight;
    assert s[0] == v[0];
    assert Spaces(1) == " " + Spaces(0) == " ";
    assert " " + v + " #" + note == Spaces(1) + s;
    hide Spaces;
    SpacesGo(1, s);
    TrimRightStops(a, note);
    more := TrimRight(s)[|a|..];
    assert TrimRight(s) == a + more;
  }

  lemma {:induction false} NotedScalar(w: string, v: string, note: string)
    requires v != "" && ' ' !in v && !IsSpace(v[0]) && !IsSpace(v[|v| - 1]) && TrimQuotesRight(TrimQuotesLeft(v)) == w
    ensures Scalar(" " + v + " #" + note) == w
  {
    hide TrimQuotesLeft, TrimQuotesRight, IsSpace, FindComment, Trim;
    var more := NoteTrims(v, note);
    var t := v + (" #" + more);
    CommentIsFound(v, " #" + more);
    assert t[..|v|] == v;
    assert Spaces(0) + v == v;
    TrimIsInner(0, v);
  }

  /** A line that trims to a key, a colon and something more. */
  lemma KeyAndValue(line: string, key: string, rest: string)
    requires Word(key) && rest != "" && Trim(line) == key + ":" + rest
    ensures Key(line) == Some(key) && Value(line) == Scalar(rest)
  {
    hide Scalar, Trim;
    TrimWord(key);
    var s := key + ":" + rest;
    assert s == key + (":" + rest);
    FindIsFirst(key, ":" + rest, ':');
    assert s[|key| + 1..] == rest && s[..|key|] == key;
  }

  lemma {:induction false} PlainTrims(n: nat, key: string, v: string)
    requires key != "" && !IsSpace(key[0]) && v != "" && !IsSpace(v[|v| - 1])
    ensures Trim(Spaces(n) + key + ": " + v) == key + ":" + (" " + v)
  {
    hide IsSpace;
    var inner := key + ": " + v;
    assert Spaces(n) + key + ": " + v == Spaces(n) + inner && inner == key + ":" + (" " + v);
    assert inner[0] == key[0] && inner[|inner| - 1] == v[|v| - 1];
    TrimIsInner(n, inner);
  }

  lemma NotedTrims(n: nat, key: string, v: string, note: string) returns (more: string)
    requires key != "" && !IsSpace(key[0])
    ensures Trim(Spaces(n) + key + ": " + v + " #" + note) == key + ":" + (" " + v + " #" + more)
  {
    hide TrimRight, TrimLeft;
    var a := key + ": " + v + " #";
    var s := a + note;
    assert Spaces(n) + key + ": " + v + " #" + note == Spaces(n) + s && s[0] == key[0];
    SpacesGo(n, s);
    TrimRightStops(a, note);
    var t := TrimRight(s);
    more := t[|a|..];
    assert t == a + more && a + more == key + ":" + (" " + v + " #" + more);
  }

  /** An entry reads as its word, bare or in quotes, with a note behind it or without. */
  lemma {:induction false} ValueForms(n: nat, key: string, w: string, v: string, note: string)
    requires Word(key) && Word(w) && Written(w, v)
    ensures var line := Spaces(n) + key + ": " + v; Key(line) == Some(key) && Value(line) == w
    ensures var line := Spaces(n) + key + ": " + v + " #" + note; Key(line) == Some(key) && Value(line) == w
  {
    WordHead(key);
    WrittenFacts(w, v);
    hide Key, Value, Scalar, Trim, Written, Word, IsSpace;
    PlainTrims(n, key, v);
    KeyAndValue(Spaces(n) + key + ": " + v, key, " " + v);
    ScalarForms(w, v, note);
    var more := NotedTrims(n, key, v, note);
    KeyAndValue(Spaces(n) + key + ": " + v + " #" + note, key, " " + v + " #" + more);
    ScalarForms(w, v, more);
  }

  lemma WordHead(w: string)
    requires Word(w)
    ensures w != "" && !IsSpace(w[0])
  {
    assert w != "" ==> w[0] in w;
  }

  // ---------- Uses lines ----------

  /** A `uses:` line is one of the workflow in question if and only if what it uses names that workflow. */
  lemma {:induction false} UsesIff(n: nat, target: string, ref: string)
    requires target != "" && !IsSpace(target[|target| - 1])
    requires '/' in ref && ' ' !in ref && ':' !in ref
    ensures IsUses(Spaces(n) + "uses: " + target, ref) <==> Contains(target, ref)
  {
    var s := "uses: " + target;
    assert Spaces(n) + "uses: " + target == Spaces(n) + s;
    TrimIsInner(n, s);
    InTarget(target, ref);
  }

  lemma InTarget(target: string, ref: string)
    requires '/' in ref && ' ' !in ref && ':' !in ref
    ensures Contains("uses: " + target, ref) <==> Contains(target, ref)
  {
    var s := "uses: " + target;
    if i :| 0 <= i <= |s| && ref <= s[i..] {
      var j :| 0 <= j < |ref| && ref[j] == '/';
      assert s[i + j] == ref[j];
      assert i + j >= 6 && s[5] == ' ';
      assert forall k :: 0 <= k < |ref| ==> s[i + k] == ref[k] && ref[k] in ref;
      assert i >= 6;
      assert s[i..] == target[i - 6..];
    }
    if i :| 0 <= i <= |target| && ref <= target[i..] {
      assert s[i + 6..] == target[i..];
    }
  }
}
