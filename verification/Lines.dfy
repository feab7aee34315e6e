/** Text as lines: strings.Split and strings.Join with a newline. */
module Lines {
  import opened Strings

  /** strings.Split(s, "\n"). */
  function Split(s: string): (lines: seq<string>)
    ensures lines != []
  {
    var i := Find(s, '\n');
    if i == |s| then [s] else [s[..i]] + Split(s[i + 1..])
  }

  predicate OneLine(s: string) {
    '\n' !in s
  }

  lemma {:induction false} NewlineIs(a: string, rest: string)
    requires OneLine(a)
    ensures Find(a + rest, '\n') == |a| + Find(rest, '\n')
  {
    if a == "" {
      assert a + rest == rest;
    } else {
      assert (a + rest)[1..] == a[1..] + rest;
      assert (a + rest)[0] == a[0] && a[0] in a;
      NewlineIs(a[1..], rest);
    }
  }

  lemma {:induction false} SplitOne(a: string)
    requires OneLine(a)
    ensures Split(a) == [a]
  {
    assert a + "" == a;
    NewlineIs(a, "");
  }

  lemma {:induction false} SplitLine(a: string, b: string)
    requires OneLine(a)
    ensures Split(a + "\n" + b) == [a] + Split(b)
  {
    var s := a + "\n" + b;
    assert s == a + ("\n" + b);
    NewlineIs(a, "\n" + b);
    assert Find("\n" + b, '\n') == 0;
    assert s[..|a|] == a && s[|a| + 1..] == b;
  }

  lemma {:induction false} SplitBoth(x: string, t: string, s: string)
    requires OneLine(x) && s == x + "\n" + t
    ensures Split(s) == [x] + Split(t)
  {
    SplitLine(x, t);
  }

  lemma Cut(a: string, i: nat) returns (x: string, y: string)
    requires i == Find(a, '\n') < |a|
    ensures a == x + "\n" + y && OneLine(x) && |y| < |a|
  {
    x, y := a[..i], a[i + 1..];
  }

  lemma Regroup(x: string, p: seq<string>, q: seq<string>)
    ensures [x] + (p + q) == [x] + p + q
  {
  }

  /** The lines of two texts with a newline between them. */
  lemma {:induction false} SplitConcat(a: string, b: string)
    ensures Split(a + "\n" + b) == Split(a) + Split(b)
    decreases |a|
  {
    if Find(a, '\n') == |a| {
      SplitLine(a, b);
      SplitOne(a);
    } else {
      var x, y := Cut(a, Find(a, '\n'));
      var t := y + "\n" + b;
      SplitConcat(y, b);
      assert a + "\n" + b == x + "\n" + t;
      SplitBoth(x, y, a);
      SplitBoth(x, t, a + "\n" + b);
      Regroup(x, Split(y), Split(b));
    }
  }

  /** strings.Join(lines, "\n"). */
  function Join(lines: seq<string>): string {
    if lines == [] then ""
    else if |lines| == 1 then lines[0]
    else lines[0] + "\n" + Join(lines[1..])
  }

  lemma {:induction false} JoinFirst(first: string, rest: seq<string>)
    requires rest != []
    ensures Join([first] + rest) == first + "\n" + Join(rest)
  {
    assert ([first] + rest)[1..] == rest;
  }

  lemma JoinOne(s: string)
    ensures Join([s]) == s
  {
  }

  lemma {:induction false} JoinSplit(s: string)
    ensures Join(Split(s)) == s
    decreases |s|
  {
    hide Join;
    var i := Find(s, '\n');
    if i < |s| {
      JoinSplit(s[i + 1..]);
      JoinFirst(s[..i], Split(s[i + 1..]));
      assert s == s[..i] + "\n" + s[i + 1..];
    } else {
      JoinOne(s);
    }
  }
}
