/** What the replay of a make invocation is, option by option: which words make has already acted on and which
    ones it must see again. */
module MakeReplay {
  import opened Options
  import opened MakeContract

  /** The replay with more words in front. */
  function Extended(words: seq<string>, file: bool, result: Result): Result {
    match result
    case Error(f) => Error(f)
    case Ok(r) => Ok(Replay(words + r.arguments, r.remaining, file || r.hasFile))
  }

  lemma {:induction false} ReplayGroup(opt: Classify, g: Group, rest: seq<string>)
    requires Heads(opt, g.Words() + rest, g)
    ensures Replayed(opt, g.Words() + rest) == Extended(Flatten(g.Kept(opt)), opt(g.argument).file, Replayed(opt, rest))
  {
    var all := g.Words() + rest;
    ParseGroup(opt, all, g);
    assert all[|g.Words()|..] == rest;
    if Parse(opt, rest).Parsed? {
      var more := Parse(opt, rest).groups;
      KeptConcat(opt, [g], more);
      FlattenOne(opt, g);
      FlattenConcat(g.Kept(opt), KeptOf(opt, more));
    }
  }

  // ---------- Letters ----------

  /** The letter has a value: the rest of its argument or the next word. */
  predicate HasValue(c: char) {
    c == 'C' || c == 'f' || c == 'I' || c == 'o' || c == 'W' || c == 'E'
  }

  /** The letter may have a value, but only in its own argument. */
  predicate MayHaveValue(c: char) {
    c == 'j' || c == 'l' || c == 'O'
  }

  predicate Flag(c: char) {
    !HasValue(c) && !MayHaveValue(c)
  }

  predicate Flags(letters: string) {
    (forall c :: c in letters ==> Flag(c)) && !("-" <= letters)
  }

  lemma {:induction false} ClusterBehind(flags: string, rest: string, from: nat)
    requires 1 <= from <= 1 + |flags| && forall c :: c in flags ==> Flag(c)
    ensures ClusterOption("-" + flags + rest, from) == ClusterOption("-" + flags + rest, 1 + |flags|)
    decreases 1 + |flags| - from
  {
    var a := "-" + flags + rest;
    if from <= |flags| {
      assert a[from] == flags[from - 1] && Flag(flags[from - 1]);
      ClusterBehind(flags, rest, from + 1);
    }
  }

  /** A letter behind flags, with the rest of the argument. */
  lemma LetterBehind(flags: string, c: char, value: string)
    requires Flags(flags) && (flags == "" ==> c != '-')
    ensures var a := "-" + flags + [c] + value;
            && a != "--" && !("--" <= a)
            && (HasValue(c) ==>
                  OptionOf(a) == ArgumentOption(c == 'C', c == 'f', value == "", value, if flags == "" then "" else "-" + flags))
            && (MayHaveValue(c) ==> OptionOf(a) == PLAIN)
  {
    var a := "-" + flags + [c] + value;
    assert a == "-" + flags + ([c] + value);
    assert a[1] == if flags == "" then c else flags[0];
    ClusterBehind(flags, [c] + value, 1);
    assert a[1 + |flags|] == c && a[2 + |flags|..] == value && a[..1 + |flags|] == "-" + flags;
  }

  lemma FlagsArePlain(flags: string)
    requires Flags(flags)
    ensures OptionOf("-" + flags) == PLAIN && "-" + flags != "--"
  {
    ClusterBehind(flags, "", 1);
    assert "-" + flags + "" == "-" + flags;
  }

  // ---------- Long names ----------

  lemma LongMeaning(name: string, l: LongOption, v: string)
    requires Selects(name, l) && '=' !in name
    ensures OptionOf("--" + name) == ArgumentOption(l.directory, l.file, l.takesValue, "", "")
    ensures OptionOf("--" + name + "=" + v) == ArgumentOption(l.directory, l.file, false, v, "")
  {
    hide OptionOf, Selects;
    assert LongForm("--" + name, name, None);
    LongIs("--" + name);
    var a := "--" + name + "=" + v;
    assert a == "--" + name + ("=" + v);
    assert LongForm(a, name, Some(v));
    LongIs(a);
  }

  lemma LongExactly(l: LongOption, v: string)
    requires Selects(l.name, l) && '=' !in l.name
    ensures OptionOf("--" + l.name) == ArgumentOption(l.directory, l.file, l.takesValue, "", "")
    ensures OptionOf("--" + l.name + "=" + v) == ArgumentOption(l.directory, l.file, false, v, "")
  {
    hide OptionOf, Selects;
    LongMeaning(l.name, l, v);
  }

  lemma LongSelected(i: nat)
    requires i < |LONG_OPTIONS|
    ensures Selects(LONG_OPTIONS[i].name, LONG_OPTIONS[i]) && '=' !in LONG_OPTIONS[i].name
  {
    assert LONG_OPTIONS[i] in LONG_OPTIONS;
    NameIsPlain(i);
  }

  /** A name in the table has no equals sign, and only the first begins like `directory`. */
  lemma NameIsPlain(i: nat)
    requires i < |LONG_OPTIONS|
    ensures '=' !in LONG_OPTIONS[i].name && |LONG_OPTIONS[i].name| > 1
    ensures i > 0 ==> LONG_OPTIONS[i].name[0] != 'd' || LONG_OPTIONS[i].name[1] != 'i'
  {
    if i < 6 {
      PlainNames(i);
    } else if i < 12 {
      MorePlainNames(i);
    } else {
      LastPlainNames(i);
    }
  }

  lemma PlainNames(i: nat)
    requires i < 6
    ensures '=' !in LONG_OPTIONS[i].name && |LONG_OPTIONS[i].name| > 1
    ensures i > 0 ==> LONG_OPTIONS[i].name[0] != 'd' || LONG_OPTIONS[i].name[1] != 'i'
  {
  }

  lemma MorePlainNames(i: nat)
    requires 6 <= i < 12
    ensures '=' !in LONG_OPTIONS[i].name && |LONG_OPTIONS[i].name| > 1
    ensures i > 0 ==> LONG_OPTIONS[i].name[0] != 'd' || LONG_OPTIONS[i].name[1] != 'i'
  {
  }

  lemma LastPlainNames(i: nat)
    requires 12 <= i < 18
    ensures '=' !in LONG_OPTIONS[i].name && |LONG_OPTIONS[i].name| > 1
    ensures i > 0 ==> LONG_OPTIONS[i].name[0] != 'd' || LONG_OPTIONS[i].name[1] != 'i'
  {
  }

  lemma WordStep(a: string, o: ArgumentOption, rest: seq<string>)
    requires OptionOf(a) == o && a != "--" && !o.next && !(o.file && o.value == "-")
    ensures Replayed(OptionOf, [a] + rest) ==
            Extended(if !o.directory then [a] else if o.retained == "" then [] else [o.retained], o.file, Replayed(OptionOf, rest))
  {
    var g := Group(a, None);
    hide OptionOf;
    assert Heads(OptionOf, g.Words() + rest, g);
    ReplayGroup(OptionOf, g, rest);
    KeptWords(g, o);
  }

  lemma PairStep(a: string, o: ArgumentOption, w: string, rest: seq<string>)
    requires OptionOf(a) == o && a != "--" && o.next && !(o.file && w == "-")
    ensures Replayed(OptionOf, [a, w] + rest) ==
            Extended(if !o.directory then [a, w] else if o.retained == "" then [] else [o.retained], o.file, Replayed(OptionOf, rest))
  {
    var g := Group(a, Some(w));
    hide OptionOf;
    assert Heads(OptionOf, g.Words() + rest, g);
    ReplayGroup(OptionOf, g, rest);
    KeptWords(g, o);
  }

  lemma KeptWords(g: Group, o: ArgumentOption)
    requires OptionOf(g.argument) == o
    ensures Flatten(g.Kept(OptionOf)) ==
            if !o.directory then g.Words() else if o.retained == "" then [] else [o.retained]
  {
    hide OptionOf;
    if !o.directory {
      FlattenOne(OptionOf, g);
    } else if o.retained != "" {
      FlattenOne(OptionOf, Group(o.retained, None));
    }
  }

  // ---------- What the replay keeps ----------

  /** The long options that need a value, but for directories and makefiles. */
  const VALUED: seq<string> := ["--include-dir", "--old-file", "--assume-old", "--what-if", "--new-file", "--assume-new",
                                "--eval", "--jobserver-auth", "--jobserver-fds"]

  /** The long options whose value is optional. */
  const OPTIONAL: seq<string> := ["--jobs", "--load-average", "--max-load", "--output-sync", "--debug", "--shuffle"]

  lemma ValuedNames(i: nat)
    requires i < |VALUED|
    ensures VALUED[i] == "--" + LONG_OPTIONS[3 + i].name
    ensures LONG_OPTIONS[3 + i] == LongOption(LONG_OPTIONS[3 + i].name, true, false, false)
  {
    if i < 5 {
      FirstValuedNames(i);
    } else {
      LastValuedNames(i);
    }
  }

  lemma FirstValuedNames(i: nat)
    requires i < 5
    ensures VALUED[i] == "--" + LONG_OPTIONS[3 + i].name
    ensures LONG_OPTIONS[3 + i] == LongOption(LONG_OPTIONS[3 + i].name, true, false, false)
  {
  }

  lemma LastValuedNames(i: nat)
    requires 5 <= i < 9
    ensures VALUED[i] == "--" + LONG_OPTIONS[3 + i].name
    ensures LONG_OPTIONS[3 + i] == LongOption(LONG_OPTIONS[3 + i].name, true, false, false)
  {
  }

  lemma OptionalNames(i: nat)
    requires i < |OPTIONAL|
    ensures OPTIONAL[i] == "--" + LONG_OPTIONS[12 + i].name
    ensures LONG_OPTIONS[12 + i] == LongOption(LONG_OPTIONS[12 + i].name, false, false, false)
  {
  }

  lemma LetterNames()
    ensures "-" + ['C'] == "-C" && "-" + ['f'] == "-f"
    ensures "-" + ['I'] == "-I" && "-" + ['o'] == "-o" && "-" + ['W'] == "-W" && "-" + ['E'] == "-E"
    ensures "--" + "directory" == "--directory" && "--" + "file" == "--file" && "--" + "makefile" == "--makefile"
    ensures "--" + "directory" + "=" == "--directory=" && "--" + "file" + "=" == "--file=" && "--" + "makefile" + "=" == "--makefile="
  {
  }

  lemma TableHead()
    ensures LONG_OPTIONS[0] == LongOption("directory", true, true, false)
    ensures LONG_OPTIONS[1] == LongOption("file", true, false, true)
    ensures LONG_OPTIONS[2] == LongOption("makefile", true, false, true)
  {
  }

  /** Directories go, in every form in which make takes them, and nothing else changes: make has already followed
      them. */
  lemma DirectoriesGo(d: string, rest: seq<string>)
    ensures Replayed(OptionOf, ["-C", d] + rest) == Replayed(OptionOf, rest)
    ensures d != "" ==> Replayed(OptionOf, ["-C" + d] + rest) == Replayed(OptionOf, rest)
    ensures Replayed(OptionOf, ["--directory", d] + rest) == Replayed(OptionOf, rest)
    ensures Replayed(OptionOf, ["--directory=" + d] + rest) == Replayed(OptionOf, rest)
  {
    hide OptionOf, Replayed;
    ExtendedByNothing(Replayed(OptionOf, rest));
    LetterNames();
    TableHead();
    LetterAlone('C', "");
    PairStep("-C", ArgumentOption(true, false, true, "", ""), d, rest);
    if d != "" {
      LetterAlone('C', d);
      WordStep("-C" + d, ArgumentOption(true, false, false, d, ""), rest);
    }
    LongSelected(0);
    LongExactly(LONG_OPTIONS[0], d);
    PairStep("--directory", ArgumentOption(true, false, true, "", ""), d, rest);
    WordStep("--directory=" + d, ArgumentOption(true, false, false, d, ""), rest);
  }

  lemma OnlyDirectory(name: string)
    requires "di" <= name <= LONG_OPTIONS[0].name
    ensures Selects(name, LONG_OPTIONS[0]) && '=' !in name
  {
    assert LONG_OPTIONS[0] in LONG_OPTIONS;
    PlainNames(0);
    hide LONG_OPTIONS;
    forall p | p in LONG_OPTIONS && name <= p.name
      ensures p == LONG_OPTIONS[0]
    {
      var i :| 0 <= i < |LONG_OPTIONS| && LONG_OPTIONS[i] == p;
      NameIsPlain(i);
      assert p.name[0] == "di"[0] && p.name[1] == "di"[1];
    }
    assert forall c :: c in name ==> c in LONG_OPTIONS[0].name;
  }

  /** So they do under every abbreviation that is no other option's. */
  lemma AbbreviatedDirectoriesGo(name: string, d: string, rest: seq<string>)
    requires "di" <= name <= "directory"
    ensures Replayed(OptionOf, ["--" + name, d] + rest) == Replayed(OptionOf, rest)
    ensures Replayed(OptionOf, ["--" + name + "=" + d] + rest) == Replayed(OptionOf, rest)
  {
    hide OptionOf, Replayed;
    ExtendedByNothing(Replayed(OptionOf, rest));
    TableHead();
    OnlyDirectory(name);
    LongMeaning(name, LONG_OPTIONS[0], d);
    assert "--" + name != "--";
    PairStep("--" + name, ArgumentOption(true, false, true, "", ""), d, rest);
    WordStep("--" + name + "=" + d, ArgumentOption(true, false, false, d, ""), rest);
  }

  lemma ExtendedByNothing(result: Result)
    ensures Extended([], false, result) == result
  {
    if result.Ok? {
      assert [] + result.replay.arguments == result.replay.arguments;
    }
  }

  lemma LetterAlone(c: char, value: string)
    requires HasValue(c)
    ensures OptionOf("-" + [c] + value) == ArgumentOption(c == 'C', c == 'f', value == "", value, "")
    ensures "-" + [c] + value != "--"
    ensures value == "" ==> "-" + [c] + value == "-" + [c]
  {
    LetterBehind("", c, value);
    assert "-" + "" + [c] + value == "-" + [c] + value;
  }

  /** Flags in front of a directory stay. */
  lemma FlagsStay(flags: string, d: string, rest: seq<string>)
    requires flags != "" && Flags(flags)
    ensures Replayed(OptionOf, ["-" + flags + "C", d] + rest) == Extended(["-" + flags], false, Replayed(OptionOf, rest))
    ensures d != "" ==>
              Replayed(OptionOf, ["-" + flags + "C" + d] + rest) == Extended(["-" + flags], false, Replayed(OptionOf, rest))
    ensures Replayed(OptionOf, ["-" + flags] + rest) == Extended(["-" + flags], false, Replayed(OptionOf, rest))
  {
    hide OptionOf, Replayed;
    LetterBehind(flags, 'C', "");
    assert "-" + flags + "C" + "" == "-" + flags + "C";
    PairStep("-" + flags + "C", ArgumentOption(true, false, true, "", "-" + flags), d, rest);
    if d != "" {
      LetterBehind(flags, 'C', d);
      WordStep("-" + flags + "C" + d, ArgumentOption(true, false, false, d, "-" + flags), rest);
    }
    FlagsArePlain(flags);
    WordStep("-" + flags, PLAIN, rest);
  }

  lemma StandardInputFails(a: string, o: ArgumentOption, rest: seq<string>)
    requires OptionOf(a) == o && a != "--" && o.file
    ensures !o.next && o.value == "-" ==> Replayed(OptionOf, [a] + rest) == Error(StandardInput)
    ensures o.next ==> Replayed(OptionOf, [a, "-"] + rest) == Error(StandardInput)
  {
    hide OptionOf;
    assert ([a] + rest)[0] == a && ([a, "-"] + rest)[0] == a && ([a, "-"] + rest)[1] == "-";
  }

  /** A makefile in the next word. */
  lemma FileStep(name: string, x: string, rest: seq<string>)
    requires OptionOf(name) == ArgumentOption(false, true, true, "", "") && name != "--"
    ensures Replayed(OptionOf, [name, x] + rest) ==
            if x == "-" then Error(StandardInput) else Extended([name, x], true, Replayed(OptionOf, rest))
  {
    hide OptionOf, Replayed;
    if x == "-" {
      StandardInputFails(name, ArgumentOption(false, true, true, "", ""), rest);
    } else {
      PairStep(name, ArgumentOption(false, true, true, "", ""), x, rest);
    }
  }

  /** A makefile in the same word. */
  lemma InlineFileStep(a: string, x: string, rest: seq<string>)
    requires OptionOf(a) == ArgumentOption(false, true, false, x, "") && a != "--"
    ensures Replayed(OptionOf, [a] + rest) ==
            if x == "-" then Error(StandardInput) else Extended([a], true, Replayed(OptionOf, rest))
  {
    hide OptionOf, Replayed;
    if x == "-" {
      StandardInputFails(a, ArgumentOption(false, true, false, x, ""), rest);
    } else {
      WordStep(a, ArgumentOption(false, true, false, x, ""), rest);
    }
  }

  /** Makefiles stay, and are noticed; but the standard input cannot be read again. */
  lemma MakefilesStay(name: string, x: string, rest: seq<string>)
    requires name in ["-f", "--file", "--makefile"]
    ensures Replayed(OptionOf, [name, x] + rest) ==
            if x == "-" then Error(StandardInput) else Extended([name, x], true, Replayed(OptionOf, rest))
  {
    hide OptionOf, Replayed;
    LetterNames();
    if name == "-f" {
      LetterAlone('f', "");
    } else {
      TableHead();
      var i := if name == "--file" then 1 else 2;
      LongSelected(i);
      LongExactly(LONG_OPTIONS[i], x);
    }
    FileStep(name, x, rest);
  }

  lemma InlineMakefilesStay(name: string, x: string, rest: seq<string>)
    requires name in ["--file=", "--makefile="] || (name == "-f" && x != "")
    ensures Replayed(OptionOf, [name + x] + rest) ==
            if x == "-" then Error(StandardInput) else Extended([name + x], true, Replayed(OptionOf, rest))
  {
    hide OptionOf, Replayed;
    LetterNames();
    if name == "-f" {
      LetterAlone('f', x);
    } else {
      TableHead();
      var i := if name == "--file=" then 1 else 2;
      LongSelected(i);
      LongExactly(LONG_OPTIONS[i], x);
    }
    InlineFileStep(name + x, x, rest);
  }

  /** Every other option that needs a value keeps the next word as its value, whatever that looks like. */
  lemma ValuesStay(name: string, w: string, rest: seq<string>)
    requires name in ["-I", "-o", "-W", "-E"] || name in VALUED
    ensures Replayed(OptionOf, [name, w] + rest) == Extended([name, w], false, Replayed(OptionOf, rest))
  {
    var next := ArgumentOption(false, false, true, "", "");
    hide OptionOf, Replayed;
    if name in ["-I", "-o", "-W", "-E"] {
      LetterNames();
      LetterAlone(name[1], "");
    } else {
      var i: nat :| i < |VALUED| && VALUED[i] == name;
      ValuedNames(i);
      LongSelected(3 + i);
      LongExactly(LONG_OPTIONS[3 + i], "");
    }
    PairStep(name, next, w, rest);
  }

  /** An option whose value is optional keeps the next word out of it. */
  lemma OptionalValuesStay(c: char, tail: string, name: string, v: string, rest: seq<string>)
    requires MayHaveValue(c) && name in OPTIONAL
    ensures Replayed(OptionOf, ["-" + [c] + tail] + rest) == Extended(["-" + [c] + tail], false, Replayed(OptionOf, rest))
    ensures Replayed(OptionOf, [name] + rest) == Extended([name], false, Replayed(OptionOf, rest))
    ensures Replayed(OptionOf, [name + "=" + v] + rest) == Extended([name + "=" + v], false, Replayed(OptionOf, rest))
  {
    var none := ArgumentOption(false, false, false, "", "");
    LetterBehind("", c, tail);
    hide OptionOf, Replayed;
    assert "-" + "" + [c] + tail == "-" + [c] + tail;
    WordStep("-" + [c] + tail, none, rest);
    var i: nat :| i < |OPTIONAL| && OPTIONAL[i] == name;
    OptionalNames(i);
    LongSelected(12 + i);
    LongExactly(LONG_OPTIONS[12 + i], v);
    WordStep(name, none, rest);
    WordStep(name + "=" + v, ArgumentOption(false, false, false, v, ""), rest);
  }

  /** Targets and variables stay; behind a double dash everything does, unread. */
  lemma TargetsStay(a: string, rest: seq<string>)
    requires !("-" <= a)
    ensures Replayed(OptionOf, [a] + rest) == Extended([a], false, Replayed(OptionOf, rest))
    ensures Replayed(OptionOf, ["--"] + rest) == Ok(Replay([], ["--"] + rest, false))
    ensures Replayed(OptionOf, []) == Ok(Replay([], [], false))
  {
    assert OptionOf(a) == PLAIN;
    hide OptionOf;
    WordStep(a, PLAIN, rest);
  }

  lemma NothingFollows(name: string)
    requires OptionOf(name).next && name != "--"
    ensures Replayed(OptionOf, [name]) == Error(MissingValue)
  {
    hide OptionOf;
    assert [name][0] == name;
  }

  /** An option at the end without the value that it needs is refused. */
  lemma LetterNeedsValue(c: char)
    requires HasValue(c)
    ensures Replayed(OptionOf, ["-" + [c]]) == Error(MissingValue)
  {
    hide OptionOf, Replayed;
    LetterAlone(c, "");
    NothingFollows("-" + [c]);
  }

  lemma NameNeedsValue(name: string)
    requires name in ["--directory", "--file", "--makefile"] || name in VALUED
    ensures Replayed(OptionOf, [name]) == Error(MissingValue)
  {
    hide OptionOf, Replayed;
    if name in VALUED {
      var i: nat :| i < |VALUED| && VALUED[i] == name;
      ValuedNames(i);
      LongNeedsValue(3 + i);
    } else {
      LetterNames();
      TableHead();
      LongNeedsValue(if name == "--directory" then 0 else if name == "--file" then 1 else 2);
    }
  }

  lemma LongNeedsValue(i: nat)
    requires i < |LONG_OPTIONS| && LONG_OPTIONS[i].takesValue
    ensures Replayed(OptionOf, ["--" + LONG_OPTIONS[i].name]) == Error(MissingValue)
  {
    LongSelected(i);
    hide OptionOf, Replayed, LONG_OPTIONS, Selects;
    LongExactly(LONG_OPTIONS[i], "");
    NothingFollows("--" + LONG_OPTIONS[i].name);
  }
}
