/** Replaying the arguments of a running make: makeContractArguments drops the directory options, which
    make has already followed, and keeps every other argument with its value. */
module MakeContract {
  import opened Options
  import opened Strings

  datatype LongOption = LongOption(name: string, takesValue: bool, directory: bool, file: bool)

  const LONG_OPTIONS: seq<LongOption> := [
    LongOption("directory", true, true, false),
    LongOption("file", true, false, true),
    LongOption("makefile", true, false, true),
    LongOption("include-dir", true, false, false),
    LongOption("old-file", true, false, false),
    LongOption("assume-old", true, false, false),
    LongOption("what-if", true, false, false),
    LongOption("new-file", true, false, false),
    LongOption("assume-new", true, false, false),
    LongOption("eval", true, false, false),
    LongOption("jobserver-auth", true, false, false),
    LongOption("jobserver-fds", true, false, false),
    LongOption("jobs", false, false, false),
    LongOption("load-average", false, false, false),
    LongOption("max-load", false, false, false),
    LongOption("output-sync", false, false, false),
    LongOption("debug", false, false, false),
    LongOption("shuffle", false, false, false)
  ]

  /** makeArgumentOption: what one argument is, and what is left of it without a directory. */
  datatype ArgumentOption = ArgumentOption(directory: bool, file: bool, next: bool, value: string, retained: string)

  const PLAIN := ArgumentOption(false, false, false, "", "")

  // ---------- One argument ----------

  function Matches(options: seq<LongOption>, name: string): nat {
    if options == [] then 0
    else Matches(options[..|options| - 1], name) + if name <= options[|options| - 1].name then 1 else 0
  }

  function LastMatch(options: seq<LongOption>, name: string): (i: int)
    ensures -1 <= i < |options|
    ensures i >= 0 ==> name <= options[i].name
    ensures forall j :: i < j < |options| ==> !(name <= options[j].name)
  {
    if options == [] then -1
    else if name <= options[|options| - 1].name then |options| - 1
    else LastMatch(options[..|options| - 1], name)
  }

  /** makeContractLongOption. */
  function LongOptionFor(options: seq<LongOption>, name: string): Option<LongOption> {
    if name == "" then None
    else
      var i := Exact(options, name);
      if i < |options| then Some(options[i])
      else if Matches(options, name) == 1 && LastMatch(options, name) >= 0 then Some(options[LastMatch(options, name)])
      else None
  }

  function Exact(options: seq<LongOption>, name: string): (i: nat)
    ensures i <= |options|
    ensures i < |options| ==> options[i].name == name
    ensures forall j :: 0 <= j < i ==> options[j].name != name
  {
    if options == [] || options[0].name == name then 0 else 1 + Exact(options[1..], name)
  }

  predicate TakesRest(c: char) {
    c == 'C' || c == 'f' || c == 'I' || c == 'o' || c == 'W' || c == 'E'
  }

  predicate Stops(c: char) {
    c == 'j' || c == 'l' || c == 'O'
  }

  /** The letters of a cluster such as -kC, from one of them on. */
  function ClusterOption(argument: string, offset: nat): ArgumentOption
    requires 1 <= offset <= |argument|
    decreases |argument| - offset
  {
    if offset == |argument| || Stops(argument[offset]) then PLAIN
    else if TakesRest(argument[offset]) then
      var retained := argument[..offset];
      var value := argument[offset + 1..];
      ArgumentOption(argument[offset] == 'C', argument[offset] == 'f', value == "", value,
                     if retained == "-" then "" else retained)
    else ClusterOption(argument, offset + 1)
  }

  /** makeContractOption. */
  function OptionOf(argument: string): ArgumentOption {
    if "--" <= argument then
      var body := argument[2..];
      var e := Find(body, '=');
      match LongOptionFor(LONG_OPTIONS, body[..e])
      case None => PLAIN
      case Some(o) => ArgumentOption(o.directory, o.file, o.takesValue && e == |body|, if e < |body| then body[e + 1..] else "", "")
    else if argument == "" || argument[0] != '-' then PLAIN
    else ClusterOption(argument, 1)
  }

  // ---------- Abbreviated names ----------

  /** The option `i` is the only one that the name abbreviates. */
  ghost predicate Only(options: seq<LongOption>, name: string, i: int) {
    0 <= i < |options| && name <= options[i].name
    && forall j :: 0 <= j < |options| && name <= options[j].name ==> j == i
  }

  lemma {:induction false} NoneMatches(options: seq<LongOption>, name: string)
    ensures Matches(options, name) == 0 <==> forall j :: 0 <= j < |options| ==> !(name <= options[j].name)
    decreases |options|
  {
    if options != [] {
      var n := |options| - 1;
      NoneMatches(options[..n], name);
      assert forall j :: 0 <= j < n ==> options[..n][j] == options[j];
    }
  }

  lemma {:induction false} OneMatches(options: seq<LongOption>, name: string)
    ensures Matches(options, name) == 1 <==> exists i :: Only(options, name, i)
    ensures Matches(options, name) == 1 ==> Only(options, name, LastMatch(options, name))
    decreases |options|
  {
    if options != [] {
      var n := |options| - 1;
      var front := options[..n];
      OneMatches(front, name);
      NoneMatches(front, name);
      assert forall j :: 0 <= j < n ==> front[j] == options[j];
      if name <= options[n].name {
        if Matches(front, name) == 0 {
          assert Only(options, name, n);
        }
      } else {
        if i :| Only(options, name, i) {
          assert Only(front, name, i);
        }
        if i :| Only(front, name, i) {
          assert Only(options, name, i);
        }
      }
    }
  }

  /** A long name selects the option of that name, or else the only option that it abbreviates. */
  lemma LongOptionSelected(options: seq<LongOption>, name: string, o: LongOption)
    requires forall i, j :: 0 <= i < j < |options| ==> options[i].name != options[j].name
    ensures LongOptionFor(options, name) == Some(o) <==>
            && name != "" && o in options
            && (o.name == name ||
                (name <= o.name && (forall p :: p in options && name <= p.name ==> p == o)))
  {
    var x := Exact(options, name);
    OneMatches(options, name);
    if name != "" && o in options {
      var i :| 0 <= i < |options| && options[i] == o;
      if o.name == name {
        assert x == i;
      } else if name <= o.name && forall p :: p in options && name <= p.name ==> p == o {
        forall j | 0 <= j < |options| && name <= options[j].name
          ensures j == i
        {
          assert options[j] in options;
        }
        assert Only(options, name, i);
      }
    }
    if LongOptionFor(options, name) == Some(o) && x == |options| {
      var l := LastMatch(options, name);
      assert Only(options, name, l) && options[l] == o;
    }
  }

  // ---------- All arguments ----------

  /** How each argument is classified. */
  type Classify = string -> ArgumentOption

  /** What is left of a cluster without its directory takes no value, and a directory is no file. */
  ghost predicate Sound(opt: Classify) {
    && (forall a :: opt(a).retained != "" ==> opt(opt(a).retained) == PLAIN && opt(a).retained != "--")
    && (forall a :: opt(a).directory ==> !opt(a).file)
  }

  datatype Failure = MissingValue | StandardInput

  datatype Replay = Replay(arguments: seq<string>, remaining: seq<string>, hasFile: bool)

  datatype Result = Ok(replay: Replay) | Error(failure: Failure)

  /** An argument with the value that follows it, if it takes one. */
  datatype Group = Group(argument: string, value: Option<string>) {
    function Words(): seq<string> {
      [argument] + if value.Some? then [value.value] else []
    }

    /** What is kept of it. */
    function Kept(opt: Classify): seq<Group> {
      var o := opt(argument);
      if !o.directory then [this]
      else if o.retained == "" then []
      else [Group(o.retained, None)]
    }
  }

  /** The arguments as groups, up to a `--`, which starts the remaining ones. */
  datatype Parsed = Parsed(groups: seq<Group>, remaining: seq<string>) | Failed(failure: Failure)

  function Parse(opt: Classify, arguments: seq<string>): Parsed
    decreases |arguments|
  {
    if arguments == [] then Parsed([], [])
    else if arguments[0] == "--" then Parsed([], arguments)
    else
      var o := opt(arguments[0]);
      if o.next && |arguments| == 1 then Failed(MissingValue)
      else
        var value := if o.next then arguments[1] else o.value;
        if o.file && value == "-" then Failed(StandardInput)
        else
          var group := Group(arguments[0], if o.next then Some(arguments[1]) else None);
          match Parse(opt, arguments[if o.next then 2 else 1..])
          case Failed(f) => Failed(f)
          case Parsed(more, remaining) => Parsed([group] + more, remaining)
  }

  function Flatten(groups: seq<Group>): seq<string> {
    if groups == [] then [] else groups[0].Words() + Flatten(groups[1..])
  }

  function KeptOf(opt: Classify, groups: seq<Group>): seq<Group> {
    if groups == [] then [] else groups[0].Kept(opt) + KeptOf(opt, groups[1..])
  }

  predicate HasFile(opt: Classify, groups: seq<Group>) {
    exists g :: g in groups && opt(g.argument).file
  }

  /** What the replay should be. */
  function Replayed(opt: Classify, arguments: seq<string>): Result {
    match Parse(opt, arguments)
    case Failed(f) => Error(f)
    case Parsed(groups, remaining) => Ok(Replay(Flatten(KeptOf(opt, groups)), remaining, HasFile(opt, groups)))
  }

  /** What the parse of all arguments is, once the first groups are read. */
  function After(groups: seq<Group>, rest: Parsed): Parsed {
    match rest
    case Failed(f) => Failed(f)
    case Parsed(more, remaining) => Parsed(groups + more, remaining)
  }

  /** What the loop over the arguments has built from the groups so far. */
  ghost predicate Building(opt: Classify, arguments: seq<string>, index: nat, groups: seq<Group>, kept: seq<string>,
                           hasFile: bool) {
    && index <= |arguments|
    && kept == Flatten(KeptOf(opt, groups)) && hasFile == HasFile(opt, groups)
    && Parse(opt, arguments) == After(groups, Parse(opt, arguments[index..]))
  }

  lemma {:induction false} KeptConcat(opt: Classify, a: seq<Group>, b: seq<Group>)
    ensures KeptOf(opt, a + b) == KeptOf(opt, a) + KeptOf(opt, b)
    decreases |a|
  {
    if a == [] {
      assert a + b == b;
    } else {
      assert (a + b)[1..] == a[1..] + b;
      KeptConcat(opt, a[1..], b);
    }
  }

  lemma {:induction false} FlattenConcat(a: seq<Group>, b: seq<Group>)
    ensures Flatten(a + b) == Flatten(a) + Flatten(b)
    decreases |a|
  {
    if a == [] {
      assert a + b == b;
    } else {
      assert (a + b)[1..] == a[1..] + b;
      FlattenConcat(a[1..], b);
    }
  }

  lemma FlattenOne(opt: Classify, g: Group)
    ensures Flatten([g]) == g.Words() && KeptOf(opt, [g]) == g.Kept(opt)
  {
    assert [g][1..] == [];
  }

  /** The group at the head of the arguments can be read. */
  ghost predicate Heads(opt: Classify, arguments: seq<string>, g: Group) {
    arguments != [] && arguments[0] != "--" && arguments[0] == g.argument &&
    var o := opt(arguments[0]);
    && (o.next ==> |arguments| > 1 && g.value == Some(arguments[1]))
    && (!o.next ==> g.value == None)
    && !(o.file && (if o.next then arguments[1] else o.value) == "-")
  }

  lemma {:induction false} ParseGroup(opt: Classify, arguments: seq<string>, g: Group)
    requires Heads(opt, arguments, g)
    ensures 0 < |g.Words()| <= |arguments| && arguments == g.Words() + arguments[|g.Words()|..]
    ensures Parse(opt, arguments) == After([g], Parse(opt, arguments[|g.Words()|..]))
    ensures Parse(opt, arguments).Parsed? ==> Parse(opt, arguments[|g.Words()|..]).Parsed?
  {
  }

  lemma AfterTwice(a: seq<Group>, g: Group, rest: Parsed)
    ensures After(a, After([g], rest)) == After(a + [g], rest)
  {
    match rest
    case Failed(_) =>
    case Parsed(more, _) => assert a + ([g] + more) == a + [g] + more;
  }

  lemma {:induction false} KeptSnoc(opt: Classify, groups: seq<Group>, g: Group)
    ensures Flatten(KeptOf(opt, groups + [g])) == Flatten(KeptOf(opt, groups)) + Flatten(g.Kept(opt))
  {
    KeptConcat(opt, groups, [g]);
    FlattenOne(opt, g);
    FlattenConcat(KeptOf(opt, groups), g.Kept(opt));
  }

  /** One more group. */
  lemma BuildStep(opt: Classify, arguments: seq<string>, index: nat, groups: seq<Group>, kept: seq<string>,
                  hasFile: bool, g: Group)
    requires Building(opt, arguments, index, groups, kept, hasFile) && Heads(opt, arguments[index..], g)
    ensures Building(opt, arguments, index + |g.Words()|, groups + [g], kept + Flatten(g.Kept(opt)), hasFile || opt(g.argument).file)
  {
    ParseGroup(opt, arguments[index..], g);
    AfterTwice(groups, g, Parse(opt, arguments[index + |g.Words()|..]));
    KeptSnoc(opt, groups, g);
  }

  // ---------- Properties ----------

  /** Every group could be read back from the head of what is left. */
  ghost predicate Readable(opt: Classify, groups: seq<Group>) {
    forall g :: g in groups ==> Heads(opt, g.Words(), g)
  }

  lemma ParsedHead(opt: Classify, arguments: seq<string>) returns (g: Group)
    requires Parse(opt, arguments).Parsed? && arguments != [] && arguments[0] != "--"
    ensures Heads(opt, arguments, g) && Heads(opt, g.Words(), g)
  {
    var o := opt(arguments[0]);
    g := Group(arguments[0], if o.next then Some(arguments[1]) else None);
  }

  lemma {:induction false} FlattenFirst(g: Group, more: seq<Group>, remaining: seq<string>)
    ensures Flatten([g] + more) + remaining == g.Words() + (Flatten(more) + remaining)
  {
    assert ([g] + more)[1..] == more;
  }

  lemma {:induction false} ParseIsReadable(opt: Classify, arguments: seq<string>)
    requires Parse(opt, arguments).Parsed?
    ensures Readable(opt, Parse(opt, arguments).groups)
    ensures arguments == Flatten(Parse(opt, arguments).groups) + Parse(opt, arguments).remaining
    ensures Parse(opt, arguments).remaining != [] ==> Parse(opt, arguments).remaining[0] == "--"
    decreases |arguments|
  {
    if arguments != [] && arguments[0] != "--" {
      hide Parse, Heads, Flatten, Group.Words;
      var g := ParsedHead(opt, arguments);
      ParseGroup(opt, arguments, g);
      var rest := arguments[|g.Words()|..];
      ParseIsReadable(opt, rest);
      FlattenFirst(g, Parse(opt, rest).groups, Parse(opt, rest).remaining);
    }
  }

  lemma {:induction false} FlattenHead(groups: seq<Group>, remaining: seq<string>)
    requires groups != []
    ensures Flatten(groups) + remaining == groups[0].Words() + (Flatten(groups[1..]) + remaining)
  {
  }

  /** Readable groups parse back from their words. */
  lemma {:induction false} FlattenParses(opt: Classify, groups: seq<Group>, remaining: seq<string>)
    requires Readable(opt, groups) && (remaining != [] ==> remaining[0] == "--")
    ensures Parse(opt, Flatten(groups) + remaining) == Parsed(groups, remaining)
    decreases |groups|
  {
    if groups == [] {
      assert Flatten(groups) + remaining == remaining;
    } else {
      var g, more := groups[0], groups[1..];
      assert groups == [g] + more && g in groups;
      FlattenParses(opt, more, remaining);
      FlattenHead(groups, remaining);
    }
  }

  /** The kept groups: readable, without a directory option, and with the same file options. */
  lemma {:induction false} KeptAreReadable(opt: Classify, groups: seq<Group>)
    requires Sound(opt) && Readable(opt, groups)
    ensures Readable(opt, KeptOf(opt, groups)) && KeptOf(opt, KeptOf(opt, groups)) == KeptOf(opt, groups)
    ensures forall k :: k in KeptOf(opt, groups) ==> !opt(k.argument).directory
    ensures HasFile(opt, KeptOf(opt, groups)) <==> HasFile(opt, groups)
    decreases |groups|
  {
    if groups != [] {
      var g, more := groups[0], groups[1..];
      assert groups == [g] + more && g in groups;
      KeptAreReadable(opt, more);
      KeptConcat(opt, g.Kept(opt), KeptOf(opt, more));
    }
  }

  /** The replay reads as the same arguments without their directory options: each kept argument still
      has its value behind it, in the same order, and no directory option is left. */
  lemma {:induction false} ReplayKeepsGroups(opt: Classify, arguments: seq<string>)
    requires Sound(opt) && Parse(opt, arguments).Parsed?
    ensures var before, r := Parse(opt, arguments), Replayed(opt, arguments).replay;
            var after := Parse(opt, r.arguments + r.remaining);
            && after == Parsed(KeptOf(opt, before.groups), before.remaining)
            && forall g :: g in after.groups ==> !opt(g.argument).directory
  {
    ParseIsReadable(opt, arguments);
    var groups, remaining := Parse(opt, arguments).groups, Parse(opt, arguments).remaining;
    KeptAreReadable(opt, groups);
    FlattenParses(opt, KeptOf(opt, groups), remaining);
  }

  /** Replaying the replay changes nothing, and whether a makefile is named stays the same. */
  lemma ReplayTwice(opt: Classify, arguments: seq<string>)
    requires Sound(opt) && Replayed(opt, arguments).Ok?
    ensures var r := Replayed(opt, arguments).replay; Replayed(opt, r.arguments + r.remaining) == Ok(r)
  {
    ReplayKeepsGroups(opt, arguments);
    ParseIsReadable(opt, arguments);
    KeptAreReadable(opt, Parse(opt, arguments).groups);
  }

  // ---------- The loops over one argument ----------

  /** What the loop over the options has found so far. */
  ghost predicate Scanned(done: seq<LongOption>, name: string, last: Option<LongOption>, matchCount: nat) {
    && (forall j :: 0 <= j < |done| ==> done[j].name != name)
    && matchCount == Matches(done, name)
    && last == if LastMatch(done, name) < 0 then None else Some(done[LastMatch(done, name)])
  }

  lemma ScanStep(done: seq<LongOption>, option: LongOption, name: string, last: Option<LongOption>, matchCount: nat)
    requires Scanned(done, name, last, matchCount) && option.name != name
    ensures if name <= option.name then Scanned(done + [option], name, Some(option), matchCount + 1)
            else Scanned(done + [option], name, last, matchCount)
  {
    assert (done + [option])[..|done|] == done;
  }

  /** makeContractLongOption. */
  method ContractLongOption(options: seq<LongOption>, name: string) returns (selected: Option<LongOption>)
    ensures selected == LongOptionFor(options, name)
  {
    if name == "" {
      return None;
    }
    var last: Option<LongOption> := None;
    var matchCount := 0;
    for i := 0 to |options|
      invariant Scanned(options[..i], name, last, matchCount)
    {
      if options[i].name == name {
        ExactIs(options, name, i);
        return Some(options[i]);
      }
      assert options[..i + 1] == options[..i] + [options[i]];
      ScanStep(options[..i], options[i], name, last, matchCount);
      if name <= options[i].name {
        last := Some(options[i]);
        matchCount := matchCount + 1;
      }
    }
    assert options[..|options|] == options;
    NoMatches(options, name);
    return if matchCount == 1 then last else None;
  }

  lemma {:induction false} ExactIs(options: seq<LongOption>, name: string, i: nat)
    requires i < |options| && options[i].name == name
    requires forall j :: 0 <= j < i ==> options[..i][j].name != name
    ensures Exact(options, name) == i
  {
    assert forall j :: 0 <= j < i ==> options[..i][j] == options[j];
  }

  lemma {:induction false} NoMatches(options: seq<LongOption>, name: string)
    ensures LastMatch(options, name) < 0 <==> Matches(options, name) == 0
    decreases |options|
  {
    if options != [] {
      NoMatches(options[..|options| - 1], name);
    }
  }

  /** The letters of a cluster, as the loop goes through them. */
  method ContractCluster(argument: string) returns (o: ArgumentOption)
    requires |argument| >= 1
    ensures o == ClusterOption(argument, 1)
  {
    for offset := 1 to |argument|
      invariant ClusterOption(argument, offset) == ClusterOption(argument, 1)
    {
      var c := argument[offset];
      if TakesRest(c) {
        var retained := argument[..offset];
        if retained == "-" {
          retained := "";
        }
        var value := argument[offset + 1..];
        return ArgumentOption(c == 'C', c == 'f', value == "", value, retained);
      }
      if Stops(c) {
        return PLAIN;
      }
    }
    return PLAIN;
  }

  // ---------- What an argument means ----------

  /** Where a cluster takes the rest of the argument: the first letter with a value, unless a letter
      before it ends the options. */
  ghost predicate RestAt(argument: string, offset: nat) {
    && 1 <= offset < |argument| && TakesRest(argument[offset])
    && forall i :: 1 <= i < offset ==> !TakesRest(argument[i]) && !Stops(argument[i])
  }

  /** The argument is a long option of this name, with a value behind an equals sign if any. */
  ghost predicate LongForm(argument: string, name: string, value: Option<string>) {
    '=' !in name && argument == "--" + name + if value.Some? then "=" + value.value else ""
  }

  /** The option of that name, or the only one that the name abbreviates. */
  ghost predicate Selects(name: string, l: LongOption) {
    && name != "" && l in LONG_OPTIONS
    && (l.name == name || (name <= l.name && forall p :: p in LONG_OPTIONS && name <= p.name ==> p == l))
  }

  ghost predicate ClusterMeans(argument: string, o: ArgumentOption) {
    && (forall offset: nat :: RestAt(argument, offset) ==>
          o == ArgumentOption(argument[offset] == 'C', argument[offset] == 'f', offset + 1 == |argument|,
                              argument[offset + 1..], if offset == 1 then "" else argument[..offset]))
    && ((forall offset: nat :: !RestAt(argument, offset)) ==> o == PLAIN)
  }

  ghost predicate LongMeans(argument: string, o: ArgumentOption) {
    && (forall name, value, l :: LongForm(argument, name, value) && Selects(name, l) ==>
          o == ArgumentOption(l.directory, l.file, l.takesValue && value.None?, value.GetOr(""), ""))
    && (forall name, value :: LongForm(argument, name, value) && (forall l :: !Selects(name, l)) ==> o == PLAIN)
  }

  lemma {:induction false} ClusterIs(argument: string, from: nat)
    requires 1 <= from <= |argument| && argument[0] == '-'
    requires forall i :: 1 <= i < from ==> !TakesRest(argument[i]) && !Stops(argument[i])
    ensures ClusterMeans(argument, ClusterOption(argument, from))
    decreases |argument| - from
  {
    if from == |argument| || Stops(argument[from]) {
      assert forall offset :: !RestAt(argument, offset);
    } else if TakesRest(argument[from]) {
      assert RestAt(argument, from);
      assert forall offset :: RestAt(argument, offset) ==> offset == from;
    } else {
      ClusterIs(argument, from + 1);
    }
  }

  lemma TableNamesDiffer()
    ensures forall i, j :: 0 <= i < j < |LONG_OPTIONS| ==> LONG_OPTIONS[i].name != LONG_OPTIONS[j].name
  {
  }

  lemma LongFormIs(argument: string, name: string, value: Option<string>)
    requires LongForm(argument, name, value)
    ensures "--" <= argument
    ensures var body := argument[2..]; var e := Find(body, '=');
            && body[..e] == name && (value.Some? <==> e < |body|)
            && value.GetOr("") == if e < |body| then body[e + 1..] else ""
  {
    var body := argument[2..];
    assert body == name + if value.Some? then "=" + value.value else "";
    assert body[..|name|] == name;
    assert forall i :: 0 <= i < |name| ==> body[i] == name[i];
    assert value.Some? ==> body[|name|] == '=';
    if value.Some? {
      assert body[|name| + 1..] == value.value;
    }
  }

  lemma LongIs(argument: string)
    requires "--" <= argument
    ensures LongMeans(argument, OptionOf(argument))
  {
    forall name, value | LongForm(argument, name, value)
      ensures forall l :: Selects(name, l) <==> LongOptionFor(LONG_OPTIONS, name) == Some(l)
      ensures OptionOf(argument) ==
              match LongOptionFor(LONG_OPTIONS, name)
              case None => PLAIN
              case Some(l) => ArgumentOption(l.directory, l.file, l.takesValue && value.None?, value.GetOr(""), "")
    {
      LongFormIs(argument, name, value);
      TableNamesDiffer();
      forall l
        ensures Selects(name, l) <==> LongOptionFor(LONG_OPTIONS, name) == Some(l)
      {
        LongOptionSelected(LONG_OPTIONS, name, l);
      }
    }
  }

  /** makeContractOption: a long option by its name or its only abbreviation, a cluster by its first
      letter that takes the rest of the argument. */
  method ContractOption(argument: string) returns (o: ArgumentOption)
    ensures "--" <= argument ==> LongMeans(argument, o)
    ensures "-" <= argument && !("--" <= argument) ==> ClusterMeans(argument, o)
    ensures !("-" <= argument) ==> o == PLAIN
    ensures o == OptionOf(argument)
  {
    if "--" <= argument {
      LongIs(argument);
      hide LongMeans;
      var body := argument[2..];
      var e := Find(body, '=');
      var found := ContractLongOption(LONG_OPTIONS, body[..e]);
      match found
      case None => return PLAIN;
      case Some(l) =>
        return ArgumentOption(l.directory, l.file, l.takesValue && e == |body|, if e < |body| then body[e + 1..] else "", "");
    }
    if argument == "" || argument[0] != '-' {
      return PLAIN;
    }
    ClusterIs(argument, 1);
    o := ContractCluster(argument);
  }

  lemma {:induction false} RetainedCluster(argument: string, offset: nat, from: nat)
    requires 1 <= from <= offset <= |argument|
    requires forall i :: from <= i < offset ==> !TakesRest(argument[i]) && !Stops(argument[i])
    ensures ClusterOption(argument[..offset], from) == PLAIN
    decreases offset - from
  {
    if from < offset {
      assert argument[..offset][from] == argument[from];
      RetainedCluster(argument, offset, from + 1);
    }
  }

  /** Where a cluster takes its rest. */
  lemma {:induction false} ClusterStop(argument: string, from: nat) returns (offset: nat)
    requires 1 <= from <= |argument| && ClusterOption(argument, from) != PLAIN
    ensures from <= offset < |argument| && TakesRest(argument[offset])
    ensures forall i :: from <= i < offset ==> !TakesRest(argument[i]) && !Stops(argument[i])
    ensures ClusterOption(argument, from).retained == if argument[..offset] == "-" then "" else argument[..offset]
    ensures ClusterOption(argument, from).directory <==> argument[offset] == 'C'
    ensures ClusterOption(argument, from).file <==> argument[offset] == 'f'
    decreases |argument| - from
  {
    if TakesRest(argument[from]) {
      offset := from;
    } else {
      offset := ClusterStop(argument, from + 1);
    }
  }

  /** What is left of a cluster without its directory is no option with a value, and not `--`. */
  lemma RetainedIsPlain(argument: string)
    requires OptionOf(argument).retained != ""
    ensures OptionOf(OptionOf(argument).retained) == PLAIN && OptionOf(argument).retained != "--"
  {
    var offset := ClusterStop(argument, 1);
    var retained := argument[..offset];
    assert argument[..2] == [argument[0], argument[1]];
    assert offset == 1 ==> retained == "-";
    assert retained[0] == '-' && retained[1] == argument[1];
    RetainedCluster(argument, offset, 1);
  }

  lemma TableHasNoDirectoryFile()
    ensures forall i :: 0 <= i < |LONG_OPTIONS| && LONG_OPTIONS[i].directory ==> !LONG_OPTIONS[i].file
  {
  }

  lemma DirectoryIsNoFile(argument: string)
    requires OptionOf(argument).directory
    ensures !OptionOf(argument).file
  {
    if "--" <= argument {
      var body := argument[2..];
      var found := LongOptionFor(LONG_OPTIONS, body[..Find(body, '=')]);
      assert found.value in LONG_OPTIONS;
      TableHasNoDirectoryFile();
    } else {
      var offset := ClusterStop(argument, 1);
    }
  }

  /** The options of make are classified soundly, so the replay has all the properties above. */
  lemma OptionsAreSound()
    ensures Sound(OptionOf)
  {
    forall a
      ensures OptionOf(a).retained != "" ==> OptionOf(OptionOf(a).retained) == PLAIN && OptionOf(a).retained != "--"
      ensures OptionOf(a).directory ==> !OptionOf(a).file
    {
      if OptionOf(a).retained != "" {
        RetainedIsPlain(a);
      }
      if OptionOf(a).directory {
        DirectoryIsNoFile(a);
      }
    }
  }

  lemma BuildingStarts(opt: Classify, arguments: seq<string>)
    ensures Building(opt, arguments, 0, [], [], false)
  {
    assert arguments[0..] == arguments;
  }

  lemma BuildingEnds(opt: Classify, arguments: seq<string>, index: nat, groups: seq<Group>, kept: seq<string>,
                     hasFile: bool)
    requires Building(opt, arguments, index, groups, kept, hasFile)
    ensures index <= |arguments|
    ensures index == |arguments| || arguments[index] == "--" ==>
              Replayed(opt, arguments) == Ok(Replay(kept, arguments[index..], hasFile))
    ensures Parse(opt, arguments[index..]).Failed? ==>
              Replayed(opt, arguments) == Error(Parse(opt, arguments[index..]).failure)
  {
    assert groups + [] == groups;
  }

  datatype Taken = Took(group: Group) | Bad(failure: Failure)

  method ClassifiedOption(argument: string, ghost opt: Classify) returns (o: ArgumentOption)
    requires forall a {:trigger OptionOf(a)} :: opt(a) == OptionOf(a)
    ensures o == opt(argument)
  {
    o := ContractOption(argument);
  }

  /** One argument with its value, or why it cannot be replayed. */
  method TakeGroup(arguments: seq<string>, option: ArgumentOption, ghost opt: Classify) returns (taken: Taken)
    requires arguments != [] && arguments[0] != "--" && option == opt(arguments[0])
    ensures taken.Took? ==> Heads(opt, arguments, taken.group)
    ensures taken.Bad? ==> Parse(opt, arguments) == Failed(taken.failure)
  {
    var value := option.value;
    if option.next {
      if 1 >= |arguments| {
        return Bad(MissingValue);
      }
      value := arguments[1];
    }
    if option.file && value == "-" {
      return Bad(StandardInput);
    }
    return Took(Group(arguments[0], if option.next then Some(value) else None));
  }

  method KeepGroup(kept: seq<string>, group: Group, option: ArgumentOption,
                   ghost opt: Classify) returns (now: seq<string>)
    requires option == opt(group.argument)
    ensures now == kept + Flatten(group.Kept(opt))
  {
    if option.directory {
      return if option.retained != "" then kept + [option.retained] else kept;
    }
    now := kept + [group.argument];
    if group.value.Some? {
      now := now + [group.value.value];
    }
  }

  /** One round: the next group, once it is part of what has been built. */
  method NextGroup(arguments: seq<string>, index: nat, option: ArgumentOption, ghost groups: seq<Group>,
                   ghost kept: seq<string>,
                   ghost hasFile: bool, ghost opt: Classify)
    returns (taken: Taken)
    requires index < |arguments| && arguments[index] != "--" && option == opt(arguments[index])
    requires Building(opt, arguments, index, groups, kept, hasFile)
    ensures taken.Bad? ==> Replayed(opt, arguments) == Error(taken.failure)
    ensures taken.Took? ==>
              && taken.group.argument == arguments[index]
              && Building(opt, arguments, index + |taken.group.Words()|, groups + [taken.group],
                          kept + Flatten(taken.group.Kept(opt)), hasFile || option.file)
  {
    hide Building, Replayed;
    assert arguments[index..][0] == arguments[index];
    taken := TakeGroup(arguments[index..], option, opt);
    if taken.Bad? {
      BuildingEnds(opt, arguments, index, groups, kept, hasFile);
    } else {
      BuildStep(opt, arguments, index, groups, kept, hasFile, taken.group);
    }
  }

  /** The loop of makeContractArguments, for options that are classified as makeContractOption does. */
  method ReplayArguments(arguments: seq<string>, ghost opt: Classify) returns (result: Result)
    requires forall a {:trigger OptionOf(a)} :: opt(a) == OptionOf(a)
    ensures result == Replayed(opt, arguments)
  {
    hide Building, Replayed;
    var kept: seq<string> := [];
    var hasFile := false;
    ghost var groups: seq<Group> := [];
    var index := 0;
    BuildingStarts(opt, arguments);
    while index < |arguments|
      invariant Building(opt, arguments, index, groups, kept, hasFile)
    {
      if arguments[index] == "--" {
        BuildingEnds(opt, arguments, index, groups, kept, hasFile);
        return Ok(Replay(kept, arguments[index..], hasFile));
      }
      var option := ClassifiedOption(arguments[index], opt);
      var taken := NextGroup(arguments, index, option, groups, kept, hasFile, opt);
      if taken.Bad? {
        return Error(taken.failure);
      }
      groups := groups + [taken.group];
      hasFile := hasFile || option.file;
      index := index + |taken.group.Words()|;
      kept := KeepGroup(kept, taken.group, option, opt);
    }
    BuildingEnds(opt, arguments, index, groups, kept, hasFile);
    assert arguments[index..] == [];
    return Ok(Replay(kept, [], hasFile));
  }

  /** makeContractArguments. */
  method MakeContractArguments(arguments: seq<string>) returns (result: Result)
    ensures result == Replayed(OptionOf, arguments)
  {
    result := ReplayArguments(arguments, OptionOf);
  }
}
