/** Step outputs in the heredoc form of GitHub Actions: what writeCacheManifestGitHubOutputs appends
    parses back to exactly the values, whatever lines they hold. */
module GitHubOutput {
  import opened Lines
  import opened Options

  const DELIMITER := "__GO_MK_CACHE_OUTPUT__"

  const OUTPUT_NAMES := [
    "generated_cache_enabled", "generated_cache_requires_submodules", "generated_cache_paths",
    "generated_cache_key", "generated_cache_warnings", "cgo_cache_enabled", "cgo_cache_paths",
    "cgo_cache_key", "lint_cache_paths"
  ]

  datatype Output = Output(name: string, value: string)

  // ---------- Reading ----------

  /** Where the two angle brackets of a heredoc line stand, or the length. */
  function Brackets(line: string): (i: nat)
    ensures i <= |line|
  {
    if |line| < 2 then |line|
    else if line[0] == '<' && line[1] == '<' then 0
    else 1 + Brackets(line[1..])
  }

  /** The first line equal to the delimiter. */
  function FindLine(lines: seq<string>, line: string): (i: nat)
    ensures i <= |lines|
    ensures i < |lines| ==> lines[i] == line
    ensures forall j :: 0 <= j < i ==> lines[j] != line
  {
    if lines == [] || lines[0] == line then 0 else 1 + FindLine(lines[1..], line)
  }

  /** How the runner reads an output file: blank lines aside, each output opens with a name and a
      delimiter and ends at the first line that is exactly the delimiter. */
  function Parse(lines: seq<string>): Option<seq<Output>>
    decreases |lines|
  {
    if lines == [] then Some([])
    else if lines[0] == "" then Parse(lines[1..])
    else
      var i := Brackets(lines[0]);
      if i + 2 > |lines[0]| then None
      else
        var rest := lines[1..];
        var k := FindLine(rest, lines[0][i + 2..]);
        if k == |rest| then None
        else
          match Parse(rest[k + 1..])
          case None => None
          case Some(more) => Some([Output(lines[0][..i], Join(rest[..k]))] + more)
  }

  // ---------- Writing ----------

  function Heredoc(name: string, delimiter: string, value: string): string {
    name + "<<" + delimiter + "\n" + (value + "\n" + (delimiter + "\n"))
  }

  function Rendered(outputs: seq<Output>, delimiter: string): string {
    if outputs == [] then ""
    else Heredoc(outputs[0].name, delimiter, outputs[0].value) + Rendered(outputs[1..], delimiter)
  }

  /** A name that no other part of a heredoc line can be taken for. */
  predicate PlainName(name: string) {
    name != "" && OneLine(name) && '<' !in name
  }

  lemma OutputNamesArePlain()
    ensures forall name :: name in OUTPUT_NAMES ==> PlainName(name)
  {
    forall i | 0 <= i < |OUTPUT_NAMES|
      ensures PlainName(OUTPUT_NAMES[i])
    {
    }
  }

  predicate Free(delimiter: string, value: string) {
    delimiter !in Split(value)
  }

  lemma {:induction false} BracketsAre(name: string, rest: string)
    requires '<' !in name
    ensures Brackets(name + "<<" + rest) == |name|
    decreases |name|
  {
    var line := name + "<<" + rest;
    if name != "" {
      assert line[0] == name[0] && name[0] in name;
      assert line[1..] == name[1..] + "<<" + rest;
      BracketsAre(name[1..], rest);
    }
  }

  lemma {:induction false} FindLineUnique(lines: seq<string>, line: string, i: nat)
    requires i < |lines| && lines[i] == line && forall j :: 0 <= j < i ==> lines[j] != line
    ensures FindLine(lines, line) == i
  {
  }

  lemma {:induction false} HeredocLines(name: string, delimiter: string, value: string, more: string)
    requires PlainName(name) && OneLine(delimiter)
    ensures Split(Heredoc(name, delimiter, value) + more) ==
            [name + "<<" + delimiter] + (Split(value) + ([delimiter] + Split(more)))
  {
    var head := name + "<<" + delimiter;
    assert OneLine(head);
    assert Heredoc(name, delimiter, value) + more == head + "\n" + (value + "\n" + (delimiter + "\n" + more));
    SplitLine(head, value + "\n" + (delimiter + "\n" + more));
    SplitConcat(value, delimiter + "\n" + more);
    SplitLine(delimiter, more);
  }

  lemma {:induction false} ParseHeredoc(head: string, name: string, delimiter: string, body: seq<string>,
                                        rest: seq<string>)
    requires PlainName(name) && head == name + "<<" + delimiter && delimiter !in body
    ensures Parse([head] + (body + ([delimiter] + rest))) ==
            match Parse(rest)
            case None => None
            case Some(more) => Some([Output(name, Join(body))] + more)
  {
    var lines := [head] + (body + ([delimiter] + rest));
    BracketsAre(name, delimiter);
    assert head[..|name|] == name && head[|name| + 2..] == delimiter;
    var tail := body + ([delimiter] + rest);
    assert lines[1..] == tail;
    FindLineUnique(tail, delimiter, |body|);
    assert tail[..|body|] == body && tail[|body| + 1..] == rest;
  }

  /** What was written parses back to exactly what was meant, for every delimiter that is not a line of
      a value. */
  lemma {:induction false} WrittenParsesBack(outputs: seq<Output>, delimiter: string)
    requires OneLine(delimiter) && forall o :: o in outputs ==> PlainName(o.name) && Free(delimiter, o.value)
    ensures Parse(Split(Rendered(outputs, delimiter))) == Some(outputs)
    decreases |outputs|
  {
    if outputs == [] {
      SplitOne("");
      assert [""][1..] == [];
    } else {
      var o, more := outputs[0], Rendered(outputs[1..], delimiter);
      assert o in outputs;
      HeredocLines(o.name, delimiter, o.value, more);
      ParseHeredoc(o.name + "<<" + delimiter, o.name, delimiter, Split(o.value), Split(more));
      JoinSplit(o.value);
      WrittenParsesBack(outputs[1..], delimiter);
      assert outputs == [o] + outputs[1..];
    }
  }

  // ---------- The search for a delimiter and the writer ----------

  ghost predicate FreeOfAll(delimiter: string, values: map<string, string>) {
    forall name :: name in values ==> Free(delimiter, values[name])
  }

  /** cacheManifestValuesContainDelimiter. */
  method ValuesContainDelimiter(values: map<string, string>, delimiter: string) returns (found: bool)
    ensures found <==> !FreeOfAll(delimiter, values)
  {
    var left := values.Keys;
    while left != {}
      invariant left <= values.Keys
      invariant forall name :: name in values && name !in left ==> Free(delimiter, values[name])
      decreases left
    {
      var name :| name in left;
      var lines := Split(values[name]);
      for i := 0 to |lines|
        invariant delimiter !in lines[..i]
      {
        if lines[i] == delimiter {
          assert !Free(delimiter, values[name]);
          return true;
        }
        assert lines[..i + 1] == lines[..i] + [lines[i]];
      }
      assert lines[..|lines|] == lines;
      left := left - {name};
    }
    return false;
  }

  function Extended(suffix: string): string {
    DELIMITER + "-" + suffix
  }

  /** cacheManifestOutputDelimiterFor, for the suffixes that the random source gives; None when it
      fails, or when the search is still going on after all of them. */
  method DelimiterFor(values: map<string, string>, suffixes: seq<string>) returns (delimiter: Option<string>)
    ensures FreeOfAll(DELIMITER, values) ==> delimiter == Some(DELIMITER)
    ensures delimiter.Some? ==>
              && FreeOfAll(delimiter.value, values)
              && (delimiter.value == DELIMITER || exists s :: s in suffixes && delimiter.value == Extended(s))
    ensures delimiter.None? <==>
              !FreeOfAll(DELIMITER, values) && forall s :: s in suffixes ==> !FreeOfAll(Extended(s), values)
  {
    hide FreeOfAll, Extended;
    var candidate := DELIMITER;
    var next := 0;
    var taken := ValuesContainDelimiter(values, candidate);
    while taken
      invariant 0 <= next <= |suffixes| && (taken <==> !FreeOfAll(candidate, values))
      invariant candidate == if next == 0 then DELIMITER else Extended(suffixes[next - 1])
      invariant next > 0 || taken ==> !FreeOfAll(DELIMITER, values)
      invariant forall i :: 0 <= i < next && (i < next - 1 || taken) ==> !FreeOfAll(Extended(suffixes[i]), values)
      decreases |suffixes| - next, taken
    {
      if next == |suffixes| {
        return None;
      }
      candidate := Extended(suffixes[next]);
      next := next + 1;
      taken := ValuesContainDelimiter(values, candidate);
    }
    assert next > 0 ==> suffixes[next - 1] in suffixes;
    return Some(candidate);
  }

  /** cacheManifestResult. */
  datatype Manifest = Manifest(enabled: string, requiresSubmodules: string, paths: string, key: string,
                               warnings: string, cgoEnabled: string, cgoPaths: string, cgoKey: string,
                               lintCachePaths: string)
  {
    function Values(): map<string, string> {
      map[
        "generated_cache_enabled" := enabled,
        "generated_cache_requires_submodules" := requiresSubmodules,
        "generated_cache_paths" := paths,
        "generated_cache_key" := key,
        "generated_cache_warnings" := warnings,
        "cgo_cache_enabled" := cgoEnabled,
        "cgo_cache_paths" := cgoPaths,
        "cgo_cache_key" := cgoKey,
        "lint_cache_paths" := lintCachePaths
      ]
    }

    /** What a step that reads the outputs is to see. */
    function Outputs(): seq<Output> {
      [
        Output("generated_cache_enabled", enabled),
        Output("generated_cache_requires_submodules", requiresSubmodules),
        Output("generated_cache_paths", paths),
        Output("generated_cache_key", key),
        Output("generated_cache_warnings", warnings),
        Output("cgo_cache_enabled", cgoEnabled),
        Output("cgo_cache_paths", cgoPaths),
        Output("cgo_cache_key", cgoKey),
        Output("lint_cache_paths", lintCachePaths)
      ]
    }
  }

  lemma {:induction false} RenderedSnoc(outputs: seq<Output>, o: Output, delimiter: string)
    ensures Rendered(outputs + [o], delimiter) == Rendered(outputs, delimiter) + Heredoc(o.name, delimiter, o.value)
    decreases |outputs|
  {
    if outputs == [] {
      assert [o][1..] == [] && [] + [o] == [o];
    } else {
      assert (outputs + [o])[1..] == outputs[1..] + [o];
      RenderedSnoc(outputs[1..], o, delimiter);
    }
  }

  ghost predicate Matching(outputs: seq<Output>, names: seq<string>, values: map<string, string>) {
    |outputs| == |names| && forall i :: 0 <= i < |names| ==> names[i] in values && outputs[i] == Output(names[i], values[names[i]])
  }

  lemma ManifestOutputs(m: Manifest)
    ensures Matching(m.Outputs(), OUTPUT_NAMES, m.Values())
  {
  }

  lemma OutputsAreFree(m: Manifest, delimiter: string)
    requires FreeOfAll(delimiter, m.Values())
    ensures forall o :: o in m.Outputs() ==> PlainName(o.name) && Free(delimiter, o.value)
  {
    ManifestOutputs(m);
    OutputNamesArePlain();
    forall i | 0 <= i < |m.Outputs()|
      ensures PlainName(m.Outputs()[i].name) && Free(delimiter, m.Outputs()[i].value)
    {
      assert OUTPUT_NAMES[i] in OUTPUT_NAMES;
    }
  }

  method WriteOutputs(names: seq<string>, values: map<string, string>, delimiter: string, ghost outputs: seq<Output>)
      returns (text: string)
    requires Matching(outputs, names, values)
    ensures text == Rendered(outputs, delimiter)
  {
    text := "";
    for i := 0 to |names|
      invariant text == Rendered(outputs[..i], delimiter)
    {
      text := text + (names[i] + "<<" + delimiter + "\n" + (values[names[i]] + "\n" + (delimiter + "\n")));
      RenderedSnoc(outputs[..i], outputs[i], delimiter);
      assert outputs[..i + 1] == outputs[..i] + [outputs[i]];
    }
    assert outputs[..|names|] == outputs;
  }

  lemma {:induction false} OutputParsesBack(m: Manifest, delimiter: string)
    requires OneLine(delimiter) && FreeOfAll(delimiter, m.Values())
    ensures Parse(Split(Rendered(m.Outputs(), delimiter))) == Some(m.Outputs())
  {
    OutputsAreFree(m, delimiter);
    WrittenParsesBack(m.Outputs(), delimiter);
  }

  /** writeCacheManifestGitHubOutputs: what it appends parses back to the fields of the result, each
      under its own name. */
  method WriteGitHubOutputs(m: Manifest, suffixes: seq<string>) returns (appended: Option<string>)
    requires forall s :: s in suffixes ==> OneLine(s)
    ensures appended.Some? ==> Parse(Split(appended.value)) == Some(m.Outputs())
    ensures FreeOfAll(DELIMITER, m.Values()) ==> appended.Some?
  {
    hide Parse, Split, Rendered, FreeOfAll, Matching, Manifest.Outputs, Manifest.Values;
    var found := DelimiterFor(m.Values(), suffixes);
    if found.None? {
      return None;
    }
    ManifestOutputs(m);
    var text := WriteOutputs(OUTPUT_NAMES, m.Values(), found.value, m.Outputs());
    OutputParsesBack(m, found.value);
    return Some(text);
  }
}
