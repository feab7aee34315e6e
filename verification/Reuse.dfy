/** Reusing a build: the stamp of one mode holds the fingerprint of every input and the digest of
    every output.  A run is reused exactly when the tree is the recorded one. */
module Reuse {
  import opened Options
  import opened Fingerprint

  const DIGEST_LENGTH := 64
  const VERSION := "1"

  type Hash = string -> string

  /** Digests are hexadecimal, of one length, and tell contents apart. */
  ghost predicate GoodHash(h: Hash) {
    && (forall s :: |h(s)| == DIGEST_LENGTH && NUL !in h(s))
    && (forall s, t :: h(s) == h(t) ==> s == t)
  }

  datatype Bin = Bin(name: string, mainPkg: string, dir: string)

  datatype Config = Config(bins: seq<Bin>, distDir: string)

  /** Everything a run reads: the engine binary and the list of sources, unless they cannot be had,
      the exported settings, the config files that are present, and the files on disk. */
  datatype World = World(engine: Option<string>, environment: seq<string>, sources: Option<seq<string>>,
                         configs: seq<string>, files: map<string, string>)

  /** filepath.Join. */
  type Join = (string, string) -> string

  // ---------- The fingerprint ----------

  predicate Readable(w: World, paths: seq<string>) {
    forall p :: p in paths ==> p in w.files
  }

  /** The records of a list of values. */
  function Labelled(kind: string, values: seq<string>): (records: seq<Record>)
    ensures |records| == |values|
    ensures forall i :: 0 <= i < |values| ==> records[i] == Record(kind, values[i])
  {
    seq(|values|, i requires 0 <= i < |values| => Record(kind, values[i]))
  }

  function Specs(bins: seq<Bin>): (specs: seq<string>)
    ensures |specs| == |bins|
    ensures forall i :: 0 <= i < |bins| ==> specs[i] == bins[i].name + "|" + bins[i].mainPkg + "|" + bins[i].dir
  {
    seq(|bins|, i requires 0 <= i < |bins| => bins[i].name + "|" + bins[i].mainPkg + "|" + bins[i].dir)
  }

  function FileValues(w: World, paths: seq<string>, h: Hash): (values: seq<string>)
    requires Readable(w, paths)
    ensures |values| == |paths|
    ensures forall i :: 0 <= i < |paths| ==> paths[i] in w.files && values[i] == paths[i] + " " + h(w.files[paths[i]])
  {
    seq(|paths|, i requires 0 <= i < |paths| && paths[i] in w.files => paths[i] + " " + h(w.files[paths[i]]))
  }

  predicate Known(w: World) {
    w.sources.Some? && w.engine.Some? && Readable(w, w.sources.value) && Readable(w, w.configs)
  }

  /** The values of one kind. */
  datatype Part = Part(kind: string, values: seq<string>)

  function Records(parts: seq<Part>): seq<Record> {
    if parts == [] then []
    else
      var n := |parts| - 1;
      Records(parts[..n]) + Labelled(parts[n].kind, parts[n].values)
  }

  function Parts(mode: string, cfg: Config, w: World, h: Hash): seq<Part>
    requires Known(w)
  {
    [Part("version", [VERSION]), Part("mode", [mode]), Part("engine", [w.engine.value]),
     Part("env", w.environment), Part("bin", Specs(cfg.bins)), Part("dist", [cfg.distDir]),
     Part("source", FileValues(w, w.sources.value, h)), Part("config", FileValues(w, w.configs, h))]
  }

  /** The fingerprint, when every input can be read. */
  function FingerprintOf(mode: string, cfg: Config, w: World, h: Hash): Option<string> {
    if Known(w) then Some(h(Encode(Records(Parts(mode, cfg, w, h))))) else None
  }

  // ---------- The running hash ----------

  lemma {:induction false} EncodeSnoc(records: seq<Record>, r: Record)
    ensures Encode(records + [r]) == Encode(records) + r.Bytes()
  {
    EncodeConcat(records, [r]);
    assert [r][1..] == [];
    assert r.Bytes() + "" == r.Bytes();
  }

  lemma {:induction false} LabelledStep(before: seq<Record>, kind: string, values: seq<string>, i: nat)
    requires i < |values|
    ensures Encode(before + Labelled(kind, values[..i + 1])) ==
            Encode(before + Labelled(kind, values[..i])) + Record(kind, values[i]).Bytes()
  {
    assert before + Labelled(kind, values[..i + 1]) == before + Labelled(kind, values[..i]) + [Record(kind, values[i])];
    EncodeSnoc(before + Labelled(kind, values[..i]), Record(kind, values[i]));
  }

  lemma LabelledStart(before: seq<Record>, kind: string, values: seq<string>)
    ensures before + Labelled(kind, values[..0]) == before
    ensures Labelled(kind, values[..|values|]) == Labelled(kind, values)
  {
    assert values[..|values|] == values;
  }

  method WriteLines(start: string, kind: string, values: seq<string>, ghost parts: seq<Part>) returns (stream: string)
    requires start == Encode(Records(parts))
    ensures stream == Encode(Records(parts + [Part(kind, values)]))
  {
    stream := start;
    ghost var before := Records(parts);
    LabelledStart(before, kind, values);
    for i := 0 to |values|
      invariant stream == Encode(before + Labelled(kind, values[..i]))
    {
      LabelledStep(before, kind, values, i);
      stream := stream + Record(kind, values[i]).Bytes();
    }
  }

  method WriteBins(start: string, bins: seq<Bin>, ghost parts: seq<Part>) returns (stream: string)
    requires start == Encode(Records(parts))
    ensures stream == Encode(Records(parts + [Part("bin", Specs(bins))]))
  {
    stream := start;
    ghost var before := Records(parts);
    LabelledStart(before, "bin", Specs(bins));
    for i := 0 to |bins|
      invariant stream == Encode(before + Labelled("bin", Specs(bins)[..i]))
    {
      LabelledStep(before, "bin", Specs(bins), i);
      stream := stream + Record("bin", bins[i].name + "|" + bins[i].mainPkg + "|" + bins[i].dir).Bytes();
    }
  }

  /** One more file: its path and digest behind those of the files before it. */
  lemma {:induction false} FileStep(before: seq<Record>, kind: string, w: World, paths: seq<string>, i: nat, h: Hash)
    requires i < |paths| && Readable(w, paths[..i]) && paths[i] in w.files
    ensures Readable(w, paths[..i + 1])
    ensures Encode(before + Labelled(kind, FileValues(w, paths[..i + 1], h))) ==
            Encode(before + Labelled(kind, FileValues(w, paths[..i], h)))
            + Record(kind, paths[i] + " " + h(w.files[paths[i]])).Bytes()
  {
    hide Encode, Labelled, Record.Bytes;
    assert paths[..i + 1] == paths[..i] + [paths[i]];
    var values := FileValues(w, paths[..i + 1], h);
    assert values[..i] == FileValues(w, paths[..i], h);
    assert values[..i + 1] == values;
    LabelledStep(before, kind, values, i);
  }

  lemma {:induction false} RecordsSnoc(parts: seq<Part>, p: Part)
    ensures Records(parts + [p]) == Records(parts) + Labelled(p.kind, p.values)
  {
    assert (parts + [p])[..|parts|] == parts;
  }

  lemma NoFiles(w: World, paths: seq<string>, h: Hash)
    ensures var none := FileValues(w, paths[..0], h); none == none[..0]
  {
  }

  /** hashFingerprintFiles: stops at the first file that cannot be read. */
  method HashFingerprintFiles(start: string, kind: string, w: World, paths: seq<string>, h: Hash,
                              ghost parts: seq<Part>)
    returns (stream: Option<string>)
    requires start == Encode(Records(parts))
    ensures stream.Some? <==> Readable(w, paths)
    ensures stream.Some? ==> stream.value == Encode(Records(parts + [Part(kind, FileValues(w, paths, h))]))
  {
    hide Encode, Labelled, FileValues, Record.Bytes;
    var s := start;
    ghost var before := Records(parts);
    LabelledStart(before, kind, FileValues(w, paths[..0], h));
    NoFiles(w, paths, h);
    for i := 0 to |paths|
      invariant Readable(w, paths[..i])
      invariant s == Encode(before + Labelled(kind, FileValues(w, paths[..i], h)))
    {
      if paths[i] !in w.files {
        return None;
      }
      FileStep(before, kind, w, paths, i, h);
      s := s + Record(kind, paths[i] + " " + h(w.files[paths[i]])).Bytes();
    }
    assert paths[..|paths|] == paths;
    RecordsSnoc(parts, Part(kind, FileValues(w, paths, h)));
    return Some(s);
  }

  lemma EncodeNothing()
    ensures "" == Encode(Records([]))
  {
  }

  /** reuseFingerprint. */
  method ReuseFingerprint(mode: string, cfg: Config, w: World, h: Hash) returns (fingerprint: Option<string>)
    ensures fingerprint == FingerprintOf(mode, cfg, w, h)
  {
    hide Encode, Records, FileValues, Specs, Readable;
    if w.sources.None? || w.engine.None? {
      return None;
    }
    EncodeNothing();
    ghost var p: seq<Part> := [];
    var stream := WriteLines("", "version", [VERSION], p);
    p := p + [Part("version", [VERSION])];
    stream := WriteLines(stream, "mode", [mode], p);
    p := p + [Part("mode", [mode])];
    stream := WriteLines(stream, "engine", [w.engine.value], p);
    p := p + [Part("engine", [w.engine.value])];
    stream := WriteLines(stream, "env", w.environment, p);
    p := p + [Part("env", w.environment)];
    stream := WriteBins(stream, cfg.bins, p);
    p := p + [Part("bin", Specs(cfg.bins))];
    stream := WriteLines(stream, "dist", [cfg.distDir], p);
    p := p + [Part("dist", [cfg.distDir])];
    var sources := HashFingerprintFiles(stream, "source", w, w.sources.value, h, p);
    if sources.None? {
      return None;
    }
    p := p + [Part("source", FileValues(w, w.sources.value, h))];
    var configs := HashFingerprintFiles(sources.value, "config", w, w.configs, h, p);
    if configs.None? {
      return None;
    }
    p := p + [Part("config", FileValues(w, w.configs, h))];
    assert p == Parts(mode, cfg, w, h);
    return Some(h(configs.value));
  }

  // ---------- Equal fingerprints ----------

  /** The values of one kind, in order. */
  function Select(records: seq<Record>, kind: string): seq<string> {
    if records == [] then []
    else
      var n := |records| - 1;
      Select(records[..n], kind) + if records[n].kind == kind then [records[n].value] else []
  }

  lemma {:induction false} SelectConcat(a: seq<Record>, b: seq<Record>, kind: string)
    ensures Select(a + b, kind) == Select(a, kind) + Select(b, kind)
    decreases |b|
  {
    if b == [] {
      assert a + b == a;
    } else {
      var n := |b| - 1;
      assert (a + b)[..|a + b| - 1] == a + b[..n];
      SelectConcat(a, b[..n], kind);
    }
  }

  lemma {:induction false} SelectLabelled(name: string, values: seq<string>, kind: string)
    ensures Select(Labelled(name, values), kind) == if kind == name then values else []
    decreases |values|
  {
    if values != [] {
      var n := |values| - 1;
      assert Labelled(name, values)[..n] == Labelled(name, values[..n]);
      SelectLabelled(name, values[..n], kind);
    }
  }

  ghost predicate DistinctKinds(parts: seq<Part>) {
    forall i, j :: 0 <= i < j < |parts| ==> parts[i].kind != parts[j].kind
  }

  /** Each kind reads back from the records of all. */
  lemma {:induction false} SelectPart(parts: seq<Part>, i: nat)
    requires DistinctKinds(parts) && i < |parts|
    ensures Select(Records(parts), parts[i].kind) == parts[i].values
    decreases |parts|
  {
    hide Select, Labelled;
    var n := |parts| - 1;
    var kind := parts[i].kind;
    SelectConcat(Records(parts[..n]), Labelled(parts[n].kind, parts[n].values), kind);
    SelectLabelled(parts[n].kind, parts[n].values, kind);
    if i == n {
      SelectNothing(parts[..n], kind);
    } else {
      SelectPart(parts[..n], i);
    }
  }

  lemma {:induction false} SelectNothing(parts: seq<Part>, kind: string)
    requires forall i :: 0 <= i < |parts| ==> parts[i].kind != kind
    ensures Select(Records(parts), kind) == []
    decreases |parts|
  {
    hide Labelled;
    if parts != [] {
      var n := |parts| - 1;
      SelectConcat(Records(parts[..n]), Labelled(parts[n].kind, parts[n].values), kind);
      SelectLabelled(parts[n].kind, parts[n].values, kind);
      SelectNothing(parts[..n], kind);
    }
  }

  lemma {:induction false} SameRecordsSameParts(a: seq<Part>, b: seq<Part>)
    requires DistinctKinds(a) && |a| == |b| && forall i :: 0 <= i < |a| ==> a[i].kind == b[i].kind
    requires Records(a) == Records(b)
    ensures a == b
  {
    forall i | 0 <= i < |a|
      ensures a[i] == b[i]
    {
      SelectPart(a, i);
      SelectPart(b, i);
    }
  }

  const KINDS := ["version", "mode", "engine", "env", "bin", "dist", "source", "config"]

  /** Nothing that goes into a fingerprint holds a NUL: no path, no setting and no make variable can. */
  ghost predicate NoNul(mode: string, cfg: Config, w: World)
    requires Known(w)
  {
    && NUL !in mode && NUL !in cfg.distDir && NUL !in w.engine.value
    && (forall e :: e in w.environment ==> NUL !in e)
    && (forall b :: b in Specs(cfg.bins) ==> NUL !in b)
    && (forall p :: p in w.sources.value || p in w.configs ==> NUL !in p)
  }

  ghost predicate PlainPart(p: Part) {
    NUL !in p.kind && NEWLINE !in p.kind && forall v :: v in p.values ==> NUL !in v
  }

  lemma {:induction false} RecordsPlain(parts: seq<Part>)
    requires forall i :: 0 <= i < |parts| ==> PlainPart(parts[i])
    ensures AllPlain(Records(parts))
    decreases |parts|
  {
    if parts != [] {
      var n := |parts| - 1;
      RecordsPlain(parts[..n]);
      assert PlainPart(parts[n]);
    }
  }

  lemma PartsPlain(mode: string, cfg: Config, w: World, h: Hash)
    requires Known(w) && NoNul(mode, cfg, w) && GoodHash(h)
    ensures forall i :: 0 <= i < |Parts(mode, cfg, w, h)| ==> PlainPart(Parts(mode, cfg, w, h)[i])
    ensures forall i :: 0 <= i < |Parts(mode, cfg, w, h)| ==> Parts(mode, cfg, w, h)[i].kind == KINDS[i]
  {
    assert NUL !in VERSION;
    var parts := Parts(mode, cfg, w, h);
  }

  /** Two runs with one fingerprint have the same inputs of every kind. */
  lemma SameFingerprintSameParts(mode: string, cfg: Config, w: World, mode': string, cfg': Config, w': World, h: Hash)
    requires GoodHash(h) && Known(w) && Known(w') && NoNul(mode, cfg, w) && NoNul(mode', cfg', w')
    requires FingerprintOf(mode, cfg, w, h) == FingerprintOf(mode', cfg', w', h)
    ensures Parts(mode, cfg, w, h) == Parts(mode', cfg', w', h)
  {
    var a, b := Parts(mode, cfg, w, h), Parts(mode', cfg', w', h);
    PartsPlain(mode, cfg, w, h);
    PartsPlain(mode', cfg', w', h);
    RecordsPlain(a);
    RecordsPlain(b);
    UniquelyDecodable(Records(a), Records(b));
    SameRecordsSameParts(a, b);
  }

  /** A path and a digest of fixed length read back from their line. */
  lemma FileValueSplits(p: string, d: string, q: string, e: string)
    requires |d| == |e| && p + " " + d == q + " " + e
    ensures p == q && d == e
  {
    var s := p + " " + d;
    assert |p| == |q|;
    assert s[..|p|] == p && s[|p| + 1..] == d;
    assert s[..|q|] == q && s[|q| + 1..] == e;
  }

  lemma SameFileValues(w: World, paths: seq<string>, w': World, paths': seq<string>, h: Hash)
    requires GoodHash(h) && Readable(w, paths) && Readable(w', paths')
    requires FileValues(w, paths, h) == FileValues(w', paths', h)
    ensures paths == paths' && forall p :: p in paths ==> p in w.files && p in w'.files && w.files[p] == w'.files[p]
  {
    var x, y := FileValues(w, paths, h), FileValues(w', paths', h);
    forall i | 0 <= i < |paths|
      ensures paths[i] == paths'[i] && paths[i] in w.files && paths'[i] in w'.files
      ensures w.files[paths[i]] == w'.files[paths'[i]]
    {
      assert x[i] == y[i];
      FileValueSplits(paths[i], h(w.files[paths[i]]), paths'[i], h(w'.files[paths'[i]]));
    }
  }

  /** The bar keeps the fields of a binary apart as long as only the directory may contain one. */
  lemma SpecSplits(a: Bin, b: Bin)
    requires '|' !in a.name && '|' !in b.name && '|' !in a.mainPkg && '|' !in b.mainPkg
    requires a.name + "|" + a.mainPkg + "|" + a.dir == b.name + "|" + b.mainPkg + "|" + b.dir
    ensures a == b
  {
    var s := a.name + "|" + a.mainPkg + "|" + a.dir;
    assert s == a.name + ['|'] + (a.mainPkg + ['|'] + a.dir);
    assert s == b.name + ['|'] + (b.mainPkg + ['|'] + b.dir);
    FirstIs(a.name, '|', a.mainPkg + ['|'] + a.dir);
    FirstIs(b.name, '|', b.mainPkg + ['|'] + b.dir);
    FirstIs(a.mainPkg, '|', a.dir);
    FirstIs(b.mainPkg, '|', b.dir);
  }

  /** Without that, two binaries share one line. */
  lemma BarsAreAmbiguous()
    ensures var a, b := Bin("x|y", "z", "d"), Bin("x", "y|z", "d"); a != b && Specs([a]) == Specs([b])
  {
    var a, b := Bin("x|y", "z", "d"), Bin("x", "y|z", "d");
    assert |a.name| != |b.name|;
    assert a.name + "|" + a.mainPkg + "|" + a.dir == "x|y|z|d" == b.name + "|" + b.mainPkg + "|" + b.dir;
    assert Specs([a])[0] == Specs([b])[0];
  }

  // ---------- Stamps ----------

  datatype Stamp = Stamp(version: string, fingerprint: string, outputs: map<string, string>)

  /** reuseOutputs, unsorted. */
  function OutputsOf(mode: string, cfg: Config, join: Join): seq<string>
    decreases |cfg.bins|
  {
    if cfg.bins == [] then []
    else
      var n := |cfg.bins| - 1;
      OutputsOf(mode, cfg.(bins := cfg.bins[..n]), join) + [join(cfg.distDir, cfg.bins[n].name)]
      + if mode == "install" then [join(cfg.bins[n].dir, cfg.bins[n].name)] else []
  }

  /** `p` is the binary in the dist directory, or for an install the one in its target directory. */
  predicate IsOutput(mode: string, distDir: string, b: Bin, join: Join, p: string) {
    p == join(distDir, b.name) || (mode == "install" && p == join(b.dir, b.name))
  }

  /** The paths that a run produces. */
  function OutputPaths(mode: string, cfg: Config, join: Join): set<string> {
    (set b | b in cfg.bins :: join(cfg.distDir, b.name)) +
    if mode == "install" then set b | b in cfg.bins :: join(b.dir, b.name) else {}
  }

  /** The outputs are each binary in the dist directory and, for an install, in its target directory. */
  lemma {:induction false} OutputsAre(mode: string, cfg: Config, join: Join)
    ensures forall p :: p in OutputsOf(mode, cfg, join) <==> exists b :: b in cfg.bins && IsOutput(mode, cfg.distDir, b, join, p)
    ensures |OutputsOf(mode, cfg, join)| == if mode == "install" then 2 * |cfg.bins| else |cfg.bins|
    ensures Elements(OutputsOf(mode, cfg, join)) == OutputPaths(mode, cfg, join)
    decreases |cfg.bins|
  {
    if cfg.bins != [] {
      var n := |cfg.bins| - 1;
      OutputsAre(mode, cfg.(bins := cfg.bins[..n]), join);
      assert cfg.bins == cfg.bins[..n] + [cfg.bins[n]];
      OutputsOneMore(mode, cfg, join);
    }
  }

  lemma {:induction false} OutputsOneMore(mode: string, cfg: Config, join: Join)
    requires cfg.bins != []
    ensures forall p :: p in OutputsOf(mode, cfg, join) <==>
              p in OutputsOf(mode, cfg.(bins := cfg.bins[..|cfg.bins| - 1]), join) ||
              IsOutput(mode, cfg.distDir, cfg.bins[|cfg.bins| - 1], join, p)
  {
  }

  /** Every output is on the disk. */
  predicate Present(mode: string, cfg: Config, files: map<string, string>, join: Join) {
    forall b :: b in cfg.bins ==>
      join(cfg.distDir, b.name) in files && (mode == "install" ==> join(b.dir, b.name) in files)
  }

  lemma {:induction false} PresentIsReadable(mode: string, cfg: Config, w: World, join: Join)
    ensures Readable(w, OutputsOf(mode, cfg, join)) <==> Present(mode, cfg, w.files, join)
  {
    OutputsAre(mode, cfg, join);
    hide OutputsOf;
    forall b | b in cfg.bins
      ensures IsOutput(mode, cfg.distDir, b, join, join(cfg.distDir, b.name))
      ensures mode == "install" ==> IsOutput(mode, cfg.distDir, b, join, join(b.dir, b.name))
    {
    }
  }

  /** What recordReuse stamps, if every input and every output can be read. */
  function StampOf(mode: string, cfg: Config, w: World, join: Join, h: Hash): Option<Stamp> {
    var outputs := OutputsOf(mode, cfg, join);
    if Known(w) && Readable(w, outputs)
    then Some(Stamp(VERSION, FingerprintOf(mode, cfg, w, h).value, map p | p in outputs && p in w.files :: h(w.files[p])))
    else None
  }

  /** reuseSatisfied for the stamp of the mode. */
  predicate Satisfied(stamp: Stamp, mode: string, cfg: Config, w: World, join: Join, h: Hash) {
    var wanted := OutputsOf(mode, cfg, join);
    && Known(w) && stamp.version == VERSION && stamp.fingerprint == FingerprintOf(mode, cfg, w, h).value
    && |stamp.outputs| == |wanted|
    && forall p :: p in wanted ==> p in w.files && p in stamp.outputs && stamp.outputs[p] == h(w.files[p])
  }

  /** The two worlds have the same inputs and the same outputs. */
  ghost predicate SameTree(mode: string, cfg: Config, w: World, cfg': Config, w': World, join: Join) {
    && Known(w) && Known(w')
    && w.engine == w'.engine && w.environment == w'.environment
    && Specs(cfg.bins) == Specs(cfg'.bins) && cfg.distDir == cfg'.distDir
    && w.sources == w'.sources && w.configs == w'.configs
    && (forall p :: p in w.sources.value || p in w.configs ==> w.files[p] == w'.files[p])
    && (forall b :: b in cfg.bins ==>
          && SameFile(w, w', join(cfg.distDir, b.name))
          && (mode == "install" ==> SameFile(w, w', join(b.dir, b.name))))
  }

  /** The file is there in both, with one content. */
  predicate SameFile(w: World, w': World, p: string) {
    p in w.files && p in w'.files && w.files[p] == w'.files[p]
  }

  lemma {:induction false} SameOutputs(mode: string, cfg: Config, w: World, w': World, join: Join)
    ensures (forall p :: p in OutputsOf(mode, cfg, join) ==> SameFile(w, w', p)) <==>
            forall b :: b in cfg.bins ==>
              && SameFile(w, w', join(cfg.distDir, b.name))
              && (mode == "install" ==> SameFile(w, w', join(b.dir, b.name)))
  {
    OutputsAre(mode, cfg, join);
    hide OutputsOf, SameFile;
    forall b | b in cfg.bins
      ensures IsOutput(mode, cfg.distDir, b, join, join(cfg.distDir, b.name))
      ensures mode == "install" ==> IsOutput(mode, cfg.distDir, b, join, join(b.dir, b.name))
    {
    }
  }

  /** Names and packages have no bars, so that a spec line determines its binary. */
  predicate NoBars(bins: seq<Bin>) {
    forall b :: b in bins ==> '|' !in b.name && '|' !in b.mainPkg
  }

  lemma SpecsSplit(a: seq<Bin>, b: seq<Bin>)
    requires Specs(a) == Specs(b) && NoBars(a) && NoBars(b)
    ensures a == b
  {
    assert |a| == |b|;
    forall i | 0 <= i < |a|
      ensures a[i] == b[i]
    {
      assert Specs(a)[i] == Specs(b)[i];
      assert a[i] in a && b[i] in b;
      SpecSplits(a[i], b[i]);
    }
  }

  /** Reuse is sound: when a run is reused, every input and every output is the recorded one. */
  lemma SatisfiedIsSameTree(stamp: Stamp, mode: string, cfg: Config, w: World, cfg0: Config, w0: World, join: Join,
                            h: Hash)
    requires GoodHash(h) && StampOf(mode, cfg0, w0, join, h) == Some(stamp) && Satisfied(stamp, mode, cfg, w, join, h)
    requires NoNul(mode, cfg, w) && NoNul(mode, cfg0, w0)
    ensures SameTree(mode, cfg, w, cfg0, w0, join)
  {
    SameFingerprintSameParts(mode, cfg, w, mode, cfg0, w0, h);
    var a, b := Parts(mode, cfg, w, h), Parts(mode, cfg0, w0, h);
    assert a[2].values[0] == b[2].values[0] && a[5].values[0] == b[5].values[0];
    assert a[3] == b[3] && a[4] == b[4] && a[6] == b[6] && a[7] == b[7];
    SameFileValues(w, w.sources.value, w0, w0.sources.value, h);
    SameFileValues(w, w.configs, w0, w0.configs, h);
    assert forall p :: p in OutputsOf(mode, cfg, join) ==> SameFile(w, w0, p);
    SameOutputs(mode, cfg, w, w0, join);
  }

  function Elements(list: seq<string>): (s: set<string>)
    ensures forall p :: p in s <==> p in list
  {
    set p | p in list
  }

  /** There are as many output paths as outputs. */
  predicate NoOutputTwice(mode: string, cfg: Config, join: Join) {
    |OutputPaths(mode, cfg, join)| == if mode == "install" then 2 * |cfg.bins| else |cfg.bins|
  }

  lemma SameTreeSameFingerprint(mode: string, cfg: Config, w: World, w0: World, join: Join, h: Hash)
    requires SameTree(mode, cfg, w, cfg, w0, join)
    ensures FingerprintOf(mode, cfg, w, h) == FingerprintOf(mode, cfg, w0, h)
  {
    assert FileValues(w, w.sources.value, h) == FileValues(w0, w0.sources.value, h);
    assert FileValues(w, w.configs, h) == FileValues(w0, w0.configs, h);
    assert Parts(mode, cfg, w, h) == Parts(mode, cfg, w0, h);
  }

  /** Digests of files that are still the same are accepted if there are as many paths as outputs. */
  lemma SameOutputsMatch(recorded: map<string, string>, wanted: seq<string>, w: World, w0: World, h: Hash)
    requires recorded == map p | p in wanted && p in w0.files :: h(w0.files[p])
    requires forall p :: p in wanted ==> SameFile(w, w0, p)
    ensures forall p :: p in wanted ==> p in w.files && p in recorded && recorded[p] == h(w.files[p])
    ensures |recorded| == |Elements(wanted)|
  {
    assert recorded.Keys == Elements(wanted);
  }

  /** Reuse is complete: on the recorded tree the stamp is accepted exactly when no output path repeats. */
  lemma SameTreeIsSatisfied(stamp: Stamp, mode: string, cfg: Config, w: World, w0: World, join: Join, h: Hash)
    requires StampOf(mode, cfg, w0, join, h) == Some(stamp) && SameTree(mode, cfg, w, cfg, w0, join)
    ensures Satisfied(stamp, mode, cfg, w, join, h) <==> NoOutputTwice(mode, cfg, join)
  {
    hide FingerprintOf, OutputsOf, Known, SameFile, SameTree, StampOf, NoOutputTwice, Elements;
    SameTreeFacts(mode, cfg, w, w0, join);
    StampFacts(stamp, mode, cfg, w0, join, h);
    SameTreeSameFingerprint(mode, cfg, w, w0, join, h);
    CountsAgree(mode, cfg, join);
    var wanted := OutputsOf(mode, cfg, join);
    SameOutputsMatch(stamp.outputs, wanted, w, w0, h);
    assert |stamp.outputs| == |wanted| <==> NoOutputTwice(mode, cfg, join);
  }

  lemma {:induction false} CountsAgree(mode: string, cfg: Config, join: Join)
    ensures |Elements(OutputsOf(mode, cfg, join))| == |OutputsOf(mode, cfg, join)| <==> NoOutputTwice(mode, cfg, join)
  {
    hide OutputsOf, OutputPaths, Elements;
    OutputsAre(mode, cfg, join);
  }

  lemma {:induction false} SameTreeFacts(mode: string, cfg: Config, w: World, w0: World, join: Join)
    requires SameTree(mode, cfg, w, cfg, w0, join)
    ensures Known(w) && forall p :: p in OutputsOf(mode, cfg, join) ==> SameFile(w, w0, p)
  {
    hide OutputsOf, SameFile;
    SameOutputs(mode, cfg, w, w0, join);
  }

  lemma {:induction false} StampFacts(stamp: Stamp, mode: string, cfg: Config, w0: World, join: Join, h: Hash)
    requires StampOf(mode, cfg, w0, join, h) == Some(stamp)
    ensures FingerprintOf(mode, cfg, w0, h) == Some(stamp.fingerprint) && stamp.version == VERSION
    ensures stamp.outputs == map p | p in OutputsOf(mode, cfg, join) && p in w0.files :: h(w0.files[p])
  {
    hide OutputsOf, Parts;
  }

  // ---------- The stamp file ----------

  /** What becomes of an attempt to write the stamp file. */
  datatype Fate = Stored | Refused | Spoilt

  /** A recorded run. */
  datatype Origin = Origin(cfg: Config, world: World)

  /** A run to record. */
  datatype Job = Job(mode: string, cfg: Config, world: World, fate: Fate)

  class StampFile {
    /** The stamps by mode, or None when the file is missing or cannot be read as one. */
    var stamps: Option<map<string, Stamp>>
    /** What each mode was last recorded from. */
    ghost var origins: map<string, Origin>
    const join: Join
    const h: Hash

    constructor (join: Join, h: Hash)
      ensures stamps == None && Valid() && this.join == join && this.h == h
    {
      stamps, origins := None, map[];
      this.join, this.h := join, h;
    }

    ghost predicate Valid()
      reads this
    {
      stamps.Some? ==>
        forall m :: m in stamps.value ==>
          m in origins && StampOf(m, origins[m].cfg, origins[m].world, join, h) == Some(stamps.value[m])
    }

    /** writeReuseStamp: merges one stamp into the file. */
    method WriteReuseStamp(mode: string, stamp: Stamp, fate: Fate, ghost origin: Origin)
      requires Valid() && StampOf(mode, origin.cfg, origin.world, join, h) == Some(stamp)
      modifies this
      ensures Valid()
      ensures fate == Stored ==> stamps == Some((if old(stamps).Some? then old(stamps).value else map[])[mode := stamp])
      ensures fate == Refused ==> stamps == old(stamps)
      ensures fate == Spoilt ==> stamps == None
      ensures origins == if fate == Stored then old(origins)[mode := origin] else old(origins)
    {
      match fate
      case Refused =>
      case Spoilt => stamps := None;
      case Stored =>
        var all := if stamps.Some? then stamps.value else map[];
        stamps := Some(all[mode := stamp]);
        origins := origins[mode := origin];
    }

    /** recordReuse, with reuse enabled: stamps nothing when an input or an output cannot be read. */
    method RecordReuse(mode: string, cfg: Config, w: World, fate: Fate)
      requires Valid()
      modifies this
      ensures Valid()
      ensures StampOf(mode, cfg, w, join, h).None? || fate == Refused ==>
                stamps == old(stamps) && origins == old(origins)
      ensures StampOf(mode, cfg, w, join, h).Some? && fate == Stored ==>
                && stamps.Some? && mode in stamps.value && Some(stamps.value[mode]) == StampOf(mode, cfg, w, join, h)
                && mode in origins && origins[mode] == Origin(cfg, w)
      ensures fate != Spoilt && old(stamps).Some? ==>
                && stamps.Some?
                && forall m :: m != mode ==> (m in stamps.value <==> m in old(stamps).value) &&
                                             (m in stamps.value ==> stamps.value[m] == old(stamps).value[m])
    {
      var fingerprint := ReuseFingerprint(mode, cfg, w, h);
      if fingerprint.None? {
        return;
      }
      var wanted := OutputsOf(mode, cfg, join);
      var outputs: map<string, string> := map[];
      for i := 0 to |wanted|
        invariant Readable(w, wanted[..i])
        invariant outputs == map p | p in wanted[..i] && p in w.files :: h(w.files[p])
      {
        assert wanted[..i + 1] == wanted[..i] + [wanted[i]];
        if wanted[i] !in w.files {
          assert wanted[i] in wanted;
          return;
        }
        outputs := outputs[wanted[i] := h(w.files[wanted[i]])];
      }
      assert wanted[..|wanted|] == wanted;
      WriteReuseStamp(mode, Stamp(VERSION, fingerprint.value, outputs), fate, Origin(cfg, w));
    }

    /** firstOutputMismatch and outputsUnchanged. */
    method OutputsUnchanged(recorded: map<string, string>, wanted: seq<string>, w: World) returns (same: bool)
      ensures same <==> |recorded| == |wanted| &&
                        forall p :: p in wanted ==> p in w.files && p in recorded && recorded[p] == h(w.files[p])
    {
      if |recorded| != |wanted| {
        return false;
      }
      for i := 0 to |wanted|
        invariant forall p :: p in wanted[..i] ==> p in w.files && p in recorded && recorded[p] == h(w.files[p])
      {
        assert wanted[i] in wanted && wanted[..i + 1] == wanted[..i] + [wanted[i]];
        if wanted[i] !in w.files || wanted[i] !in recorded || recorded[wanted[i]] != h(w.files[wanted[i]]) {
          return false;
        }
      }
      assert wanted[..|wanted|] == wanted;
      return true;
    }

    /** reuseSatisfied, with reuse enabled. */
    method ReuseSatisfied(mode: string, cfg: Config, w: World) returns (yes: bool)
      requires Valid()
      ensures yes <==> stamps.Some? && mode in stamps.value && Satisfied(stamps.value[mode], mode, cfg, w, join, h)
    {
      if stamps.None? || mode !in stamps.value {
        return false;
      }
      var stamp := stamps.value[mode];
      var fingerprint := ReuseFingerprint(mode, cfg, w, h);
      if fingerprint.None? || stamp.version != VERSION || stamp.fingerprint != fingerprint.value {
        return false;
      }
      yes := OutputsUnchanged(stamp.outputs, OutputsOf(mode, cfg, join), w);
    }

    /** Whenever a run is reused, its inputs and outputs are those of the run that was recorded last. */
    method ReusedIsRecorded(mode: string, cfg: Config, w: World) returns (yes: bool)
      requires Valid() && GoodHash(h) && (Known(w) ==> NoNul(mode, cfg, w))
      requires forall m :: m in origins && Known(origins[m].world) ==> NoNul(m, origins[m].cfg, origins[m].world)
      ensures yes ==> mode in origins && SameTree(mode, cfg, w, origins[mode].cfg, origins[mode].world, join)
      ensures yes && NoBars(cfg.bins) && NoBars(origins[mode].cfg.bins) ==> cfg == origins[mode].cfg
    {
      yes := ReuseSatisfied(mode, cfg, w);
      if yes {
        SatisfiedIsSameTree(stamps.value[mode], mode, cfg, w, origins[mode].cfg, origins[mode].world, join, h);
        if NoBars(cfg.bins) && NoBars(origins[mode].cfg.bins) {
          SpecsSplit(cfg.bins, origins[mode].cfg.bins);
        }
      }
    }

    /** After a recorded run, whatever other modes record, an unchanged tree is reused exactly when no
        output path repeats. */
    method RecordedIsReused(mode: string, cfg: Config, w: World, others: seq<Job>, later: World) returns (yes: bool)
      requires Valid() && Known(w) && Present(mode, cfg, w.files, join)
      requires forall job :: job in others ==> job.mode != mode && job.fate != Spoilt
      requires SameTree(mode, cfg, later, cfg, w, join)
      modifies this
      ensures yes <==> NoOutputTwice(mode, cfg, join)
    {
      PresentIsReadable(mode, cfg, w, join);
      RecordReuse(mode, cfg, w, Stored);
      for i := 0 to |others|
        invariant Valid() && stamps.Some? && mode in stamps.value
        invariant Some(stamps.value[mode]) == StampOf(mode, cfg, w, join, h)
      {
        var job := others[i];
        assert job in others;
        RecordReuse(job.mode, job.cfg, job.world, job.fate);
      }
      SameTreeIsSatisfied(stamps.value[mode], mode, cfg, later, w, join, h);
      yes := ReuseSatisfied(mode, cfg, later);
    }
  }
}
