/** How the workflow repair reads one line of a YAML file: by indentation, a key before the
    first colon, and a scalar behind it. */
module WorkflowLine {
  import opened Options
  import opened Strings

  /** unicode.IsSpace. */
  predicate IsSpace(c: char) {
    || c == ' ' || '\t' <= c <= '\r' || c == '\U{85}' || c == '\U{A0}' || c == '\U{1680}'
    || '\U{2000}' <= c <= '\U{200A}' || c == '\U{2028}' || c == '\U{2029}' || c == '\U{202F}'
    || c == '\U{205F}' || c == '\U{3000}'
  }

  function TrimLeft(s: string): string {
    if s != "" && IsSpace(s[0]) then TrimLeft(s[1..]) else s
  }

  function TrimRight(s: string): string {
    if s != "" && IsSpace(s[|s| - 1]) then TrimRight(s[..|s| - 1]) else s
  }

  /** strings.TrimSpace. */
  function Trim(s: string): string {
    TrimRight(TrimLeft(s))
  }

  predicate IsQuote(c: char) {
    c == '"' || c == '\''
  }

  function TrimQuotesLeft(s: string): string {
    if s != "" && IsQuote(s[0]) then TrimQuotesLeft(s[1..]) else s
  }

  function TrimQuotesRight(s: string): string {
    if s != "" && IsQuote(s[|s| - 1]) then TrimQuotesRight(s[..|s| - 1]) else s
  }

  /** The position of the first " #", or the length of the string. */
  function FindComment(s: string): (i: nat)
    ensures i <= |s|
  {
    if s == "" then 0
    else if |s| >= 2 && s[0] == ' ' && s[1] == '#' then 0
    else 1 + FindComment(s[1..])
  }

  function Before(s: string): string {
    s[..Find(s, ':')]
  }

  function After(s: string): string {
    if Find(s, ':') < |s| then s[Find(s, ':') + 1..] else ""
  }

  // ---------- What the repair reads off a line ----------

  /** leadingSpaceCount. */
  function Indent(line: string): nat {
    if line != "" && line[0] == ' ' then 1 + Indent(line[1..]) else 0
  }

  /** isBlankOrCommentLine. */
  predicate Skip(line: string) {
    var t := Trim(line);
    t == "" || t[0] == '#'
  }

  /** The key of a line that has a colon. */
  function Key(line: string): Option<string> {
    var t := Trim(line);
    if Find(t, ':') < |t| then Some(Trim(Before(t))) else None
  }

  /** The key of a line, where a line without a colon is all key. */
  function LooseKey(line: string): string {
    Trim(Before(Trim(line)))
  }

  /** isBlockFormKey: nothing follows the colon. */
  predicate BlockForm(line: string) {
    Trim(After(Trim(line))) == ""
  }

  /** workflowScalarValue: an inline comment and surrounding quotes go. */
  function Scalar(value: string): string {
    var t := Trim(value);
    var u := if FindComment(t) < |t| then Trim(t[..FindComment(t)]) else t;
    TrimQuotesRight(TrimQuotesLeft(u))
  }

  function Value(line: string): string {
    Scalar(After(Trim(line)))
  }

  predicate Contains(s: string, part: string) {
    exists i :: 0 <= i <= |s| && part <= s[i..]
  }

  predicate IsUses(line: string, ref: string) {
    var t := Trim(line);
    "uses:" <= t && Contains(t, ref)
  }

  // ---------- The lines that the repair writes ----------

  function Spaces(n: nat): string {
    if n == 0 then "" else " " + Spaces(n - 1)
  }

  /** `key: value` at an indentation. */
  function Entry(n: nat, key: string, value: string): string {
    Spaces(n) + key + ": " + value
  }

  /** `key:` at an indentation. */
  function Opening(n: nat, key: string): string {
    Spaces(n) + key + ":"
  }

  /** A plain word, such as every key and value that the repair writes. */
  predicate Word(w: string) {
    w != "" && forall c :: c in w ==> !IsSpace(c) && c != ':' && c != '#' && !IsQuote(c)
  }

  lemma {:induction false} SpacesGo(n: nat, s: string)
    requires s != "" && !IsSpace(s[0])
    ensures TrimLeft(Spaces(n) + s) == s
    ensures Indent(Spaces(n) + s) == n
  {
    if n == 0 {
      assert Spaces(0) + s == s;
    } else {
      SpacesGo(n - 1, s);
      assert (Spaces(n) + s)[1..] == Spaces(n - 1) + s;
    }
  }

  lemma {:induction false} TrimIsInner(n: nat, s: string)
    requires s != "" && !IsSpace(s[0]) && !IsSpace(s[|s| - 1])
    ensures Trim(Spaces(n) + s) == s
    ensures Indent(Spaces(n) + s) == n
  {
    SpacesGo(n, s);
  }

  lemma TrimWord(w: string)
    requires Word(w)
    ensures Trim(w) == w && Trim(" " + w) == w
  {
    assert !IsSpace(w[0]) && !IsSpace(w[|w| - 1]) by {
      assert w[0] in w && w[|w| - 1] in w;
    }
    assert Spaces(0) + w == w;
    TrimIsInner(0, w);
    assert Spaces(1) == " " + Spaces(0) == " ";
    TrimIsInner(1, w);
  }

  lemma {:induction false} FindIsFirst(a: string, b: string, c: char)
    requires c !in a && b != "" && b[0] == c
    ensures Find(a + b, c) == |a|
  {
    if a == "" {
      assert a + b == b;
    } else {
      assert (a + b)[1..] == a[1..] + b;
      FindIsFirst(a[1..], b, c);
    }
  }

  lemma {:induction false} NoComment(s: string)
    requires ' ' !in s
    ensures FindComment(s) == |s|
  {
    if s != "" {
      assert s[0] in s;
      NoComment(s[1..]);
    }
  }

  lemma ScalarOfWord(w: string)
    requires Word(w)
    ensures Scalar(" " + w) == w
  {
    TrimWord(w);
    NoComment(w);
    assert w[0] in w && w[|w| - 1] in w;
  }

  lemma WordIsNotEmpty(w: string)
    requires Word(w)
    ensures w != ""
  {
  }

  lemma WordHasNoColon(w: string)
    requires Word(w)
    ensures ':' !in w
  {
  }

  lemma InnerReadsBack(key: string, value: string)
    requires Word(key) && Word(value)
    ensures var inner := key + ": " + value;
            && inner != "" && inner[0] == key[0] && inner[|inner| - 1] == value[|value| - 1]
            && Find(inner, ':') == |key| < |inner|
            && Before(inner) == key && After(inner) == " " + value
  {
    hide Find, Word;
    var inner := key + ": " + value;
    assert key[0] in key && value[|value| - 1] in value by {
      WordIsNotEmpty(key);
      WordIsNotEmpty(value);
    }
    assert inner == key + (": " + value);
    assert Find(inner, ':') == |key| by {
      WordHasNoColon(key);
      FindIsFirst(key, ": " + value, ':');
    }
    assert inner[..|key|] == key && inner[|key| + 1..] == " " + value;
  }

  lemma EntryTrims(n: nat, key: string, value: string)
    requires Word(key) && Word(value)
    ensures Trim(Entry(n, key, value)) == key + ": " + value && Indent(Entry(n, key, value)) == n
    ensures key != "" && !IsSpace(key[0]) && key[0] != '#'
  {
    var inner := key + ": " + value;
    InnerReadsBack(key, value);
    assert key[0] in key && value[|value| - 1] in value;
    TrimIsInner(n, inner);
    assert Entry(n, key, value) == Spaces(n) + inner;
  }

  lemma EntryKey(n: nat, key: string, value: string)
    requires Word(key) && Word(value)
    ensures Indent(Entry(n, key, value)) == n && !Skip(Entry(n, key, value))
    ensures Key(Entry(n, key, value)) == Some(key) && LooseKey(Entry(n, key, value)) == key
  {
    EntryTrims(n, key, value);
    InnerReadsBack(key, value);
    TrimWord(key);
  }

  lemma EntryValue(n: nat, key: string, value: string)
    requires Word(key) && Word(value)
    ensures Value(Entry(n, key, value)) == value
  {
    EntryTrims(n, key, value);
    InnerReadsBack(key, value);
    ScalarOfWord(value);
  }

  lemma EntryNotUses(n: nat, key: string, value: string, ref: string)
    requires Word(key) && Word(value)
    ensures IsUses(Entry(n, key, value), ref) ==> key == "uses"
  {
    EntryTrims(n, key, value);
    UsesHead(key, ": " + value);
    assert key + ": " + value == key + (": " + value);
  }

  /** What the repair reads back from an entry it wrote. */
  lemma EntryReadsBack(n: nat, key: string, value: string)
    requires Word(key) && Word(value)
    ensures Indent(Entry(n, key, value)) == n && !Skip(Entry(n, key, value))
    ensures Key(Entry(n, key, value)) == Some(key) && LooseKey(Entry(n, key, value)) == key
    ensures Value(Entry(n, key, value)) == value
    ensures forall ref :: IsUses(Entry(n, key, value), ref) ==> key == "uses"
  {
    EntryKey(n, key, value);
    EntryValue(n, key, value);
    forall ref
      ensures IsUses(Entry(n, key, value), ref) ==> key == "uses"
    {
      EntryNotUses(n, key, value, ref);
    }
  }

  lemma OpeningReadsBack(n: nat, key: string)
    requires Word(key)
    ensures Indent(Opening(n, key)) == n && !Skip(Opening(n, key)) && BlockForm(Opening(n, key))
    ensures Key(Opening(n, key)) == Some(key)
    ensures forall ref :: IsUses(Opening(n, key), ref) ==> key == "uses"
  {
    var inner := key + ":";
    assert Opening(n, key) == Spaces(n) + inner;
    assert key[0] in key;
    assert inner[0] == key[0];
    TrimIsInner(n, inner);
    FindIsFirst(key, ":", ':');
    assert Before(inner) == key && After(inner) == "";
    TrimWord(key);
    UsesHead(key, ":");
  }

  lemma UsesHead(key: string, rest: string)
    requires Word(key) && rest != "" && rest[0] == ':'
    ensures "uses:" <= key + rest ==> key == "uses"
  {
    var s := key + rest;
    if "uses:" <= s {
      FindIsFirst(key, rest, ':');
      assert s == "uses" + s[4..];
      FindIsFirst("uses", s[4..], ':');
      assert key == s[..4];
    }
  }

  /** The key of a blank line or a comment is no word. */
  lemma KeyIsContent(line: string, key: string)
    requires Key(line) == Some(key)
    ensures Skip(line) ==> !Word(key)
  {
    var t := Trim(line);
    if Skip(line) {
      var k := Before(t);
      assert k == "" || k[0] == '#';
      if k != "" {
        TrimKeepsHead(k);
        assert key[0] in key;
      }
    }
  }

  lemma {:induction false} TrimRightKeepsHead(s: string)
    requires s != "" && !IsSpace(s[0])
    ensures TrimRight(s) != "" && TrimRight(s)[0] == s[0]
  {
    if IsSpace(s[|s| - 1]) {
      TrimRightKeepsHead(s[..|s| - 1]);
    }
  }

  lemma TrimKeepsHead(s: string)
    requires s != "" && !IsSpace(s[0])
    ensures Trim(s) != "" && Trim(s)[0] == s[0]
  {
    TrimRightKeepsHead(s);
  }

  lemma UsesIsContent(line: string, ref: string)
    requires IsUses(line, ref)
    ensures !Skip(line) && Key(line) == Some("uses")
  {
    var t := Trim(line);
    assert t == "uses" + t[4..];
    FindIsFirst("uses", t[4..], ':');
    assert Before(t) == "uses";
    TrimWord("uses");
  }

  // ---------- Lines as the repair sees them ----------

  /** A line with what the repair reads off it; `calls` says that it is a `uses:` line of the
      reusable workflow in question. */
  datatype Line = Line(text: string, indent: nat, skip: bool, colon: bool, name: string,
                       block: bool, value: string, calls: bool)

  function Read(text: string, ref: string): Line {
    Line(text, Indent(text), Skip(text), Key(text).Some?, LooseKey(text), BlockForm(text), Value(text), IsUses(text, ref))
  }

  function ReadAll(texts: seq<string>, ref: string): (lines: seq<Line>)
    ensures |lines| == |texts|
    ensures forall i :: 0 <= i < |texts| ==> lines[i] == Read(texts[i], ref)
  {
    seq(|texts|, i requires 0 <= i < |texts| => Read(texts[i], ref))
  }

  /** The line `key: value` that the repair writes. */
  function EntryLine(n: nat, key: string, value: string): Line {
    Line(Entry(n, key, value), n, false, true, key, false, value, false)
  }

  /** The line `key:` that the repair writes. */
  function OpeningLine(n: nat, key: string): Line {
    Line(Opening(n, key), n, false, true, key, true, "", false)
  }

  lemma EntryIsRead(n: nat, key: string, value: string, ref: string)
    requires Word(key) && Word(value) && key != "uses"
    ensures Read(Entry(n, key, value), ref) == EntryLine(n, key, value)
  {
    EntryReadsBack(n, key, value);
    EntryTrims(n, key, value);
    InnerReadsBack(key, value);
    TrimWord(value);
  }

  lemma OpeningIsRead(n: nat, key: string, ref: string)
    requires Word(key) && key != "uses"
    ensures Read(Opening(n, key), ref) == OpeningLine(n, key)
  {
    OpeningReadsBack(n, key);
  }

  /** A line that the repair looks for by key is content and bears the key. */
  lemma ReadChild(text: string, ref: string, key: string)
    requires Word(key)
    ensures Key(text) == Some(key) <==>
            !Read(text, ref).skip && Read(text, ref).colon && Read(text, ref).name == key
  {
    if Key(text) == Some(key) {
      KeyIsContent(text, key);
    }
  }

  lemma ReadUses(text: string, ref: string)
    requires Read(text, ref).calls
    ensures !Read(text, ref).skip && Read(text, ref).name == "uses"
  {
    UsesIsContent(text, ref);
  }
}
