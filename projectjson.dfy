/** The rewrite of the `implicitDependencies` list of a project.json that
    the sync command performs: the names already listed are scraped from
    the text line by line (so that a malformed file still yields them),
    merged with the discovered ones, and stored in the decoded document,
    which is then encoded and written back. */
module ProjectJson {
  import opened Wrappers
  import opened Text
  import opened StringOrder
  import opened Config
  import opened Merge
  import opened Json

  const ListKey := "implicitDependencies"

  /** The quoted key, as the scrape looks for it. */
  const QuotedKey := "\"" + ListKey + "\""

  /** What a line is to the scrape, judged on its trimmed text: the line
      of the quoted key, a line holding `]`, a line with the text between
      its first and last double quote, or a line with no such text. The
      tests are made in this order. */
  datatype JsonLine = KeyLine | Closing | Quoted(text: string) | Unquoted

  function JsonLineOf(line: string): JsonLine {
    TrimmedKind(TrimSpace(line))
  }

  function TrimmedKind(trimmed: string): JsonLine {
    if Contains(trimmed, QuotedKey) then KeyLine
    else if Contains(trimmed, "]") then Closing
    else
      var start := IndexOf(trimmed, '"');
      var end := LastIndexOf(trimmed, '"');
      if start != -1 && end != -1 && start < end then Quoted(trimmed[start + 1..end]) else Unquoted
  }

  function JsonLines(lines: seq<string>): (kinds: seq<JsonLine>)
    ensures |kinds| == |lines|
  {
    seq(|lines|, i requires 0 <= i < |lines| => JsonLineOf(lines[i]))
  }

  /** The state of the scrape. */
  datatype Scrape = Scrape(inDeps: bool, existing: set<string>, stopped: bool)

  const ScrapeStart := Scrape(false, {}, false)

  /** One line of the scrape: the key line opens the list; inside it a
      line holding `]` ends the scrape, and the quoted text of any other
      line is a name unless it is empty or the key itself. */
  function ScrapeStep(s: Scrape, kind: JsonLine): Scrape {
    if s.stopped then s
    else match kind
      case KeyLine => s.(inDeps := true)
      case Closing => if s.inDeps then s.(stopped := true) else s
      case Quoted(text) =>
        if s.inDeps && text != "" && text != ListKey then s.(existing := s.existing + {text}) else s
      case Unquoted => s
  }

  function ScrapeRun(s: Scrape, kinds: seq<JsonLine>): Scrape
    decreases |kinds|
  {
    if kinds == [] then s
    else ScrapeStep(ScrapeRun(s, kinds[..|kinds| - 1]), kinds[|kinds| - 1])
  }

  lemma {:induction false} ScrapeRunAppend(s: Scrape, a: seq<JsonLine>, b: seq<JsonLine>)
    ensures ScrapeRun(s, a + b) == ScrapeRun(ScrapeRun(s, a), b)
    decreases |b|
  {
    if b == [] {
      assert a + b == a;
    } else {
      assert (a + b)[..|a + b| - 1] == a + b[..|b| - 1];
      assert (a + b)[|a + b| - 1] == b[|b| - 1];
      ScrapeRunAppend(s, a, b[..|b| - 1]);
    }
  }

  /** Once the scrape has stopped, no later line changes anything. */
  lemma {:induction false} ScrapeRunStopped(s: Scrape, kinds: seq<JsonLine>)
    requires s.stopped
    ensures ScrapeRun(s, kinds) == s
    decreases |kinds|
  {
    if kinds != [] {
      ScrapeRunStopped(s, kinds[..|kinds| - 1]);
    }
  }

  lemma {:induction false} ScrapeStopsAt(kinds: seq<JsonLine>, n: nat)
    requires n <= |kinds| && ScrapeRun(ScrapeStart, kinds[..n]).stopped
    ensures ScrapeRun(ScrapeStart, kinds) == ScrapeRun(ScrapeStart, kinds[..n])
  {
    assert kinds == kinds[..n] + kinds[n..];
    ScrapeRunAppend(ScrapeStart, kinds[..n], kinds[n..]);
    ScrapeRunStopped(ScrapeRun(ScrapeStart, kinds[..n]), kinds[n..]);
  }

  /** The names the scrape finds in a file with the given lines. */
  ghost function Scraped(lines: seq<string>): set<string> {
    ScrapeRun(ScrapeStart, JsonLines(lines)).existing
  }

  /** The kinds of the lines, computed once. */
  method ClassifyJsonLines(lines: seq<string>) returns (kinds: seq<JsonLine>)
    ensures kinds == JsonLines(lines)
  {
    kinds := [];
    for i := 0 to |lines|
      invariant kinds == JsonLines(lines[..i])
    {
      assert JsonLines(lines[..i + 1]) == JsonLines(lines[..i]) + [JsonLineOf(lines[i])];
      kinds := kinds + [JsonLineOf(lines[i])];
    }
    assert lines[..|lines|] == lines;
  }

  /** The scrape loop over lines of the given kinds. */
  method ScrapeExisting(kinds: seq<JsonLine>) returns (existing: map<string, bool>)
    ensures existing.Keys == ScrapeRun(ScrapeStart, kinds).existing
  {
    var inDeps := false;
    existing := map[];
    for i := 0 to |kinds|
      invariant ScrapeRun(ScrapeStart, kinds[..i]) == Scrape(inDeps, existing.Keys, false)
    {
      TakeStep(kinds, i);
      var kind := kinds[i];
      if kind == KeyLine {
        inDeps := true;
        continue;
      }
      if inDeps {
        if kind == Closing {
          ScrapeStopsAt(kinds, i + 1);
          break;
        }
        if kind.Quoted? && kind.text != "" && kind.text != ListKey {
          existing := existing[kind.text := true];
        }
      }
    }
    TakeAll(kinds);
  }

  /** The text repairs tried when the file does not decode: a comma is put
      after a `}` that ends a line followed by a key indented by two
      spaces or one, and a comma after `]` before a closing `}` on the next
      line is dropped. */
  function Repaired(text: string): string {
    var fixed := ReplaceAll(text, "}\n  \"", "},\n  \"");
    var fixed := ReplaceAll(fixed, "}\n \"", "},\n \"");
    ReplaceAll(fixed, "],\n}", "]\n}")
  }

  /** What decoding a text into the document map gives: the text as it is
      first, and the repaired text when that fails; the second failure is
      reported. */
  function DecodeDocument(text: string, decode: string -> Result<Json, string>): Result<Option<map<string, Json>>, string> {
    var first := UnmarshalObject(decode(text));
    if first.Ok? then first
    else
      match UnmarshalObject(decode(Repaired(text)))
      case Ok(doc) => Ok(doc)
      case Err(e) => Err("invalid JSON: " + e)
  }

  /** The message of the Go runtime panic that an assignment to a nil map
      raises: a document that decodes to `null` leaves the map nil. */
  const NilMapAssignment := "assignment to entry in nil map"

  /** How `updateProjectJsonDependencies` ends: it returns the document
      it writes or an error, or it panics and never returns. */
  datatype JsonOutcome =
    | Returned(result: Result<map<string, Json>, string>)
    | Panicked(message: string)

  /** The document `updateProjectJsonDependencies` encodes and writes for
      a file with the given lines, its error, or its panic. */
  ghost function ProjectJsonDocument(lines: seq<string>, dependencies: seq<string>, decode: string -> Result<Json, string>)
    : JsonOutcome
  {
    match DecodeDocument(Join(lines, "\n"), decode)
    case Err(e) => Returned(Err(e))
    case Ok(None) => Panicked(NilMapAssignment)
    case Ok(Some(doc)) => Returned(Ok(doc[ListKey := StringSlice(SortedSet(Scraped(lines) + Elems(dependencies)))]))
  }

  /** `updateProjectJsonDependencies` up to the encoding and the write: the
      updated document, or the read error as it is, or the decoding error,
      or the panic of the assignment into a `null` document. `decode` is
      what `json.Unmarshal` makes of a text. */
  method UpdateProjectJsonDependencies(fs: FileSystem, path: string, dependencies: seq<string>,
                                       decode: string -> Result<Json, string>)
    returns (r: JsonOutcome)
    ensures fs.Read(path).Err? ==> r == Returned(Err(fs.Read(path).error))
    ensures fs.Read(path).Ok? ==> r == ProjectJsonDocument(fs.Read(path).value, dependencies, decode)
  {
    var data := fs.Read(path);
    if data.Err? {
      return Returned(Err(data.error));
    }
    var lines := data.value;
    var kinds := ClassifyJsonLines(lines);
    var existing := ScrapeExisting(kinds);
    var merged := MergeDependencies(existing, dependencies);
    var text := Join(lines, "\n");
    var doc := UnmarshalObject(decode(text));
    if doc.Err? {
      var fixed := ReplaceAll(text, "}\n  \"", "},\n  \"");
      fixed := ReplaceAll(fixed, "}\n \"", "},\n \"");
      fixed := ReplaceAll(fixed, "],\n}", "]\n}");
      doc := UnmarshalObject(decode(fixed));
      if doc.Err? {
        return Returned(Err("invalid JSON: " + doc.error));
      }
    }
    if doc.value.None? {
      return Panicked(NilMapAssignment);
    }
    r := Returned(Ok(doc.value.value[ListKey := StringSlice(merged)]));
  }

  /** The update panics exactly when the text, or its repair when the text
      does not decode, decodes to `null`; it never panics on a text that
      decodes to an object or fails to decode twice. */
  lemma NullDocumentPanics(lines: seq<string>, dependencies: seq<string>, decode: string -> Result<Json, string>)
    ensures var text := Join(lines, "\n");
            ProjectJsonDocument(lines, dependencies, decode).Panicked?
            <==> (decode(text) == Ok(Null)
                  || (UnmarshalObject(decode(text)).Err? && decode(Repaired(text)) == Ok(Null)))
  {
  }

  /** The encoding of a list of strings in increasing order holding each
      of the given names and nothing else: `null` when there are none. */
  ghost predicate SortedStrings(v: Json, names: set<string>) {
    if names == {} then v == Null
    else
      && v.Array?
      && (forall i :: 0 <= i < |v.items| ==> v.items[i].Str?)
      && (forall i, j :: 0 <= i < j < |v.items| ==> Less(v.items[i].s, v.items[j].s))
      && (forall x :: Str(x) in v.items <==> x in names)
  }

  lemma StringsSorted(names: seq<string>)
    requires StrictlySorted(names)
    ensures SortedStrings(StringSlice(names), Elems(names))
  {
    if names == [] {
      assert Elems(names) == {};
    } else {
      assert names[0] in Elems(names);
      var list := Strings(names);
      forall i, j | 0 <= i < j < |list.items| ensures Less(list.items[i].s, list.items[j].s) {
        assert list.items[i].s == names[i] && list.items[j].s == names[j];
      }
      forall x ensures Str(x) in list.items <==> x in names {
        if Str(x) in list.items {
          var i :| 0 <= i < |list.items| && list.items[i] == Str(x);
          assert names[i] == x;
        }
        if x in names {
          var i :| 0 <= i < |names| && names[i] == x;
          assert list.items[i] == Str(x);
        }
      }
    }
  }

  /** The document written holds, under the list key, the names found in
      the file and the names given, each once and in increasing order, and
      every other key of the decoded document as it was. */
  lemma ProjectJsonMerged(lines: seq<string>, dependencies: seq<string>, decode: string -> Result<Json, string>)
    requires ProjectJsonDocument(lines, dependencies, decode).Returned?
    requires ProjectJsonDocument(lines, dependencies, decode).result.Ok?
    ensures var decoded := DecodeDocument(Join(lines, "\n"), decode);
            decoded.Ok? && decoded.value.Some? &&
            var doc := decoded.value.value;
            var written := ProjectJsonDocument(lines, dependencies, decode).result.value;
            && written.Keys == doc.Keys + {ListKey}
            && (forall k :: k in doc && k != ListKey ==> written[k] == doc[k])
            && SortedStrings(written[ListKey], Scraped(lines) + Elems(dependencies))
  {
    var decoded := DecodeDocument(Join(lines, "\n"), decode);
    assert decoded.Ok? && decoded.value.Some?;
    var merged := SortedSet(Scraped(lines) + Elems(dependencies));
    assert ProjectJsonDocument(lines, dependencies, decode).result.value == decoded.value.value[ListKey := StringSlice(merged)];
    StringsSorted(merged);
  }

  /** The repair leaves a text holding none of the layouts it mends as it
      is. */
  lemma RepairedUnchanged(text: string)
    requires !Contains(text, "}\n  \"") && !Contains(text, "}\n \"") && !Contains(text, "],\n}")
    ensures Repaired(text) == text
  {
    ReplaceAllAbsent(text, "}\n  \"", "},\n  \"");
    ReplaceAllAbsent(text, "}\n \"", "},\n \"");
    ReplaceAllAbsent(text, "],\n}", "]\n}");
  }

  /** The kinds of a concatenation of lines. */
  lemma {:induction false} JsonLinesConcat(a: seq<string>, b: seq<string>)
    ensures JsonLines(a + b) == JsonLines(a) + JsonLines(b)
  {
    forall i | 0 <= i < |a + b| ensures JsonLines(a + b)[i] == (JsonLines(a) + JsonLines(b))[i] {
      if i < |a| {
        assert (a + b)[i] == a[i];
      } else {
        assert (a + b)[i] == b[i - |a|];
      }
    }
  }

  /** Lines before the key line leave the scrape as it started. */
  lemma {:induction false} ScrapeBeforeKey(kinds: seq<JsonLine>)
    requires forall i :: 0 <= i < |kinds| ==> kinds[i] != KeyLine
    ensures ScrapeRun(ScrapeStart, kinds) == ScrapeStart
    decreases |kinds|
  {
    if kinds != [] {
      ScrapeBeforeKey(kinds[..|kinds| - 1]);
    }
  }

  /** The classifications of the item lines written for `names`: each one is
      a line of quoted text carrying that name. These are kinds of lines,
      not the quoted strings the Go scanner builds. */
  function QuotedKinds(names: seq<string>): (kinds: seq<JsonLine>)
    ensures |kinds| == |names|
    ensures forall i :: 0 <= i < |kinds| ==> kinds[i].Quoted?
  {
    seq(|names|, i requires 0 <= i < |names| => Quoted(names[i]))
  }

  /** Inside the list, quoted lines add their names. */
  lemma {:induction false} ScrapeQuoted(s: Scrape, names: seq<string>)
    requires s.inDeps && !s.stopped
    requires forall i :: 0 <= i < |names| ==> names[i] != "" && names[i] != ListKey
    ensures ScrapeRun(s, QuotedKinds(names)) == s.(existing := s.existing + Elems(names))
    decreases |names|
  {
    if names != [] {
      var n := |names| - 1;
      assert QuotedKinds(names)[..n] == QuotedKinds(names[..n]);
      ScrapeQuoted(s, names[..n]);
      assert names == names[..n] + [names[n]];
      assert Elems(names) == Elems(names[..n]) + {names[n]};
    }
  }

  /** A name the scrape reads back from its line of the list: not empty,
      not the key, and without a double quote or a closing bracket. */
  predicate Listable(name: string) {
    name != "" && name != ListKey && '"' !in name && ']' !in name
  }

  /** A text in double quotes followed by a suffix. */
  function QuotedText(body: string, suffix: string): string {
    "\"" + body + "\"" + suffix
  }

  /** A line holding a quoted text, as the encoder writes the elements of
      the list and the keys of an object, is the text between its first
      and its last quote. */
  lemma QuotedLineKind(indent: string, body: string, suffix: string)
    requires forall i :: 0 <= i < |indent| ==> IsSpace(indent[i])
    requires '"' !in suffix && ']' !in body && ']' !in suffix
    requires suffix == [] || !IsSpace(suffix[|suffix| - 1])
    requires !Contains(QuotedText(body, suffix), QuotedKey)
    ensures JsonLineOf(indent + QuotedText(body, suffix)) == Quoted(body)
  {
    var t := QuotedText(body, suffix);
    assert t[0] == '"';
    if suffix == [] {
      assert t[|t| - 1] == '"';
    } else {
      assert t[|t| - 1] == suffix[|suffix| - 1];
    }
    IndentedKind(indent, t);
    QuotedTextKind(body, suffix);
  }

  lemma QuotedTextKind(body: string, suffix: string)
    requires '"' !in suffix && ']' !in body && ']' !in suffix
    requires !Contains(QuotedText(body, suffix), QuotedKey)
    ensures TrimmedKind(QuotedText(body, suffix)) == Quoted(body)
  {
    var t := QuotedText(body, suffix);
    ContainsChar(t, ']');
    var e := |body| + 1;
    assert t[0] == '"' && t[e] == '"';
    assert t[e + 1..] == suffix;
    assert t[1..e] == body;
  }

  /** Leading spaces do not change what a line is. */
  lemma IndentedKind(indent: string, text: string)
    requires forall i :: 0 <= i < |indent| ==> IsSpace(indent[i])
    requires text != [] && !IsSpace(text[0]) && !IsSpace(text[|text| - 1])
    ensures JsonLineOf(indent + text) == TrimmedKind(text)
  {
    TrimSpaceAfter(indent, text);
  }

  /** The line of a name without quotes is not the key line unless the
      name is the key. */
  lemma NameLineNotKey(name: string, suffix: string)
    requires '"' !in name && '"' !in suffix && name != ListKey
    ensures !Contains(QuotedText(name, suffix), QuotedKey)
  {
    var t := QuotedText(name, suffix);
    var e := |name| + 1;
    forall j | 0 <= j < |t| && j != 0 && j != e ensures t[j] != '"' {
      if j < e {
        assert t[j] == name[j - 1];
      } else {
        assert t[j] == suffix[j - e - 1];
      }
    }
    forall k | 0 <= k <= |t| ensures !HasPrefix(t[k..], QuotedKey) {
      var w := t[k..];
      assert QuotedKey[0] == '"' && QuotedKey[21] == '"' && QuotedKey[1..21] == ListKey;
      if k + |QuotedKey| > |t| {
      } else if k != 0 && k != e {
        assert w[0] != QuotedKey[0];
      } else if k == 0 && e != 21 {
        assert w[21] != QuotedKey[21];
      } else if k == 0 {
        assert w[1..21] == t[1..e] == name;
        assert w[..|QuotedKey|][1..21] == w[1..21];
      } else {
        assert w[21] != QuotedKey[21];
      }
    }
    if Contains(t, QuotedKey) {
      var k := ContainsAt(t, QuotedKey);
    }
  }

  /** The lines `json.MarshalIndent` with an indent of two spaces writes
      for the list key of the top-level object holding the given names,
      for names it writes unescaped: `null` on the key line when there are
      none; `last` says whether the key is the last one, which leaves the
      comma off the line that ends the value. */
  function ListedLines(names: seq<string>, last: bool): seq<string> {
    if names == [] then [KeyText(": null" + Comma(last))]
    else [KeyText(": [")] + ItemLines(names) + [ClosingText(Comma(last))]
  }

  function Comma(last: bool): string {
    if last then "" else ","
  }

  function KeyText(rest: string): string {
    "  " + QuotedKey + rest
  }

  function ClosingText(comma: string): string {
    "  ]" + comma
  }

  function ItemLines(names: seq<string>): (lines: seq<string>)
    ensures |lines| == |names|
  {
    seq(|names|, i requires 0 <= i < |names| => "    " + QuotedText(names[i], Comma(i == |names| - 1)))
  }

  lemma KeyLineKind(rest: string)
    requires rest != [] && !IsSpace(rest[|rest| - 1])
    ensures JsonLineOf(KeyText(rest)) == KeyLine
  {
    var t := QuotedKey + rest;
    assert KeyText(rest) == "  " + t;
    assert t[0] == '"';
    IndentedKind("  ", t);
    assert t[..|QuotedKey|] == QuotedKey;
  }

  lemma ClosingLineKind(comma: string)
    requires comma == "" || comma == ","
    ensures JsonLineOf(ClosingText(comma)) == Closing
  {
    var t := "]" + comma;
    assert ClosingText(comma) == "  " + t;
    IndentedKind("  ", t);
    ShortNotContains(t, QuotedKey);
    assert HasPrefix(t, "]");
  }

  lemma {:induction false} ItemKinds(names: seq<string>)
    requires forall i :: 0 <= i < |names| ==> Listable(names[i])
    ensures JsonLines(ItemLines(names)) == QuotedKinds(names)
  {
    var items := ItemLines(names);
    forall i | 0 <= i < |names| ensures JsonLines(items)[i] == QuotedKinds(names)[i] {
      ItemKind(names[i], i == |names| - 1);
    }
  }

  /** One line of the list is read as its quoted name. */
  lemma ItemKind(name: string, last: bool)
    requires Listable(name)
    ensures JsonLineOf("    " + QuotedText(name, Comma(last))) == Quoted(name)
  {
    NameLineNotKey(name, Comma(last));
    QuotedLineKind("    ", name, Comma(last));
  }

  lemma {:induction false} ListedKinds(names: seq<string>, last: bool)
    requires names != []
    requires forall i :: 0 <= i < |names| ==> Listable(names[i])
    ensures JsonLines(ListedLines(names, last)) == [KeyLine] + QuotedKinds(names) + [Closing]
  {
    var key := [KeyText(": [")];
    var closing := [ClosingText(Comma(last))];
    JsonLinesConcat(key, ItemLines(names));
    JsonLinesConcat(key + ItemLines(names), closing);
    KeyLineKind(": [");
    ClosingLineKind(Comma(last));
    assert JsonLines(key) == [KeyLine];
    assert JsonLines(closing) == [Closing];
    ItemKinds(names);
  }

  /** A list written by the encoder is read back by the scrape: the names
      found in a file are exactly those of the list, whatever precedes the
      key (short of another key line) and whatever follows the list. */
  lemma ScrapeListed(pre: seq<string>, names: seq<string>, last: bool, post: seq<string>)
    requires forall i :: 0 <= i < |pre| ==> JsonLineOf(pre[i]) != KeyLine
    requires names != []
    requires forall i :: 0 <= i < |names| ==> Listable(names[i])
    ensures Scraped(pre + ListedLines(names, last) + post) == Elems(names)
  {
    ListedKinds(names, last);
    ScrapeBetween(pre, ListedLines(names, last), names, post);
  }

  /** Lines that classify as a key line, quoted names and a closing line
      yield exactly those names, between lines as `ScrapeListed` allows. */
  lemma ScrapeBetween(pre: seq<string>, lines: seq<string>, names: seq<string>, post: seq<string>)
    requires forall i :: 0 <= i < |pre| ==> JsonLineOf(pre[i]) != KeyLine
    requires forall i :: 0 <= i < |names| ==> names[i] != "" && names[i] != ListKey
    requires JsonLines(lines) == [KeyLine] + QuotedKinds(names) + [Closing]
    ensures Scraped(pre + lines + post) == Elems(names)
  {
    JsonLinesConcat(pre, lines);
    JsonLinesConcat(pre + lines, post);
    ScrapeListedKinds(JsonLines(pre), names, JsonLines(post));
  }

  lemma {:induction false} ScrapeListedKinds(a: seq<JsonLine>, names: seq<string>, c: seq<JsonLine>)
    requires forall i :: 0 <= i < |a| ==> a[i] != KeyLine
    requires forall i :: 0 <= i < |names| ==> names[i] != "" && names[i] != ListKey
    ensures ScrapeRun(ScrapeStart, a + ([KeyLine] + QuotedKinds(names) + [Closing]) + c).existing == Elems(names)
  {
    var b := [KeyLine] + QuotedKinds(names) + [Closing];
    ScrapeRunAppend(ScrapeStart, a + b, c);
    ScrapeRunAppend(ScrapeStart, a, b);
    ScrapeBeforeKey(a);
    var s1 := ScrapeStart.(inDeps := true);
    var q := QuotedKinds(names);
    assert [KeyLine][..0] == [] && [Closing][..0] == [];
    assert ScrapeRun(ScrapeStart, [KeyLine]) == s1;
    ScrapeRunAppend(ScrapeStart, [KeyLine], q);
    ScrapeQuoted(s1, names);
    var s2 := s1.(existing := Elems(names));
    assert ScrapeRun(ScrapeStart, [KeyLine] + q) == s2;
    ScrapeRunAppend(ScrapeStart, [KeyLine] + q, [Closing]);
    var s3 := s2.(stopped := true);
    assert ScrapeRun(s2, [Closing]) == s3;
    assert ScrapeRun(ScrapeStart, a + b) == s3;
    ScrapeRunStopped(s3, c);
  }

  /** What lies between the outer quotes of a project's `name` line. */
  const NameBody := "name\": \"app"

  /** The line the encoder writes for the `name` key of a project. */
  const NameLine := "  " + QuotedText(NameBody, ",")

  /** The line the encoder writes for an empty `tags` list. */
  const TagsLine := "  " + "\"tags\": [],"

  lemma TagsLineKind()
    ensures JsonLineOf(TagsLine) == Closing
  {
    var t := "\"tags\": [],";
    IndentedKind("  ", t);
    ShortNotContains(t, QuotedKey);
    ContainsChar(t, ']');
    assert t[9] == ']';
  }

  /** A key line whose value is empty, whether written as `null` (the way
      the program itself writes an empty list) or as `[]`, is the key line:
      the key test comes before the test for a closing bracket. */
  lemma EmptyValueKeyLines(last: bool)
    ensures ListedLines([], last) == [KeyText(": null" + Comma(last))]
    ensures JsonLineOf(KeyText(": null" + Comma(last))) == KeyLine
    ensures JsonLineOf(KeyText(": []" + Comma(last))) == KeyLine
  {
    KeyLineKind(": null" + Comma(last));
    KeyLineKind(": []" + Comma(last));
  }

  /** After a key line with an empty value the scrape finds no closing
      bracket on that line, so it reads the quoted text of the lines after
      it as names, up to the next line holding a closing bracket. */
  lemma EmptyListScrapesNext(pre: seq<string>, key: string, body: string, suffix: string, closing: string, post: seq<string>)
    requires forall i :: 0 <= i < |pre| ==> JsonLineOf(pre[i]) != KeyLine
    requires JsonLineOf(key) == KeyLine
    requires body != "" && body != ListKey && ']' !in body
    requires '"' !in suffix && ']' !in suffix && (suffix == [] || !IsSpace(suffix[|suffix| - 1]))
    requires !Contains(QuotedText(body, suffix), QuotedKey)
    requires JsonLineOf(closing) == Closing
    ensures Scraped(pre + [key, "  " + QuotedText(body, suffix), closing] + post) == {body}
  {
    var item := "  " + QuotedText(body, suffix);
    QuotedLineKind("  ", body, suffix);
    OneItemKinds(key, item, body, closing);
    ScrapeBetween(pre, [key, item, closing], [body], post);
    assert Elems([body]) == {body};
  }

  /** The kinds of a key line, one line quoting `body` and a closing line. */
  lemma OneItemKinds(key: string, item: string, body: string, closing: string)
    requires JsonLineOf(key) == KeyLine && JsonLineOf(item) == Quoted(body) && JsonLineOf(closing) == Closing
    ensures JsonLines([key, item, closing]) == [KeyLine] + QuotedKinds([body]) + [Closing]
  {
    KindsOfLines([key, item, closing], [KeyLine, Quoted(body), Closing]);
    assert QuotedKinds([body]) == [Quoted(body)];
  }

  lemma KindsOfLines(lines: seq<string>, kinds: seq<JsonLine>)
    requires |lines| == |kinds| && forall i :: 0 <= i < |lines| ==> JsonLineOf(lines[i]) == kinds[i]
    ensures JsonLines(lines) == kinds
  {
  }

  /** The same for a project whose `name` key follows the empty list: the
      key, its value and the quotes between them are taken for a name. This
      holds for the `null` the program writes itself and for `[]`. */
  lemma EmptyListScrapesNameKey(pre: seq<string>, post: seq<string>)
    requires forall i :: 0 <= i < |pre| ==> JsonLineOf(pre[i]) != KeyLine
    ensures Scraped(pre + ListedLines([], false) + [NameLine, TagsLine] + post) == {"name\": \"app"}
    ensures Scraped(pre + [KeyText(": []" + Comma(false))] + [NameLine, TagsLine] + post) == {"name\": \"app"}
  {
    EmptyValueKeyLines(false);
    NameKeyAfter(pre, ListedLines([], false), post);
    NameKeyAfter(pre, [KeyText(": []" + Comma(false))], post);
  }

  lemma NameKeyAfter(pre: seq<string>, key: seq<string>, post: seq<string>)
    requires forall i :: 0 <= i < |pre| ==> JsonLineOf(pre[i]) != KeyLine
    requires |key| == 1 && JsonLineOf(key[0]) == KeyLine
    ensures Scraped(pre + key + [NameLine, TagsLine] + post) == {NameBody}
  {
    NameLineKind();
    TagsLineKind();
    ScrapeOneItem(pre, key, NameLine, NameBody, TagsLine, post);
  }

  lemma NameLineKind()
    ensures JsonLineOf(NameLine) == Quoted(NameBody)
    ensures NameBody != "" && NameBody != ListKey
  {
    ShortNotContains(QuotedText(NameBody, ","), QuotedKey);
    QuotedLineKind("  ", NameBody, ",");
  }

  /** A key line, a line quoting `body` and a closing line yield `body`. */
  lemma ScrapeOneItem(pre: seq<string>, key: seq<string>, item: string, body: string, closing: string, post: seq<string>)
    requires forall i :: 0 <= i < |pre| ==> JsonLineOf(pre[i]) != KeyLine
    requires |key| == 1 && JsonLineOf(key[0]) == KeyLine
    requires JsonLineOf(item) == Quoted(body) && body != "" && body != ListKey
    requires JsonLineOf(closing) == Closing
    ensures Scraped(pre + key + [item, closing] + post) == {body}
  {
    Regrouped(pre, key, item, closing, post);
    OneItemKinds(key[0], item, body, closing);
    ScrapeBetween(pre, key + [item, closing], [body], post);
    assert Elems([body]) == {body};
  }

  /** A one-line key followed by two lines, regrouped. */
  lemma Regrouped<T>(pre: seq<T>, key: seq<T>, x: T, y: T, post: seq<T>)
    requires |key| == 1
    ensures key + [x, y] == [key[0], x, y]
    ensures pre + (key + [x, y]) + post == pre + key + [x, y] + post
  {
  }
}
