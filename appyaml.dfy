/** The rewrite of the `dependencies:` list of an app.yaml that the sync
    command performs: the names already listed are collected, merged with
    the discovered ones, sorted, and written back as one quoted item per
    line. The file is handled as text, line by line, not as YAML. */
module AppYaml {
  import opened Wrappers
  import opened Text
  import opened StringOrder
  import opened Config
  import opened Merge

  /** The characters `strings.Trim(dep, "\"'")` removes. */
  const Quotes: set<char> := {'"', '\''}

  /** The name a dash item lists: what follows the dash, trimmed of white
      space and then of quotes. */
  function ItemName(trimmed: string): string {
    Trim(TrimSpace(TrimPrefix(trimmed, "-")), Quotes)
  }

  /** What a line is to the two passes, judged on its trimmed text: the
      `dependencies:` key, a dash item with the name it lists, a blank
      line, a comment, or anything else. The tests are made in this
      order. */
  datatype LineKind = Key | Item(name: string) | BlankLine | Comment | Other

  function KindOf(line: string): LineKind {
    var trimmed := TrimSpace(line);
    if HasPrefix(trimmed, "dependencies:") then Key
    else if HasPrefix(trimmed, "-") then Item(ItemName(trimmed))
    else if trimmed == "" then BlankLine
    else if HasPrefix(trimmed, "#") then Comment
    else Other
  }

  /** The kinds of all the lines, in order. */
  function Kinds(lines: seq<string>): (kinds: seq<LineKind>)
    ensures |kinds| == |lines|
  {
    seq(|lines|, i requires 0 <= i < |lines| => KindOf(lines[i]))
  }

  /** The state of the first pass over the lines. */
  datatype Collection = Collection(inDependencies: bool, found: bool, existing: set<string>, stopped: bool)

  const CollectionStart := Collection(false, false, {}, false)

  /** One line of the first pass: a `dependencies:` line (re)opens the
      list; inside it a dash item adds its name, a blank line or a comment
      is passed over, and any other line ends the pass. */
  function CollectStep(c: Collection, kind: LineKind): Collection {
    if c.stopped then c
    else match kind
      case Key => c.(found := true, inDependencies := true)
      case Item(name) => if c.inDependencies then c.(existing := c.existing + {name}) else c
      case Other => if c.inDependencies then c.(stopped := true) else c
      case _ => c
  }

  /** The first pass over lines of the given kinds. */
  function CollectRun(c: Collection, kinds: seq<LineKind>): Collection
    decreases |kinds|
  {
    if kinds == [] then c
    else CollectStep(CollectRun(c, kinds[..|kinds| - 1]), kinds[|kinds| - 1])
  }

  lemma {:induction false} CollectRunAppend(c: Collection, a: seq<LineKind>, b: seq<LineKind>)
    ensures CollectRun(c, a + b) == CollectRun(CollectRun(c, a), b)
    decreases |b|
  {
    if b == [] {
      assert a + b == a;
    } else {
      assert (a + b)[..|a + b| - 1] == a + b[..|b| - 1];
      assert (a + b)[|a + b| - 1] == b[|b| - 1];
      CollectRunAppend(c, a, b[..|b| - 1]);
    }
  }

  /** Once the first pass has stopped, no later line changes anything. */
  lemma {:induction false} CollectRunStopped(c: Collection, kinds: seq<LineKind>)
    requires c.stopped
    ensures CollectRun(c, kinds) == c
    decreases |kinds|
  {
    if kinds != [] {
      CollectRunStopped(c, kinds[..|kinds| - 1]);
    }
  }

  /** A pass that has stopped after the first `n` lines ends as it is. */
  lemma CollectRunStopsAt(kinds: seq<LineKind>, n: nat)
    requires n <= |kinds| && CollectRun(CollectionStart, kinds[..n]).stopped
    ensures CollectRun(CollectionStart, kinds) == CollectRun(CollectionStart, kinds[..n])
  {
    assert kinds == kinds[..n] + kinds[n..];
    CollectRunAppend(CollectionStart, kinds[..n], kinds[n..]);
    CollectRunStopped(CollectRun(CollectionStart, kinds[..n]), kinds[n..]);
  }

  /** The first pass over the lines of the given kinds: whether a
      `dependencies:` line exists and the names already listed. */
  method CollectExisting(kinds: seq<LineKind>) returns (found: bool, existing: map<string, bool>)
    ensures CollectRun(CollectionStart, kinds).found == found
    ensures CollectRun(CollectionStart, kinds).existing == existing.Keys
  {
    var inDependencies := false;
    found := false;
    existing := map[];
    for i := 0 to |kinds|
      invariant CollectRun(CollectionStart, kinds[..i]) == Collection(inDependencies, found, existing.Keys, false)
    {
      TakeStep(kinds, i);
      var kind := kinds[i];
      if kind == Key {
        found := true;
        inDependencies := true;
        continue;
      }
      if inDependencies {
        if kind.Item? {
          existing := existing[kind.name := true];
        } else if kind == Other {
          CollectRunStopsAt(kinds, i + 1);
          break;
        }
      }
    }
    TakeAll(kinds);
  }

  /** The indentation of a line: its leading spaces and tabs. */
  function Indent(line: string): string {
    if line != [] && (line[0] == ' ' || line[0] == '\t') then [line[0]] + Indent(line[1..]) else []
  }

  /** The line written for one dependency. */
  function DepItem(indent: string, dep: string): string {
    indent + "  - \"" + dep + "\""
  }

  function DepItems(indent: string, merged: seq<string>): (items: seq<string>)
    ensures |items| == |merged|
  {
    seq(|merged|, i requires 0 <= i < |merged| => DepItem(indent, merged[i]))
  }

  /** Whether the second pass drops line `j` as part of an old list: a
      dash item, or a blank line followed by a dash item. */
  predicate SkipsAt(kinds: seq<LineKind>, j: nat)
    requires j < |kinds|
  {
    kinds[j].Item? || (kinds[j] == BlankLine && j + 1 < |kinds| && kinds[j + 1].Item?)
  }

  /** How many lines from `from` on the second pass drops. */
  function Skipped(kinds: seq<LineKind>, from: nat): (n: nat)
    requires from <= |kinds|
    ensures from + n <= |kinds|
    decreases |kinds| - from
  {
    if from < |kinds| && SkipsAt(kinds, from) then 1 + Skipped(kinds, from + 1) else 0
  }

  /** The second pass from line `from` on: each `dependencies:` line is
      kept and followed by the merged list in its indentation, in place of
      the old items; every other line is copied. */
  function Rebuilt(lines: seq<string>, kinds: seq<LineKind>, from: nat, merged: seq<string>): seq<string>
    requires |kinds| == |lines| && from <= |lines|
    decreases |lines| - from
  {
    if from == |lines| then []
    else if kinds[from] == Key then
      [lines[from]] + DepItems(Indent(lines[from]), merged) + Rebuilt(lines, kinds, from + 1 + Skipped(kinds, from + 1), merged)
    else [lines[from]] + Rebuilt(lines, kinds, from + 1, merged)
  }

  /** The lines `updateAppYamlDependencies` writes for a file with the
      given lines. */
  ghost function AppYamlLines(lines: seq<string>, dependencies: seq<string>): seq<string> {
    var c := CollectRun(CollectionStart, Kinds(lines));
    var merged := SortedSet(c.existing + Elems(dependencies));
    Rebuilt(lines, Kinds(lines), 0, merged) + (if !c.found && merged != [] then ["dependencies:"] + DepItems("", merged) else [])
  }

  /** The items loop: appends the merged list. */
  method AppendItems(result: seq<string>, indent: string, merged: seq<string>) returns (r: seq<string>)
    ensures r == result + DepItems(indent, merged)
  {
    r := result;
    for k := 0 to |merged|
      invariant r == result + DepItems(indent, merged)[..k]
    {
      assert DepItems(indent, merged)[..k + 1] == DepItems(indent, merged)[..k] + [DepItem(indent, merged[k])];
      r := r + [DepItem(indent, merged[k])];
    }
    assert DepItems(indent, merged)[..|merged|] == DepItems(indent, merged);
  }

  /** The kinds of the lines, computed once: the tests both passes make
      on each line. */
  method ClassifyLines(lines: seq<string>) returns (kinds: seq<LineKind>)
    ensures kinds == Kinds(lines)
  {
    kinds := [];
    for i := 0 to |lines|
      invariant kinds == Kinds(lines[..i])
    {
      assert Kinds(lines[..i + 1]) == Kinds(lines[..i]) + [KindOf(lines[i])];
      kinds := kinds + [KindOf(lines[i])];
    }
    assert lines[..|lines|] == lines;
  }

  /** The skipping loop after a `dependencies:` line at `i`: the position
      of the last line dropped (`i` itself when none is). */
  method SkipOldItems(kinds: seq<LineKind>, i: nat) returns (j: nat)
    requires i < |kinds|
    ensures j == i + Skipped(kinds, i + 1)
  {
    j := i;
    while j + 1 < |kinds|
      invariant i <= j < |kinds|
      invariant i + Skipped(kinds, i + 1) == j + Skipped(kinds, j + 1)
      decreases |kinds| - j
    {
      if kinds[j + 1].Item? || (kinds[j + 1] == BlankLine && j + 2 < |kinds| && kinds[j + 2].Item?) {
        j := j + 1;
        continue;
      }
      break;
    }
  }

  /** The second pass. */
  method RebuildLines(lines: seq<string>, kinds: seq<LineKind>, merged: seq<string>) returns (result: seq<string>)
    requires |kinds| == |lines|
    ensures result == Rebuilt(lines, kinds, 0, merged)
  {
    result := [];
    var i := 0;
    while i < |lines|
      invariant i <= |lines|
      invariant Rebuilt(lines, kinds, 0, merged) == result + Rebuilt(lines, kinds, i, merged)
      decreases |lines| - i
    {
      var line := lines[i];
      if kinds[i] == Key {
        var indent := Indent(line);
        var j := SkipOldItems(kinds, i);
        RebuiltBlock(lines, kinds, i, merged);
        ghost var before := result;
        result := AppendItems(result + [line], indent, merged);
        Regroup3(before, [line], DepItems(indent, merged), Rebuilt(lines, kinds, j + 1, merged));
        i := j + 1;
      } else {
        RebuiltKeep(lines, kinds, i, merged);
        Regroup2(result, [line], Rebuilt(lines, kinds, i + 1, merged));
        result := result + [line];
        i := i + 1;
      }
    }
  }

  lemma {:induction false} RebuiltKeep(lines: seq<string>, kinds: seq<LineKind>, i: nat, merged: seq<string>)
    requires |kinds| == |lines| && i < |lines| && kinds[i] != Key
    ensures Rebuilt(lines, kinds, i, merged) == [lines[i]] + Rebuilt(lines, kinds, i + 1, merged)
  {
  }

  lemma {:induction false} RebuiltBlock(lines: seq<string>, kinds: seq<LineKind>, i: nat, merged: seq<string>)
    requires |kinds| == |lines| && i < |lines| && kinds[i] == Key
    ensures Rebuilt(lines, kinds, i, merged)
            == [lines[i]] + DepItems(Indent(lines[i]), merged) + Rebuilt(lines, kinds, i + 1 + Skipped(kinds, i + 1), merged)
  {
  }

  lemma Regroup2<T>(a: seq<T>, b: seq<T>, c: seq<T>)
    ensures a + (b + c) == (a + b) + c
  {
  }

  lemma Regroup3<T>(a: seq<T>, b: seq<T>, c: seq<T>, d: seq<T>)
    ensures a + (b + c + d) == (a + b + c) + d
  {
  }

  /** `updateAppYamlDependencies` up to the write: the new lines of the
      file (written back joined with "\n"), or the read error as it is. */
  method UpdateAppYamlDependencies(fs: FileSystem, path: string, dependencies: seq<string>)
    returns (r: Result<seq<string>, string>)
    ensures fs.Read(path).Err? ==> r == Err(fs.Read(path).error)
    ensures fs.Read(path).Ok? ==> r == Ok(AppYamlLines(fs.Read(path).value, dependencies))
  {
    var data := fs.Read(path);
    if data.Err? {
      return Err(data.error);
    }
    var lines := data.value;
    var kinds := ClassifyLines(lines);
    var found, existing := CollectExisting(kinds);
    var merged := MergeDependencies(existing, dependencies);
    var result := RebuildLines(lines, kinds, merged);
    if !found && |merged| > 0 {
      ghost var rebuilt := result;
      result := AppendItems(result + ["dependencies:"], "", merged);
      Regroup2(rebuilt, ["dependencies:"], DepItems("", merged));
    }
    ghost var c := CollectRun(CollectionStart, Kinds(lines));
    assert merged == SortedSet(c.existing + Elems(dependencies));
    assert result == Rebuilt(lines, Kinds(lines), 0, merged) + (if !c.found && merged != [] then ["dependencies:"] + DepItems("", merged) else []);
    r := Ok(result);
  }

  // Properties of the rewrite

  /** A name the written items give back as they are: it neither starts
      nor ends with a quote. */
  predicate Plain(name: string) {
    name == [] || (name[0] !in Quotes && name[|name| - 1] !in Quotes)
  }

  /** Spaces and tabs only. */
  predicate Indentation(s: string) {
    forall i :: 0 <= i < |s| ==> s[i] == ' ' || s[i] == '\t'
  }

  lemma {:induction false} IndentIsIndentation(line: string)
    ensures Indentation(Indent(line))
    decreases |line|
  {
    if line != [] && (line[0] == ' ' || line[0] == '\t') {
      IndentIsIndentation(line[1..]);
    }
  }

  /** Every name an item line yields is plain. */
  lemma ItemNamePlain(trimmed: string)
    ensures Plain(ItemName(trimmed))
  {
    TrimEnds(TrimSpace(TrimPrefix(trimmed, "-")), Quotes);
  }

  /** A written item line is read back as an item listing the same name,
      when the indentation is spaces and tabs and the name is plain. */
  lemma ItemRoundTrip(indent: string, name: string)
    requires Indentation(indent) && Plain(name)
    ensures KindOf(DepItem(indent, name)) == Item(name)
  {
    ItemLineTrimmed(indent, name);
    ItemTextRead(name);
  }

  /** The text of an item line, after its indentation. */
  function ItemText(name: string): string {
    "-" + " " + ("\"" + name + "\"")
  }

  lemma ItemLineTrimmed(indent: string, name: string)
    requires Indentation(indent)
    ensures TrimSpace(DepItem(indent, name)) == ItemText(name)
  {
    var rest := ItemText(name);
    assert DepItem(indent, name) == (indent + "  ") + rest;
    TrimSpaceAfter(indent + "  ", rest);
  }

  lemma ItemTextRead(name: string)
    requires Plain(name)
    ensures !HasPrefix(ItemText(name), "dependencies:") && HasPrefix(ItemText(name), "-")
    ensures ItemName(ItemText(name)) == name
  {
    var quoted := "\"" + name + "\"";
    var rest := ItemText(name);
    assert !HasPrefix(rest, "dependencies:") by {
      assert "dependencies:"[0] == 'd';
      NotPrefix(rest, "dependencies:");
    }
    assert rest[..1] == "-" && rest[1..] == " " + quoted;
    assert TrimPrefix(rest, "-") == " " + quoted;
    TrimSpaceAfter(" ", quoted);
    QuotesTrimmed(name);
  }

  lemma QuotesTrimmed(name: string)
    requires Plain(name)
    ensures Trim("\"" + name + "\"", Quotes) == name
  {
    if name == [] {
      assert "\"" + name + "\"" == "\"\"" + [];
      LeadingCountConcat("\"\"", [], InCutset(Quotes));
    } else {
      TrimAround("\"", name, "\"", Quotes);
    }
  }

  /** No line of the given kinds is a `dependencies:` line. */
  predicate NoKey(kinds: seq<LineKind>) {
    forall k :: 0 <= k < |kinds| ==> kinds[k] != Key
  }

  /** Every line of the given kinds is a dash item. */
  predicate AllItems(kinds: seq<LineKind>) {
    forall k :: 0 <= k < |kinds| ==> kinds[k].Item?
  }

  /** The names the items of the given kinds list. */
  function ItemNames(kinds: seq<LineKind>): (names: set<string>)
    requires AllItems(kinds)
    ensures forall k :: 0 <= k < |kinds| ==> kinds[k].name in names
  {
    set k | 0 <= k < |kinds| :: kinds[k].name
  }

  lemma KindsConcat(a: seq<string>, b: seq<string>)
    ensures Kinds(a + b) == Kinds(a) + Kinds(b)
  {
  }

  /** Without a `dependencies:` line the first pass finds nothing. */
  lemma {:induction false} CollectNoKey(kinds: seq<LineKind>)
    requires NoKey(kinds)
    ensures CollectRun(CollectionStart, kinds) == CollectionStart
    decreases |kinds|
  {
    if kinds != [] {
      CollectNoKey(kinds[..|kinds| - 1]);
    }
  }

  /** Inside the list, dash items add their names. */
  lemma {:induction false} CollectItems(c: Collection, kinds: seq<LineKind>)
    requires c.inDependencies && !c.stopped && AllItems(kinds)
    ensures CollectRun(c, kinds) == c.(existing := c.existing + ItemNames(kinds))
    decreases |kinds|
  {
    if kinds != [] {
      var front := kinds[..|kinds| - 1];
      CollectItems(c, front);
      assert ItemNames(kinds) == ItemNames(front) + {kinds[|kinds| - 1].name};
    }
  }

  /** Without a `dependencies:` line the second pass copies the lines. */
  lemma {:induction false} RebuiltNoKey(lines: seq<string>, kinds: seq<LineKind>, from: nat, merged: seq<string>)
    requires |kinds| == |lines| && from <= |lines|
    requires forall k :: from <= k < |kinds| ==> kinds[k] != Key
    ensures Rebuilt(lines, kinds, from, merged) == lines[from..]
    decreases |lines| - from
  {
    if from < |lines| {
      RebuiltKeep(lines, kinds, from, merged);
      RebuiltNoKey(lines, kinds, from + 1, merged);
      assert lines[from..] == [lines[from]] + lines[from + 1..];
    }
  }

  /** Lines before the first `dependencies:` line are copied. */
  lemma {:induction false} RebuiltUpTo(lines: seq<string>, kinds: seq<LineKind>, from: nat, stop: nat, merged: seq<string>)
    requires |kinds| == |lines| && from <= stop <= |lines|
    requires forall k :: from <= k < stop ==> kinds[k] != Key
    ensures Rebuilt(lines, kinds, from, merged) == lines[from..stop] + Rebuilt(lines, kinds, stop, merged)
    decreases stop - from
  {
    if from < stop {
      RebuiltKeep(lines, kinds, from, merged);
      RebuiltUpTo(lines, kinds, from + 1, stop, merged);
      assert lines[from..stop] == [lines[from]] + lines[from + 1..stop];
      Regroup2([lines[from]], lines[from + 1..stop], Rebuilt(lines, kinds, stop, merged));
    }
  }

  /** The second pass drops a run of items that ends the file or a line of
      another kind. */
  lemma {:induction false} SkippedItems(kinds: seq<LineKind>, from: nat, stop: nat)
    requires from <= stop <= |kinds|
    requires forall k :: from <= k < stop ==> kinds[k].Item?
    requires stop == |kinds| || !SkipsAt(kinds, stop)
    ensures Skipped(kinds, from) == stop - from
    decreases stop - from
  {
    if from < stop {
      SkippedItems(kinds, from + 1, stop);
    }
  }

  /** A file without a `dependencies:` line gets the list, when there is
      anything to list, appended at its end: the given names, each once, in
      increasing order. */
  lemma AppYamlAppended(lines: seq<string>, dependencies: seq<string>)
    requires NoKey(Kinds(lines))
    ensures var merged := SortedSet(Elems(dependencies));
            AppYamlLines(lines, dependencies)
            == lines + (if merged != [] then ["dependencies:"] + DepItems("", merged) else [])
  {
    CollectNoKey(Kinds(lines));
    assert {} + Elems(dependencies) == Elems(dependencies);
    RebuiltNoKey(lines, Kinds(lines), 0, SortedSet(Elems(dependencies)));
    assert lines[0..] == lines;
  }

  /** The first pass up to the end of a run of items after the first
      `dependencies:` line. */
  lemma {:induction false} CollectOpen(kp: seq<LineKind>, ki: seq<LineKind>)
    requires NoKey(kp) && AllItems(ki)
    ensures CollectRun(CollectionStart, kp + [Key] + ki) == Collection(true, true, ItemNames(ki), false)
  {
    CollectRunAppend(CollectionStart, kp + [Key], ki);
    CollectRunAppend(CollectionStart, kp, [Key]);
    CollectNoKey(kp);
    assert [Key][..0] == [];
    var c1 := Collection(true, true, {}, false);
    assert CollectRun(CollectionStart, kp + [Key]) == c1;
    CollectItems(c1, ki);
    assert {} + ItemNames(ki) == ItemNames(ki);
  }

  /** A line of another kind ends the first pass. */
  lemma {:induction false} CollectStops(c: Collection, kq: seq<LineKind>)
    requires c.inDependencies && !c.stopped && kq != [] && kq[0] == Other
    ensures CollectRun(c, kq) == c.(stopped := true)
  {
    assert kq == kq[..1] + kq[1..];
    assert kq[..1][..0] == [];
    CollectRunAppend(c, kq[..1], kq[1..]);
    CollectRunStopped(CollectRun(c, kq[..1]), kq[1..]);
  }

  /** The first pass over a file whose only list is a run of items closed
      by the end of the file or by a line of another kind. */
  lemma {:induction false} CollectBlock(kp: seq<LineKind>, ki: seq<LineKind>, kq: seq<LineKind>)
    requires NoKey(kp) && AllItems(ki) && (kq == [] || kq[0] == Other)
    ensures var c := CollectRun(CollectionStart, kp + [Key] + ki + kq);
            c.found && c.existing == ItemNames(ki)
  {
    CollectRunAppend(CollectionStart, kp + [Key] + ki, kq);
    CollectOpen(kp, ki);
    if kq != [] {
      CollectStops(Collection(true, true, ItemNames(ki), false), kq);
    }
  }

  /** The second pass over lines whose only `dependencies:` line, at `n`,
      is followed by items up to `m`, and `m` is the end or a line of
      another kind. */
  lemma {:induction false} RebuiltOneBlock(lines: seq<string>, kinds: seq<LineKind>, n: nat, m: nat, merged: seq<string>)
    requires |kinds| == |lines| && n < m <= |lines| && kinds[n] == Key
    requires forall k :: 0 <= k < n ==> kinds[k] != Key
    requires forall k :: n < k < m ==> kinds[k].Item?
    requires m == |lines| || !SkipsAt(kinds, m)
    requires forall k :: m <= k < |lines| ==> kinds[k] != Key
    ensures Rebuilt(lines, kinds, 0, merged)
            == lines[..n] + ([lines[n]] + DepItems(Indent(lines[n]), merged) + lines[m..])
  {
    RebuiltUpTo(lines, kinds, 0, n, merged);
    RebuiltBlock(lines, kinds, n, merged);
    SkippedItems(kinds, n + 1, m);
    RebuiltNoKey(lines, kinds, m, merged);
    assert lines[0..n] == lines[..n];
  }

  /** The second pass over such a file: the items are replaced by the
      merged list. */
  lemma {:induction false} RebuiltBlockFile(pre: seq<string>, d: string, items: seq<string>, post: seq<string>,
                         kp: seq<LineKind>, ki: seq<LineKind>, kq: seq<LineKind>, merged: seq<string>)
    requires |kp| == |pre| && |ki| == |items| && |kq| == |post|
    requires NoKey(kp) && AllItems(ki) && NoKey(kq) && (kq == [] || kq[0] == Other || kq[0] == Comment)
    ensures Rebuilt(pre + [d] + items + post, kp + [Key] + ki + kq, 0, merged)
            == pre + [d] + DepItems(Indent(d), merged) + post
  {
    var lines := pre + [d] + items + post;
    var kinds := kp + [Key] + ki + kq;
    var n := |pre|;
    var m := n + 1 + |items|;
    forall k | 0 <= k < n
      ensures kinds[k] != Key
    {
      assert kinds[k] == kp[k];
    }
    forall k | n < k < m
      ensures kinds[k].Item?
    {
      assert kinds[k] == ki[k - n - 1];
    }
    forall k | m <= k < |lines|
      ensures kinds[k] != Key
    {
      assert kinds[k] == kq[k - m];
    }
    assert m < |kinds| ==> kinds[m] == kq[0];
    RebuiltOneBlock(lines, kinds, n, m, merged);
    assert lines[..n] == pre && lines[n] == d && lines[m..] == post;
  }

  /** A file with one list, a run of items after its `dependencies:` line
      closed by the end of the file or by a line of another kind: the items
      are replaced by the names they listed and the given ones, each once,
      in increasing order, in the indentation of the `dependencies:` line;
      every other line stays. */
  lemma AppYamlBlock(pre: seq<string>, d: string, items: seq<string>, post: seq<string>, dependencies: seq<string>)
    requires NoKey(Kinds(pre)) && KindOf(d) == Key && AllItems(Kinds(items))
    requires NoKey(Kinds(post)) && (post == [] || KindOf(post[0]) == Other)
    ensures var merged := SortedSet(ItemNames(Kinds(items)) + Elems(dependencies));
            AppYamlLines(pre + [d] + items + post, dependencies)
            == pre + [d] + DepItems(Indent(d), merged) + post
  {
    var kp, ki, kq := Kinds(pre), Kinds(items), Kinds(post);
    KindsOfFile(pre, d, items, post);
    CollectBlock(kp, ki, kq);
    RebuiltBlockFile(pre, d, items, post, kp, ki, kq, SortedSet(ItemNames(ki) + Elems(dependencies)));
  }

  /** The name of a dash item is plain. */
  lemma {:induction false} ItemKindPlain(line: string)
    requires KindOf(line).Item?
    ensures Plain(KindOf(line).name)
  {
    ItemNamePlain(TrimSpace(line));
  }

  /** Every name the items of some lines list is plain. */
  lemma {:induction false} ItemNamesPlain(items: seq<string>)
    requires AllItems(Kinds(items))
    ensures forall x :: x in ItemNames(Kinds(items)) ==> Plain(x)
  {
    forall x | x in ItemNames(Kinds(items))
      ensures Plain(x)
    {
      var k :| 0 <= k < |items| && Kinds(items)[k].name == x;
      ItemKindPlain(items[k]);
    }
  }

  /** The written list is read back as items listing the merged names. */
  lemma {:induction false} WrittenItems(indent: string, merged: seq<string>)
    requires Indentation(indent)
    requires forall x :: x in Elems(merged) ==> Plain(x)
    ensures AllItems(Kinds(DepItems(indent, merged)))
    ensures ItemNames(Kinds(DepItems(indent, merged))) == Elems(merged)
  {
    var kinds := Kinds(DepItems(indent, merged));
    forall k | 0 <= k < |merged|
      ensures kinds[k] == Item(merged[k])
    {
      assert merged[k] in Elems(merged);
      ItemRoundTrip(indent, merged[k]);
    }
    assert AllItems(kinds);
    forall x | x in Elems(merged)
      ensures x in ItemNames(kinds)
    {
      var k :| 0 <= k < |merged| && merged[k] == x;
      assert kinds[k].name == x;
    }
  }

  lemma {:induction false} KeyLine()
    ensures KindOf("dependencies:") == Key && Indent("dependencies:") == ""
  {
    var d := "dependencies:";
    assert d[0] == 'd';
    assert d == [] + d;
    TrimSpaceAfter([], d);
    assert d[..|d|] == d;
  }

  /** Rewriting a file that ends with the list just appended to it leaves
      it as it is. */
  lemma {:induction false} AppendedListStays(lines: seq<string>, dependencies: seq<string>, merged: seq<string>)
    requires NoKey(Kinds(lines))
    requires merged == SortedSet(Elems(dependencies))
    requires forall x :: x in Elems(merged) ==> Plain(x)
    ensures var once := lines + ["dependencies:"] + DepItems("", merged);
            AppYamlLines(once, dependencies) == once
  {
    var items := DepItems("", merged);
    WrittenItems("", merged);
    KeyLine();
    assert NoKey(Kinds([]));
    AppYamlBlock(lines, "dependencies:", items, [], dependencies);
    assert Elems(merged) + Elems(dependencies) == Elems(dependencies);
    assert lines + ["dependencies:"] + items + [] == lines + ["dependencies:"] + items;
  }

  /** The names listed for plain given names are plain. */
  lemma {:induction false} GivenPlain(dependencies: seq<string>)
    requires forall i :: 0 <= i < |dependencies| ==> Plain(dependencies[i])
    ensures forall x :: x in Elems(SortedSet(Elems(dependencies))) ==> Plain(x)
  {
    forall x | x in Elems(SortedSet(Elems(dependencies)))
      ensures Plain(x)
    {
      var i :| 0 <= i < |dependencies| && dependencies[i] == x;
    }
  }

  /** Appending the list is idempotent: rewriting the result with the same
      names changes nothing, when the names are plain. */
  lemma {:induction false} AppYamlAppendedIdempotent(lines: seq<string>, dependencies: seq<string>)
    requires NoKey(Kinds(lines))
    requires forall i :: 0 <= i < |dependencies| ==> Plain(dependencies[i])
    ensures AppYamlLines(AppYamlLines(lines, dependencies), dependencies) == AppYamlLines(lines, dependencies)
  {
    var merged := SortedSet(Elems(dependencies));
    AppYamlAppended(lines, dependencies);
    if merged != [] {
      GivenPlain(dependencies);
      AppendedListStays(lines, dependencies, merged);
      Regroup2(lines, ["dependencies:"], DepItems("", merged));
    } else {
      assert lines + [] == lines;
    }
  }

  /** Rewriting a file with one list is idempotent: rewriting the result
      with the same names changes nothing, when the names are plain. */
  lemma {:induction false} AppYamlBlockIdempotent(pre: seq<string>, d: string, items: seq<string>, post: seq<string>,
                                                  dependencies: seq<string>)
    requires NoKey(Kinds(pre)) && KindOf(d) == Key && AllItems(Kinds(items))
    requires NoKey(Kinds(post)) && (post == [] || KindOf(post[0]) == Other)
    requires forall i :: 0 <= i < |dependencies| ==> Plain(dependencies[i])
    ensures var once := AppYamlLines(pre + [d] + items + post, dependencies);
            AppYamlLines(once, dependencies) == once
  {
    var names := ItemNames(Kinds(items)) + Elems(dependencies);
    var merged := SortedSet(names);
    AppYamlBlock(pre, d, items, post, dependencies);
    ItemNamesPlain(items);
    IndentIsIndentation(d);
    WrittenItems(Indent(d), merged);
    AppYamlBlock(pre, d, DepItems(Indent(d), merged), post, dependencies);
    assert Elems(merged) + Elems(dependencies) == names;
  }

  /** The first pass over a list whose items are interrupted by a comment:
      the names after the comment are collected too. */
  lemma {:induction false} CollectAcrossComment(kp: seq<LineKind>, ki: seq<LineKind>, kl: seq<LineKind>, kq: seq<LineKind>)
    requires NoKey(kp) && AllItems(ki) && AllItems(kl) && (kq == [] || kq[0] == Other)
    ensures var c := CollectRun(CollectionStart, kp + [Key] + ki + ([Comment] + kl + kq));
            c.found && c.existing == ItemNames(ki) + ItemNames(kl)
  {
    var c2 := Collection(true, true, ItemNames(ki), false);
    CollectOpen(kp, ki);
    CollectRunAppend(CollectionStart, kp + [Key] + ki, [Comment] + kl + kq);
    CollectRunAppend(c2, [Comment] + kl, kq);
    CollectRunAppend(c2, [Comment], kl);
    assert [Comment][..0] == [];
    assert CollectRun(c2, [Comment]) == c2;
    CollectItems(c2, kl);
    var c3 := c2.(existing := ItemNames(ki) + ItemNames(kl));
    if kq != [] {
      CollectStops(c3, kq);
    }
  }

  lemma {:induction false} KindsOfFile(pre: seq<string>, d: string, items: seq<string>, rest: seq<string>)
    ensures Kinds(pre + [d] + items + rest) == Kinds(pre) + [KindOf(d)] + Kinds(items) + Kinds(rest)
  {
    calc {
      Kinds(pre + [d] + items + rest);
      { KindsConcat(pre + [d] + items, rest); }
      Kinds(pre + [d] + items) + Kinds(rest);
      { KindsConcat(pre + [d], items); }
      Kinds(pre + [d]) + Kinds(items) + Kinds(rest);
      { KindsConcat(pre, [d]); }
      Kinds(pre) + Kinds([d]) + Kinds(items) + Kinds(rest);
      { assert Kinds([d]) == [KindOf(d)]; }
      Kinds(pre) + [KindOf(d)] + Kinds(items) + Kinds(rest);
    }
  }

  lemma {:induction false} KindsOfRest(c: string, later: seq<string>, post: seq<string>)
    ensures Kinds([c] + later + post) == [KindOf(c)] + Kinds(later) + Kinds(post)
  {
    calc {
      Kinds([c] + later + post);
      { KindsConcat([c] + later, post); }
      Kinds([c] + later) + Kinds(post);
      { KindsConcat([c], later); }
      Kinds([c]) + Kinds(later) + Kinds(post);
      { assert Kinds([c]) == [KindOf(c)]; }
      [KindOf(c)] + Kinds(later) + Kinds(post);
    }
  }

  lemma {:induction false} NoKeyAfterComment(kl: seq<LineKind>, kq: seq<LineKind>)
    requires AllItems(kl) && NoKey(kq)
    ensures NoKey([Comment] + kl + kq)
  {
    var kr := [Comment] + kl + kq;
    forall k | 0 <= k < |kr|
      ensures kr[k] != Key
    {
      if 1 <= k < 1 + |kl| {
        assert kr[k] == kl[k - 1];
      } else if k >= 1 + |kl| {
        assert kr[k] == kq[k - 1 - |kl|];
      }
    }
  }

  /** A comment inside the list ends the old items the second pass drops,
      but not the names the first pass collects: the items after the
      comment are listed in the new list and also stay where they were. */
  lemma {:induction false} CommentSplitsList(pre: seq<string>, d: string, items: seq<string>, c: string,
                                             later: seq<string>, post: seq<string>, dependencies: seq<string>)
    requires NoKey(Kinds(pre)) && KindOf(d) == Key && AllItems(Kinds(items))
    requires KindOf(c) == Comment && AllItems(Kinds(later))
    requires NoKey(Kinds(post)) && (post == [] || KindOf(post[0]) == Other)
    ensures var merged := SortedSet(ItemNames(Kinds(items)) + ItemNames(Kinds(later)) + Elems(dependencies));
            AppYamlLines(pre + [d] + items + ([c] + later + post), dependencies)
            == pre + [d] + DepItems(Indent(d), merged) + ([c] + later + post)
  {
    var rest := [c] + later + post;
    var kp, ki, kl, kq := Kinds(pre), Kinds(items), Kinds(later), Kinds(post);
    KindsOfRest(c, later, post);
    var kr := [Comment] + kl + kq;
    KindsOfFile(pre, d, items, rest);
    CollectAcrossComment(kp, ki, kl, kq);
    NoKeyAfterComment(kl, kq);
    RebuiltBlockFile(pre, d, items, rest, kp, ki, kr,
                     SortedSet(ItemNames(ki) + ItemNames(kl) + Elems(dependencies)));
  }
}
