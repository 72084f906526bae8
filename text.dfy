/** Models of the functions of Go's `strings` package that the core relies on,
    over `string` (a sequence of Unicode scalar values). */
module Text {

  /** `unicode.IsSpace`: the characters with the Unicode White_Space property. */
  predicate IsSpace(c: char) {
    || c == ' '
    || ('\t' <= c <= '\r')
    || c == '\U{85}' || c == '\U{A0}' || c == '\U{1680}'
    || ('\U{2000}' <= c <= '\U{200A}')
    || c == '\U{2028}' || c == '\U{2029}' || c == '\U{202F}' || c == '\U{205F}' || c == '\U{3000}'
  }

  predicate NoSpace(s: string) {
    forall i :: 0 <= i < |s| ==> !IsSpace(s[i])
  }

  /** `strings.HasPrefix` */
  predicate HasPrefix(s: string, p: string) {
    |p| <= |s| && s[..|p|] == p
  }

  /** A text that starts with `p + q` starts with `p`. */
  lemma PrefixOfLonger(s: string, p: string, q: string)
    ensures HasPrefix(s, p + q) ==> HasPrefix(s, p)
  {
    if HasPrefix(s, p + q) {
      assert s[..|p|] == s[..|p + q|][..|p|];
    }
  }

  /** Texts that differ in their first character do not start one with
      the other. */
  lemma NotPrefix(s: string, p: string)
    requires s != [] && p != [] && s[0] != p[0]
    ensures !HasPrefix(s, p)
  {
    if |p| <= |s| {
      assert s[..|p|][0] == s[0];
    }
  }

  /** `strings.HasSuffix` */
  predicate HasSuffix(s: string, p: string) {
    |p| <= |s| && s[|s| - |p|..] == p
  }

  /** A text that ends with `p + q` ends with `q`. */
  lemma SuffixOfLonger(s: string, p: string, q: string)
    ensures HasSuffix(s, p + q) ==> HasSuffix(s, q)
  {
    if HasSuffix(s, p + q) {
      assert s[|s| - |q|..] == s[|s| - |p + q|..][|p|..];
    }
  }

  /** `strings.Contains`: `sub` occurs somewhere in `s`. */
  predicate Contains(s: string, sub: string)
    decreases |s|
  {
    HasPrefix(s, sub) || (|s| > 0 && Contains(s[1..], sub))
  }

  /** `strings.TrimPrefix` */
  function TrimPrefix(s: string, p: string): (r: string)
    ensures HasPrefix(s, p) ==> s == p + r
    ensures !HasPrefix(s, p) ==> r == s
  {
    if HasPrefix(s, p) then s[|p|..] else s
  }

  /** Number of leading characters of `s` satisfying `drop`. */
  function LeadingCount(s: string, drop: char -> bool): (n: nat)
    ensures n <= |s|
    ensures forall i :: 0 <= i < n ==> drop(s[i])
    ensures n == |s| || !drop(s[n])
  {
    if |s| == 0 || !drop(s[0]) then 0 else 1 + LeadingCount(s[1..], drop)
  }

  /** Number of trailing characters of `s` satisfying `drop`. */
  function TrailingCount(s: string, drop: char -> bool): (n: nat)
    ensures n <= |s|
    ensures forall i :: |s| - n <= i < |s| ==> drop(s[i])
    ensures n == |s| || !drop(s[|s| - n - 1])
  {
    if |s| == 0 || !drop(s[|s| - 1]) then 0 else 1 + TrailingCount(s[..|s| - 1], drop)
  }

  /** `strings.TrimLeftFunc`: drops the leading characters satisfying `drop`. */
  function TrimLeftWhere(s: string, drop: char -> bool): string {
    s[LeadingCount(s, drop)..]
  }

  /** `strings.TrimRightFunc`: drops the trailing characters satisfying `drop`. */
  function TrimRightWhere(s: string, drop: char -> bool): string {
    s[..|s| - TrailingCount(s, drop)]
  }

  /** `strings.TrimSpace` */
  function TrimSpace(s: string): string {
    TrimRightWhere(TrimLeftWhere(s, IsSpace), IsSpace)
  }

  /** A line whose trimmed text starts with `prefix`. */
  predicate Starts(line: string, prefix: string) {
    HasPrefix(TrimSpace(line), prefix)
  }

  /** The characters of a cutset, as a predicate. */
  function InCutset(cutset: set<char>): char -> bool {
    c => c in cutset
  }

  /** `strings.Trim(s, cutset)` */
  function Trim(s: string, cutset: set<char>): string {
    TrimRightWhere(TrimLeftWhere(s, InCutset(cutset)), InCutset(cutset))
  }

  /** Length of the longest prefix of `s` holding no white space. */
  function WordLength(s: string): (n: nat)
    ensures n <= |s|
    ensures forall i :: 0 <= i < n ==> !IsSpace(s[i])
    ensures n == |s| || IsSpace(s[n])
  {
    if |s| == 0 || IsSpace(s[0]) then 0 else 1 + WordLength(s[1..])
  }

  /** `strings.Fields`: the maximal runs of non-space characters, in order. */
  function Fields(s: string): (r: seq<string>)
    ensures forall i :: 0 <= i < |r| ==> r[i] != [] && NoSpace(r[i])
    decreases |s|
  {
    var t := TrimLeftWhere(s, IsSpace);
    if t == [] then []
    else
      var n := WordLength(t);
      [t[..n]] + Fields(t[n..])
  }

  /** `strings.Split(s, string(sep))` */
  function Split(s: string, sep: char): (r: seq<string>)
    ensures |r| >= 1
    ensures forall i :: 0 <= i < |r| ==> sep !in r[i]
  {
    if s == [] then [[]]
    else
      var rest := Split(s[1..], sep);
      if s[0] == sep then [[]] + rest else [[s[0]] + rest[0]] + rest[1..]
  }

  /** `strings.Join` */
  function Join(parts: seq<string>, sep: string): string {
    if |parts| == 0 then []
    else if |parts| == 1 then parts[0]
    else parts[0] + sep + Join(parts[1..], sep)
  }

  /** Joining the pieces of a split gives back the original text. */
  lemma {:induction false} JoinSplit(s: string, sep: char)
    ensures Join(Split(s, sep), [sep]) == s
  {
    if s != [] {
      var rest := Split(s[1..], sep);
      JoinSplit(s[1..], sep);
      if s[0] == sep {
        assert Split(s, sep) == [[]] + rest;
      } else {
        var r := Split(s, sep);
        assert r == [[s[0]] + rest[0]] + rest[1..];
        if |rest| == 1 {
          assert Join(r, [sep]) == [s[0]] + rest[0];
        } else {
          assert Join(rest, [sep]) == rest[0] + [sep] + Join(rest[1..], [sep]);
          assert r[1..] == rest[1..];
          assert Join(r, [sep]) == [s[0]] + rest[0] + [sep] + Join(rest[1..], [sep]);
        }
      }
    }
  }

  /** Splitting a join of separator-free pieces gives back the pieces. */
  lemma {:induction false} SplitJoin(parts: seq<string>, sep: char)
    requires |parts| >= 1
    requires forall i :: 0 <= i < |parts| ==> sep !in parts[i]
    ensures Split(Join(parts, [sep]), sep) == parts
  {
    if |parts| == 1 {
      SplitPiece(parts[0], [], sep);
      assert parts[0] + [] == parts[0];
      assert Split([], sep) == [[]];
      assert [parts[0] + []] == parts;
    } else {
      SplitJoin(parts[1..], sep);
      var tail := Join(parts[1..], [sep]);
      assert Join(parts, [sep]) == parts[0] + ([sep] + tail);
      assert ([sep] + tail)[1..] == tail;
      var r := Split([sep] + tail, sep);
      assert r == [[]] + parts[1..];
      SplitPiece(parts[0], [sep] + tail, sep);
      assert parts[0] + r[0] == parts[0];
      assert [parts[0]] + parts[1..] == parts;
    }
  }

  /** Splitting two texts joined by a separator gives the pieces of the
      first followed by the pieces of the second. */
  lemma {:induction false} SplitAppend(x: string, y: string, sep: char)
    ensures Split(x + [sep] + y, sep) == Split(x, sep) + Split(y, sep)
  {
    if x == [] {
      assert x + [sep] + y == [sep] + y;
      assert ([sep] + y)[1..] == y;
    } else {
      var t := x[1..] + [sep] + y;
      assert x + [sep] + y == [x[0]] + t;
      assert x == [x[0]] + x[1..];
      SplitAppend(x[1..], y, sep);
      SplitCons(x[0], t, sep);
      SplitCons(x[0], x[1..], sep);
      if x[0] != sep {
        FirstExtended([x[0]], Split(x[1..], sep), Split(y, sep));
      }
    }
  }

  /** The pieces of a text with one more character in front. */
  lemma SplitCons(c: char, t: string, sep: char)
    ensures Split([c] + t, sep) == if c == sep then [[]] + Split(t, sep)
                                  else [[c] + Split(t, sep)[0]] + Split(t, sep)[1..]
  {
    assert ([c] + t)[0] == c && ([c] + t)[1..] == t;
  }

  lemma FirstExtended(c: string, head: seq<string>, tail: seq<string>)
    requires |head| >= 1
    ensures [c + (head + tail)[0]] + (head + tail)[1..] == ([c + head[0]] + head[1..]) + tail
  {
    assert (head + tail)[0] == head[0];
    assert (head + tail)[1..] == head[1..] + tail;
  }

  /** A separator-free piece in front of `rest` extends the first field of `rest`. */
  lemma {:induction false} SplitPiece(piece: string, rest: string, sep: char)
    requires sep !in piece
    ensures var r := Split(rest, sep);
            Split(piece + rest, sep) == [piece + r[0]] + r[1..]
  {
    var r := Split(rest, sep);
    if piece == [] {
      assert piece + rest == rest;
      assert piece + r[0] == r[0];
      assert [r[0]] + r[1..] == r;
    } else {
      SplitPiece(piece[1..], rest, sep);
      var tail := Split(piece[1..] + rest, sep);
      assert tail == [piece[1..] + r[0]] + r[1..];
      assert (piece + rest)[1..] == piece[1..] + rest;
      assert (piece + rest)[0] == piece[0] != sep;
      assert Split(piece + rest, sep) == [[piece[0]] + tail[0]] + tail[1..];
      assert [piece[0]] + (piece[1..] + r[0]) == piece + r[0];
    }
  }

  /** `strings.ReplaceAll` for a non-empty pattern: every non-overlapping
      occurrence of `pattern`, scanned from the left, becomes `replacement`. */
  function ReplaceAll(s: string, pattern: string, replacement: string): string
    requires pattern != []
    decreases |s|
  {
    if |s| < |pattern| then s
    else if s[..|pattern|] == pattern then replacement + ReplaceAll(s[|pattern|..], pattern, replacement)
    else [s[0]] + ReplaceAll(s[1..], pattern, replacement)
  }

  /** A text without the pattern is left unchanged. */
  lemma {:induction false} ReplaceAllAbsent(s: string, pattern: string, replacement: string)
    requires pattern != []
    requires !Contains(s, pattern)
    ensures ReplaceAll(s, pattern, replacement) == s
  {
    if |s| >= |pattern| {
      ReplaceAllAbsent(s[1..], pattern, replacement);
      assert [s[0]] + s[1..] == s;
    }
  }

  /** Replacing a pattern by itself changes nothing. */
  lemma {:induction false} ReplaceAllIdentity(s: string, pattern: string)
    requires pattern != []
    ensures ReplaceAll(s, pattern, pattern) == s
  {
    if |s| >= |pattern| {
      if s[..|pattern|] == pattern {
        ReplaceAllIdentity(s[|pattern|..], pattern);
        assert pattern + s[|pattern|..] == s;
      } else {
        ReplaceAllIdentity(s[1..], pattern);
        assert [s[0]] + s[1..] == s;
      }
    }
  }

  /** `strings.Index(s, string(c))`: the first position of `c`, or -1. */
  function IndexOf(s: string, c: char): (i: int)
    ensures -1 <= i < |s|
    ensures i == -1 <==> c !in s
    ensures i >= 0 ==> s[i] == c && c !in s[..i]
  {
    if |s| == 0 then -1
    else if s[0] == c then 0
    else var j := IndexOf(s[1..], c); if j == -1 then -1 else j + 1
  }

  /** `strings.LastIndex(s, string(c))`: the last position of `c`, or -1. */
  function LastIndexOf(s: string, c: char): (i: int)
    ensures -1 <= i < |s|
    ensures i == -1 <==> c !in s
    ensures i >= 0 ==> s[i] == c && c !in s[i + 1..]
  {
    if |s| == 0 then -1
    else if s[|s| - 1] == c then |s| - 1
    else LastIndexOf(s[..|s| - 1], c)
  }

  /** A run of dropped characters followed by a kept one is the leading run. */
  lemma {:induction false} LeadingCountConcat(x: string, y: string, drop: char -> bool)
    requires forall i :: 0 <= i < |x| ==> drop(x[i])
    requires y == [] || !drop(y[0])
    ensures LeadingCount(x + y, drop) == |x|
    decreases |x|
  {
    if x == [] {
      assert x + y == y;
    } else {
      assert (x + y)[1..] == x[1..] + y;
      LeadingCountConcat(x[1..], y, drop);
    }
  }

  /** A kept character followed by a run of dropped ones: the run is the
      trailing one. */
  lemma {:induction false} TrailingCountConcat(x: string, y: string, drop: char -> bool)
    requires forall i :: 0 <= i < |y| ==> drop(y[i])
    requires x == [] || !drop(x[|x| - 1])
    ensures TrailingCount(x + y, drop) == |y|
    decreases |y|
  {
    if y == [] {
      assert x + y == x;
    } else {
      assert (x + y)[..|x + y| - 1] == x + y[..|y| - 1];
      TrailingCountConcat(x, y[..|y| - 1], drop);
    }
  }

  /** Trimming a cutset from around a text that neither starts nor ends
      with one of its characters leaves that text. */
  lemma TrimAround(pre: string, mid: string, post: string, cutset: set<char>)
    requires forall i :: 0 <= i < |pre| ==> pre[i] in cutset
    requires forall i :: 0 <= i < |post| ==> post[i] in cutset
    requires mid != [] && mid[0] !in cutset && mid[|mid| - 1] !in cutset
    ensures Trim(pre + mid + post, cutset) == mid
  {
    var drop := InCutset(cutset);
    var s := pre + mid + post;
    assert s == pre + (mid + post);
    LeadingCountConcat(pre, mid + post, drop);
    assert TrimLeftWhere(s, drop) == mid + post;
    TrailingCountConcat(mid, post, drop);
  }

  /** A text that neither starts nor ends with white space is its own
      `TrimSpace`. */
  lemma TrimSpaceUnchanged(s: string)
    requires s == [] || (!IsSpace(s[0]) && !IsSpace(s[|s| - 1]))
    ensures TrimSpace(s) == s
  {
    assert [] + s == s;
    LeadingCountConcat([], s, IsSpace);
    assert s + [] == s;
    TrailingCountConcat(s, [], IsSpace);
  }

  /** `strings.Trim` leaves a text that neither starts nor ends with a
      character of the cutset. */
  lemma TrimEnds(s: string, cutset: set<char>)
    ensures var r := Trim(s, cutset);
            r == [] || (r[0] !in cutset && r[|r| - 1] !in cutset)
  {
    var drop := InCutset(cutset);
    var n := LeadingCount(s, drop);
    var left := s[n..];
    var m := TrailingCount(left, drop);
    var r := Trim(s, cutset);
    assert r == left[..|left| - m];
    if r != [] {
      assert r[0] == s[n] && !drop(s[n]);
      assert r[|r| - 1] == left[|left| - m - 1] && !drop(left[|left| - m - 1]);
    }
  }

  /** White space before a text that neither starts nor ends with white
      space is what `TrimSpace` removes. */
  lemma TrimSpaceAfter(pre: string, mid: string)
    requires forall i :: 0 <= i < |pre| ==> IsSpace(pre[i])
    requires mid != [] && !IsSpace(mid[0]) && !IsSpace(mid[|mid| - 1])
    ensures TrimSpace(pre + mid) == mid
  {
    LeadingCountConcat(pre, mid, IsSpace);
    assert TrimLeftWhere(pre + mid, IsSpace) == mid;
    assert mid + [] == mid;
    TrailingCountConcat(mid, [], IsSpace);
  }

  /** A word ends where white space begins. */
  lemma {:induction false} WordLengthConcat(w: string, r: string)
    requires NoSpace(w)
    requires r == [] || IsSpace(r[0])
    ensures WordLength(w + r) == |w|
    decreases |w|
  {
    if w == [] {
      assert w + r == r;
    } else {
      assert (w + r)[1..] == w[1..] + r;
      WordLengthConcat(w[1..], r);
    }
  }

  /** Leading white space does not change the fields. */
  lemma FieldsSkipSpace(c: char, t: string)
    requires IsSpace(c)
    ensures Fields([c] + t) == Fields(t)
  {
    var s := [c] + t;
    assert s[1..] == t;
    assert TrimLeftWhere(s, IsSpace) == TrimLeftWhere(t, IsSpace);
  }

  /** A word followed by white space (or nothing) is the first field. */
  lemma FieldsWord(w: string, rest: string)
    requires w != [] && NoSpace(w)
    requires rest == [] || IsSpace(rest[0])
    ensures Fields(w + rest) == [w] + Fields(rest)
  {
    assert [] + (w + rest) == w + rest;
    LeadingCountConcat([], w + rest, IsSpace);
    WordLengthConcat(w, rest);
    assert (w + rest)[..|w|] == w && (w + rest)[|w|..] == rest;
  }

  /** Two words separated by one space are two fields. */
  lemma FieldsTwo(a: string, b: string)
    requires a != [] && NoSpace(a) && b != [] && NoSpace(b)
    ensures Fields(a + " " + b) == [a, b]
  {
    assert a + " " + b == a + ([' '] + b);
    FieldsWord(a, [' '] + b);
    FieldsSkipSpace(' ', b);
    FieldsWord(b, "");
    assert b + "" == b;
  }

  lemma Regroup<T>(a: seq<T>, s: seq<T>, b: seq<T>, c: seq<T>)
    ensures a + s + b + s + c == a + (s + (b + s + c))
  {
  }

  lemma RegroupFour<T>(a: seq<T>, s: seq<T>, b: seq<T>, c: seq<T>, d: seq<T>)
    ensures a + s + b + s + c + s + d == a + (s + (b + s + c + s + d))
  {
  }

  /** Three words separated by single spaces are three fields. */
  lemma FieldsThree(a: string, b: string, c: string)
    requires a != [] && NoSpace(a) && b != [] && NoSpace(b) && c != [] && NoSpace(c)
    ensures Fields(a + " " + b + " " + c) == [a, b, c]
  {
    Regroup(a, " ", b, c);
    FieldsWord(a, [' '] + (b + " " + c));
    FieldsSkipSpace(' ', b + " " + c);
    FieldsTwo(b, c);
  }

  /** Four words separated by single spaces are four fields. */
  lemma FieldsFour(a: string, b: string, c: string, d: string)
    requires a != [] && NoSpace(a) && b != [] && NoSpace(b)
    requires c != [] && NoSpace(c) && d != [] && NoSpace(d)
    ensures Fields(a + " " + b + " " + c + " " + d) == [a, b, c, d]
  {
    RegroupFour(a, " ", b, c, d);
    FieldsWord(a, [' '] + (b + " " + c + " " + d));
    FieldsSkipSpace(' ', b + " " + c + " " + d);
    FieldsThree(b, c, d);
  }

  /** `strings.Fields` undoes joining non-empty words without white space
      by single spaces. */
  lemma {:induction false} FieldsJoin(words: seq<string>)
    requires forall i :: 0 <= i < |words| ==> words[i] != [] && NoSpace(words[i])
    ensures Fields(Join(words, " ")) == words
    decreases |words|
  {
    if |words| == 1 {
      FieldsWord(words[0], "");
      assert words[0] + "" == words[0];
    } else if |words| > 1 {
      var tail := Join(words[1..], " ");
      assert Join(words, " ") == words[0] + (" " + tail);
      FieldsWord(words[0], " " + tail);
      FieldsSkipSpace(' ', tail);
      FieldsJoin(words[1..]);
      assert [words[0]] + words[1..] == words;
    }
  }

  /** `strings.Contains(s, string(c))` is membership. */
  lemma {:induction false} ContainsChar(s: string, c: char)
    ensures Contains(s, [c]) <==> c in s
    decreases |s|
  {
    if s != [] {
      ContainsChar(s[1..], c);
      assert s == [s[0]] + s[1..];
    }
  }

  /** Where `strings.Contains` finds its text. */
  lemma {:induction false} ContainsAt(s: string, sub: string) returns (k: nat)
    requires Contains(s, sub)
    ensures k + |sub| <= |s| && s[k..k + |sub|] == sub && HasPrefix(s[k..], sub)
    decreases |s|
  {
    if HasPrefix(s, sub) {
      k := 0;
    } else {
      var j := ContainsAt(s[1..], sub);
      k := j + 1;
      assert s[1..][j..j + |sub|] == s[k..k + |sub|];
      assert s[1..][j..] == s[k..];
    }
  }

  /** A text contains whatever occurs in its middle. */
  lemma {:induction false} ContainsMiddle(a: string, b: string, c: string)
    ensures Contains(a + b + c, b)
    decreases |a|
  {
    if a == [] {
      assert (a + b + c)[..|b|] == b;
    } else {
      ContainsMiddle(a[1..], b, c);
      assert (a + b + c)[1..] == a[1..] + b + c;
    }
  }

  /** A text shorter than another does not contain it. */
  lemma {:induction false} ShortNotContains(s: string, sub: string)
    requires |s| < |sub|
    ensures !Contains(s, sub)
    decreases |s|
  {
    if s != [] {
      ShortNotContains(s[1..], sub);
    }
  }
}
