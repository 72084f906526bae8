/** The parts of Go's `path/filepath` that the core uses, on Unix paths:
    `Clean`, the `Join` that cleans its result, `Dir` and `Base`. */
module Paths {
  import opened Text

  predicate IsAbs(p: string) {
    |p| > 0 && p[0] == '/'
  }

  /** An element that `Clean` keeps as it is: not empty, not "." or "..",
      and free of separators. */
  predicate IsName(e: string) {
    e != "" && e != "." && e != ".." && '/' !in e
  }

  /** A relative path made of names only, such as `apps/web`. */
  predicate Names(p: string) {
    var elems := Split(p, '/');
    forall i :: 0 <= i < |elems| ==> IsName(elems[i])
  }

  /** A path of names, relative or rooted: `apps/web` or `/work/apps`. */
  predicate IsClean(p: string) {
    Names(p) || (IsAbs(p) && Names(p[1..]))
  }

  /** One element of `Clean`'s walk: an empty or "." element is dropped;
      ".." removes the last name kept, and otherwise is dropped at the root
      and kept in a relative path; a name is kept. */
  function Step(out: seq<string>, e: string, rooted: bool): seq<string> {
    if e == "" || e == "." then out
    else if e == ".." then
      if |out| > 0 && out[|out| - 1] != ".." then out[..|out| - 1]
      else if rooted then out
      else out + [".."]
    else out + [e]
  }

  /** The elements `Clean` keeps of `elems`, after those in `out`. */
  function Resolve(out: seq<string>, elems: seq<string>, rooted: bool): seq<string>
    decreases |elems|
  {
    if elems == [] then out
    else Resolve(Step(out, elems[0], rooted), elems[1..], rooted)
  }

  /** `filepath.Clean`: the kept elements separated by one "/", after a
      "/" for a rooted path; "." for a relative path with nothing kept. */
  function Clean(p: string): (r: string)
    ensures r != ""
    ensures IsAbs(r) <==> IsAbs(p)
  {
    var body := Text.Join(Resolve([], Split(p, '/'), IsAbs(p)), "/");
    if IsAbs(p) then "/" + body
    else if body == "" then "."
    else
      assert !IsAbs(body) by {
        ResolvedFirst(p);
      }
      body
  }

  /** `filepath.Join`: the elements from the first non-empty one on,
      separated by "/" and cleaned; "" when every element is empty. */
  function JoinAll(elems: seq<string>): (r: string)
    ensures r == "" <==> forall i :: 0 <= i < |elems| ==> elems[i] == ""
  {
    if elems == [] then ""
    else if elems[0] == "" then JoinAll(elems[1..])
    else Clean(Text.Join(elems, "/"))
  }

  /** `filepath.Join` of two elements. */
  function Join(a: string, b: string): (r: string)
    ensures r == "" <==> a == "" && b == ""
  {
    assert [a, b][0] == a && [a, b][1] == b;
    JoinAll([a, b])
  }

  /** `filepath.Dir`: everything up to the last separator, cleaned; "."
      when there is no separator. */
  function Dir(p: string): (r: string)
    ensures r != ""
  {
    Clean(p[..LastIndexOf(p, '/') + 1])
  }

  /** `filepath.Base`: the last element after trailing separators are
      removed; "." for the empty path and "/" for a path of separators. */
  function Base(p: string): (r: string)
    ensures r != ""
    ensures '/' in r ==> r == "/"
  {
    if p == "" then "."
    else
      var q := TrimRightWhere(p, c => c == '/');
      var i := LastIndexOf(q, '/');
      var last := q[i + 1..];
      if last == "" then "/" else last
  }

  // ---------------------------------------------------------------------
  // The walk of Clean

  /** What `Clean`'s walk keeps: no empty, "." or separator-holding
      element, ".." elements only in front of every name, and none at
      the root. */
  predicate Resolved(out: seq<string>, rooted: bool) {
    && (forall i :: 0 <= i < |out| ==> out[i] != "" && out[i] != "." && '/' !in out[i])
    && (forall i, j :: 0 <= i < j < |out| && out[j] == ".." ==> out[i] == "..")
    && (rooted ==> forall i :: 0 <= i < |out| ==> out[i] != "..")
  }

  lemma {:induction false} ResolveConcat(out: seq<string>, xs: seq<string>, ys: seq<string>, rooted: bool)
    ensures Resolve(out, xs + ys, rooted) == Resolve(Resolve(out, xs, rooted), ys, rooted)
    decreases |xs|
  {
    if xs != [] {
      assert (xs + ys)[0] == xs[0] && (xs + ys)[1..] == xs[1..] + ys;
      ResolveConcat(Step(out, xs[0], rooted), xs[1..], ys, rooted);
    } else {
      assert xs + ys == ys;
    }
  }

  /** Names are kept as they are. */
  lemma {:induction false} ResolveNames(out: seq<string>, elems: seq<string>, rooted: bool)
    requires forall i :: 0 <= i < |elems| ==> IsName(elems[i])
    ensures Resolve(out, elems, rooted) == out + elems
    decreases |elems|
  {
    if elems != [] {
      ResolveNames(out + [elems[0]], elems[1..], rooted);
      assert out + [elems[0]] + elems[1..] == out + elems;
    }
  }

  /** Each step keeps what the walk keeps in shape. */
  lemma StepResolved(out: seq<string>, e: string, rooted: bool)
    requires Resolved(out, rooted) && '/' !in e
    ensures Resolved(Step(out, e, rooted), rooted)
  {
    if e == ".." && !(|out| > 0 && out[|out| - 1] != "..") && !rooted {
      var next := out + [".."];
      forall i, j | 0 <= i < j < |next| && next[j] == ".." ensures next[i] == ".." {
        if j == |out| && |out| > 0 {
          assert out[|out| - 1] == "..";
        }
      }
    }
  }

  /** The walk over the pieces of a split keeps its shape. */
  lemma {:induction false} ResolveResolved(out: seq<string>, elems: seq<string>, rooted: bool)
    requires Resolved(out, rooted)
    requires forall i :: 0 <= i < |elems| ==> '/' !in elems[i]
    ensures Resolved(Resolve(out, elems, rooted), rooted)
    decreases |elems|
  {
    if elems != [] {
      StepResolved(out, elems[0], rooted);
      ResolveResolved(Step(out, elems[0], rooted), elems[1..], rooted);
    }
  }

  /** Walking what the walk keeps keeps all of it. */
  lemma {:induction false} ResolveFixed(out: seq<string>, elems: seq<string>, rooted: bool)
    requires Resolved(out + elems, rooted)
    ensures Resolve(out, elems, rooted) == out + elems
    decreases |elems|
  {
    if elems != [] {
      var all := out + elems;
      assert all[|out|] == elems[0];
      if elems[0] == ".." && |out| > 0 {
        assert all[|out| - 1] == out[|out| - 1];
      }
      assert Step(out, elems[0], rooted) == out + [elems[0]];
      assert out + [elems[0]] + elems[1..] == all;
      ResolveFixed(out + [elems[0]], elems[1..], rooted);
    }
  }

  /** The kept elements of a path do not start a rooted body. */
  lemma ResolvedFirst(p: string)
    ensures var out := Resolve([], Split(p, '/'), IsAbs(p));
            var body := Text.Join(out, "/");
            body != "" ==> body[0] != '/'
  {
    var out := Resolve([], Split(p, '/'), IsAbs(p));
    ResolveResolved([], Split(p, '/'), IsAbs(p));
    if out != [] {
      JoinFirst(out);
    }
  }

  /** A join starts with its first element. */
  lemma JoinFirst(parts: seq<string>)
    requires |parts| > 0
    ensures var s := Text.Join(parts, "/");
            |parts[0]| <= |s| && s[..|parts[0]|] == parts[0]
  {
    if |parts| > 1 {
      assert Text.Join(parts, "/") == parts[0] + ("/" + Text.Join(parts[1..], "/"));
    }
  }

  // ---------------------------------------------------------------------
  // Properties of Clean and Join

  /** A clean path is its own cleaning. */
  lemma CleanKeeps(p: string)
    requires IsClean(p)
    ensures Clean(p) == p
  {
    if Names(p) {
      CleanNames(p);
    } else {
      var q := p[1..];
      assert p == "/" + q;
      var elems := Split(q, '/');
      SplitRooted(q);
      assert ([""] + elems)[1..] == elems;
      assert Resolve([], [""] + elems, true) == Resolve([], elems, true);
      ResolveNames([], elems, true);
      assert [] + elems == elems;
      JoinSplit(q, '/');
      assert "/" == ['/'];
      assert Text.Join(Resolve([], Split(p, '/'), true), "/") == q;
    }
  }

  lemma CleanNames(p: string)
    requires Names(p)
    ensures Clean(p) == p
  {
    var elems := Split(p, '/');
    ResolveNames([], elems, false);
    assert [] + elems == elems;
    JoinSplit(p, '/');
    assert "/" == ['/'];
    assert Text.Join(Resolve([], elems, false), "/") == p;
  }

  /** A single element splits into itself. */
  lemma SplitName(e: string)
    requires '/' !in e
    ensures Split(e, '/') == [e]
  {
    SplitJoin([e], '/');
  }

  lemma SplitRooted(q: string)
    ensures Split("/" + q, '/') == [""] + Split(q, '/')
  {
    assert ("/" + q)[1..] == q;
  }

  /** Cleaning is idempotent. */
  lemma CleanIdempotent(p: string)
    ensures Clean(Clean(p)) == Clean(p)
  {
    var rooted := IsAbs(p);
    var out := Resolve([], Split(p, '/'), rooted);
    var body := Text.Join(out, "/");
    ResolveResolved([], Split(p, '/'), rooted);
    BodyResolves(out, rooted);
    var c := Clean(p);
    if rooted {
      assert c == "/" + body;
      SplitRooted(body);
      assert ([""] + Split(body, '/'))[1..] == Split(body, '/');
      assert Resolve([], Split(c, '/'), true) == out;
    } else if body == "" {
      assert c == ".";
      SplitName(".");
      assert Resolve([], Split(c, '/'), false) == [];
    } else {
      assert c == body && !IsAbs(c);
    }
  }

  /** The elements the walk keeps, joined and split again, walk to
      themselves. */
  lemma BodyResolves(out: seq<string>, rooted: bool)
    requires Resolved(out, rooted)
    ensures Resolve([], Split(Text.Join(out, "/"), '/'), rooted) == out
  {
    if out == [] {
      assert Split("", '/') == [""];
    } else {
      forall i | 0 <= i < |out| ensures '/' !in out[i] {
      }
      SplitJoin(out, '/');
      assert "/" == ['/'];
      assert [] + out == out;
      ResolveFixed([], out, rooted);
    }
  }

  /** Joining a clean path and a relative path of names puts one "/"
      between them, and the result is clean. */
  lemma JoinNames(a: string, b: string)
    requires IsClean(a) && Names(b)
    ensures Join(a, b) == a + "/" + b
    ensures IsClean(a + "/" + b)
  {
    assert a != "" by {
      assert Split("", '/') == [""];
    }
    assert Text.Join([a, b], "/") == a + "/" + b;
    if Names(a) {
      SplitAppend(a, b, '/');
      assert Names(a + "/" + b);
    } else {
      var q := a[1..];
      assert a + "/" + b == "/" + (q + "/" + b);
      SplitAppend(q, b, '/');
      assert Names(q + "/" + b);
      assert (a + "/" + b)[1..] == q + "/" + b;
    }
    CleanKeeps(a + "/" + b);
  }

  /** A "./" in front of the second element changes nothing. */
  lemma JoinDotSlash(a: string, b: string)
    requires a != ""
    ensures Join(a, "./" + b) == Join(a, b)
  {
    var rooted := IsAbs(a);
    var sa := Split(a, '/');
    var sb := Split(b, '/');
    assert Text.Join([a, "./" + b], "/") == a + "/" + ("./" + b);
    assert Text.Join([a, b], "/") == a + "/" + b;
    assert Split(a + "/" + ("./" + b), '/') == sa + (["."] + sb) by {
      SplitAppend(a, "./" + b, '/');
      assert "./" + b == "." + "/" + b;
      SplitAppend(".", b, '/');
      SplitName(".");
    }
    assert Split(a + "/" + b, '/') == sa + sb by {
      SplitAppend(a, b, '/');
    }
    assert Resolve([], sa + (["."] + sb), rooted) == Resolve([], sa + sb, rooted) by {
      ResolveConcat([], sa, ["."] + sb, rooted);
      ResolveConcat([], sa, sb, rooted);
      assert (["."] + sb)[1..] == sb;
    }
  }

  /** A trailing "/" on the second element changes nothing. */
  lemma JoinTrailingSlash(a: string, b: string)
    requires a != ""
    ensures Join(a, b + "/") == Join(a, b)
  {
    var rooted := IsAbs(a);
    assert Text.Join([a, b + "/"], "/") == a + "/" + (b + "/");
    assert Text.Join([a, b], "/") == a + "/" + b;
    SplitAppend(a, b + "/", '/');
    SplitAppend(a, b, '/');
    assert b + "/" == b + "/" + "";
    SplitAppend(b, "", '/');
    assert Split("", '/') == [""];
    var sa := Split(a, '/');
    var sb := Split(b, '/');
    assert sa + (sb + [""]) == (sa + sb) + [""];
    ResolveConcat([], sa + sb, [""], rooted);
  }

  /** Joining onto "." gives the cleaned relative path. */
  lemma JoinDot(b: string)
    requires !IsAbs(b)
    ensures Join(".", b) == Clean(b)
  {
    assert Text.Join([".", b], "/") == "." + "/" + b;
    SplitAppend(".", b, '/');
    SplitName(".");
    ResolveConcat([], ["."], Split(b, '/'), false);
  }

  /** Joining a directory and a name: the name is the base and the
      directory the parent of the result. */
  lemma JoinParts(dir: string, name: string)
    requires IsClean(dir) && IsName(name)
    ensures Base(Join(dir, name)) == name
    ensures Dir(Join(dir, name)) == dir
    ensures IsClean(Join(dir, name))
  {
    assert Split(name, '/') == [name] by {
      SplitJoin([name], '/');
    }
    JoinNames(dir, name);
    var p := Join(dir, name);
    assert p == dir + "/" + name;
    assert TrailingCount(p, c => c == '/') == 0 by {
      assert p[|p| - 1] == name[|name| - 1];
    }
    assert TrimRightWhere(p, c => c == '/') == p;
    LastSeparator(dir, name);
    assert p[..|dir| + 1] == dir + "/";
    CleanTrailing(dir);
  }

  lemma LastSeparator(dir: string, name: string)
    requires '/' !in name
    ensures LastIndexOf(dir + "/" + name, '/') == |dir|
  {
    var p := dir + "/" + name;
    assert p[|dir|] == '/';
    assert p[|dir| + 1..] == name;
  }

  /** A trailing "/" on a clean path is cleaned away. */
  lemma CleanTrailing(p: string)
    requires IsClean(p)
    ensures Clean(p + "/") == p
  {
    assert p + "/" == p + "/" + "";
    assert Split("", '/') == [""];
    var rooted := IsAbs(p);
    SplitAppend(p, "", '/');
    var sp := Split(p, '/');
    ResolveConcat([], sp, [""], rooted);
    assert Resolve([], Split(p + "/", '/'), rooted) == Resolve([], sp, rooted);
    CleanKeeps(p);
  }
}
