/** What the dependency resolver promises, stated independently of its
    algorithm: which keys may run once a set of keys has run, the order
    Kahn's algorithm produces when ties are broken by the smallest key, and
    what a topological order is. */
module Kahn {
  import opened StringOrder
  import opened Config

  /** The dependency list of project `k`, as declared in its app.yaml. */
  function Deps(projects: Projects, k: string): seq<string>
    requires k in projects
  {
    projects[k].config.dependencies
  }

  /** Every declared dependency names a known project. */
  ghost predicate DependenciesKnown(projects: Projects) {
    forall k, d :: k in projects && d in projects[k].config.dependencies ==> d in projects
  }

  /** `k` has not run yet and everything it depends on has. */
  ghost predicate Ready(projects: Projects, done: set<string>, k: string) {
    k in projects && k !in done && forall d :: d in projects[k].config.dependencies ==> d in done
  }

  /** `k` is the smallest key that is ready. */
  ghost predicate LeastReady(projects: Projects, done: set<string>, k: string) {
    Ready(projects, done, k) && forall k' :: Ready(projects, done, k') ==> k' == k || Less(k, k')
  }

  /** Every key of `order` was the smallest ready key when it was taken. */
  ghost predicate KahnPrefix(projects: Projects, order: seq<string>) {
    forall i :: 0 <= i < |order| ==> LeastReady(projects, Elems(order[..i]), order[i])
  }

  /** The order Kahn's algorithm emits when it always takes the smallest
      ready key, run until no key is ready. */
  ghost predicate IsKahnOrder(projects: Projects, order: seq<string>) {
    KahnPrefix(projects, order) && forall k :: !Ready(projects, Elems(order), k)
  }

  /** Every project exactly once, each after all of its dependencies. */
  ghost predicate IsTopological(projects: Projects, order: seq<string>) {
    NoDuplicates(order) && Elems(order) == projects.Keys
    && forall i :: 0 <= i < |order| ==>
         order[i] in projects && forall d :: d in projects[order[i]].config.dependencies ==> d in order[..i]
  }

  /** How many entries of `list` have not run yet, counted with repetition. */
  function Pending(list: seq<string>, done: set<string>): nat {
    if list == [] then 0
    else (if list[0] in done then 0 else 1) + Pending(list[1..], done)
  }

  lemma {:induction false} PendingNone(list: seq<string>)
    ensures Pending(list, {}) == |list|
  {
    if list != [] {
      PendingNone(list[1..]);
    }
  }

  /** Nothing is pending exactly when every entry has run. */
  lemma {:induction false} PendingZero(list: seq<string>, done: set<string>)
    ensures Pending(list, done) == 0 <==> forall d :: d in list ==> d in done
  {
    if list != [] {
      PendingZero(list[1..], done);
      assert list == [list[0]] + list[1..];
    }
  }

  /** Running `c` settles every occurrence of `c` in `list`. */
  lemma {:induction false} PendingStep(list: seq<string>, done: set<string>, c: string)
    requires c !in done
    ensures Pending(list, done + {c}) == Pending(list, done) - multiset(list)[c]
  {
    if list != [] {
      PendingStep(list[1..], done, c);
      assert list == [list[0]] + list[1..];
      assert multiset(list) == multiset{list[0]} + multiset(list[1..]);
    }
  }

  /** A Kahn order never repeats a key and names only projects. */
  lemma KahnDistinct(projects: Projects, order: seq<string>)
    requires KahnPrefix(projects, order)
    ensures NoDuplicates(order) && Elems(order) <= projects.Keys && |order| <= |projects|
  {
    forall i, j | 0 <= i < j < |order| ensures order[i] != order[j] {
      assert order[i] in order[..j];
      assert Ready(projects, Elems(order[..j]), order[j]);
    }
    forall k | k in Elems(order) ensures k in projects {
      var i :| 0 <= i < |order| && order[i] == k;
      assert Ready(projects, Elems(order[..i]), order[i]);
    }
    DistinctCard(order);
    SubsetCard(Elems(order), projects.Keys);
  }

  /** Two Kahn orders agree on their first `n` keys. */
  lemma {:induction false} KahnPrefixAgree(projects: Projects, a: seq<string>, b: seq<string>, n: nat)
    requires IsKahnOrder(projects, a) && IsKahnOrder(projects, b)
    requires n <= |a| && n <= |b|
    ensures a[..n] == b[..n]
  {
    if n > 0 {
      KahnPrefixAgree(projects, a, b, n - 1);
      var done := Elems(a[..n - 1]);
      assert LeastReady(projects, done, a[n - 1]);
      assert LeastReady(projects, done, b[n - 1]);
      if a[n - 1] != b[n - 1] {
        LessAsymmetric(a[n - 1], b[n - 1]);
      }
      assert a[..n] == a[..n - 1] + [a[n - 1]];
      assert b[..n] == b[..n - 1] + [b[n - 1]];
    }
  }

  /** A Kahn order is never a proper prefix of another: once no key is
      ready, nothing can follow. */
  lemma KahnNotShorter(projects: Projects, a: seq<string>, b: seq<string>)
    requires IsKahnOrder(projects, a) && IsKahnOrder(projects, b)
    ensures |b| <= |a|
  {
    if |a| < |b| {
      assert a[..|a|] == a;
      assert Ready(projects, Elems(b[..|a|]), b[|a|]);
      KahnPrefixAgree(projects, a, b, |a|);
      assert false;
    }
  }

  /** Kahn's algorithm with smallest-key tie-breaking has exactly one
      outcome: the execution order does not depend on the order in which the
      projects were discovered or enumerated. */
  lemma KahnOrderUnique(projects: Projects, a: seq<string>, b: seq<string>)
    requires IsKahnOrder(projects, a) && IsKahnOrder(projects, b)
    ensures a == b
  {
    KahnNotShorter(projects, a, b);
    KahnNotShorter(projects, b, a);
    KahnPrefixAgree(projects, a, b, |a|);
    assert a == a[..|a|] && b == b[..|b|];
  }

  /** A Kahn order that reaches every project is a topological order. */
  lemma KahnComplete(projects: Projects, order: seq<string>)
    requires IsKahnOrder(projects, order) && |order| == |projects|
    ensures IsTopological(projects, order)
  {
    KahnDistinct(projects, order);
    DistinctCard(order);
    SubsetCard(Elems(order), projects.Keys);
    forall i | 0 <= i < |order|
      ensures order[i] in projects && forall d :: d in projects[order[i]].config.dependencies ==> d in order[..i]
    {
      assert Ready(projects, Elems(order[..i]), order[i]);
    }
  }

  /** A Kahn order that stops short of some project proves that no
      topological order exists: the dependencies contain a cycle. */
  lemma KahnIncomplete(projects: Projects, order: seq<string>)
    requires IsKahnOrder(projects, order) && |order| != |projects|
    ensures forall t :: !IsTopological(projects, t)
  {
    KahnDistinct(projects, order);
    DistinctCard(order);
    var done := Elems(order);
    assert done != projects.Keys;
    assert !(projects.Keys <= done);
    var u :| u in projects && u !in done;
    forall t ensures !IsTopological(projects, t) {
      TopologicalHasReady(projects, t, done, u);
    }
  }

  /** If some project has not run, a topological order names one that is
      ready: the first one in it that has not run. */
  lemma TopologicalHasReady(projects: Projects, t: seq<string>, done: set<string>, u: string)
    requires u in projects && u !in done
    ensures IsTopological(projects, t) ==> exists k :: Ready(projects, done, k)
  {
    if IsTopological(projects, t) {
      assert u in Elems(t);
      var j :| 0 <= j < |t| && t[j] == u;
      var i := 0;
      while t[i] in done
        invariant i <= j && forall k :: k in t[..i] ==> k in done
        decreases j - i
      {
        assert t[..i + 1] == t[..i] + [t[i]];
        i := i + 1;
      }
      assert Ready(projects, done, t[i]);
    }
  }

  /** A project set with a topological order declares only known
      dependencies. */
  lemma TopologicalKnown(projects: Projects, order: seq<string>)
    requires IsTopological(projects, order)
    ensures DependenciesKnown(projects)
  {
    forall k, d | k in projects && d in projects[k].config.dependencies ensures d in projects {
      assert k in Elems(order);
      var i :| 0 <= i < |order| && order[i] == k;
      assert d in order[..i];
    }
  }
}
