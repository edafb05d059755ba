/** Normalised port sets: the keys under which shuffle and gather nodes are shared. */
module PortSets {
  import opened Ports
  import opened Permutations

  predicate Le(a: Port, b: Port) {
    a.vertex < b.vertex || (a.vertex == b.vertex && a.port <= b.port)
  }

  ghost predicate Ascending(s: seq<Port>) {
    forall i, j :: 0 <= i < j < |s| ==> Le(s[i], s[j])
  }

  /** The sorted list of the same ports. */
  function Normalize(s: seq<Port>): (t: seq<Port>)
    ensures Ascending(t) && multiset(t) == multiset(s)
  {
    if |s| == 0 then [] else
      assert s == s[..|s| - 1] + [s[|s| - 1]];
      Insert(Normalize(s[..|s| - 1]), s[|s| - 1])
  }

  function Insert(s: seq<Port>, p: Port): (t: seq<Port>)
    requires Ascending(s)
    ensures Ascending(t) && multiset(t) == multiset(s) + multiset{p}
  {
    if |s| == 0 then [p]
    else if Le(s[|s| - 1], p) then s + [p]
    else
      var m := |s| - 1;
      assert s == s[..m] + [s[m]];
      var front := Insert(s[..m], p);
      InsertedBelow(s, p, front);
      front + [s[m]]
  }

  lemma InsertedBelow(s: seq<Port>, p: Port, front: seq<Port>)
    requires |s| > 0 && Ascending(s) && !Le(s[|s| - 1], p)
    requires multiset(front) == multiset(s[..|s| - 1]) + multiset{p}
    ensures forall i :: 0 <= i < |front| ==> Le(front[i], s[|s| - 1])
  {
    forall i | 0 <= i < |front| ensures Le(front[i], s[|s| - 1]) {
      assert front[i] in multiset(front);
      if front[i] != p {
        assert front[i] in multiset(s[..|s| - 1]);
        assert front[i] in s[..|s| - 1];
      }
    }
  }

  /** Two lists of ports have the same key exactly when they hold the same ports, equally often. */
  lemma SameKeyIffSamePorts(a: seq<Port>, b: seq<Port>)
    ensures Normalize(a) == Normalize(b) <==> multiset(a) == multiset(b)
  {
    if multiset(a) == multiset(b) {
      SortedUnique(Normalize(a), Normalize(b));
    }
  }

  lemma {:induction false} SortedUnique(a: seq<Port>, b: seq<Port>)
    requires Ascending(a) && Ascending(b) && multiset(a) == multiset(b)
    ensures a == b
  {
    SameSize(a, b);
    if |a| == 0 {
    } else {
      var c, d := a[..|a| - 1], b[..|b| - 1];
      SameLast(a, b);
      assert a == c + [a[|a| - 1]] && b == d + [b[|b| - 1]];
      WithoutLast(c, d, a[|a| - 1]);
      SortedUnique(c, d);
    }
  }

  lemma SameSize(a: seq<Port>, b: seq<Port>)
    requires multiset(a) == multiset(b)
    ensures |a| == |b|
  {
    assert |multiset(a)| == |a| && |multiset(b)| == |b|;
  }

  lemma SameLast(a: seq<Port>, b: seq<Port>)
    requires Ascending(a) && Ascending(b) && multiset(a) == multiset(b) && |a| == |b| > 0
    ensures a[|a| - 1] == b[|b| - 1]
  {
    SameMembers(a, b);
    assert a[|a| - 1] in b && b[|b| - 1] in a;
    LastIsLargest(a, b[|b| - 1]);
    LastIsLargest(b, a[|a| - 1]);
  }

  lemma WithoutLast(a: seq<Port>, b: seq<Port>, p: Port)
    requires multiset(a + [p]) == multiset(b + [p])
    ensures multiset(a) == multiset(b)
  {
    assert multiset(a + [p]) - multiset{p} == multiset(a);
    assert multiset(b + [p]) - multiset{p} == multiset(b);
  }

  lemma LastIsLargest(s: seq<Port>, p: Port)
    requires Ascending(s) && p in s
    ensures Le(p, s[|s| - 1])
  {}
}
