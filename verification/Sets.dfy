/** Sizes of finite sets of numbers: the counting arguments of the free lists and the log. */
module Sets {

  function Elements(s: seq<nat>): (r: set<nat>)
    ensures |r| <= |s| && forall x :: x in r <==> x in s
  {
    if s == [] then {} else {s[0]} + Elements(s[1..])
  }

  /** No finite set holds every number. */
  lemma {:induction false} Outside(s: set<nat>) returns (x: nat)
    ensures forall y :: y in s ==> y < x
  {
    x := 0;
    if s != {} {
      var y :| y in s;
      x := Outside(s - {y});
      if x <= y { x := y + 1; }
      assert s == s - {y} + {y};
    }
  }

  lemma {:induction false} DistinctSize(s: seq<nat>)
    requires forall j, k :: 0 <= j < k < |s| ==> s[j] != s[k]
    ensures |Elements(s)| == |s|
  {
    if s != [] {
      var t := s[1..];
      DistinctSize(t);
      assert forall k :: 0 <= k < |t| ==> t[k] == s[k + 1];
      assert s[0] !in Elements(t);
    }
  }

  lemma {:induction false} SubsetSize<T>(a: set<T>, b: set<T>)
    requires a <= b
    ensures |a| <= |b|
  {
    if a != {} {
      var x :| x in a;
      SubsetSize(a - {x}, b - {x});
    }
  }

  lemma SplitSize<T>(a: set<T>, b: set<T>, c: set<T>)
    requires b !! c && forall x :: x in a <==> x in b || x in c
    ensures |a| == |b| + |c|
  {
    assert a == b + c;
  }

  /** A map that gives no value twice has as many values as keys. */
  lemma {:induction false} ImageSize(f: map<nat, nat>)
    requires forall x, y :: x in f && y in f && f[x] == f[y] ==> x == y
    ensures |f.Values| == |f.Keys|
    decreases f.Keys
  {
    if f.Keys == {} {
      assert f.Values == {};
    } else {
      var y :| y in f;
      var g := f - {y};
      assert g.Keys == f.Keys - {y};
      ImageSize(g);
      forall z | z in f.Values ensures z in g.Values + {f[y]} {
        var x :| x in f && f[x] == z;
        assert x != y ==> x in g && g[x] == z;
      }
      assert f.Values == g.Values + {f[y]};
    }
  }

  lemma ProperSize<T>(a: set<T>, b: set<T>, x: T)
    requires a <= b && x in b && x !in a
    ensures |a| < |b|
  {
    SubsetSize(a, b - {x});
  }
}
