/** Code-point order on strings and the sorted form of a set of strings, as `sorted` gives it for the names
    of sources, files and JSON keys: the order is total, the sorted form lists every member
    once in increasing order, and it is the only sequence that does. */
module Text {

  predicate Leq(a: string, b: string) {
    a == "" || (b != "" && (a[0] < b[0] || (a[0] == b[0] && Leq(a[1..], b[1..]))))
  }

  lemma LeqTotal(a: string, b: string)
    ensures Leq(a, b) || Leq(b, a)
  {
  }

  lemma {:induction false} LeqAntisymmetric(a: string, b: string)
    requires Leq(a, b) && Leq(b, a)
    ensures a == b
  {
    if a != "" && b != "" {
      LeqAntisymmetric(a[1..], b[1..]);
      assert a == [a[0]] + a[1..] && b == [b[0]] + b[1..];
    }
  }

  lemma {:induction false} LeqTransitive(a: string, b: string, c: string)
    requires Leq(a, b) && Leq(b, c)
    ensures Leq(a, c)
  {
    if a != "" && a[0] == b[0] == c[0] {
      LeqTransitive(a[1..], b[1..], c[1..]);
    }
  }

  predicate IsLeast(m: string, s: set<string>) {
    m in s && forall x | x in s :: Leq(m, x)
  }

  lemma LeastExists(s: set<string>)
    requires s != {}
    ensures exists m :: IsLeast(m, s)
  {
    var x :| x in s;
    if s - {x} == {} {
      assert s == {x};
      LeqTotal(x, x);
      assert IsLeast(x, s);
    } else {
      LeastExists(s - {x});
      var m :| IsLeast(m, s - {x});
      LeqTotal(m, x);
      LeqTotal(x, x);
      if Leq(x, m) {
        forall y | y in s ensures Leq(x, y) {
          if y != x { LeqTransitive(x, m, y); }
        }
        assert IsLeast(x, s);
      } else {
        assert IsLeast(m, s);
      }
    }
  }

  function Least(s: set<string>): (m: string)
    requires s != {}
    ensures IsLeast(m, s)
  {
    LeastExists(s);
    assert forall a, b | IsLeast(a, s) && IsLeast(b, s) :: a == b by {
      forall a, b | IsLeast(a, s) && IsLeast(b, s) ensures a == b {
        LeqAntisymmetric(a, b);
      }
    }
    var m :| IsLeast(m, s);
    m
  }

  /** `sorted(s)`: strictly increasing, and exactly the members of the set. */
  function Sorted(s: set<string>): (r: seq<string>)
    ensures forall x :: x in r <==> x in s
    ensures |r| == |s|
    ensures StrictlyIncreasing(r)
  {
    if s == {} then []
    else
      var m := Least(s);
      var rest := Sorted(s - {m});
      LeastFirst(s, m, rest);
      [m] + rest
  }

  lemma LeastFirst(s: set<string>, m: string, rest: seq<string>)
    requires IsLeast(m, s) && (forall x :: x in rest <==> x in s - {m}) && StrictlyIncreasing(rest)
    ensures StrictlyIncreasing([m] + rest) && forall x :: x in [m] + rest <==> x in s
  {
    forall j | 0 <= j < |rest| ensures Leq(m, rest[j]) && m != rest[j] {
      assert rest[j] in rest;
    }
  }

  ghost predicate StrictlyIncreasing(r: seq<string>) {
    forall i, j | 0 <= i < j < |r| :: Leq(r[i], r[j]) && r[i] != r[j]
  }

  lemma EmptyOrMember(s: seq<string>)
    ensures s == [] || exists x :: x in s
  {
    if s != [] { assert s[0] in s; }
  }

  /** There is one strictly increasing sequence over a given set of members. */
  lemma {:induction false} SortedIsUnique(r: seq<string>, t: seq<string>)
    requires StrictlyIncreasing(r) && StrictlyIncreasing(t)
    requires forall x :: x in r <==> x in t
    ensures r == t
  {
    if r == [] {
      EmptyOrMember(t);
    } else {
      assert r[0] in t;
      assert t != [];
      assert t[0] in r;
      LeqTotal(r[0], r[0]);
      assert Leq(r[0], t[0]) && Leq(t[0], r[0]);
      LeqAntisymmetric(r[0], t[0]);
      forall x ensures x in r[1..] <==> x in t[1..] {
        assert x in r <==> x == r[0] || x in r[1..];
        assert x in t <==> x == t[0] || x in t[1..];
      }
      SortedIsUnique(r[1..], t[1..]);
      assert r == [r[0]] + r[1..] && t == [t[0]] + t[1..];
    }
  }
}
