/** The order of names: byte by byte, as strings compare. */
module Names {
  import opened Wrappers
  import opened Messages

  predicate NameLeq(a: str, b: str)
    decreases |a|
  {
    a == [] || (b != [] && (a[0] < b[0] || (a[0] == b[0] && NameLeq(a[1..], b[1..]))))
  }

  lemma {:induction false} NamesCompare(a: str, b: str)
    ensures NameLeq(a, b) || NameLeq(b, a)
    ensures NameLeq(a, b) && NameLeq(b, a) ==> a == b
    decreases |a|
  {
    if a != [] && b != [] && a[0] == b[0] {
      NamesCompare(a[1..], b[1..]);
      assert a == [a[0]] + a[1..] && b == [b[0]] + b[1..];
    }
  }

  lemma {:induction false} NamesChain(a: str, b: str, c: str)
    requires NameLeq(a, b) && NameLeq(b, c)
    ensures NameLeq(a, c)
    decreases |a|
  {
    if a != [] && a[0] == b[0] == c[0] {
      NamesChain(a[1..], b[1..], c[1..]);
    }
  }

  lemma {:induction false} LeastNameExists(names: set<str>) returns (m: str)
    requires names != {}
    ensures IsFirst(m, names)
    decreases |names|
  {
    hide NameLeq;
    var x :| x in names;
    NamesCompare(x, x);
    var rest := names - {x};
    m := x;
    if rest != {} {
      var y := LeastNameExists(rest);
      NamesCompare(x, y);
      if NameLeq(x, y) {
        forall n | n in rest ensures NameLeq(x, n) {
          NamesChain(x, y, n);
        }
      } else {
        m := y;
      }
    }
    forall n | n in names ensures NameLeq(m, n) {
      assert n in rest || n == x;
    }
  }

  function LeastName(names: set<str>): (m: str)
    requires names != {}
    ensures m in names && forall n :: n in names ==> NameLeq(m, n)
  {
    SomeFirst(names);
    OnlyOneLeast(names);
    assert forall a :: a in names && (forall n :: n in names ==> NameLeq(a, n)) ==> IsFirst(a, names);
    var m :| m in names && forall n :: n in names ==> NameLeq(m, n);
    m
  }

  ghost predicate IsFirst(m: str, names: set<str>) {
    m in names && forall n :: n in names ==> NameLeq(m, n)
  }

  lemma SomeFirst(names: set<str>)
    requires names != {}
    ensures exists m :: m in names && forall n :: n in names ==> NameLeq(m, n)
  {
    hide NameLeq;
    var m := LeastNameExists(names);
  }

  lemma OnlyOneLeast(names: set<str>)
    ensures forall a, b :: IsFirst(a, names) && IsFirst(b, names) ==> a == b
  {
    hide NameLeq;
    forall a, b | IsFirst(a, names) && IsFirst(b, names) ensures a == b {
      NamesCompare(a, b);
    }
  }

  /** The names in ascending order. */
  function SortedNames(names: set<str>): (r: seq<str>)
    ensures NoRepeats(r) && forall n :: n in r <==> n in names
    ensures forall i, j {:trigger r[i], r[j]} :: 0 <= i < j < |r| ==> NameLeq(r[i], r[j])
  {
    if names == {} then []
    else
      var m := LeastName(names);
      [m] + SortedNames(names - {m})
  }

  /** One name comes before another exactly when it is a prefix of it, or has the smaller byte where they first
      differ. */
  lemma {:induction false} NamesByFirstByte(a: str, b: str)
    ensures NameLeq(a, b) <==>
            (a <= b || exists k {:trigger a[..k]} :: 0 <= k < |a| && k < |b| && a[..k] == b[..k] && a[k] < b[k])
    decreases |a|
  {
    if a != [] && b != [] && a[0] == b[0] {
      var x, y := a[1..], b[1..];
      NamesByFirstByte(x, y);
      assert a == [a[0]] + x && b == [b[0]] + y;
      assert a <= b <==> x <= y;
      if k :| 0 <= k < |x| && k < |y| && x[..k] == y[..k] && x[k] < y[k] {
        assert a[..k + 1] == [a[0]] + x[..k] && b[..k + 1] == [b[0]] + y[..k];
      }
      if k :| 0 <= k < |a| && k < |b| && a[..k] == b[..k] && a[k] < b[k] {
        assert x[..k - 1] == a[..k][1..] && y[..k - 1] == b[..k][1..];
        assert x[k - 1] < y[k - 1];
      }
    } else if a != [] && b != [] {
      assert a[..0] == b[..0];
      forall k | 0 < k < |a| && k < |b| ensures a[..k] != b[..k] {
        assert a[..k][0] == a[0] && b[..k][0] == b[0];
      }
    }
  }
}
