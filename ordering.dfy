/**
 * The order Python's `sorted` puts paths in: strings compare
 * lexicographically by code point, and paths compare component by
 * component. Includes the sort of a finite set of paths used for the
 * sorted listings of resource discovery.
 */
module Ordering {
  import opened FileSystem

  /** `a <= b` on Python strings. */
  predicate StrLe(a: string, b: string) {
    |a| == 0 || (|b| > 0 && (a[0] < b[0] || (a[0] == b[0] && StrLe(a[1..], b[1..]))))
  }

  predicate StrLt(a: string, b: string) {
    StrLe(a, b) && a != b
  }

  /** `p <= q` on paths: lexicographic over components. */
  predicate PathLe(p: Path, q: Path) {
    |p| == 0 || (|q| > 0 && (StrLt(p[0], q[0]) || (p[0] == q[0] && PathLe(p[1..], q[1..]))))
  }

  predicate PathLt(p: Path, q: Path) {
    PathLe(p, q) && p != q
  }

  lemma {:induction false} StrLeReflexive(a: string)
    ensures StrLe(a, a)
  {
    if |a| > 0 { StrLeReflexive(a[1..]); }
  }

  lemma {:induction false} StrLeAntisymmetric(a: string, b: string)
    requires StrLe(a, b) && StrLe(b, a)
    ensures a == b
  {
    if |a| > 0 {
      StrLeAntisymmetric(a[1..], b[1..]);
      assert a == [a[0]] + a[1..] && b == [b[0]] + b[1..];
    }
  }

  lemma {:induction false} StrLeTransitive(a: string, b: string, c: string)
    requires StrLe(a, b) && StrLe(b, c)
    ensures StrLe(a, c)
  {
    if |a| > 0 && a[0] == b[0] && b[0] == c[0] {
      StrLeTransitive(a[1..], b[1..], c[1..]);
    }
  }

  lemma {:induction false} StrLeTotal(a: string, b: string)
    ensures StrLe(a, b) || StrLe(b, a)
  {
    if |a| > 0 && |b| > 0 && a[0] == b[0] {
      StrLeTotal(a[1..], b[1..]);
    }
  }

  lemma StrLtTransitive(a: string, b: string, c: string)
    requires StrLt(a, b) && StrLt(b, c)
    ensures StrLt(a, c)
  {
    StrLeTransitive(a, b, c);
    if a == c { StrLeAntisymmetric(a, b); }
  }

  lemma StrLtAsymmetric(a: string, b: string)
    requires StrLt(a, b)
    ensures !StrLe(b, a)
  {
    if StrLe(b, a) { StrLeAntisymmetric(a, b); }
  }

  lemma {:induction false} PathLeReflexive(p: Path)
    ensures PathLe(p, p)
  {
    if |p| > 0 { PathLeReflexive(p[1..]); }
  }

  lemma {:induction false} PathLeAntisymmetric(p: Path, q: Path)
    requires PathLe(p, q) && PathLe(q, p)
    ensures p == q
  {
    if |p| > 0 {
      if StrLt(p[0], q[0]) {
        StrLtAsymmetric(p[0], q[0]);
      } else {
        PathLeAntisymmetric(p[1..], q[1..]);
        assert p == [p[0]] + p[1..] && q == [q[0]] + q[1..];
      }
    }
  }

  lemma {:induction false} PathLeTransitive(p: Path, q: Path, r: Path)
    requires PathLe(p, q) && PathLe(q, r)
    ensures PathLe(p, r)
  {
    if |p| > 0 {
      if StrLt(p[0], q[0]) && StrLt(q[0], r[0]) {
        StrLtTransitive(p[0], q[0], r[0]);
      } else if p[0] == q[0] && q[0] == r[0] {
        PathLeTransitive(p[1..], q[1..], r[1..]);
      }
    }
  }

  lemma {:induction false} PathLeTotal(p: Path, q: Path)
    ensures PathLe(p, q) || PathLe(q, p)
  {
    if |p| > 0 && |q| > 0 {
      if p[0] == q[0] {
        PathLeTotal(p[1..], q[1..]);
      } else {
        StrLeTotal(p[0], q[0]);
      }
    }
  }

  /** Two paths under the same directory are ordered by their names. */
  lemma {:induction false} SiblingsOrderedByName(dir: Path, x: string, y: string)
    ensures PathLe(dir + [x], dir + [y]) <==> StrLe(x, y)
  {
    if dir == [] {
      assert [x][1..] == [] && [y][1..] == [];
      StrLeReflexive(x);
      if StrLe(x, y) && x != y {
        assert StrLt(x, y);
      }
    } else {
      assert (dir + [x])[1..] == dir[1..] + [x];
      assert (dir + [y])[1..] == dir[1..] + [y];
      SiblingsOrderedByName(dir[1..], x, y);
      StrLeReflexive(dir[0]);
    }
  }

  lemma PathLeAntisymmetricAll()
    ensures forall p, q :: PathLe(p, q) && PathLe(q, p) ==> p == q
  {
    forall p, q | PathLe(p, q) && PathLe(q, p) ensures p == q {
      PathLeAntisymmetric(p, q);
    }
  }

  /** Every finite non-empty set of paths has a least element. */
  lemma {:induction false} LeastExists(s: set<Path>)
    requires s != {}
    ensures exists m :: m in s && forall x :: x in s ==> PathLe(m, x)
    decreases |s|
  {
    var y :| y in s;
    if s == {y} {
      PathLeReflexive(y);
      assert forall x :: x in s ==> x == y;
    } else {
      LeastExists(s - {y});
      var m :| m in s - {y} && forall x :: x in s - {y} ==> PathLe(m, x);
      LeastAfterAdding(s, y, m);
    }
  }

  /** The least of `s - {y}`, or else `y`, is the least of `s`. */
  lemma LeastAfterAdding(s: set<Path>, y: Path, m: Path)
    requires y in s && m in s
    requires forall x :: x in s - {y} ==> PathLe(m, x)
    ensures exists l :: l in s && forall x :: x in s ==> PathLe(l, x)
  {
    PathLeTotal(m, y);
    if PathLe(m, y) {
      assert forall x :: x in s ==> PathLe(m, x);
    } else {
      forall x | x in s ensures PathLe(y, x) {
        if x == y {
          PathLeReflexive(y);
        } else {
          PathLeTransitive(y, m, x);
        }
      }
    }
  }

  function Least(s: set<Path>): (m: Path)
    requires s != {}
    ensures m in s && forall x :: x in s ==> PathLe(m, x)
  {
    LeastExists(s);
    PathLeAntisymmetricAll();
    var m :| m in s && forall x :: x in s ==> PathLe(m, x);
    m
  }

  predicate StrictlySorted(r: seq<Path>) {
    forall i, j :: 0 <= i < j < |r| ==> PathLt(r[i], r[j])
  }

  /** `sorted(s)` for a set of paths. */
  function SortedPaths(s: set<Path>): (r: seq<Path>)
    ensures StrictlySorted(r)
    ensures |r| == |s|
    ensures forall p :: p in r <==> p in s
    decreases |s|
  {
    if s == {} then []
    else
      var m := Least(s);
      var rest := SortedPaths(s - {m});
      assert forall j :: 0 <= j < |rest| ==> rest[j] in s - {m};
      [m] + rest
  }

  /** A strictly sorted sequence is determined by its elements. */
  lemma {:induction false} StrictlySortedUnique(a: seq<Path>, b: seq<Path>)
    requires StrictlySorted(a) && StrictlySorted(b)
    requires forall p :: p in a <==> p in b
    ensures a == b
  {
    assert a != [] ==> a[0] in a;
    assert b != [] ==> b[0] in b;
    if a != [] && b != [] {
      assert b[0] in a && a[0] in b;
      var i :| 0 <= i < |a| && a[i] == b[0];
      var j :| 0 <= j < |b| && b[j] == a[0];
      if a[0] != b[0] {
        assert PathLt(a[0], a[i]) && PathLt(b[0], b[j]);
        PathLeAntisymmetric(a[0], b[0]);
      }
      forall p ensures p in a[1..] <==> p in b[1..] {
        if p in a[1..] {
          var k :| 1 <= k < |a| && a[k] == p;
          assert PathLt(a[0], a[k]);
          assert p in a;
          var k' :| 0 <= k' < |b| && b[k'] == p;
          assert k' != 0;
          assert b[1..][k' - 1] == p;
        }
        if p in b[1..] {
          var k :| 1 <= k < |b| && b[k] == p;
          assert PathLt(b[0], b[k]);
          assert p in b;
          var k' :| 0 <= k' < |a| && a[k'] == p;
          assert k' != 0;
          assert a[1..][k' - 1] == p;
        }
      }
      StrictlySortedUnique(a[1..], b[1..]);
      assert a == [a[0]] + a[1..] && b == [b[0]] + b[1..];
    } else if a != [] {
      assert false;
    } else if b != [] {
      assert false;
    }
  }
}
