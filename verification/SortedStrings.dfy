/** The elements of a set of strings in increasing order of their characters. */
module SortedStrings {
  import opened CanonicalJson

  lemma LessIsTotal(a: string, b: string)
    ensures a == b || Less(a, b) || Less(b, a)
  {
    var k := 0;
    while k < |a| && k < |b| && a[k] == b[k]
      invariant k <= |a| && k <= |b| && a[..k] == b[..k]
    {
      k := k + 1;
    }
    if k == |a| && k == |b| {
      assert a == a[..k] == b[..k] == b;
    } else if k < |b| && (k == |a| || a[k] < b[k]) {
      assert SmallerAt(a, b, k);
    } else {
      assert SmallerAt(b, a, k);
    }
  }

  ghost predicate IsLeast(m: string, s: set<string>) { m in s && forall x | x in s :: x == m || Less(m, x) }

  lemma {:induction false} LeastExists(s: set<string>) returns (m: string)
    requires s != {}
    ensures IsLeast(m, s)
  {
    var x :| x in s;
    if s == {x} {
      m := x;
    } else {
      m := LeastExists(s - {x});
      LessIsTotal(m, x);
      if Less(x, m) {
        forall y | y in s ensures y == x || Less(x, y) {
          if y != x && y != m {
            LessIsTransitive(x, m, y);
          }
        }
        m := x;
      }
    }
  }

  /** The elements of `s` in increasing order. */
  ghost function SortedOf(s: set<string>): (r: seq<string>)
    ensures forall x :: x in r <==> x in s
    ensures forall i | 0 < i < |r| :: Less(r[i - 1], r[i])
    ensures s != {} ==> r != [] && IsLeast(r[0], s)
  {
    if s == {} then []
    else
      assert exists m :: IsLeast(m, s) by { var m := LeastExists(s); }
      var m :| IsLeast(m, s);
      [m] + SortedOf(s - {m})
  }

  lemma LeastIsUnique(s: set<string>, a: string, b: string)
    requires IsLeast(a, s) && IsLeast(b, s)
    ensures a == b
  {
    if a != b {
      LessIsTransitive(a, b, a);
      LessIsIrreflexive(a);
    }
  }

  method Least(s: set<string>) returns (m: string)
    requires s != {}
    ensures IsLeast(m, s)
  {
    m :| m in s;
    var rest := s - {m};
    while rest != {}
      invariant m in s && rest <= s && m !in rest
      invariant forall x | x in s - rest :: x == m || Less(m, x)
      decreases rest
    {
      var x :| x in rest;
      rest := rest - {x};
      LessIsTotal(m, x);
      if Less(x, m) {
        forall y | y in s - rest ensures y == x || Less(x, y) {
          if y != x && y != m {
            LessIsTransitive(x, m, y);
          }
        }
        m := x;
      }
    }
  }

  method Sort(s: set<string>) returns (r: seq<string>)
    ensures r == SortedOf(s)
  {
    r := [];
    var rest := s;
    while rest != {}
      invariant r + SortedOf(rest) == SortedOf(s)
      decreases rest
    {
      var m := Least(rest);
      LeastIsUnique(rest, m, SortedOf(rest)[0]);
      assert SortedOf(rest) == [m] + SortedOf(rest - {m});
      r := r + [m];
      rest := rest - {m};
    }
  }
}
