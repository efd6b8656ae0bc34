/** Strings in lexicographic order of their characters, and the ascending enumeration of a set. */
module SortedStrings {

  predicate Le(a: string, b: string) {
    if a == "" then true
    else if b == "" then false
    else a[0] < b[0] || (a[0] == b[0] && Le(a[1..], b[1..]))
  }

  lemma {:induction false} LeTotal(a: string, b: string)
    ensures Le(a, b) || Le(b, a)
  {
    if a != "" && b != "" && a[0] == b[0] {
      LeTotal(a[1..], b[1..]);
    }
  }

  lemma {:induction false} LeAntisymmetric(a: string, b: string)
    requires Le(a, b) && Le(b, a)
    ensures a == b
  {
    if a != "" && b != "" {
      LeAntisymmetric(a[1..], b[1..]);
      assert a == [a[0]] + a[1..] && b == [b[0]] + b[1..];
    }
  }

  lemma {:induction false} LeTransitive(a: string, b: string, c: string)
    requires Le(a, b) && Le(b, c)
    ensures Le(a, c)
  {
    if a != "" && a[0] == b[0] == c[0] {
      LeTransitive(a[1..], b[1..], c[1..]);
    }
  }

  ghost predicate DiffersAt(a: string, b: string, n: nat) {
    n < |a| && n < |b| && a[..n] == b[..n] && a[n] < b[n]
  }

  lemma PrefixStarts(a: string, b: string)
    requires a != "" && b != ""
    ensures a <= b ==> a[0] == b[0]
  {
  }

  /** The order of dictionaries: a prefix first, else the string with the smaller first differing character. */
  lemma {:induction false} LeExactly(a: string, b: string)
    ensures Le(a, b) <==> a <= b || exists n: nat :: DiffersAt(a, b, n)
  {
    if a != "" && b != "" {
      if a[0] == b[0] {
        LeExactly(a[1..], b[1..]);
        assert a[..1] == b[..1];
        assert a <= b <==> a[1..] <= b[1..] by { assert a == a[..1] + a[1..] && b == b[..1] + b[1..]; }
        hide Le;
        if n: nat :| DiffersAt(a[1..], b[1..], n) {
          assert a[..n + 1] == a[..1] + a[1..][..n] && b[..n + 1] == b[..1] + b[1..][..n];
          assert DiffersAt(a, b, n + 1);
        }
        if n: nat :| DiffersAt(a, b, n) {
          assert n > 0;
          assert a[1..][..n - 1] == a[..n][1..] && b[1..][..n - 1] == b[..n][1..];
          assert DiffersAt(a[1..], b[1..], n - 1);
        }
      } else {
        PrefixStarts(a, b);
        if a[0] < b[0] {
          assert a[..0] == b[..0];
          assert DiffersAt(a, b, 0);
        }
        if n: nat :| DiffersAt(a, b, n) {
          if n > 0 {
            assert a[..n][0] == b[..n][0];
          }
        }
      }
    }
  }

  ghost predicate IsLeast(m: string, keys: set<string>) {
    m in keys && forall k :: k in keys ==> Le(m, k)
  }

  lemma {:induction false} LeastExists(keys: set<string>)
    requires keys != {}
    ensures exists m :: IsLeast(m, keys)
    decreases |keys|
  {
    hide Le;
    var k :| k in keys;
    var rest := keys - {k};
    LeTotal(k, k);
    if rest == {} {
      assert keys == {k};
      assert IsLeast(k, keys);
    } else {
      LeastExists(rest);
      var m :| IsLeast(m, rest);
      LeTotal(m, k);
      forall x | x in keys && Le(k, m) ensures Le(k, x) {
        if x != k {
          LeTransitive(k, m, x);
        }
      }
      assert IsLeast(if Le(m, k) then m else k, keys);
    }
  }

  ghost function Least(keys: set<string>): (m: string)
    requires keys != {}
    ensures IsLeast(m, keys)
  {
    LeastExists(keys);
    var m :| IsLeast(m, keys);
    m
  }

  ghost function Sorted(keys: set<string>): seq<string>
    decreases |keys|
  {
    if keys == {} then [] else [Least(keys)] + Sorted(keys - {Least(keys)})
  }

  lemma SortedStep(keys: set<string>)
    requires keys != {}
    ensures Least(keys) in keys && forall k :: k in keys ==> Le(Least(keys), k)
    ensures Sorted(keys) == [Least(keys)] + Sorted(keys - {Least(keys)})
  {
    hide Le;
  }

  lemma {:induction false} SortedHolds(keys: set<string>)
    ensures forall k :: k in Sorted(keys) <==> k in keys
    decreases |keys|
  {
    if keys == {} {
      assert Sorted(keys) == [];
    } else {
      SortedStep(keys);
      SortedHolds(keys - {Least(keys)});
      hide *;
      FirstAndRest(keys, Least(keys), Sorted(keys - {Least(keys)}), Sorted(keys));
    }
  }

  lemma FirstAndRest(keys: set<string>, m: string, rest: seq<string>, all: seq<string>)
    requires m in keys && all == [m] + rest && forall k :: k in rest <==> k in keys - {m}
    ensures forall k :: k in all <==> k in keys
  {
  }

  /** It ascends, so it is the one enumeration of the set that does. */
  lemma {:induction false} SortedAscends(keys: set<string>)
    ensures var r := Sorted(keys);
            forall i, j :: 0 <= i < j < |r| ==> Le(r[i], r[j]) && r[i] != r[j]
    decreases |keys|
  {
    if keys == {} {
      assert Sorted(keys) == [];
    } else {
      var m := Least(keys);
      var rest := Sorted(keys - {m});
      SortedStep(keys);
      SortedHolds(keys - {m});
      SortedAscends(keys - {m});
      hide *;
      forall i, j | 0 <= i < j < 1 + |rest| ensures Le(([m] + rest)[i], ([m] + rest)[j]) && ([m] + rest)[i] != ([m] + rest)[j] {
        assert rest[j - 1] in rest;
      }
    }
  }

  lemma SortedNone(keys: set<string>)
    requires keys == {}
    ensures Sorted(keys) == []
  {
  }

  lemma SortedOne(k: string)
    ensures Sorted({k}) == [k]
  {
    hide Le, Least;
    SortedStep({k});
    assert Least({k}) == k;
    assert {k} - {k} == {};
    assert Sorted({}) == [];
  }

  lemma SortedTwo(a: string, b: string)
    requires Le(a, b) && a != b
    ensures Sorted({a, b}) == [a, b]
  {
    hide Le, Least;
    SortedStep({a, b});
    if Least({a, b}) == b {
      LeAntisymmetric(a, b);
    }
    assert {a, b} - {a} == {b};
    SortedOne(b);
  }

  lemma Improve(m: string, x: string, seen: set<string>)
    requires Le(x, m) && forall y :: y in seen ==> Le(m, y)
    ensures forall y :: y in seen ==> Le(x, y)
  {
    hide Le;
    forall y | y in seen ensures Le(x, y) {
      LeTransitive(x, m, y);
    }
  }

  method FindLeast(keys: set<string>) returns (m: string)
    requires keys != {}
    ensures m == Least(keys)
  {
    hide *;
    m :| m in keys;
    var todo := keys - {m};
    LeTotal(m, m);
    while todo != {}
      invariant m in keys && todo <= keys
      invariant forall x :: x in keys - todo ==> Le(m, x)
      decreases |todo|
    {
      var x :| x in todo;
      LeTotal(m, x);
      LeTotal(x, x);
      if !Le(m, x) {
        Improve(m, x, keys - todo);
        m := x;
      }
      todo := todo - {x};
    }
    LeastIs(keys, m);
  }

  lemma LeastIs(keys: set<string>, m: string)
    requires m in keys && forall x :: x in keys ==> Le(m, x)
    ensures m == Least(keys)
  {
    hide Le, Least;
    LeAntisymmetric(m, Least(keys));
  }

  method Sort(keys: set<string>) returns (r: seq<string>)
    ensures r == Sorted(keys)
  {
    hide *;
    r := [];
    var rest := keys;
    while rest != {}
      invariant r + Sorted(rest) == Sorted(keys)
      decreases |rest|
    {
      var m := FindLeast(rest);
      SortedStep(rest);
      r := r + [m];
      rest := rest - {m};
    }
    SortedNone(rest);
  }
}
