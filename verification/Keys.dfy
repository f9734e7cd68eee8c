/** The iteration order of `BTreeMap<JobId, _>`: strings compared by code point. */
module Keys {

  predicate Less(a: string, b: string) {
    if b == "" then false
    else if a == "" then true
    else a[0] < b[0] || (a[0] == b[0] && Less(a[1..], b[1..]))
  }

  /** At the first difference `a` has the smaller character, or `a` is a proper prefix of `b`. */
  lemma {:induction false} LessMeaning(a: string, b: string)
    ensures Less(a, b) <==>
              exists n | 0 <= n < |b| && n <= |a| :: a[..n] == b[..n] && (n == |a| || a[n] < b[n])
  {
    if a != "" && b != "" {
      LessMeaning(a[1..], b[1..]);
      if Less(a, b) {
        if a[0] == b[0] {
          var m :| 0 <= m < |b[1..]| && m <= |a[1..]|
                   && a[1..][..m] == b[1..][..m] && (m == |a[1..]| || a[1..][m] < b[1..][m]);
          assert a[..m + 1] == [a[0]] + a[1..][..m] && b[..m + 1] == [b[0]] + b[1..][..m];
        } else {
          assert a[..0] == b[..0];
        }
      }
      if n :| 0 <= n < |b| && n <= |a| && a[..n] == b[..n] && (n == |a| || a[n] < b[n]) {
        if n > 0 {
          assert a[..n][0] == b[..n][0];
          assert a[1..][..n - 1] == a[..n][1..] && b[1..][..n - 1] == b[..n][1..];
        }
      }
    } else {
      assert a == "" && b != "" ==> a[..0] == b[..0];
    }
  }

  lemma {:induction false} LessTotal(a: string, b: string)
    ensures Less(a, b) || a == b || Less(b, a)
    ensures !(Less(a, b) && Less(b, a))
    ensures !Less(a, a)
  {
    if a != "" && b != "" && a[0] == b[0] {
      LessTotal(a[1..], b[1..]);
      assert a == [a[0]] + a[1..] && b == [b[0]] + b[1..];
    }
    if a != "" {
      LessTotal(a[1..], a[1..]);
    }
  }

  lemma {:induction false} LessTransitive(a: string, b: string, c: string)
    requires Less(a, b) && Less(b, c)
    ensures Less(a, c)
  {
    if a != "" && a[0] == b[0] && b[0] == c[0] {
      LessTransitive(a[1..], b[1..], c[1..]);
    }
  }

  predicate IsLeast(m: string, s: set<string>) {
    m in s && forall x | x in s :: x == m || Less(m, x)
  }

  lemma {:induction false} LeastExists(s: set<string>) returns (m: string)
    requires s != {}
    ensures IsLeast(m, s)
    decreases |s|
  {
    var x :| x in s;
    if s == {x} {
      m := x;
    } else {
      var rest := LeastExists(s - {x});
      LessTotal(rest, x);
      m := if Less(x, rest) then x else rest;
      forall y | y in s ensures y == m || Less(m, y) {
        if y != x && m == x && y != rest {
          LessTransitive(x, rest, y);
        }
      }
    }
  }

  lemma LeastUnique(s: set<string>)
    ensures forall a, b | IsLeast(a, s) && IsLeast(b, s) :: a == b
  {
    forall a, b | IsLeast(a, s) && IsLeast(b, s) ensures a == b {
      LessTotal(a, b);
    }
  }

  predicate NoDup<T(==)>(xs: seq<T>) {
    forall i, j | 0 <= i < j < |xs| :: xs[i] != xs[j]
  }

  predicate Sorted(xs: seq<string>) {
    forall i, j | 0 <= i < j < |xs| :: Less(xs[i], xs[j])
  }

  /** The keys of an ordered map, in iteration order. */
  function SortedKeys(s: set<string>): (r: seq<string>)
    ensures forall x :: x in r <==> x in s
    decreases |s|
  {
    if s == {} then []
    else
      assert exists m :: IsLeast(m, s) by { var m := LeastExists(s); }
      LeastUnique(s);
      var m :| IsLeast(m, s);
      [m] + SortedKeys(s - {m})
  }

  lemma SortedCons(m: string, rest: seq<string>)
    requires Sorted(rest) && NoDup(rest) && forall x | x in rest :: Less(m, x) && x != m
    ensures Sorted([m] + rest) && NoDup([m] + rest)
  {
    var all := [m] + rest;
    forall i, j | 0 <= i < j < |all| ensures Less(all[i], all[j]) && all[i] != all[j] {
      assert all[j] == rest[j - 1];
      if i == 0 { assert rest[j - 1] in rest; } else { assert all[i] == rest[i - 1]; }
    }
  }

  lemma {:induction false} SortedKeysOrdered(s: set<string>)
    ensures Sorted(SortedKeys(s)) && NoDup(SortedKeys(s))
    ensures |SortedKeys(s)| == |s|
    decreases |s|
  {
    if s != {} {
      assert exists m :: IsLeast(m, s) by { var m := LeastExists(s); }
      LeastUnique(s);
      var m :| IsLeast(m, s) && SortedKeys(s) == [m] + SortedKeys(s - {m});
      SortedKeysOrdered(s - {m});
      var rest := SortedKeys(s - {m});
      forall x | x in rest ensures Less(m, x) && x != m {
        assert x in s - {m};
      }
      SortedCons(m, rest);
    }
  }

  lemma KeyPosition(s: set<string>, k: string) returns (i: nat)
    requires k in s
    ensures i < |SortedKeys(s)| && SortedKeys(s)[i] == k
    ensures forall j | i < j < |SortedKeys(s)| :: SortedKeys(s)[j] in s && Less(k, SortedKeys(s)[j])
  {
    SortedKeysOrdered(s);
    assert k in SortedKeys(s);
    i :| 0 <= i < |SortedKeys(s)| && SortedKeys(s)[i] == k;
  }

  function Elements<T(!new)>(xs: seq<T>): (s: set<T>)
    ensures forall x :: x in s <==> x in xs
  {
    set x | x in xs
  }

  lemma {:induction false} ElementsCount<T(!new)>(xs: seq<T>)
    ensures |Elements(xs)| <= |xs|
    ensures |Elements(xs)| == |xs| <==> NoDup(xs)
  {
    if xs == [] {
    } else {
      var n := |xs| - 1;
      var rest := xs[..n];
      ElementsCount(rest);
      assert xs == rest + [xs[n]];
      assert Elements(xs) == Elements(rest) + {xs[n]};
      if xs[n] in rest {
        assert Elements(xs) == Elements(rest);
        var i :| 0 <= i < n && rest[i] == xs[n];
        assert xs[i] == xs[n];
      } else {
        assert NoDup(xs) <==> NoDup(rest) by {
          if NoDup(rest) {
            forall i, j | 0 <= i < j < |xs| ensures xs[i] != xs[j] {
              if j == n { assert xs[i] == rest[i]; }
            }
          }
          if NoDup(xs) {
            forall i, j | 0 <= i < j < n ensures rest[i] != rest[j] {
              assert xs[i] == rest[i] && xs[j] == rest[j];
            }
          }
        }
      }
    }
  }

  lemma NoDupWithin<T(!new)>(xs: seq<T>, s: set<T>)
    requires NoDup(xs) && forall x | x in xs :: x in s
    ensures |xs| <= |s|
    ensures |xs| == |s| ==> Elements(xs) == s
  {
    ElementsCount(xs);
    SubsetSize(Elements(xs), s);
  }

  lemma {:induction false} SubsetSize<T>(a: set<T>, b: set<T>)
    requires a <= b
    ensures |a| <= |b|
    ensures |a| == |b| ==> a == b
    decreases |a|
  {
    if a != {} {
      var x :| x in a;
      SubsetSize(a - {x}, b - {x});
      assert b == (b - {x}) + {x} && a == (a - {x}) + {x};
    }
  }

  lemma NoDupConcat<T(!new)>(xs: seq<T>, ys: seq<T>)
    requires NoDup(xs) && NoDup(ys) && forall y | y in ys :: y !in xs
    ensures NoDup(xs + ys)
  {
    var all := xs + ys;
    forall i, j | 0 <= i < j < |all| ensures all[i] != all[j] {
      if i < |xs| <= j {
        assert ys[j - |xs|] in ys && xs[i] in xs;
      }
    }
  }

  /** The elements of `xs` that satisfy `p`, in order. */
  function Filter<T(!new)>(xs: seq<T>, p: T -> bool): (r: seq<T>)
    ensures forall x :: x in r <==> x in xs && p(x)
  {
    if xs == [] then []
    else
      var n := |xs| - 1;
      assert xs == xs[..n] + [xs[n]];
      Filter(xs[..n], p) + if p(xs[n]) then [xs[n]] else []
  }

  lemma {:induction false} FilterKeepsOrder(xs: seq<string>, p: string -> bool)
    ensures NoDup(xs) ==> NoDup(Filter(xs, p))
    ensures Sorted(xs) ==> Sorted(Filter(xs, p))
  {
    if xs != [] {
      var n := |xs| - 1;
      FilterKeepsOrder(xs[..n], p);
      forall x | x in Filter(xs[..n], p)
        ensures NoDup(xs) ==> x != xs[n]
        ensures Sorted(xs) ==> Less(x, xs[n])
      {
        var i :| 0 <= i < n && xs[..n][i] == x;
        assert xs[i] == x;
      }
    }
  }

  /** Two kept elements stand in the order they had. */
  lemma {:induction false} FilterPositions<T(!new)>(xs: seq<T>, p: T -> bool, m: nat, n: nat) returns (i: nat, k: nat)
    requires m < n < |Filter(xs, p)|
    ensures i < k < |xs| && xs[i] == Filter(xs, p)[m] && xs[k] == Filter(xs, p)[n]
    decreases |xs|
  {
    var last := |xs| - 1;
    var front := Filter(xs[..last], p);
    if n < |front| {
      i, k := FilterPositions(xs[..last], p, m, n);
    } else {
      k := last;
      assert front[m] in front;
      i :| 0 <= i < last && xs[..last][i] == front[m];
    }
  }

  /** Appending the next element when it passes keeps `out` equal to the filtered prefix. */
  lemma FilterGrows<T(!new)>(xs: seq<T>, n: nat, p: T -> bool, base: seq<T>, out: seq<T>)
    requires n < |xs| && out == base + Filter(xs[..n], p)
    ensures (if p(xs[n]) then out + [xs[n]] else out) == base + Filter(xs[..n + 1], p)
  {
    assert xs[..n + 1][..n] == xs[..n];
  }

  lemma WholePrefix<T>(xs: seq<T>)
    ensures xs[..|xs|] == xs
  {
  }

  lemma PrefixGrows<T>(base: seq<T>, xs: seq<T>, i: nat)
    requires i < |xs|
    ensures (base + xs[..i]) + [xs[i]] == base + xs[..i + 1]
  {
  }

  lemma PrefixMembers<T(!new)>(xs: seq<T>, n: nat)
    requires n < |xs|
    ensures forall x :: x in xs[..n + 1] <==> x in xs[..n] || x == xs[n]
  {
    assert xs[..n + 1] == xs[..n] + [xs[n]];
  }

  lemma EmptyBase<T>(xs: seq<T>)
    ensures [] + xs == xs
  {
  }

  /** The results of `g` on each element, concatenated in order. */
  function FlatMap<S, T>(xs: seq<S>, g: S -> seq<T>): seq<T> {
    if xs == [] then []
    else FlatMap(xs[..|xs| - 1], g) + g(xs[|xs| - 1])
  }

  lemma FlatMapGrows<S, T>(xs: seq<S>, n: nat, g: S -> seq<T>, base: seq<T>)
    requires n < |xs|
    ensures base + FlatMap(xs[..n + 1], g) == (base + FlatMap(xs[..n], g)) + g(xs[n])
  {
    assert xs[..n + 1][..n] == xs[..n];
  }

  lemma {:induction false} FlatMapConcat<S, T>(xs: seq<S>, ys: seq<S>, g: S -> seq<T>)
    ensures FlatMap(xs + ys, g) == FlatMap(xs, g) + FlatMap(ys, g)
    decreases |ys|
  {
    if ys == [] {
      assert xs + ys == xs;
    } else {
      var n := |ys| - 1;
      FlatMapConcat(xs, ys[..n], g);
      assert (xs + ys)[..|xs + ys| - 1] == xs + ys[..n];
    }
  }

  lemma FlatMapOne<S, T>(x: S, g: S -> seq<T>)
    ensures FlatMap([x], g) == g(x)
  {
    assert [x][..0] == [];
  }

  lemma {:induction false} FlatMapPrefix<S, T>(xs: seq<S>, n: nat, g: S -> seq<T>)
    requires n <= |xs|
    ensures FlatMap(xs[..n], g) <= FlatMap(xs, g)
    decreases |xs|
  {
    if n < |xs| {
      var m := |xs| - 1;
      FlatMapPrefix(xs[..m], n, g);
      assert xs[..m][..n] == xs[..n];
    } else {
      WholePrefix(xs);
    }
  }

  lemma {:induction false} FlatMapMembers<S(!new), T(!new)>(xs: seq<S>, g: S -> seq<T>, y: T)
    ensures y in FlatMap(xs, g) <==> exists i | 0 <= i < |xs| :: y in g(xs[i])
  {
    if xs != [] {
      var n := |xs| - 1;
      FlatMapMembers(xs[..n], g, y);
      if exists i | 0 <= i < n :: y in g(xs[..n][i]) {
        var i :| 0 <= i < n && y in g(xs[..n][i]);
        assert y in g(xs[i]);
      }
      if exists i | 0 <= i < |xs| :: y in g(xs[i]) {
        var i :| 0 <= i < |xs| && y in g(xs[i]);
        assert i < n ==> y in g(xs[..n][i]);
      }
    }
  }
}
