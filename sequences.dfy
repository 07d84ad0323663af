/**
 Generic facts about sequences and multisets used to add up counts:
 `SumOf(ks, m)` adds the multiplicities in `m` of the keys listed in `ks`.
 When `ks` lists every element of `xs` exactly once, that sum is `|xs|`.
 */
module Sequences {

  /** No element occurs twice in `s`. */
  ghost predicate Distinct<T>(s: seq<T>)
  {
    forall i, j :: 0 <= i < j < |s| ==> s[i] != s[j]
  }

  /** The multiplicities in `m` of the keys `ks`, added up. */
  ghost function SumOf<T>(ks: seq<T>, m: multiset<T>): nat
  {
    if ks == [] then 0 else m[ks[0]] + SumOf(ks[1..], m)
  }

  lemma {:induction false} SumOfAbsent<T>(ks: seq<T>, m: multiset<T>)
    requires forall k :: k in ks ==> m[k] == 0
    ensures SumOf(ks, m) == 0
  {
    if ks != [] {
      assert ks[0] in ks;
      SumOfAbsent(ks[1..], m);
    }
  }

  lemma {:induction false} SumOfUnion<T>(ks: seq<T>, a: multiset<T>, b: multiset<T>)
    ensures SumOf(ks, a + b) == SumOf(ks, a) + SumOf(ks, b)
  {
    if ks != [] {
      SumOfUnion(ks[1..], a, b);
    }
  }

  lemma {:induction false} SumOfSingleton<T>(ks: seq<T>, x: T)
    requires Distinct(ks) && x in ks
    ensures SumOf(ks, multiset{x}) == 1
  {
    if ks[0] == x {
      forall k | k in ks[1..] ensures multiset{x}[k] == 0 {
        var j :| 0 <= j < |ks[1..]| && ks[1..][j] == k;
        assert ks[j + 1] == k;
      }
      SumOfAbsent(ks[1..], multiset{x});
    } else {
      SumOfSingleton(ks[1..], x);
    }
  }

  /** Summing the multiplicities over a duplicate-free cover of `xs` gives `|xs|`. */
  lemma {:induction false} SumCovers<T>(ks: seq<T>, xs: seq<T>)
    requires Distinct(ks)
    requires forall x :: x in xs ==> x in ks
    ensures SumOf(ks, multiset(xs)) == |xs|
  {
    if xs == [] {
      SumOfAbsent(ks, multiset(xs));
    } else {
      var ys, x := xs[..|xs| - 1], xs[|xs| - 1];
      assert xs == ys + [x];
      SumCovers(ks, ys);
      SumOfUnion(ks, multiset(ys), multiset{x});
      SumOfSingleton(ks, x);
    }
  }

  /** No element occurs in a sequence more often than the sequence is long. */
  lemma {:induction false} OccurrenceBound<T>(xs: seq<T>, x: T)
    ensures multiset(xs)[x] <= |xs|
  {
    if xs != [] {
      assert xs == xs[..|xs| - 1] + [xs[|xs| - 1]];
      OccurrenceBound(xs[..|xs| - 1], x);
    }
  }

  /** In a duplicate-free sequence each element occurs once, and not before its own index. */
  lemma DistinctOccurrences<T>(s: seq<T>, i: nat)
    requires Distinct(s) && i < |s|
    ensures multiset(s[..i])[s[i]] == 0
    ensures multiset(s)[s[i]] == 1
  {
    assert s == s[..i] + [s[i]] + s[i + 1..];
    assert s[i] !in s[..i];
    assert s[i] !in s[i + 1..] by {
      var rest := s[i + 1..];
      forall j | 0 <= j < |rest| ensures rest[j] != s[i] {
        assert rest[j] == s[i + 1 + j];
      }
    }
  }

  /** The reals `xs` added up. */
  ghost function Total(xs: seq<real>): real
  {
    if xs == [] then 0.0 else xs[0] + Total(xs[1..])
  }

  /** Shares `m[k] / c` of the keys `ks` add up to the share of their summed multiplicities. */
  lemma {:induction false} TotalShares<T>(xs: seq<real>, ks: seq<T>, m: multiset<T>, c: real)
    requires c > 0.0 && |xs| == |ks|
    requires forall i :: 0 <= i < |xs| ==> xs[i] == m[ks[i]] as real / c
    ensures Total(xs) == SumOf(ks, m) as real / c
  {
    if xs == [] {
      ZeroFraction(c);
    } else {
      TotalShares(xs[1..], ks[1..], m, c);
      AddFractions(m[ks[0]] as real, SumOf(ks[1..], m) as real, SumOf(ks, m) as real, c);
    }
  }

  lemma ZeroFraction(c: real)
    requires c > 0.0
    ensures 0.0 / c == 0.0
  {
  }

  lemma WholeFraction(s: real, c: real)
    requires c > 0.0 && s == c
    ensures s / c == 1.0
  {
  }

  lemma AddFractions(a: real, b: real, s: real, c: real)
    requires c > 0.0 && s == a + b
    ensures a / c + b / c == s / c
  {
  }
}
