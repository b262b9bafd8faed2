/** The arithmetic of the prime sieve (user/primes.c): what passes a chain of filters, and which number heads it. */
module Primes {
  predicate Divides(d: int, n: int)
    requires d > 0
  {
    n % d == 0
  }

  predicate IsPrime(n: int) { n >= 2 && forall d :: 2 <= d < n ==> !Divides(d, n) }

  /** Numbers that can stand in a filter. */
  predicate Moduli(ps: seq<int>) { forall j :: 0 <= j < |ps| ==> ps[j] >= 2 }

  /** n is divisible by none of ps. */
  predicate Survives(ps: seq<int>, n: int)
    requires Moduli(ps)
  {
    forall j :: 0 <= j < |ps| ==> !Divides(ps[j], n)
  }

  /** The integers in [2, b) divisible by none of ps, in increasing order. */
  function Survivors(ps: seq<int>, b: int): seq<int>
    requires Moduli(ps)
    decreases b
  {
    if b <= 2 then [] else Survivors(ps, b - 1) + if Survives(ps, b - 1) then [b - 1] else []
  }

  /** What the process that holds p passes on. */
  function Filter(p: int, s: seq<int>): seq<int>
    requires p > 0
  {
    if s == [] then []
    else Filter(p, s[..|s| - 1]) + if Divides(p, s[|s| - 1]) then [] else [s[|s| - 1]]
  }

  /** Passing one more filter. */
  lemma {:induction false} FilterSurvivors(ps: seq<int>, p: int, b: int)
    requires Moduli(ps) && p >= 2
    ensures Filter(p, Survivors(ps, b)) == Survivors(ps + [p], b)
    decreases b
  {
    if b > 2 {
      FilterSurvivors(ps, p, b - 1);
      SurvivesMore(ps, p, b - 1);
      var t, u := Survivors(ps, b - 1), Survivors(ps + [p], b - 1);
      assert Survivors(ps, b) == t + if Survives(ps, b - 1) then [b - 1] else [];
      assert Survivors(ps + [p], b) == u + if Survives(ps + [p], b - 1) then [b - 1] else [];
      FilterSnoc(p, t, b - 1);
      assert t + [] == t && u + [] == u;
    }
  }

  lemma SurvivesMore(ps: seq<int>, p: int, n: int)
    requires Moduli(ps) && p >= 2
    ensures Moduli(ps + [p]) && (Survives(ps + [p], n) <==> Survives(ps, n) && !Divides(p, n))
  {
    assert forall j :: 0 <= j < |ps| ==> (ps + [p])[j] == ps[j];
    assert (ps + [p])[|ps|] == p;
  }

  lemma FilterSnoc(p: int, s: seq<int>, x: int)
    requires p > 0
    ensures Filter(p, s + [x]) == Filter(p, s) + if Divides(p, x) then [] else [x]
  {
    var t := s + [x];
    assert t[..|t| - 1] == s && t[|t| - 1] == x;
  }

  /** A prefix of a list of survivors is the list of survivors below some bound. */
  lemma {:induction false} PrefixOfSurvivors(ps: seq<int>, b: int, s: seq<int>) returns (c: int)
    requires Moduli(ps) && s <= Survivors(ps, b)
    ensures s == Survivors(ps, c) && c <= b
    decreases b
  {
    if s == Survivors(ps, b) {
      c := b;
    } else {
      assert s <= Survivors(ps, b - 1);
      c := PrefixOfSurvivors(ps, b - 1, s);
    }
  }

  /** The head of the survivors is the least of them. */
  lemma {:induction false} HeadIsLeast(ps: seq<int>, b: int)
    requires Moduli(ps) && Survivors(ps, b) != []
    ensures var x := Survivors(ps, b)[0];
      2 <= x < b && Survives(ps, x) && forall n :: 2 <= n < x ==> !Survives(ps, n)
    decreases b
  {
    if b > 2 {
      if Survivors(ps, b - 1) != [] {
        HeadIsLeast(ps, b - 1);
      } else {
        NoneBelow(ps, b - 1);
      }
    }
  }

  lemma {:induction false} NoneBelow(ps: seq<int>, b: int)
    requires Moduli(ps) && Survivors(ps, b) == []
    ensures forall n :: 2 <= n < b ==> !Survives(ps, n)
    decreases b
  {
    if b > 2 { NoneBelow(ps, b - 1); }
  }

  /** ps is the list of the first |ps| primes: increasing, only primes, and none left out. */
  ghost predicate FirstPrimes(ps: seq<int>)
  {
    && (forall j :: 0 <= j < |ps| ==> IsPrime(ps[j]))
    && (forall i, j :: 0 <= i < j < |ps| ==> ps[i] < ps[j])
    && (forall q :: IsPrime(q) && ps != [] && q <= ps[|ps| - 1] ==> q in ps)
  }

  lemma DividesTrans(a: int, b: int, c: int)
    requires a > 0 && b > 0 && Divides(a, b) && Divides(b, c)
    ensures Divides(a, c)
  {
    var k, m := b / a, c / b;
    assert b == a * k && c == b * m;
    assert c == a * (k * m);
    MultipleMod(a, k * m);
  }

  lemma MultipleMod(a: int, k: int)
    requires a > 0
    ensures (a * k) % a == 0
  {
    var q, r := (a * k) / a, (a * k) % a;
    assert a * k == a * q + r;
    assert r == a * (k - q);
    SmallMultiple(a, k - q);
  }

  lemma SmallMultiple(a: int, n: int)
    requires 0 <= a * n < a
    ensures a * n == 0
  {
    assert n > 0 ==> a * n >= a;
    assert n < 0 ==> a * n < 0;
  }

  /** What the filters reject, and its multiples, they reject. */
  lemma NoProperDivisor(ps: seq<int>, x: int, d: int)
    requires Moduli(ps) && Survives(ps, x) && 2 <= d && !Survives(ps, d)
    ensures !Divides(d, x)
  {
    var j :| 0 <= j < |ps| && Divides(ps[j], d);
    if Divides(d, x) { DividesTrans(ps[j], d, x); }
  }

  /** A prime the filters reject is one of them. */
  lemma RejectedPrime(ps: seq<int>, q: int)
    requires Moduli(ps) && IsPrime(q) && !Survives(ps, q)
    ensures q in ps
  {
    var j :| 0 <= j < |ps| && Divides(ps[j], q);
    assert !(ps[j] > q) by { if ps[j] > q { SmallMod(q, ps[j]); } }
    assert q == ps[j];
  }

  lemma SmallMod(q: int, p: int)
    requires 0 < q < p
    ensures !Divides(p, q)
  {
  }

  /** The least integer >= 2 that no earlier prime divides is the next prime. */
  lemma NextPrime(ps: seq<int>, x: int)
    requires FirstPrimes(ps) && x >= 2 && Survives(ps, x) && forall n :: 2 <= n < x ==> !Survives(ps, n)
    ensures FirstPrimes(ps + [x])
  {
    forall d | 2 <= d < x ensures !Divides(d, x) { NoProperDivisor(ps, x, d); }
    assert IsPrime(x);
    assert x !in ps by { assert Divides(x, x); }
    assert forall j :: 0 <= j < |ps| ==> ps[j] < x by {
      assert forall i :: 0 <= i < |ps| ==> ps[i] <= ps[|ps| - 1];
    }
    forall q | IsPrime(q) && q <= x ensures q in ps + [x] {
      if q < x { RejectedPrime(ps, q); }
    }
    Appended(ps, x);
  }

  lemma Appended(ps: seq<int>, x: int)
    requires FirstPrimes(ps) && IsPrime(x) && forall j :: 0 <= j < |ps| ==> ps[j] < x
    requires forall q :: IsPrime(q) && q <= x ==> q in ps + [x]
    ensures FirstPrimes(ps + [x])
  {
    assert forall j :: 0 <= j < |ps| ==> (ps + [x])[j] == ps[j];
  }

  /** What heads the stream past the first primes is the next prime. */
  lemma HeadIsNextPrime(ps: seq<int>, b: int)
    requires FirstPrimes(ps) && Survivors(ps, b) != []
    ensures FirstPrimes(ps + [Survivors(ps, b)[0]])
  {
    HeadIsLeast(ps, b);
    NextPrime(ps, Survivors(ps, b)[0]);
  }

  /** There is only one such list of each length: its last entry is the |ps|-th prime. */
  lemma {:induction false} FirstPrimesUnique(ps: seq<int>, qs: seq<int>)
    requires FirstPrimes(ps) && FirstPrimes(qs) && |ps| == |qs|
    ensures ps == qs
    decreases |ps|
  {
    if ps != [] {
      var n := |ps| - 1;
      FirstPrimesPrefix(ps, n);
      FirstPrimesPrefix(qs, n);
      FirstPrimesUnique(ps[..n], qs[..n]);
      SameLast(ps, qs);
    }
  }

  lemma SameLast(ps: seq<int>, qs: seq<int>)
    requires FirstPrimes(ps) && FirstPrimes(qs) && |ps| == |qs| > 0 && ps[..|ps| - 1] == qs[..|ps| - 1]
    ensures ps == qs
  {
    var n := |ps| - 1;
    assert ps[n] == qs[n] by {
      LastNotGreater(ps, qs);
      LastNotGreater(qs, ps);
    }
    assert ps == ps[..n] + [ps[n]] && qs == qs[..n] + [qs[n]];
  }

  lemma LastNotGreater(ps: seq<int>, qs: seq<int>)
    requires FirstPrimes(ps) && FirstPrimes(qs) && |ps| == |qs| > 0 && ps[..|ps| - 1] == qs[..|ps| - 1]
    ensures ps[|ps| - 1] <= qs[|ps| - 1]
  {
    var n := |ps| - 1;
    assert qs[n] !in ps[..n] by { assert forall j :: 0 <= j < n ==> qs[..n][j] == qs[j] < qs[n]; }
    assert ps == ps[..n] + [ps[n]];
    assert qs[n] <= ps[n] ==> qs[n] in ps;
  }

  lemma FirstPrimesPrefix(ps: seq<int>, n: nat)
    requires FirstPrimes(ps) && n <= |ps|
    ensures FirstPrimes(ps[..n])
  {
    if n > 0 {
      forall q | IsPrime(q) && q <= ps[n - 1] ensures q in ps[..n] {
        assert ps[n - 1] <= ps[|ps| - 1];
        var j :| 0 <= j < |ps| && ps[j] == q;
        assert j <= n - 1;
        assert ps[..n][j] == q;
      }
    }
  }
}
