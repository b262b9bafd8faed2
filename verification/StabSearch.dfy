/** stab_binsearch of kern/kdebug.c: binary search among the entries of one type in an interleaved table. */
module StabSearch {
  import opened Types

  const TOP: nat := 0xFFFF_FFFF

  datatype Stab = Stab(ntype: int, value: Word)

  /** Part of a table, and what to look for in it. */
  datatype Query = Query(stabs: seq<Stab>, left: int, right: int, ntype: int, addr: Word)

  /** A range of the table, possibly empty. */
  predicate ValidQuery(q: Query) { 0 <= q.left <= q.right + 1 <= |q.stabs| }

  /** Entry i is of the wanted type and in the range. */
  predicate Match(q: Query, i: int)
    requires ValidQuery(q)
  {
    q.left <= i <= q.right && q.stabs[i].ntype == q.ntype
  }

  function Value(q: Query, i: int): int
    requires ValidQuery(q) && Match(q, i)
  {
    q.stabs[i].value
  }

  predicate NoMatch(q: Query, lo: int, hi: int)
    requires ValidQuery(q)
  {
    forall i :: lo <= i < hi ==> !Match(q, i)
  }

  ghost predicate Sorted(q: Query)
    requires ValidQuery(q)
  {
    forall i, j :: i <= j && Match(q, i) && Match(q, j) ==> Value(q, i) <= Value(q, j)
  }

  /** What the caller wants: left is the last match at or below the address, and right is just before the next match,
      or the end of the range. */
  ghost predicate Brackets(q: Query, left: int, right: int)
    requires ValidQuery(q)
  {
    && Match(q, left) && Value(q, left) <= q.addr && left <= right <= q.right
    && NoMatch(q, left + 1, right + 1)
    && (right < q.right ==> Match(q, right + 1) && Value(q, right + 1) > q.addr)
  }

  /** In a sorted table, a bracket is unique and has every match on its proper side. */
  lemma BracketsMeans(q: Query, left: int, right: int)
    requires ValidQuery(q) && Sorted(q) && Brackets(q, left, right)
    ensures forall i :: Match(q, i) ==> (Value(q, i) <= q.addr <==> i <= left) && (Value(q, i) > q.addr <==> i > right)
    ensures forall a, b :: Brackets(q, a, b) ==> a == left && b == right
  {
    forall i | Match(q, i) ensures (Value(q, i) <= q.addr <==> i <= left) && (Value(q, i) > q.addr <==> i > right) {
      if i > right { assert Match(q, right + 1); }
    }
    forall a, b | Brackets(q, a, b) ensures a == left && b == right {
      if right < q.right { assert Match(q, right + 1); }
      if b < q.right { assert Match(q, b + 1); }
    }
  }

  /** The variables of the search, how often it hit the address exactly, and whether it has set left. */
  datatype Vars = Vars(l: int, r: int, left: int, addr: Word, hits: nat, found: bool)

  /** The incremented address has not wrapped round to 0: matches left of l are below it, the last of them is left;
      matches right of r are above the address asked for. Between an exact hit and the next step, left == l. */
  ghost predicate Narrowing(q: Query, v: Vars)
    requires ValidQuery(q)
  {
    && v.addr == q.addr + v.hits
    && (forall i :: Match(q, i) && i < v.l ==> Value(q, i) < v.addr)
    && (forall i :: Match(q, i) && i > v.r ==> Value(q, i) > q.addr)
    && (if v.found then Placed(q, v) else v.hits == 0 && v.left == q.left && NoMatch(q, q.left, v.l))
  }

  ghost predicate Placed(q: Query, v: Vars)
    requires ValidQuery(q)
  {
    && Match(q, v.left) && Value(q, v.left) < v.addr && NoMatch(q, v.left + 1, v.l)
    && (v.left < v.l || (v.left == v.l && v.l <= v.r))
    && (v.hits > 0 ==> Value(q, v.left) >= v.addr - 1)
  }

  /** It has: everything from l on is at the top address, and goes. */
  ghost predicate Wrapped(q: Query, v: Vars)
    requires ValidQuery(q)
  {
    && v.addr == 0 && q.addr + v.hits == TOP + 1
    && v.left == v.l && Match(q, v.l) && Value(q, v.l) == TOP
    && (v.hits > 1 && Match(q, v.l - 1) ==> Value(q, v.l - 1) >= TOP - 1)
  }

  ghost predicate Bounds(q: Query, v: Vars)
    requires ValidQuery(q)
  {
    && q.left <= v.l && v.r <= q.right && v.l <= v.r + 1
    && (v.r < q.right ==> Match(q, v.r + 1))
  }

  /** How often the address was hit is explained by entries at it. */
  ghost predicate HitsOk(q: Query, hits: nat)
    requires ValidQuery(q)
  {
    && (hits > 0 ==> exists i :: Match(q, i) && Value(q, i) == q.addr)
    && (hits > 1 ==> exists i :: Match(q, i) && Value(q, i) == q.addr + 1)
  }

  ghost predicate SearchInv(q: Query, v: Vars)
    requires ValidQuery(q)
  {
    Bounds(q, v) && HitsOk(q, v.hits) && (Narrowing(q, v) || Wrapped(q, v))
  }

  /** m is the last match in [l, mid]. */
  ghost predicate LastMatch(q: Query, v: Vars, mid: int, m: int)
    requires ValidQuery(q)
  {
    v.l <= m <= mid <= v.r && Match(q, m) && NoMatch(q, m + 1, mid + 1)
  }

  lemma StepNone(q: Query, v: Vars, mid: int)
    requires ValidQuery(q) && Sorted(q) && SearchInv(q, v) && v.l <= mid <= v.r && NoMatch(q, v.l, mid + 1)
    ensures SearchInv(q, v.(l := mid + 1))
  {
  }

  lemma StepBelow(q: Query, v: Vars, mid: int, m: int)
    requires ValidQuery(q) && Sorted(q) && SearchInv(q, v) && LastMatch(q, v, mid, m) && Value(q, m) < v.addr
    ensures SearchInv(q, v.(l := mid + 1, left := m, found := true))
  {
  }

  lemma StepAbove(q: Query, v: Vars, mid: int, m: int)
    requires ValidQuery(q) && Sorted(q) && SearchInv(q, v) && LastMatch(q, v, mid, m) && Value(q, m) > v.addr
    ensures SearchInv(q, v.(r := m - 1))
  {
  }

  function Bump(a: Word): Word { if a == TOP then 0 else a + 1 }

  lemma StepHit(q: Query, v: Vars, mid: int, m: int)
    requires ValidQuery(q) && Sorted(q) && SearchInv(q, v) && LastMatch(q, v, mid, m) && Value(q, m) == v.addr
    ensures SearchInv(q, v.(l := m, left := m, addr := Bump(v.addr), hits := v.hits + 1, found := true))
  {
  }

  /** What the backward scan from right comes to. */
  ghost predicate Scanned(q: Query, left: int, right: int, res: int)
    requires ValidQuery(q)
  {
    if right <= left then res == right
    else left <= res <= right && NoMatch(q, res + 1, right + 1) && (res == left || Match(q, res))
  }

  /** Whether any match is at or below the address. */
  ghost predicate Contained(q: Query)
    requires ValidQuery(q)
  {
    exists i :: Match(q, i) && Value(q, i) <= q.addr
  }

  /** Back from m to l, the first entry of the wanted type, or l - 1. */
  function LastOf(q: Query, l: int, m: int): (k: int)
    requires ValidQuery(q) && q.left <= l <= m + 1 && m <= q.right
    ensures l - 1 <= k <= m && NoMatch(q, k + 1, m + 1) && (k >= l ==> Match(q, k))
    decreases m - l + 1
  {
    if m < l || q.stabs[m].ntype == q.ntype then m else LastOf(q, l, m - 1)
  }

  /** One round of the search. */
  function Next(q: Query, v: Vars, mid: int, m: int): Vars
    requires ValidQuery(q) && q.left <= v.l <= mid <= v.r <= q.right && m == LastOf(q, v.l, mid)
  {
    if m < v.l then v.(l := mid + 1)
    else if Value(q, m) < v.addr then v.(l := mid + 1, left := m, found := true)
    else if Value(q, m) > v.addr then v.(r := m - 1)
    else v.(l := m, left := m, addr := Bump(v.addr), hits := v.hits + 1, found := true)
  }

  /** An exact hit can leave the range alone, but then entry l no longer has the address looked for. */
  function Rank(q: Query, v: Vars): nat
    requires ValidQuery(q) && q.left <= v.l && v.r <= q.right
  {
    if v.l > v.r then 0 else 2 * (v.r - v.l + 1) + if q.stabs[v.l].value == v.addr then 1 else 0
  }

  lemma RankDrops(q: Query, v: Vars, mid: int, m: int)
    requires ValidQuery(q) && q.left <= v.l <= mid <= v.r <= q.right && m == LastOf(q, v.l, mid)
    ensures Rank(q, Next(q, v, mid, m)) < Rank(q, v)
  {
  }

  /** The search from v to its end. */
  function Final(q: Query, v: Vars): (w: Vars)
    requires ValidQuery(q) && q.left <= v.l && v.r <= q.right
    ensures w.l > w.r
    decreases Rank(q, v)
  {
    if v.l > v.r then v
    else
      var mid := (v.l + v.r) / 2;
      var m := LastOf(q, v.l, mid);
      RankDrops(q, v, mid, m);
      Final(q, Next(q, v, mid, m))
  }

  function Start(q: Query): Vars { Vars(q.left, q.right, q.left, q.addr, 0, false) }

  /** The variables at the end of the search. */
  function Last(q: Query): (v: Vars)
    requires ValidQuery(q)
    ensures v.l > v.r
  {
    Final(q, Start(q))
  }

  function Hits(q: Query): nat
    requires ValidQuery(q)
  {
    Last(q).hits
  }

  /** The search never took the branch that goes wrong: a second exact hit, or one at the top address. (A second hit at
      the top address wraps round, and may by luck end just after an entry for addr.) */
  predicate Clean(q: Query)
    requires ValidQuery(q)
  {
    CleanEnd(q, Hits(q), Last(q).r)
  }

  predicate CleanEnd(q: Query, hits: nat, r: int)
    requires ValidQuery(q)
  {
    || hits == 0 || (hits == 1 && q.addr < TOP)
    || (hits == 2 && q.addr == TOP - 1 && Match(q, r) && Value(q, r) == q.addr)
  }

  lemma DoneContained(q: Query, v: Vars, res: int)
    requires ValidQuery(q) && Sorted(q) && SearchInv(q, v) && v.l > v.r && Contained(q)
    requires Scanned(q, v.left, v.r, res)
    ensures Brackets(q, res, v.r) <==> CleanEnd(q, v.hits, v.r)
  {
    if Narrowing(q, v) {
      assert v.found && v.left <= v.r;
      assert res == v.left;
    }
  }

  lemma DoneAllAbove(q: Query, v: Vars, res: int)
    requires ValidQuery(q) && Sorted(q) && SearchInv(q, v) && v.l > v.r && !Contained(q)
    requires Scanned(q, v.left, v.r, res) && exists i :: Match(q, i)
    ensures Match(q, v.r + 1) && NoMatch(q, q.left, v.r + 1) && res == if v.r < q.left then v.r else q.left
  {
  }

  lemma DoneHits(q: Query, v: Vars)
    requires ValidQuery(q) && Sorted(q) && SearchInv(q, v) && v.l > v.r
    ensures v.hits > 0 <==> exists i :: Match(q, i) && Value(q, i) == q.addr
    ensures v.hits > 1 ==> exists i :: Match(q, i) && Value(q, i) == q.addr + 1
  {
  }

  /** What the results promise on a table sorted by address. */
  ghost predicate Answers(q: Query, left: int, right: int)
    requires ValidQuery(q)
  {
    && (Contained(q) ==> (Brackets(q, left, right) <==> Clean(q)))
    && (!Contained(q) && !NoMatch(q, q.left, q.right + 1) ==>
          Match(q, right + 1) && NoMatch(q, q.left, right + 1) && left == if right < q.left then right else q.left)
    && (Hits(q) > 0 <==> exists i :: Match(q, i) && Value(q, i) == q.addr)
    && (Hits(q) > 1 ==> exists i :: Match(q, i) && Value(q, i) == q.addr + 1)
  }

  /** any_matches. */
  predicate AnyMatches(q: Query, v: Vars) { v.found || v.r < q.right }

  /** Where the search is on its way, on any table. */
  ghost predicate OnTheWay(q: Query, v: Vars)
    requires ValidQuery(q)
  {
    && q.left <= v.l <= v.r + 1 && v.r <= q.right && q.left <= v.left
    && if AnyMatches(q, v) then v.left <= q.right && !NoMatch(q, q.left, q.right + 1)
       else v.left == q.left && v.hits == 0 && NoMatch(q, q.left, v.l)
  }

  lemma RoundSorted(q: Query, v: Vars, mid: int, m: int)
    requires ValidQuery(q) && Sorted(q) && SearchInv(q, v)
    requires q.left <= v.l <= mid <= v.r <= q.right && m == LastOf(q, v.l, mid)
    ensures SearchInv(q, Next(q, v, mid, m))
  {
    if m < v.l { StepNone(q, v, mid); }
    else if Value(q, m) < v.addr { StepBelow(q, v, mid, m); }
    else if Value(q, m) > v.addr { StepAbove(q, v, mid, m); }
    else { StepHit(q, v, mid, m); }
  }

  lemma FinalStep(q: Query, v: Vars, mid: int, m: int)
    requires ValidQuery(q) && q.left <= v.l <= v.r <= q.right && mid == (v.l + v.r) / 2 && m == LastOf(q, v.l, mid)
    ensures Final(q, v) == Final(q, Next(q, v, mid, m))
  {
  }

  /** A round with these mid and m can follow v. */
  predicate CanStep(q: Query, v: Vars, mid: int, m: int)
    requires ValidQuery(q)
  {
    q.left <= v.l <= mid <= v.r <= q.right && m == LastOf(q, v.l, mid)
  }

  /** What every round keeps, the search keeps. */
  lemma {:induction false} FinalKeeps(q: Query, v: Vars, inv: Vars -> bool)
    requires ValidQuery(q) && q.left <= v.l && v.r <= q.right && inv(v)
    requires forall u, mid, m :: CanStep(q, u, mid, m) && inv(u) ==> inv(Next(q, u, mid, m))
    ensures inv(Final(q, v))
    decreases Rank(q, v)
  {
    if v.l <= v.r {
      var mid := (v.l + v.r) / 2;
      var m := LastOf(q, v.l, mid);
      var w := Next(q, v, mid, m);
      assert CanStep(q, v, mid, m);
      assert inv(w);
      RankDrops(q, v, mid, m);
      assert Final(q, v) == Final(q, w) by { FinalStep(q, v, mid, m); }
      FinalKeeps(q, w, inv);
    }
  }

  lemma RoundAny(q: Query, v: Vars, mid: int, m: int)
    requires ValidQuery(q) && OnTheWay(q, v) && CanStep(q, v, mid, m)
    ensures OnTheWay(q, Next(q, v, mid, m))
  {
  }

  lemma FinalOnTheWay(q: Query)
    requires ValidQuery(q)
    ensures OnTheWay(q, Final(q, Start(q)))
  {
    forall v, mid, m | CanStep(q, v, mid, m) && OnTheWay(q, v) ensures OnTheWay(q, Next(q, v, mid, m)) {
      RoundAny(q, v, mid, m);
    }
    FinalKeeps(q, Start(q), v => ValidQuery(q) && OnTheWay(q, v));
  }

  lemma FinalSorted(q: Query)
    requires ValidQuery(q) && Sorted(q)
    ensures SearchInv(q, Final(q, Start(q)))
  {
    forall v, mid, m | CanStep(q, v, mid, m) && SearchInv(q, v) ensures SearchInv(q, Next(q, v, mid, m)) {
      RoundSorted(q, v, mid, m);
    }
    FinalKeeps(q, Start(q), v => ValidQuery(q) && SearchInv(q, v));
  }

  lemma Conclude(q: Query, v: Vars, left: int)
    requires ValidQuery(q) && Sorted(q) && v == Last(q) && SearchInv(q, v)
    requires !NoMatch(q, q.left, q.right + 1) && Scanned(q, v.left, v.r, left)
    ensures Answers(q, left, v.r)
  {
    DoneHits(q, v);
    if Contained(q) { DoneContained(q, v, left); } else { DoneAllAbove(q, v, left); }
  }

  lemma EndsWithout(q: Query)
    requires ValidQuery(q) && !AnyMatches(q, Last(q))
    ensures Last(q).left == q.left && NoMatch(q, q.left, q.right + 1)
    ensures forall left, right :: Answers(q, left, right)
  {
    FinalOnTheWay(q);
  }

  lemma EndsWith(q: Query)
    requires ValidQuery(q) && AnyMatches(q, Last(q))
    ensures var v := Last(q); !NoMatch(q, q.left, q.right + 1) && q.left <= v.left && q.left - 1 <= v.r <= q.right
  {
    FinalOnTheWay(q);
  }

  /** What the backward scan makes of it. */
  lemma Ends(q: Query, left: int)
    requires ValidQuery(q) && AnyMatches(q, Last(q)) && Scanned(q, Last(q).left, Last(q).r, left)
    ensures Sorted(q) ==> Answers(q, left, Last(q).r)
  {
    EndsWith(q);
    if Sorted(q) {
      FinalSorted(q);
      Conclude(q, Last(q), left);
    }
  }

  /** A Query as parameters, region_left and region_right as results. Terminates on every table, and without a match
      says so by right == left - 1. On a table sorted by address it brackets the address if and only if the search is
      clean. */
  method StabBinsearch(q: Query) returns (left: int, right: int)
    requires ValidQuery(q)
    ensures NoMatch(q, q.left, q.right + 1) ==> left == q.left && right == q.left - 1
    ensures !NoMatch(q, q.left, q.right + 1) ==> q.left - 1 <= left <= right <= q.right
    ensures Sorted(q) ==> Answers(q, left, right)
  {
    var stabs, addr := q.stabs, q.addr;
    left, right := q.left, q.right;
    var l, r, anyMatches := left, right, false;
    ghost var v := Start(q);
    while l <= r
      invariant q.left <= l && r <= q.right && right == r
      invariant v == Vars(l, r, left, addr, v.hits, v.found) && anyMatches == AnyMatches(q, v)
      invariant Final(q, v) == Last(q)
      decreases Rank(q, v)
    {
      var trueM := (l + r) / 2;
      var m := LastOfType(q, l, trueM);
      FinalStep(q, v, trueM, m);
      RankDrops(q, v, trueM, m);
      v := Next(q, v, trueM, m);
      if m < l {
        l := trueM + 1;
        continue;
      }
      anyMatches := true;
      if stabs[m].value < addr {
        left := m;
        l := trueM + 1;
      } else if stabs[m].value > addr {
        right := m - 1;
        r := m - 1;
      } else {
        left := m;
        l := m;
        addr := Bump(addr);
      }
    }
    if !anyMatches {
      EndsWithout(q);
      right := left - 1;
    } else {
      EndsWith(q);
      left := ScanBack(q, left, right);
      Ends(q, left);
    }
  }

  /** The last loop: back from right, but not past left, to an entry of the wanted type. */
  method ScanBack(q: Query, left: int, right: int) returns (l: int)
    requires ValidQuery(q) && q.left <= left && right <= q.right
    ensures Scanned(q, left, right, l)
  {
    l := right;
    while l > left && q.stabs[l].ntype != q.ntype
      invariant if right <= left then l == right else left <= l <= right && NoMatch(q, l + 1, right + 1)
    {
      l := l - 1;
    }
  }

  /** The inner loop. */
  method LastOfType(q: Query, l: int, mid: int) returns (m: int)
    requires ValidQuery(q) && q.left <= l <= mid <= q.right
    ensures m == LastOf(q, l, mid)
  {
    m := mid;
    while m >= l && q.stabs[m].ntype != q.ntype
      invariant l - 1 <= m <= mid && LastOf(q, l, mid) == LastOf(q, l, m)
    {
      m := m - 1;
    }
  }

  /** Two exact hits take entries at both addr and addr + 1, so without one of them, and below the top address, the
      search is clean. */
  lemma CleanWithoutNeighbour(q: Query, left: int, right: int)
    requires ValidQuery(q) && Sorted(q) && Answers(q, left, right) && Contained(q)
    requires q.addr < TOP
    requires (forall i :: Match(q, i) ==> Value(q, i) != q.addr) || (forall i :: Match(q, i) ==> Value(q, i) != q.addr + 1)
    ensures Brackets(q, left, right)
  {
  }

  /** Whatever stands between two such entries, entries of other types and however many of them, a search from the one to
      the other fails, at every address. */
  lemma NeighboursFail(q: Query, left: int, right: int)
    requires Neighbours(q) && Answers(q, left, right)
    ensures Sorted(q) && Contained(q) && !Brackets(q, left, right)
  {
    NeighboursHit(q);
    assert Match(q, q.left);
  }

  /** The first and last entries are the matches, at addr and addr + 1. */
  ghost predicate Neighbours(q: Query)
  {
    && ValidQuery(q) && q.left < q.right && q.addr + 1 < TOP && NoMatch(q, q.left + 1, q.right)
    && Match(q, q.left) && Value(q, q.left) == q.addr && Match(q, q.right) && Value(q, q.right) == q.addr + 1
  }

  /** The search comes to the second entry, and hits it too. */
  lemma {:induction false} SecondHit(q: Query, v: Vars)
    requires Neighbours(q) && q.left < v.l <= v.r == q.right && v.addr == q.addr + 1
    ensures Final(q, v).hits == v.hits + 1
    decreases Rank(q, v)
  {
    var mid := (v.l + v.r) / 2;
    var m := LastOf(q, v.l, mid);
    var w := Next(q, v, mid, m);
    FinalStep(q, v, mid, m);
    RankDrops(q, v, mid, m);
    if mid < q.right {
      assert m < v.l;
      SecondHit(q, w);
    } else {
      assert m == q.right && w.l == w.r == q.right;
      LastRound(q, w);
    }
  }

  /** An entry below the address looked for ends a search of that entry alone. */
  lemma LastRound(q: Query, v: Vars)
    requires ValidQuery(q) && q.left <= v.l == v.r <= q.right && Match(q, v.l) && Value(q, v.l) < v.addr
    ensures Final(q, v).hits == v.hits
  {
    FinalStep(q, v, v.l, LastOf(q, v.l, v.l));
  }

  lemma FirstIsLast(q: Query, mid: int)
    requires Neighbours(q) && q.left <= mid < q.right
    ensures LastOf(q, q.left, mid) == q.left
  {
  }

  lemma NeighboursHit(q: Query)
    requires Neighbours(q)
    ensures Hits(q) == 2
  {
    FirstHit(q);
    FirstSkip(q);
    SecondHit(q, AfterFirst(q).(l := (q.left + q.right) / 2 + 1));
  }

  /** The variables once the first entry is hit. */
  function AfterFirst(q: Query): Vars { Vars(q.left, q.right, q.left, Bump(q.addr), 1, true) }

  lemma FirstHit(q: Query)
    requires Neighbours(q)
    ensures Final(q, Start(q)) == Final(q, AfterFirst(q))
  {
    var mid := (q.left + q.right) / 2;
    FirstIsLast(q, mid);
    FinalStep(q, Start(q), mid, q.left);
  }

  lemma FirstSkip(q: Query)
    requires Neighbours(q)
    ensures Final(q, AfterFirst(q)) == Final(q, AfterFirst(q).(l := (q.left + q.right) / 2 + 1))
  {
    var mid := (q.left + q.right) / 2;
    FirstIsLast(q, mid);
    FinalStep(q, AfterFirst(q), mid, q.left);
  }
}
