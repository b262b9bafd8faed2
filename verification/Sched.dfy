/** Round-robin choice of the next environment: sched_yield (kern/sched.c) and env_run (kern/env.c). */
module Sched {
  import opened Types
  import opened Ipc

  const NENV: nat := 1024

  /** The env_status column of envs. */
  type Table = t: seq<Status> | |t| == NENV witness seq(NENV, _ => Free)

  predicate Ready(t: Table, i: nat) { i < NENV && t[i] == Runnable }

  /** Where the search starts from; a null curenv counts as slot 0. */
  function Origin(cur: Option<nat>): nat { if cur.None? then 0 else cur.value }

  /** How many steps the search takes from c to reach slot i of the cycle 1, ..., NENV - 1. */
  function Dist(c: nat, i: nat): int { if i > c then i - c else i - c + NENV - 1 }

  /** r is the first ready slot of the cycle after the current one, slot 0 only if the cycle has none. */
  ghost predicate IsPick(t: Table, cur: Option<nat>, r: Option<nat>)
  {
    match r
    case None => forall j :: 0 <= j < NENV ==> !Ready(t, j)
    case Some(i) =>
      && Ready(t, i)
      && forall j :: 1 <= j < NENV && Ready(t, j) ==> i != 0 && Dist(Origin(cur), i) <= Dist(Origin(cur), j)
  }

  /** Going round 1, ..., NENV - 1 from the current slot, j comes before i; all of them come before 0. */
  predicate Passed(cur: Option<nat>, i: nat, j: nat)
  {
    var c := if cur.None? then 0 else cur.value;
    if i == 0 then true else if i > c then c < j < i else j > c || j < i
  }

  lemma PickIsFirst(t: Table, cur: Option<nat>, i: nat)
    requires (cur.Some? ==> cur.value < NENV) && IsPick(t, cur, Some(i))
    ensures forall j :: 1 <= j < NENV && Passed(cur, i, j) ==> t[j] != Runnable
  {
    forall j | 1 <= j < NENV && Passed(cur, i, j) ensures t[j] != Runnable {
      assert Ready(t, i);
      assert Dist(Origin(cur), j) < Dist(Origin(cur), i) || i == 0;
      assert !Ready(t, j);
    }
  }

  lemma PickUnique(t: Table, cur: Option<nat>, r: Option<nat>, q: Option<nat>)
    requires cur.Some? ==> cur.value < NENV
    requires IsPick(t, cur, r) && IsPick(t, cur, q)
    ensures r == q
  {
    if r.Some? { assert Ready(t, r.value); }
    if q.Some? { assert Ready(t, q.value); }
  }

  /** The status column after a context switch from cur to i. */
  function Switched(t: Table, cur: Option<nat>, i: nat): Table
    requires i < NENV && (cur.Some? ==> cur.value < NENV)
  {
    var u := if cur.Some? && t[cur.value] == Running then t[cur.value := Runnable] else t;
    u[i := Running]
  }

  class Cpu {
    var status: array<Status>
    var curenv: Option<nat>

    ghost predicate Valid()
      reads this, status
    {
      status.Length == NENV && (curenv.Some? ==> curenv.value < NENV)
    }

    ghost function Table(): Table
      requires Valid()
      reads this, status
    {
      status[..]
    }

    method EnvRun(i: nat)
      requires Valid() && i < NENV
      modifies this`curenv, status
      ensures Valid() && curenv == Some(i) && Table() == Switched(old(Table()), old(curenv), i)
      ensures forall j :: 0 <= j < NENV ==>
        Table()[j] == if j == i then Running
                      else if old(curenv) == Some(j) && old(Table()[j]) == Running then Runnable
                      else old(Table()[j])
    {
      if curenv.Some? && status[curenv.value] == Running { status[curenv.value] := Runnable; }
      curenv := Some(i);
      status[i] := Running;
    }

    /** The chosen slot, now running; None is the kernel monitor. */
    method SchedYield() returns (r: Option<nat>)
      requires Valid()
      modifies this`curenv, status
      ensures Valid() && IsPick(old(Table()), old(curenv), r)
      ensures match r
              case None => curenv == old(curenv) && Table() == old(Table())
              case Some(i) => curenv == r && Table() == Switched(old(Table()), old(curenv), i)
      ensures match r
              case None => forall j :: 0 <= j < NENV ==> Table()[j] == old(Table()[j]) != Runnable
              case Some(i) =>
                && i < NENV && old(Table()[i]) == Runnable
                && (forall j :: 1 <= j < NENV && Passed(old(curenv), i, j) ==> old(Table()[j]) != Runnable)
                && (forall j :: 0 <= j < NENV ==>
                      Table()[j] == if j == i then Running
                                    else if old(curenv) == Some(j) && old(Table()[j]) == Running then Runnable
                                    else old(Table()[j]))
    {
      ghost var t := Table();
      var ptr: nat := if curenv.None? then 0 else curenv.value;
      ghost var c := ptr;
      var round := 0;
      ptr := ptr + 1;
      while round < NENV
        invariant 0 <= round <= NENV && Valid() && Table() == t && curenv == old(curenv)
        invariant 1 <= ptr <= NENV && (round < NENV - 1 ==> Dist(c, if ptr == NENV then 1 else ptr) == round + 1)
        invariant forall j :: 1 <= j < NENV && Dist(c, j) <= round ==> !Ready(t, j)
      {
        if ptr >= NENV { ptr := 1; }
        assert status[ptr] == t[ptr];
        if status[ptr] == Runnable {
          assert Ready(t, ptr);
          PickIsFirst(t, curenv, ptr);
          EnvRun(ptr);
          return Some(ptr);
        }
        round, ptr := round + 1, ptr + 1;
      }
      assert forall j :: 1 <= j < NENV ==> Dist(c, j) <= NENV - 1;
      assert status[0] == t[0];
      if status[0] == Runnable {
        assert Ready(t, 0);
        PickIsFirst(t, curenv, 0);
        EnvRun(0);
        return Some(0);
      }
      assert forall j :: 0 <= j < NENV ==> (Ready(t, j) <==> t[j] == Runnable);
      return None;
    }
  }

  // ---------- single-CPU runs ----------

  /** A run of picks: tables[n] is what sched_yield sees the n-th time, picks[n] what it runs. Between picks anything
      may change a status; the current environment is the one picked last, and no pick starts from a null curenv. */
  ghost predicate PickRun(tables: seq<Table>, cur: nat, picks: seq<nat>)
    decreases |tables|
  {
    && |picks| == |tables| && cur < NENV
    && (tables == [] || (IsPick(tables[0], Some(cur), Some(picks[0])) && PickRun(tables[1..], picks[0], picks[1..])))
  }

  /** Bounded waiting: an environment that stays runnable is run within Dist(cur, i) <= NENV - 1 picks. */
  lemma {:induction false} BoundedWaiting(tables: seq<Table>, cur: nat, picks: seq<nat>, i: nat) returns (n: nat)
    requires PickRun(tables, cur, picks) && 1 <= i < NENV && |tables| == Dist(cur, i)
    requires forall m :: 0 <= m < |tables| ==> Ready(tables[m], i)
    ensures n < |picks| <= NENV - 1 && picks[n] == i
    decreases |tables|
  {
    var c := picks[0];
    assert Ready(tables[0], i) && Ready(tables[0], c);
    if c == i { return 0; }
    assert Dist(cur, c) <= Dist(cur, i);
    assert Dist(c, i) < Dist(cur, i);
    var d := Dist(c, i);
    PickRunPrefix(tables[1..], c, picks[1..], d);
    assert forall m :: 0 <= m < d ==> tables[1..][..d][m] == tables[m + 1];
    var k := BoundedWaiting(tables[1..][..d], c, picks[1..][..d], i);
    assert picks[1..][..d][k] == picks[k + 1];
    return k + 1;
  }

  lemma {:induction false} PickRunPrefix(tables: seq<Table>, cur: nat, picks: seq<nat>, d: nat)
    requires PickRun(tables, cur, picks) && d <= |tables|
    ensures PickRun(tables[..d], cur, picks[..d])
    decreases d
  {
    if d > 0 {
      PickRunPrefix(tables[1..], picks[0], picks[1..], d - 1);
      assert tables[..d][1..] == tables[1..][..d - 1] && picks[..d][1..] == picks[1..][..d - 1];
    }
  }

  /** The bound is met: when everyone is always ready, i waits for all the picks its distance allows. */
  lemma {:induction false} BoundIsMet(tables: seq<Table>, cur: nat, picks: seq<nat>, i: nat, n: nat)
    requires PickRun(tables, cur, picks) && 1 <= i < NENV && n < |picks| && n + 1 < Dist(cur, i)
    requires forall m, j :: 0 <= m < |tables| && 1 <= j < NENV ==> Ready(tables[m], j)
    ensures picks[n] != i
    decreases n
  {
    var next := if cur + 1 < NENV then cur + 1 else 1;
    assert Ready(tables[0], next) && Dist(cur, next) == 1;
    assert picks[0] == next;
    if n > 0 {
      assert forall m :: 0 <= m < |tables[1..]| ==> tables[1..][m] == tables[m + 1];
      BoundIsMet(tables[1..], picks[0], picks[1..], i, n - 1);
    }
  }

  // ---------- runs in which everybody only yields ----------

  /** cur is running, and nobody else. */
  ghost predicate OneRunning(t: Table, cur: nat) { cur < NENV && forall j :: 0 <= j < NENV ==> (t[j] == Running <==> j == cur) }

  /** A context switch keeps it so. */
  lemma StaysOneRunning(t: Table, cur: nat, i: nat)
    requires OneRunning(t, cur) && IsPick(t, Some(cur), Some(i))
    ensures i < NENV && i != cur && OneRunning(Switched(t, Some(cur), i), i)
    ensures forall j :: 0 <= j < NENV && j != i ==>
      Switched(t, Some(cur), i)[j] == if j == cur then Runnable else t[j]
  {
    assert Ready(t, i);
  }

  /** Every table is the one the last pick left. */
  ghost predicate YieldRun(t: Table, cur: nat, picks: seq<nat>)
    decreases |picks|
  {
    && cur < NENV
    && (picks == [] || (IsPick(t, Some(cur), Some(picks[0])) && YieldRun(Switched(t, Some(cur), picks[0]), picks[0], picks[1..])))
  }

  lemma {:induction false} ReadyRuns(t: Table, cur: nat, picks: seq<nat>, i: nat)
    requires OneRunning(t, cur) && YieldRun(t, cur, picks) && 1 <= i < NENV && t[i] == Runnable && |picks| >= Dist(cur, i)
    ensures i in picks
    decreases |picks|
  {
    var c := picks[0];
    assert Ready(t, i) && Ready(t, c);
    StaysOneRunning(t, cur, c);
    if c != i {
      assert Dist(c, i) < Dist(cur, i);
      ReadyRuns(Switched(t, Some(cur), c), c, picks[1..], i);
    }
  }

  /** Nobody is lost: while everybody only yields, each environment of the cycle, the running one included, is run again
      within NENV - 1 picks. */
  lemma EveryoneRunsAgain(t: Table, cur: nat, picks: seq<nat>, i: nat)
    requires OneRunning(t, cur) && YieldRun(t, cur, picks) && |picks| == NENV - 1
    requires 1 <= i < NENV && (t[i] == Runnable || i == cur)
    ensures i in picks
  {
    if i != cur {
      ReadyRuns(t, cur, picks, i);
    } else {
      var c := picks[0];
      var u := Switched(t, Some(cur), c);
      StaysOneRunning(t, cur, c);
      if c == 0 {
        OnlyReady(t, cur, u, picks[1..]);
      } else {
        ReadyRuns(u, c, picks[1..], i);
      }
    }
  }

  /** If slot 0 was the pick, the environment it replaced is the only ready one of the cycle, and the next pick. */
  lemma OnlyReady(t: Table, cur: nat, u: Table, picks: seq<nat>)
    requires OneRunning(t, cur) && 1 <= cur && IsPick(t, Some(cur), Some(0)) && u == Switched(t, Some(cur), 0)
    requires YieldRun(u, 0, picks) && picks != []
    ensures picks[0] == cur
  {
    StaysOneRunning(t, cur, 0);
    assert Ready(u, cur) && Ready(u, picks[0]);
    assert picks[0] != 0;
    assert picks[0] != cur ==> Ready(t, picks[0]);
  }

  /** From a null curenv the search always starts at slot 1: while slot 1 is ready at such picks, nobody else is ever
      chosen, however long they stay ready. */
  lemma NullCurenvStarves(t: Table, r: Option<nat>)
    requires Ready(t, 1) && IsPick(t, None, r)
    ensures r == Some(1)
  {
  }

  /** A lone environment that yields is not chosen again: it is Running, not Runnable, and the CPU goes to slot 0 or to
      the monitor. */
  lemma LoneYield(t: Table, cur: nat, r: Option<nat>)
    requires cur < NENV && t[cur] == Running && IsPick(t, Some(cur), r)
    requires forall j :: 1 <= j < NENV && j != cur ==> !Ready(t, j)
    ensures r == if t[0] == Runnable then Some(0) else None
  {
    assert forall j :: 1 <= j < NENV ==> !Ready(t, j);
    assert Ready(t, 0) <==> t[0] == Runnable;
  }
}
