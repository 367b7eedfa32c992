/** The guest's bounded table of reaped children. */
module ReaperModel {
  import opened Common

  const CAP := 4096

  /** Exit statuses by pid, and the pids in the order they were queued. */
  datatype Table = Table(status: map<int, int>, order: seq<int>)

  /** A child was reaped, or someone tried to take a status. */
  datatype Event = Reaped(pid: int, raw: int) | Take(pid: int)

  ghost predicate NoDuplicates(s: seq<int>) {
    forall i, j | 0 <= i < j < |s| :: s[i] != s[j]
  }

  ghost predicate Valid(t: Table) {
    NoDuplicates(t.order) && (forall p :: p in t.order <==> p in t.status) && |t.order| <= CAP
  }

  function Without(s: seq<int>, p: int): (r: seq<int>)
    ensures forall x :: x in r <==> x in s && x != p
    ensures p !in s ==> r == s
  {
    if s == [] then []
    else
      var init, last := s[..|s| - 1], s[|s| - 1];
      assert s == init + [last];
      Without(init, p) + if last == p then [] else [last]
  }

  /** A pid already in the table keeps its place; a new one goes last, and pushes the
      oldest out when the table is full. */
  function Record(t: Table, p: int, raw: int): Table {
    if p in t.status then t.(status := t.status[p := raw])
    else if |t.order| < CAP then Table(t.status[p := raw], t.order + [p])
    else Table(t.status[p := raw] - {t.order[0]}, t.order[1..] + [p])
  }

  function Step(t: Table, e: Event): Table {
    match e
    case Reaped(p, raw) => Record(t, p, raw)
    case Take(p) => if p in t.status then Table(t.status - {p}, Without(t.order, p)) else t
  }

  function After(h: seq<Event>): Table {
    if h == [] then Table(map[], []) else Step(After(h[..|h| - 1]), h[|h| - 1])
  }

  lemma {:induction false} WithoutOrdered(s: seq<int>, p: int, rank: map<int, nat>)
    requires Ascending(s, rank)
    ensures Ascending(Without(s, p), rank) && |Without(s, p)| <= |s|
  {
    if s != [] {
      var init, last := s[..|s| - 1], s[|s| - 1];
      WithoutOrdered(init, p, rank);
      forall x | x in Without(init, p) ensures rank[x] < rank[last] {
        assert x in init;
      }
    }
  }

  /** Queued in the order of their ranks. */
  ghost predicate Ascending(s: seq<int>, rank: map<int, nat>) {
    && (forall i | 0 <= i < |s| :: s[i] in rank)
    && (forall i, j | 0 <= i < j < |s| :: rank[s[i]] < rank[s[j]])
  }

  /** The event that queued each pid of the table. */
  ghost function Queued(h: seq<Event>): map<int, nat> {
    if h == [] then map[]
    else
      var init, e := h[..|h| - 1], h[|h| - 1];
      if e.Reaped? && e.pid !in After(init).status then Queued(init)[e.pid := |h| - 1] else Queued(init)
  }

  /** Reaped at event `j` and claimed by nobody since. */
  ghost predicate Unclaimed(h: seq<Event>, p: int, j: nat) {
    j < |h| && h[j].Reaped? && h[j].pid == p && forall i :: j < i < |h| ==> h[i] != Take(p)
  }

  function LastStatus(h: seq<Event>, p: int): (raw: Option<int>) {
    if h == [] then None
    else
      var e := h[|h| - 1];
      if e.Reaped? && e.pid == p then Some(e.raw) else LastStatus(h[..|h| - 1], p)
  }

  ghost predicate Inv(h: seq<Event>) {
    var t, rank := After(h), Queued(h);
    && |t.order| <= CAP && (forall p :: p in t.order <==> p in t.status)
    && Ascending(t.order, rank)
    && (forall p :: p in rank ==> rank[p] < |h|)
    && (forall p :: p in t.status ==> Unclaimed(h, p, rank[p]) && LastStatus(h, p) == Some(t.status[p]))
  }

  lemma AppendAscending(s: seq<int>, rank: map<int, nat>, p: int, n: nat)
    requires Ascending(s, rank) && p !in s && forall x :: x in rank ==> rank[x] < n
    ensures Ascending(s + [p], rank[p := n])
  {
    assert forall i :: 0 <= i < |s| ==> s[i] != p;
  }

  lemma TailAscending(s: seq<int>, rank: map<int, nat>)
    requires Ascending(s, rank) && s != []
    ensures Ascending(s[1..], rank) && s[0] !in s[1..]
  {
    assert forall i :: 1 <= i < |s| ==> s[0] != s[i];
  }

  lemma QueueKept(init: seq<Event>, e: Event)
    requires Inv(init)
    ensures var t, rank := After(init + [e]), Queued(init + [e]);
            |t.order| <= CAP && (forall p :: p in t.order <==> p in t.status) && Ascending(t.order, rank)
  {
    var h := init + [e];
    assert h[..|h| - 1] == init;
    var t, rank := After(init), Queued(init);
    match e
    case Take(p) => WithoutOrdered(t.order, p, rank);
    case Reaped(p, raw) =>
      if p !in t.status {
        AppendAscending(t.order, rank, p, |init|);
        if |t.order| == CAP {
          TailAscending(t.order + [p], rank[p := |init|]);
          assert (t.order + [p])[1..] == t.order[1..] + [p];
          assert forall x :: x in t.order <==> x == t.order[0] || x in t.order[1..];
        }
      }
  }

  lemma ClaimsKept(init: seq<Event>, e: Event, p: int)
    requires Inv(init) && p in After(init + [e]).status && p in Queued(init + [e])
    ensures Unclaimed(init + [e], p, Queued(init + [e])[p]) && LastStatus(init + [e], p) == Some(After(init + [e]).status[p])
  {
    var h := init + [e];
    assert h[..|h| - 1] == init;
    if p in After(init).status {
      var j := Queued(init)[p];
      assert Unclaimed(init, p, j);
      assert e != Take(p);
      assert h[j] == init[j];
    }
  }

  lemma {:induction false} InvHolds(h: seq<Event>)
    ensures Inv(h)
  {
    if h != [] {
      var init, e := h[..|h| - 1], h[|h| - 1];
      assert h == init + [e];
      InvHolds(init);
      QueueKept(init, e);
      forall p | p in After(h).status ensures Unclaimed(h, p, Queued(h)[p]) && LastStatus(h, p) == Some(After(h).status[p]) {
        assert p in After(h).order;
        ClaimsKept(init, e, p);
      }
    }
  }

  /** MAIN: after every history the queue is duplicate-free, lists exactly the table's
      pids, holds at most 4096, and what the table says of a pid is the latest status
      reaped for it, claimed by nobody since. */
  lemma TableIsFaithful(h: seq<Event>, p: int)
    ensures Valid(After(h)) && |After(h).order| <= 4096
    ensures p in After(h).status ==> LastStatus(h, p) == Some(After(h).status[p])
    ensures p in After(h).status ==> exists j :: Unclaimed(h, p, j)
  {
    InvHolds(h);
    if p in After(h).status { assert Unclaimed(h, p, Queued(h)[p]); }
  }

  /** MAIN: a pid is lost unclaimed only when the table then holds 4096 others, all
      queued after it and all unclaimed. */
  lemma LostOnlyWhenCrowded(h: seq<Event>, e: Event, p: int)
    requires p in After(h).status && p !in After(h + [e]).status && e != Take(p)
    ensures |After(h + [e]).order| == CAP && Valid(After(h + [e]))
    ensures p in Queued(h)
    ensures forall q :: q in After(h + [e]).order ==>
              q in Queued(h + [e]) && Queued(h)[p] < Queued(h + [e])[q] && Unclaimed(h + [e], q, Queued(h + [e])[q])
  {
    var t := After(h);
    InvHolds(h);
    InvHolds(h + [e]);
    TableIsFaithful(h + [e], p);
    assert (h + [e])[..|h|] == h;
    assert p in t.order && e.Reaped? && p == t.order[0];
    forall q | q in After(h + [e]).order ensures Queued(h)[p] < Queued(h + [e])[q] {
      if q != e.pid {
        assert q in t.order[1..];
        var i :| 1 <= i < |t.order| && t.order[i] == q;
      }
    }
  }

  // ----- how long a status is safe -----

  function ReapedSince(h: seq<Event>, j: nat): nat {
    if |h| <= j then 0 else ReapedSince(h[..|h| - 1], j) + if h[|h| - 1].Reaped? then 1 else 0
  }

  /** How many pids are queued behind one. */
  function BehindIn(s: seq<int>, p: int): nat {
    if s == [] || s[|s| - 1] == p then 0 else 1 + BehindIn(s[..|s| - 1], p)
  }

  lemma {:induction false} BehindDrop(s: seq<int>, p: int)
    requires s != [] && s[0] != p && p in s
    ensures BehindIn(s[1..], p) == BehindIn(s, p) && p in s[1..]
  {
    if s[|s| - 1] != p {
      var init := s[..|s| - 1];
      assert s == init + [s[|s| - 1]] && p in init;
      BehindDrop(init, p);
      assert s[1..][..|s| - 2] == init[1..];
      assert p in init[1..] && s[1..] == init[1..] + [s[|s| - 1]];
    }
  }

  lemma {:induction false} BehindWithout(s: seq<int>, p: int, q: int)
    requires p != q && p in s
    ensures BehindIn(Without(s, q), p) <= BehindIn(s, p)
  {
    var init, last := s[..|s| - 1], s[|s| - 1];
    assert s == init + [last];
    if last == p {
      assert Without(s, q)[|Without(s, q)| - 1] == p;
    } else {
      BehindWithout(init, p, q);
      if last != q {
        assert Without(s, q)[..|Without(s, q)| - 1] == Without(init, q);
      } else {
        assert Without(s, q) == Without(init, q);
      }
    }
  }

  lemma {:induction false} BehindFirst(s: seq<int>)
    requires s != [] && NoDuplicates(s)
    ensures BehindIn(s, s[0]) == |s| - 1
  {
    if |s| > 1 { BehindFirst(s[..|s| - 1]); }
  }

  /** One event moves at most one pid behind another, which stays unless it is first. */
  lemma BehindStep(t: Table, e: Event, p: int)
    requires Valid(t) && p in t.order && e != Take(p) && (e.Reaped? ==> BehindIn(t.order, p) + 1 < CAP)
    ensures p in Step(t, e).order && BehindIn(Step(t, e).order, p) <= BehindIn(t.order, p) + if e.Reaped? then 1 else 0
  {
    if e.Take? {
      BehindWithout(t.order, p, e.pid);
    } else if e.pid !in t.status {
      var longer := t.order + [e.pid];
      assert longer[..|t.order|] == t.order;
      if |t.order| == CAP {
        BehindFirst(t.order);
        BehindDrop(longer, p);
        assert longer[1..] == t.order[1..] + [e.pid];
      }
    }
  }

  lemma {:induction false} SafeFor(h: seq<Event>, p: int, j: nat)
    requires Unclaimed(h, p, j) && p !in After(h[..j]).status && ReapedSince(h, j + 1) < CAP
    ensures p in After(h).order && BehindIn(After(h).order, p) <= ReapedSince(h, j + 1)
  {
    var init, e := h[..|h| - 1], h[|h| - 1];
    if j == |h| - 1 {
      assert h[..j] == init;
    } else {
      assert init[..j] == h[..j] && init[j] == h[j];
      SafeFor(init, p, j);
      TableIsFaithful(init, p);
      BehindStep(After(init), e, p);
    }
  }

  /** MAIN: a status newly queued stays until it is taken as long as fewer than 4096
      children are reaped after it. */
  lemma SafeUntilCrowded(h: seq<Event>, p: int, j: nat)
    requires Unclaimed(h, p, j) && p !in After(h[..j]).status && ReapedSince(h, j + 1) < CAP
    ensures p in After(h).status && LastStatus(h, p) == Some(After(h).status[p])
  {
    SafeFor(h, p, j);
    TableIsFaithful(h, p);
  }

  /** A pid reaped again while queued keeps its old place: at the head of a full table
      its new status is gone with the next new pid. */
  lemma RefreshedKeepsPlace(h: seq<Event>, raw: int, q: int, raw': int)
    requires |After(h).order| == CAP && q !in After(h).status
    ensures var p := After(h).order[0]; p !in After(h + [Reaped(p, raw), Reaped(q, raw')]).status
  {
    InvHolds(h);
    var p := After(h).order[0];
    var a, b := h + [Reaped(p, raw)], h + [Reaped(p, raw), Reaped(q, raw')];
    assert a[..|h|] == h && b[..|h| + 1] == a;
    assert p in After(h).order;
    InvHolds(a);
    InvHolds(b);
    assert After(a).order == After(h).order;
    TailAscending(After(h).order, Queued(h));
    assert After(b).order == After(h).order[1..] + [q];
  }
}

module Reaper {
  import opened Common
  import opened ReaperModel

  /** The mutex-guarded table; each method is one critical section. */
  class ReapedTable {
    var status: map<int, int>
    var order: seq<int>

    ghost function View(): Table reads this { Table(status, order) }

    constructor ()
      ensures Valid(View()) && View() == After([])
    {
      status, order := map[], [];
    }

    /** The reaper's turn: insert, queue if new, evict what is too many, oldest first. */
    method Insert(pid: int, raw: int)
      requires Valid(View())
      modifies this
      ensures View() == Step(old(View()), Reaped(pid, raw)) && Valid(View())
      ensures pid in status && status[pid] == raw
      ensures forall p :: p != pid && p in status ==> p in old(status) && status[p] == old(status)[p]
      ensures forall p :: p in old(status) && p !in status ==> old(order)[0] == p && |old(order)| == 4096
    {
      ghost var t := View();
      var isNew := pid !in status;
      status := status[pid := raw];
      if isNew { order := order + [pid]; }
      assert |order| <= CAP + 1;
      while |order| > CAP
        invariant |order| > CAP ==> isNew && order == t.order + [pid] && status == t.status[pid := raw] && |t.order| == CAP
        invariant |order| <= CAP ==> View() == Step(t, Reaped(pid, raw))
        decreases |order|
      {
        var oldest := order[0];
        order := order[1..];
        status := status - {oldest};
        assert (t.order + [pid])[1..] == t.order[1..] + [pid];
      }
      RecordValid(t, pid, raw);
    }

    /** One look under the lock in `wait_reaped`; None means wait and look again. */
    method TryTake(pid: int) returns (raw: Option<int>)
      requires Valid(View())
      modifies this
      ensures View() == Step(old(View()), Take(pid)) && Valid(View())
      ensures raw == if pid in old(status) then Some(old(status)[pid]) else None
    {
      if pid !in status {
        return None;
      }
      ghost var t := View();
      raw := Some(status[pid]);
      status := status - {pid};
      var kept := [];
      for i := 0 to |order|
        invariant kept == Without(order[..i], pid) && order == t.order && status == t.status - {pid}
      {
        assert order[..i + 1][..i] == order[..i];
        if order[i] != pid { kept := kept + [order[i]]; }
      }
      assert order[..|order|] == order;
      order := kept;
      TakeValid(t, pid);
    }
  }

  lemma RecordValid(t: Table, p: int, raw: int)
    requires Valid(t)
    ensures Valid(Record(t, p, raw))
  {
    if p !in t.status && |t.order| == CAP {
      assert forall x :: x in t.order <==> x == t.order[0] || x in t.order[1..];
    }
  }

  lemma {:induction false} WithoutDistinct(s: seq<int>, p: int)
    requires NoDuplicates(s)
    ensures NoDuplicates(Without(s, p)) && |Without(s, p)| <= |s|
  {
    if s != [] {
      var init, last := s[..|s| - 1], s[|s| - 1];
      WithoutDistinct(init, p);
      assert last !in init;
    }
  }

  lemma TakeValid(t: Table, p: int)
    requires Valid(t)
    ensures Valid(Step(t, Take(p)))
  {
    WithoutDistinct(t.order, p);
  }
}
