/** Totals over tables, as the accounting loops compute them in any order. */
module Sums {

  /** Sum of a table's entries. */
  ghost function Sum(m: map<string, nat>): (total: nat)
    decreases |m.Keys|
  {
    if m == map[] then 0
    else
      var k :| k in m;
      assert (m - {k}).Keys == m.Keys - {k};
      m[k] + Sum(m - {k})
  }

  /** The order of summation does not matter. */
  lemma {:induction false} SumPick(m: map<string, nat>, k: string)
    requires k in m
    ensures Sum(m) == m[k] + Sum(m - {k})
    decreases |m.Keys|
  {
    var j :| j in m && Sum(m) == m[j] + Sum(m - {j});
    if j != k {
      assert (m - {j}).Keys == m.Keys - {j} && (m - {k}).Keys == m.Keys - {k};
      SumPick(m - {j}, k);
      SumPick(m - {k}, j);
      assert m - {j} - {k} == m - {k} - {j};
    }
  }

  lemma SumAdd(m: map<string, nat>, k: string, v: nat)
    requires k !in m
    ensures Sum(m[k := v]) == Sum(m) + v
  {
    SumPick(m[k := v], k);
    assert m[k := v] - {k} == m;
  }

  /** A table with fewer entries, or the same, has no larger sum. */
  lemma {:induction false} SumBelow(m: map<string, nat>, n: map<string, nat>)
    requires forall k :: k in m ==> k in n && m[k] == n[k]
    ensures Sum(m) <= Sum(n)
    decreases |m.Keys|
  {
    if m != map[] {
      var k :| k in m;
      SumPick(m, k);
      SumPick(n, k);
      assert (m - {k}).Keys == m.Keys - {k};
      SumBelow(m - {k}, n - {k});
    }
  }

  lemma CountBelow(a: set<string>, b: set<string>)
    requires a <= b
    ensures |a| <= |b|
  {
    assert a + (b - a) == b;
  }
}

/** Sandboxes filed under a label — the node that runs them, the project that owns
    them — with what each takes up. */
module Books {
  import opened Sums

  datatype Entry = Entry(under: string, vcpus: nat, memMib: nat)

  type Book = map<string, Entry>

  ghost function Ids(b: Book, n: string): set<string> { set id | id in b && b[id].under == n }

  ghost function VcpuColumn(b: Book, n: string): map<string, nat> { map id | id in b && b[id].under == n :: b[id].vcpus }

  ghost function MemColumn(b: Book, n: string): map<string, nat> { map id | id in b && b[id].under == n :: b[id].memMib }

  ghost function VcpusOn(b: Book, n: string): nat { Sum(VcpuColumn(b, n)) }

  ghost function MemOn(b: Book, n: string): nat { Sum(MemColumn(b, n)) }

  lemma ColumnsAdd(b: Book, id: string, e: Entry, n: string)
    requires id !in b
    ensures VcpuColumn(b[id := e], n) == (if n == e.under then VcpuColumn(b, n)[id := e.vcpus] else VcpuColumn(b, n))
    ensures MemColumn(b[id := e], n) == (if n == e.under then MemColumn(b, n)[id := e.memMib] else MemColumn(b, n))
    ensures Ids(b[id := e], n) == (if n == e.under then Ids(b, n) + {id} else Ids(b, n))
  {
  }

  function If(c: bool, x: nat): nat { if c then x else 0 }

  lemma BookAdd(b: Book, id: string, e: Entry, n: string)
    requires id !in b
    ensures VcpusOn(b[id := e], n) == VcpusOn(b, n) + If(n == e.under, e.vcpus)
    ensures MemOn(b[id := e], n) == MemOn(b, n) + If(n == e.under, e.memMib)
    ensures |Ids(b[id := e], n)| == |Ids(b, n)| + If(n == e.under, 1)
  {
    ColumnsAdd(b, id, e, n);
    SumAdd(VcpuColumn(b, n), id, e.vcpus);
    SumAdd(MemColumn(b, n), id, e.memMib);
  }

  /** `b` is part of `c`. */
  ghost predicate Sub(b: Book, c: Book) {
    forall x :: x in b ==> x in c && b[x] == c[x]
  }

  lemma BookBelow(b: Book, c: Book, n: string)
    requires Sub(b, c)
    ensures VcpusOn(b, n) <= VcpusOn(c, n) && MemOn(b, n) <= MemOn(c, n) && |Ids(b, n)| <= |Ids(c, n)|
  {
    CountBelow(Ids(b, n), Ids(c, n));
    SumBelow(VcpuColumn(b, n), VcpuColumn(c, n));
    SumBelow(MemColumn(b, n), MemColumn(c, n));
  }
}
