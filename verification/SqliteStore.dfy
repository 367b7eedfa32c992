/** The event log behind `changes_since`, on values. */
module ChangeLog {
  import opened Common
  import opened Keys
  import opened LeaseStore

  datatype Event =
    | PutEvent(key: Key, value: Value, rev: Revision)
    | DeleteEvent(key: Key, rev: Revision)

  type Contents = map<Key, Value>

  function Apply(m: Contents, e: Event): Contents {
    match e
    case PutEvent(k, v, _) => m[k := v]
    case DeleteEvent(k, _) => m - {k}
  }

  function Replay(m: Contents, es: seq<Event>): Contents {
    if es == [] then m else Apply(Replay(m, es[..|es| - 1]), es[|es| - 1])
  }

  /** Events carry strictly ascending revisions in `(floor, top]`. */
  predicate Ordered(es: seq<Event>, floor: Revision, top: Revision) {
    if es == [] then floor <= top
    else 0 < es[|es| - 1].rev <= top && Ordered(es[..|es| - 1], floor, es[|es| - 1].rev - 1)
  }

  lemma {:induction false} OrderedMeans(es: seq<Event>, floor: Revision, top: Revision)
    requires Ordered(es, floor, top)
    ensures floor <= top && forall i :: 0 <= i < |es| ==> floor < es[i].rev <= top
    ensures forall i, j :: 0 <= i < j < |es| ==> es[i].rev < es[j].rev
  {
    if es != [] { OrderedMeans(es[..|es| - 1], floor, es[|es| - 1].rev - 1); }
  }

  lemma {:induction false} OrderedSuffix(es: seq<Event>, floor: Revision, top: Revision, n: nat, lower: Revision)
    requires Ordered(es, floor, top) && n <= |es| && floor <= lower <= top && (n < |es| ==> lower < es[n].rev)
    ensures Ordered(es[n..], lower, top)
  {
    if n < |es| {
      var e, init := es[|es| - 1], es[..|es| - 1];
      OrderedMeans(es, floor, top);
      OrderedSuffix(init, floor, e.rev - 1, n, lower);
      assert es[n..][..|es| - n - 1] == init[n..];
    }
  }

  /** Rows with revision above `since` whose key is of interest. */
  function Since(es: seq<Event>, since: Revision, wanted: Key -> bool): (r: seq<Event>) {
    if es == [] then []
    else
      var e := es[|es| - 1];
      Since(es[..|es| - 1], since, wanted) + (if since < e.rev && wanted(e.key) then [e] else [])
  }

  function UpTo(es: seq<Event>, r: Revision): (p: seq<Event>) {
    if es == [] then []
    else
      var e := es[|es| - 1];
      UpTo(es[..|es| - 1], r) + (if e.rev <= r then [e] else [])
  }

  function Within(m: Contents, wanted: Key -> bool): Contents {
    map k | k in m && wanted(k) :: m[k]
  }

  lemma ApplyWithin(m: Contents, e: Event, wanted: Key -> bool)
    ensures Within(Apply(m, e), wanted) ==
            if wanted(e.key) then Apply(Within(m, wanted), e) else Within(m, wanted)
  {
  }

  lemma ReplayLast(m: Contents, es: seq<Event>, e: Event)
    ensures Replay(m, es + [e]) == Apply(Replay(m, es), e)
  {
    assert (es + [e])[..|es|] == es;
  }

  lemma {:induction false} SinceOrdered(es: seq<Event>, floor: Revision, top: Revision, since: Revision, wanted: Key -> bool)
    requires Ordered(es, floor, top)
    ensures Ordered(Since(es, since, wanted), floor, top)
  {
    if es != [] {
      var init, last := es[..|es| - 1], es[|es| - 1];
      var r := Since(init, since, wanted);
      SinceOrdered(init, floor, last.rev - 1, since, wanted);
      if since < last.rev && wanted(last.key) {
        assert (r + [last])[..|r|] == r;
      } else {
        assert Since(es, since, wanted) == r;
      }
    }
  }

  /** Exactly the later events of interest. */
  lemma {:induction false} SinceMembers(es: seq<Event>, since: Revision, wanted: Key -> bool, e: Event)
    ensures e in Since(es, since, wanted) <==> e in es && since < e.rev && wanted(e.key)
  {
    if es != [] {
      var init, last := es[..|es| - 1], es[|es| - 1];
      SinceMembers(init, since, wanted, e);
      assert es == init + [last];
    }
  }

  /** A client that holds the keys of interest as they stood at revision `r` and
      replays `changes_since(r)` ends with exactly the current ones: nothing
      missed, nothing applied twice, deletions included. */
  lemma {:induction false} CatchUp(base: Contents, es: seq<Event>, floor: Revision, top: Revision, r: Revision, wanted: Key -> bool)
    requires Ordered(es, floor, top)
    ensures Replay(Within(Replay(base, UpTo(es, r)), wanted), Since(es, r, wanted)) == Within(Replay(base, es), wanted)
  {
    if es != [] {
      var init, e := es[..|es| - 1], es[|es| - 1];
      OrderedMeans(es, floor, top);
      CatchUp(base, init, floor, e.rev - 1, r, wanted);
      ApplyWithin(Replay(base, init), e, wanted);
      if e.rev <= r {
        EarlierThan(init, r, wanted);
        UpToAll(init, r);
        ReplayLast(base, init, e);
      } else if wanted(e.key) {
        ReplayLast(Within(Replay(base, UpTo(init, r)), wanted), Since(init, r, wanted), e);
        assert UpTo(es, r) == UpTo(init, r);
      } else {
        assert UpTo(es, r) == UpTo(init, r) && Since(es, r, wanted) == Since(init, r, wanted);
      }
    }
  }

  /** The contents at a revision, as far as the log reaches back. */
  function TableAt(base: Contents, es: seq<Event>, r: Revision): Contents {
    Replay(base, UpTo(es, r))
  }

  ghost predicate Extends(es: seq<Event>, later: seq<Event>, top: Revision) {
    es <= later && forall i :: |es| <= i < |later| ==> top < later[i].rev
  }

  lemma {:induction false} UpToExtended(es: seq<Event>, later: seq<Event>, top: Revision, r: Revision)
    requires Extends(es, later, top) && r <= top
    ensures UpTo(later, r) == UpTo(es, r)
  {
    if |later| == |es| {
      assert later == es;
    } else {
      UpToExtended(es, later[..|later| - 1], top, r);
    }
  }

  /** However much is written later, the log still tells the table of an earlier moment. */
  lemma EarlierTable(base: Contents, floor: Revision, es: seq<Event>, top: Revision, now: Contents, later: seq<Event>)
    requires LogOk(base, floor, es, top, now) && Extends(es, later, top)
    ensures TableAt(base, later, top) == now
  {
    UpToExtended(es, later, top, top);
    OrderedMeans(es, floor, top);
    UpToAll(es, top);
  }

  lemma {:induction false} UpToSplit(es: seq<Event>, n: nat, r: Revision)
    requires n <= |es| && forall i :: 0 <= i < n ==> es[i].rev <= r
    ensures UpTo(es, r) == es[..n] + UpTo(es[n..], r)
  {
    if n == |es| {
      UpToAll(es, r);
      assert es[..n] == es;
    } else {
      var init := es[..|es| - 1];
      UpToSplit(init, n, r);
      assert init[..n] == es[..n] && es[n..][..|es| - n - 1] == init[n..];
    }
  }

  /** Dropping events up to `below` changes no table from `below` on. */
  lemma CompactedTable(base: Contents, es: seq<Event>, n: nat, below: Revision, r: Revision)
    requires n <= |es| && below <= r && forall i :: 0 <= i < n ==> es[i].rev <= below
    ensures TableAt(Replay(base, es[..n]), es[n..], r) == TableAt(base, es, r)
  {
    UpToSplit(es, n, r);
    ReplayConcat(base, es[..n], UpTo(es[n..], r));
  }

  /** MAIN: a client that copied the keys of interest when the store stood at revision
      `top`, and later replays the changes since `top`, has exactly the keys of interest of
      the later store — also when the log was compacted in between, up to `top` at most. */
  lemma CopyCatchesUp(base: Contents, floor: Revision, es: seq<Event>, top: Revision, now: Contents,
                      later: seq<Event>, top': Revision, now': Contents, n: nat, below: Revision, wanted: Key -> bool)
    requires LogOk(base, floor, es, top, now) && Extends(es, later, top) && LogOk(base, floor, later, top', now')
    requires n <= |later| && below <= top && forall i :: 0 <= i < n ==> later[i].rev <= below
    ensures Replay(Within(now, wanted), Since(later[n..], top, wanted)) == Within(now', wanted)
  {
    EarlierTable(base, floor, es, top, now, later);
    CatchUp(base, later, floor, top', top, wanted);
    SinceDropsOld(later, n, top, wanted);
  }

  lemma OneEvent(e: Event, since: Revision, wanted: Key -> bool)
    ensures Since([e], since, wanted) == (if since < e.rev && wanted(e.key) then [e] else [])
    ensures UpTo([e], since) == (if e.rev <= since then [e] else [])
    ensures forall m: Contents :: Replay(m, [e]) == Apply(m, e)
  {
    assert [e][..0] == [];
    forall m: Contents ensures Replay(m, [e]) == Apply(m, e) { assert Replay(m, []) == m; }
  }

  /** A compaction above the copy's revision does not serve it: for every such pair of
      revisions, and any keys of interest, there is a log on which the copy stays behind. */
  lemma CompactedCopyStaysBehind(since: Revision, below: Revision, k: Key, j: Key, v: Value, w: Value, wanted: Key -> bool, es: seq<Event>)
    requires since < below && k != j && wanted(k) && wanted(j)
    requires es == [PutEvent(k, v, since + 1), PutEvent(j, w, below + 1)]
    ensures LogOk(map[], 0, es, below + 1, map[k := v, j := w]) && TableAt(map[], es, since) == map[]
    ensures es[0].rev <= below && Replay(map[], Since(es[1..], since, wanted)) == map[j := w]
    ensures k in Within(map[k := v, j := w], wanted) && k !in Replay(map[], Since(es[1..], since, wanted))
  {
    var e, f := es[0], es[1];
    assert es[..1] == [e] && es[1..] == [f] && es == [e] + [f];
    OneEvent(e, since, wanted);
    OneEvent(f, since, wanted);
    ReplayLast(map[], [e], f);
    assert [e][..0] == [];
    assert Ordered([], 0, since) && Ordered([e], 0, below);
  }

  lemma {:induction false} EarlierThan(es: seq<Event>, r: Revision, wanted: Key -> bool)
    requires forall i :: 0 <= i < |es| ==> es[i].rev <= r
    ensures Since(es, r, wanted) == []
  {
    if es != [] { EarlierThan(es[..|es| - 1], r, wanted); }
  }

  lemma {:induction false} SinceDropsOld(es: seq<Event>, n: nat, since: Revision, wanted: Key -> bool)
    requires n <= |es| && forall i :: 0 <= i < n ==> es[i].rev <= since
    ensures Since(es, since, wanted) == Since(es[n..], since, wanted)
  {
    if n == |es| {
      EarlierThan(es, since, wanted);
    } else {
      var init := es[..|es| - 1];
      SinceDropsOld(init, n, since, wanted);
      assert init[n..] == es[n..][..|es| - n - 1];
    }
  }

  lemma {:induction false} UpToAll(es: seq<Event>, r: Revision)
    requires forall i :: 0 <= i < |es| ==> es[i].rev <= r
    ensures UpTo(es, r) == es
  {
    if es != [] { UpToAll(es[..|es| - 1], r); assert es == es[..|es| - 1] + [es[|es| - 1]]; }
  }

  function ContentsOf(kvs: map<Key, KeyValue>): Contents {
    map k | k in kvs :: kvs[k].value
  }

  /** The log ends at revision `top` and replays to `now`. */
  ghost predicate LogOk(base: Contents, floor: Revision, es: seq<Event>, top: Revision, now: Contents) {
    Ordered(es, floor, top) && Replay(base, es) == now
  }

  lemma LogAppend(base: Contents, floor: Revision, es: seq<Event>, top: Revision, now: Contents, e: Event)
    requires LogOk(base, floor, es, top, now) && e.rev == top + 1
    ensures LogOk(base, floor, es + [e], top + 1, Apply(now, e))
  {
    ReplayLast(base, es, e);
    assert (es + [e])[..|es|] == es;
  }

  lemma ContentsPut(kvs: map<Key, KeyValue>, k: Key, kv: KeyValue)
    ensures ContentsOf(kvs[k := kv]) == ContentsOf(kvs)[k := kv.value]
  {
  }

  lemma ContentsDrop(kvs: map<Key, KeyValue>, k: Key)
    ensures ContentsOf(kvs - {k}) == ContentsOf(kvs) - {k}
  {
  }

  lemma {:induction false} ReplayConcat(m: Contents, a: seq<Event>, b: seq<Event>)
    ensures Replay(m, a + b) == Replay(Replay(m, a), b)
  {
    if b == [] {
      assert a + b == a;
    } else {
      var c := b[..|b| - 1];
      assert (a + b)[..|a + b| - 1] == a + c;
      ReplayConcat(m, a, c);
    }
  }
}

/** The store as SQLite tables, changed row by row.  Each method is proved against
    the step function of `LeaseStore`, and the log always replays to the table. */
module SqliteStore {
  import opened Common
  import opened Strings
  import opened Keys
  import opened LeaseStore
  import opened ChangeLog

  class Sqlite {
    var kvs: map<Key, KeyValue>
    var leases: map<LeaseId, Lease>
    var rev: Revision
    var events: seq<Event>
    /** Where the retained log starts, and the contents at that point. */
    ghost var floor: Revision
    ghost var baseline: Contents

    ghost function View(): Store reads this { Store(kvs, leases, rev) }

    ghost function Now(): Contents reads this { ContentsOf(kvs) }

    ghost predicate Valid() reads this {
      && LeaseStore.Valid(View())
      && LogOk(baseline, floor, events, rev, Now())
    }

    ghost function TableAt(r: Revision): Contents reads this { ChangeLog.TableAt(baseline, events, r) }

    /** The log only grows, by events younger than what was there. */
    twostate predicate LogExtends() reads this {
      && old(events) <= events && floor == old(floor) && baseline == old(baseline)
      && forall i :: |old(events)| <= i < |events| ==> old(rev) < events[i].rev
    }

    /** One row is new or overwritten: it keeps the revision it was created at. */
    twostate predicate Written(k: Key, v: Value, lease: Option<LeaseId>) reads this {
      && rev == old(rev) + 1 && leases == old(leases)
      && kvs == old(kvs)[k := KeyValue(v, if k in old(kvs) then old(kvs)[k].createRev else rev, rev, lease)]
    }

    constructor ()
      ensures Valid() && View() == Empty() && events == [] && floor == 0
    {
      kvs, leases, rev, events := map[], map[], 0, [];
      floor, baseline := 0, map[];
    }

    method Get(k: Key) returns (kv: Option<KeyValue>)
      ensures kv == if k in kvs then Some(kvs[k]) else None
    {
      kv := if k in kvs then Some(kvs[k]) else None;
    }

    /** `list`: a snapshot of the rows below a prefix, each once, in key order. */
    method List(prefix: string) returns (rows: seq<Key>)
      ensures forall k :: k in rows <==> k in kvs && prefix <= Render(k)
      ensures InOrder(rows)
      ensures forall i, j :: 0 <= i < j < |rows| ==> rows[i] != rows[j]
    {
      rows := [];
      var todo := kvs.Keys;
      while todo != {}
        invariant todo <= kvs.Keys
        invariant forall k :: k in rows <==> k in kvs && k !in todo && prefix <= Render(k)
        invariant InOrder(rows)
        decreases todo
      {
        var k :| k in todo;
        todo := todo - {k};
        if prefix <= Render(k) { rows := InsertKey(rows, k); }
      }
      InOrderDistinct(rows);
    }

    /** `bump_rev`, the row change, and `append_event`. */
    method Commit(rows: map<Key, KeyValue>, e: Event)
      requires Valid() && e.rev == rev + 1 && LeaseStore.Valid(Store(rows, leases, rev + 1))
      requires LogOk(baseline, floor, events + [e], rev + 1, ContentsOf(rows))
      modifies this
      ensures Valid() && LogExtends()
      ensures kvs == rows && rev == old(rev) + 1 && leases == old(leases)
    {
      ghost var longer := events + [e];
      assert events <= longer && forall i :: |events| <= i < |longer| ==> longer[i] == e;
      rev, kvs, events := rev + 1, rows, events + [e];
      assert View() == Store(rows, leases, rev) && Now() == ContentsOf(rows) && events == longer;
    }

    method Upsert(k: Key, v: Value, lease: Option<LeaseId>)
      requires Valid()
      modifies this
      ensures Valid() && LogExtends()
      ensures View() == Write(old(View()), k, v, lease)
    {
      var kv := KeyValue(v, if k in kvs then kvs[k].createRev else rev + 1, rev + 1, lease);
      ContentsPut(kvs, k, kv);
      LogAppend(baseline, floor, events, rev, Now(), PutEvent(k, v, rev + 1));
      WriteKeepsValid(View(), k, v, lease);
      Commit(kvs[k := kv], PutEvent(k, v, rev + 1));
    }

    method Put(k: Key, v: Value, lease: Option<LeaseId>) returns (r: Result<Revision>)
      requires Valid()
      modifies this
      ensures Valid() && LogExtends()
      ensures View() == LeaseStore.Put(old(View()), k, v, lease)
      ensures r.Ok? <==> (lease.Some? ==> lease.value in old(leases))
      ensures r.Ok? ==> Written(k, v, lease) && r.value == rev
      ensures r.Err? ==> View() == old(View())
    {
      if lease.Some? && lease.value !in leases {
        return Err("no such lease");
      }
      Upsert(k, v, lease);
      return Ok(rev);
    }

    method DeleteRow(k: Key)
      requires Valid() && k in kvs
      modifies this
      ensures Valid() && LogExtends()
      ensures View() == old(View()).(kvs := old(kvs) - {k}, rev := old(rev) + 1)
    {
      DropKeepsValid(View(), {k}, 1);
      ContentsDrop(kvs, k);
      LogAppend(baseline, floor, events, rev, Now(), DeleteEvent(k, rev + 1));
      Commit(kvs - {k}, DeleteEvent(k, rev + 1));
    }

    method Delete(k: Key) returns (removed: bool)
      requires Valid()
      modifies this
      ensures Valid() && LogExtends()
      ensures View() == LeaseStore.Delete(old(View()), k) && (removed <==> k in old(kvs))
      ensures kvs == old(kvs) - {k} && leases == old(leases) && rev == old(rev) + if removed then 1 else 0
    {
      removed := k in kvs;
      if removed { DeleteRow(k); }
    }

    method CompareAndSwap(k: Key, expected: Option<Revision>, v: Value, lease: Option<LeaseId>)
      returns (succeeded: bool, revision: Revision, current: Option<KeyValue>)
      requires Valid()
      modifies this
      ensures Valid() && LogExtends() && revision == rev
      ensures View() == Cas(old(View()), k, expected, v, lease)
      ensures succeeded <==> expected == if k in old(kvs) then Some(old(kvs)[k].modRev) else None
      ensures if succeeded then Written(k, v, lease) else View() == old(View())
      ensures !succeeded ==> current == if k in kvs then Some(kvs[k]) else None
    {
      current := Get(k);
      var curMod := if current.Some? then Some(current.value.modRev) else None;
      if curMod != expected {
        return false, rev, current;
      }
      Upsert(k, v, lease);
      return true, rev, None;
    }

    method LeaseGrant(ttl: int, now: int) returns (id: LeaseId)
      requires Valid()
      modifies this
      ensures Valid() && LogExtends()
      ensures IsNextId(old(View()), id) && id !in old(leases)
      ensures View() == Grant(old(View()), id, ttl, now)
      ensures leases == old(leases)[id := Lease(ttl, now + ttl)] && kvs == old(kvs) && rev == old(rev)
    {
      id := LeaseId(1);
      if leases != map[] {
        var todo := leases.Keys;
        var top :| top in todo;
        while todo != {}
          invariant todo <= leases.Keys && top in leases
          invariant forall l :: l in leases && l !in todo ==> l.n <= top.n
          decreases todo
        {
          var l :| l in todo;
          if top.n < l.n { top := l; }
          todo := todo - {l};
        }
        id := LeaseId(top.n + 1);
      }
      leases := leases[id := Lease(ttl, now + ttl)];
    }

    method LeaseKeepalive(id: LeaseId, now: int) returns (r: Result<int>)
      requires Valid()
      modifies this
      ensures Valid() && LogExtends()
      ensures View() == Keepalive(old(View()), id, now)
      ensures r.Ok? <==> id in old(leases)
      ensures r.Ok? ==> r.value == now + old(leases)[id].ttl
      ensures leases == (if r.Ok? then old(leases)[id := Lease(old(leases)[id].ttl, r.value)] else old(leases))
      ensures kvs == old(kvs) && rev == old(rev)
    {
      if id !in leases {
        return Err("no such lease");
      }
      leases := leases[id := Lease(leases[id].ttl, now + leases[id].ttl)];
      return Ok(leases[id].expires);
    }

    /** The inner loop of `reap_leases`: one row, one revision, one event at a time. */
    method DeleteRows(keys: set<Key>) returns (out: seq<Key>)
      requires Valid() && keys <= kvs.Keys
      modifies this
      ensures Valid() && LogExtends()
      ensures View() == old(View()).(kvs := old(kvs) - keys, rev := old(rev) + |keys|)
      ensures |out| == |keys| && forall k :: k in out <==> k in keys
    {
      out := [];
      var todo := keys;
      while todo != {}
        invariant todo <= keys && keys <= old(kvs).Keys
        invariant Valid() && LogExtends()
        invariant leases == old(leases) && kvs == old(kvs) - (keys - todo)
        invariant rev == old(rev) + |out| && |out| + |todo| == |keys|
        invariant forall k :: k in out <==> k in keys - todo
        decreases todo
      {
        var k :| k in todo;
        DeleteRow(k);
        out := out + [k];
        todo := todo - {k};
        assert kvs == old(kvs) - (keys - todo);
      }
      assert keys - todo == keys;
    }

    method ReapOne(id: LeaseId) returns (out: seq<Key>)
      requires Valid() && id in leases
      modifies this
      ensures Valid() && LogExtends()
      ensures View() == Reap(old(View()), {id})
      ensures |out| == |KeysOn(old(View()), {id})| && forall k :: k in out <==> k in KeysOn(old(View()), {id})
    {
      var keys := set k | k in kvs && kvs[k].lease == Some(id);
      assert keys == KeysOn(View(), {id});
      out := DeleteRows(keys);
      leases := leases - {id};
    }

    /** `reap_leases`: lease after lease, yet in sum the atomic `Reap`. */
    method ReapLeases(ids: set<LeaseId>) returns (out: seq<Key>)
      requires Valid() && ids <= leases.Keys
      modifies this
      ensures Valid() && LogExtends()
      ensures View() == Reap(old(View()), ids)
      ensures |out| == |KeysOn(old(View()), ids)| && forall k :: k in out <==> k in KeysOn(old(View()), ids)
    {
      out := [];
      var todo := ids;
      ghost var was := View();
      while todo != {}
        invariant todo <= ids && ids <= was.leases.Keys
        invariant Valid() && LogExtends()
        invariant View() == Reap(was, ids - todo)
        invariant |out| == |KeysOn(was, ids - todo)|
        invariant forall k :: k in out <==> k in KeysOn(was, ids - todo)
        decreases todo
      {
        var id :| id in todo;
        ReapOneMore(was, ids - todo, id);
        var more := ReapOne(id);
        out := out + more;
        assert ids - (todo - {id}) == (ids - todo) + {id};
        todo := todo - {id};
      }
      assert ids - todo == ids;
    }

    method LeaseRevoke(id: LeaseId) returns (out: seq<Key>)
      requires Valid()
      modifies this
      ensures Valid() && LogExtends()
      ensures View() == Revoke(old(View()), id)
      ensures leases == old(leases) - {id}
      ensures forall k :: k in out <==> k in old(kvs) && id in old(leases) && old(kvs)[k].lease == Some(id)
      ensures forall k :: k in kvs <==> k in old(kvs) && k !in out
      ensures forall k :: k in kvs ==> kvs[k] == old(kvs)[k]
    {
      var ids := if id in leases then {id} else {};
      assert KeysOn(View(), ids) == KeysOn(View(), {id});
      assert leases - ids == leases - {id};
      out := ReapLeases(ids);
    }

    method LeaseSweep(now: int) returns (out: seq<Key>)
      requires Valid()
      modifies this
      ensures Valid() && LogExtends()
      ensures View() == Sweep(old(View()), now)
      ensures forall l :: l in leases <==> l in old(leases) && now < old(leases)[l].expires
      ensures forall l :: l in leases ==> leases[l] == old(leases)[l]
      ensures forall k :: k in out <==> k in old(kvs) && old(kvs)[k].lease.Some? && old(kvs)[k].lease.value in old(leases)
                                        && old(leases)[old(kvs)[k].lease.value].expires <= now
      ensures forall k :: k in kvs <==> k in old(kvs) && k !in out
      ensures forall k :: k in kvs ==> kvs[k] == old(kvs)[k]
    {
      var ids := set id | id in leases && leases[id].expires <= now;
      assert ids == Due(View(), now);
      out := ReapLeases(ids);
    }

    /** `changes_since`: the rows of the log, in revision order.  They bring the table of
        revision `since` up to date, provided the log still reaches back that far. */
    method ChangesSince(since: Revision, prefix: string) returns (out: seq<Event>)
      requires Valid()
      ensures var below := (k: Key) => prefix <= Render(k);
              && out == Since(events, since, below)
              && (floor <= since ==> Replay(Within(TableAt(since), below), out) == Within(Now(), below))
      ensures forall e :: e in out <==> e in events && since < e.rev && prefix <= Render(e.key)
      ensures forall i, j :: 0 <= i < j < |out| ==> out[i].rev < out[j].rev
    {
      ghost var below := (k: Key) => prefix <= Render(k);
      out := [];
      for i := 0 to |events|
        invariant out == Since(events[..i], since, below)
      {
        var e := events[i];
        assert events[..i + 1][..i] == events[..i];
        if since < e.rev && prefix <= Render(e.key) {
          out := out + [e];
        }
      }
      assert events[..|events|] == events;
      CatchUp(baseline, events, floor, rev, since, below);
      SinceOrdered(events, floor, rev, since, below);
      OrderedMeans(out, floor, rev);
      forall e ensures e in out <==> e in events && since < e.rev && prefix <= Render(e.key) {
        SinceMembers(events, since, below, e);
      }
    }

    /** `compact`: forget the log up to `below`, and say how many rows went.  The tables from
        `below` on can still be told. */
    method Compact(below: Revision) returns (removed: nat)
      requires Valid()
      modifies this`events, this`floor, this`baseline
      ensures Valid() && View() == old(View())
      ensures floor == Common.Max(old(floor), Common.Min(below, rev))
      ensures removed <= |old(events)| && events == old(events)[removed..]
      ensures forall i :: 0 <= i < |old(events)| ==> (old(events)[i].rev <= below <==> i < removed)
      ensures forall r :: below <= r ==> TableAt(r) == old(TableAt(r))
    {
      removed := 0;
      while removed < |events| && events[removed].rev <= below
        invariant 0 <= removed <= |events|
        invariant forall i :: 0 <= i < removed ==> events[i].rev <= below
      {
        removed := removed + 1;
      }
      OrderedMeans(events, floor, rev);
      LogDrop(baseline, floor, events, rev, Now(), removed, below);
      forall r | below <= r ensures ChangeLog.TableAt(Replay(baseline, events[..removed]), events[removed..], r) == TableAt(r) {
        CompactedTable(baseline, events, removed, below, r);
      }
      baseline := Replay(baseline, events[..removed]);
      floor := Common.Max(floor, Common.Min(below, rev));
      events := events[removed..];
    }
  }

  /** Writes, deletions and reaping leave every earlier table as it was, and the latest one
      the log tells is the table. */
  twostate lemma HistoryKept(db: Sqlite)
    requires old(db.Valid()) && db.Valid() && db.LogExtends()
    ensures forall r: Revision :: r <= old(db.rev) ==> db.TableAt(r) == old(db.TableAt(r))
    ensures db.TableAt(db.rev) == db.Now()
  {
    EarlierTable(db.baseline, db.floor, db.events, db.rev, db.Now(), db.events);
    forall r: Revision | r <= old(db.rev) ensures db.TableAt(r) == old(db.TableAt(r)) {
      UpToExtended(old(db.events), db.events, old(db.rev), r);
    }
  }

  function Names(rows: seq<Key>): (ns: seq<string>)
    ensures |ns| == |rows| && forall i :: 0 <= i < |rows| ==> ns[i] == Render(rows[i])
  {
    seq(|rows|, i requires 0 <= i < |rows| => Render(rows[i]))
  }

  ghost predicate Ascending(ns: seq<string>) {
    forall i, j | 0 <= i < j < |ns| :: Before(ns[i], ns[j])
  }

  ghost predicate InOrder(rows: seq<Key>) {
    Ascending(Names(rows))
  }

  lemma InOrderDistinct(rows: seq<Key>)
    requires InOrder(rows)
    ensures forall i, j :: 0 <= i < j < |rows| ==> rows[i] != rows[j]
  {
    var ns := Names(rows);
    forall i, j | 0 <= i < j < |rows| ensures rows[i] != rows[j] {
      assert Before(ns[i], ns[j]);
      BeforeIrreflexive(ns[i]);
    }
  }

  lemma Spliced(ns: seq<string>, p: nat, x: string)
    requires Ascending(ns) && p <= |ns| && (forall i :: 0 <= i < p ==> Before(ns[i], x)) && (p < |ns| ==> Before(x, ns[p]))
    ensures Ascending(ns[..p] + [x] + ns[p..])
  {
    forall j | p < j < |ns| ensures Before(x, ns[j]) { BeforeTransitive(x, ns[p], ns[j]); }
  }

  /** Where a name belongs among ascending ones. */
  method Position(ns: seq<string>, name: string) returns (p: nat)
    ensures p <= |ns| && (forall i :: 0 <= i < p ==> Before(ns[i], name)) && (p < |ns| ==> !Before(ns[p], name))
  {
    p := 0;
    while p < |ns| && Before(ns[p], name)
      invariant p <= |ns| && forall i :: 0 <= i < p ==> Before(ns[i], name)
    {
      p := p + 1;
    }
  }

  lemma NamesSpliced(rows: seq<Key>, p: nat, k: Key)
    requires p <= |rows|
    ensures Names(rows[..p] + [k] + rows[p..]) == Names(rows)[..p] + [Render(k)] + Names(rows)[p..]
  {
  }

  lemma Members(rows: seq<Key>, p: nat, k: Key)
    requires p <= |rows|
    ensures forall x :: x in rows[..p] + [k] + rows[p..] <==> x in rows || x == k
  {
    assert rows == rows[..p] + rows[p..];
  }

  method InsertKey(rows: seq<Key>, k: Key) returns (r: seq<Key>)
    requires InOrder(rows) && k !in rows
    ensures InOrder(r) && forall x :: x in r <==> x in rows || x == k
  {
    var p := Position(Names(rows), Render(k));
    r := rows[..p] + [k] + rows[p..];
    NotThere(rows, k, p);
    Spliced(Names(rows), p, Render(k));
    NamesSpliced(rows, p, k);
    Members(rows, p, k);
  }

  lemma NotThere(rows: seq<Key>, k: Key, p: nat)
    requires k !in rows && p <= |rows| && (p < |rows| ==> !Before(Render(rows[p]), Render(k)))
    ensures p < |rows| ==> Before(Render(k), Render(rows[p]))
  {
    if p < |rows| {
      BeforeTotal(Render(rows[p]), Render(k));
      if Render(rows[p]) == Render(k) { RenderIsInjective(rows[p], k); }
    }
  }

  lemma LogDrop(base: Contents, floor: Revision, es: seq<Event>, top: Revision, now: Contents, n: nat, below: Revision)
    requires LogOk(base, floor, es, top, now) && n <= |es|
    requires forall i :: 0 <= i < n ==> es[i].rev <= below
    requires n < |es| ==> below < es[n].rev
    ensures LogOk(Replay(base, es[..n]), Common.Max(floor, Common.Min(below, top)), es[n..], top, now)
  {
    assert Replay(Replay(base, es[..n]), es[n..]) == now by {
      assert es == es[..n] + es[n..];
      ReplayConcat(base, es[..n], es[n..]);
    }
    assert Ordered(es[n..], Common.Max(floor, Common.Min(below, top)), top) by {
      OrderedMeans(es, floor, top);
      OrderedSuffix(es, floor, top, n, Common.Max(floor, Common.Min(below, top)));
    }
  }
}
