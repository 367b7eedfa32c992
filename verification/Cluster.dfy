/** Node heartbeats and the reclaiming of sandboxes whose node is gone. */
module Cluster {
  import opened Common
  import opened Keys
  import opened LeaseStore
  import SqliteStore

  function LiveNodes(s: Store): (ns: set<string>) {
    set k | k in s.kvs && k.NodeAlive? :: k.node
  }

  function OwnerOf(s: Store, id: string): string
    requires Sandbox(id, Owner) in s.kvs
  {
    var v := s.kvs[Sandbox(id, Owner)].value;
    if v.Text? then v.text else ""
  }

  /** A sandbox with an owner key whose owner is outside `live` and is not protected. */
  predicate Orphan(s: Store, live: set<string>, protect: Option<string>, id: string) {
    && Sandbox(id, Owner) in s.kvs
    && OwnerOf(s, id) !in live
    && protect != Some(OwnerOf(s, id))
  }

  function Orphans(s: Store, live: set<string>, protect: Option<string>): (ids: set<string>) {
    set k | k in s.kvs && k.Sandbox? && k.field == Owner && Orphan(s, live, protect, k.id) :: k.id
  }

  function OwnerLeases(s: Store, ids: set<string>): (ls: set<LeaseId>) {
    set id | id in ids && Sandbox(id, Owner) in s.kvs && s.kvs[Sandbox(id, Owner)].lease.Some?
      :: s.kvs[Sandbox(id, Owner)].lease.value
  }

  /** Owner keys without a lease are deleted one by one. */
  function Leaseless(s: Store, ids: set<string>): (ks: set<Key>) {
    set id | id in ids && Sandbox(id, Owner) in s.kvs && s.kvs[Sandbox(id, Owner)].lease.None? :: Sandbox(id, Owner)
  }

  function Gone(s: Store, ids: set<string>): (ks: set<Key>) {
    KeysOn(s, OwnerLeases(s, ids)) + Leaseless(s, ids)
  }

  /** `t` is `s` with the given sandboxes reclaimed. */
  ghost predicate IsReclaimed(s: Store, ids: set<string>, t: Store) {
    t.kvs == s.kvs - Gone(s, ids) && t.leases == s.leases - OwnerLeases(s, ids)
  }

  lemma RevokeOne(s: Store, done: set<string>, id: string, t: Store)
    requires IsReclaimed(s, done, t) && Sandbox(id, Owner) in s.kvs && s.kvs[Sandbox(id, Owner)].lease.Some?
    ensures IsReclaimed(s, done + {id}, Revoke(t, s.kvs[Sandbox(id, Owner)].lease.value))
  {
    var l := s.kvs[Sandbox(id, Owner)].lease.value;
    var ls, gone := OwnerLeases(s, done), Gone(s, done);
    assert OwnerLeases(s, done + {id}) == ls + {l};
    assert Leaseless(s, done + {id}) == Leaseless(s, done);
    assert KeysOn(s, ls + {l}) + Leaseless(s, done) == gone + KeysOn(t, {l});
    assert s.kvs - gone - KeysOn(t, {l}) == s.kvs - (gone + KeysOn(t, {l}));
    assert s.leases - ls - {l} == s.leases - (ls + {l});
  }

  lemma DeleteOne(s: Store, done: set<string>, id: string, t: Store)
    requires IsReclaimed(s, done, t) && Sandbox(id, Owner) in s.kvs && s.kvs[Sandbox(id, Owner)].lease.None?
    ensures IsReclaimed(s, done + {id}, Delete(t, Sandbox(id, Owner)))
  {
    var k, gone := Sandbox(id, Owner), Gone(s, done);
    assert OwnerLeases(s, done + {id}) == OwnerLeases(s, done);
    assert Leaseless(s, done + {id}) == Leaseless(s, done) + {k};
    assert Gone(s, done + {id}) == gone + {k};
    assert s.kvs - gone - {k} == s.kvs - (gone + {k});
  }

  /** One row of the scan: an orphan goes with its lease, or alone if it has none. */
  method ReclaimRow(store: SqliteStore.Sqlite, k: Key, kv: KeyValue, live: set<string>, protect: Option<string>,
                    fails: bool, ghost s: Store, ghost done: set<string>)
    returns (ok: bool, gone: Option<string>)
    requires store.Valid() && IsReclaimed(s, done, store.View()) && k in s.kvs && kv == s.kvs[k]
    modifies store
    ensures store.Valid()
    ensures !ok ==> fails && gone == None
    ensures ok ==> gone == if k.Sandbox? && k.field == Owner && Orphan(s, live, protect, k.id) then Some(k.id) else None
    ensures IsReclaimed(s, if gone.Some? then done + {gone.value} else done, store.View())
  {
    var sid := Scan(k, Owner);
    if sid == None {
      return true, None;
    }
    var owner := if kv.value.Text? then kv.value.text else "";
    if owner in live || protect == Some(owner) {
      return true, None;
    }
    if fails {
      return false, None;
    }
    match kv.lease {
      case Some(lease) =>
        RevokeOne(s, done, sid.value, store.View());
        var _ := store.LeaseRevoke(lease);
      case None =>
        DeleteOne(s, done, sid.value, store.View());
        var _ := store.Delete(k);
    }
    return true, sid;
  }

  function Elements(s: seq<string>): (es: set<string>) {
    set x | x in s
  }

  /** The scan.  `failing` are the owner keys on which the store errs; the first one ends it,
      with what was done so far done. */
  method ReclaimRows(store: SqliteStore.Sqlite, rows: seq<Key>, snapshot: map<Key, KeyValue>, live: set<string>, protect: Option<string>, failing: set<Key>)
    returns (ok: bool, reclaimed: seq<string>)
    requires store.Valid() && snapshot == store.kvs
    requires forall i :: 0 <= i < |rows| ==> rows[i] in snapshot
    requires forall i, j :: 0 <= i < j < |rows| ==> rows[i] != rows[j]
    modifies store
    ensures store.Valid() && IsReclaimed(old(store.View()), Elements(reclaimed), store.View())
    ensures forall id :: id in reclaimed ==> Sandbox(id, Owner) in rows && Orphan(old(store.View()), live, protect, id)
    ensures ok ==> forall id :: Sandbox(id, Owner) in rows && Orphan(old(store.View()), live, protect, id) ==> id in reclaimed
    ensures !ok ==> exists k :: k in failing && k in rows
    ensures forall i, j :: 0 <= i < j < |reclaimed| ==> reclaimed[i] != reclaimed[j]
  {
    ghost var s := store.View();
    ok, reclaimed := true, [];
    NothingReclaimed(s);
    for i := 0 to |rows|
      invariant store.Valid() && IsReclaimed(s, Elements(reclaimed), store.View())
      invariant forall id :: id in reclaimed <==> Sandbox(id, Owner) in rows[..i] && Orphan(s, live, protect, id)
      invariant forall a, b :: 0 <= a < b < |reclaimed| ==> reclaimed[a] != reclaimed[b]
    {
      assert rows[..i + 1] == rows[..i] + [rows[i]];
      var gone;
      ok, gone := ReclaimRow(store, rows[i], snapshot[rows[i]], live, protect, rows[i] in failing, s, Elements(reclaimed));
      if !ok {
        return;
      }
      if gone.Some? {
        assert rows[i] !in rows[..i];
        assert Elements(reclaimed + [gone.value]) == Elements(reclaimed) + {gone.value};
        reclaimed := reclaimed + [gone.value];
      }
    }
    assert rows[..|rows|] == rows;
    ok := true;
  }

  lemma NothingReclaimed(s: Store)
    ensures IsReclaimed(s, Elements([]), s)
  {
    assert Elements([]) == {} && Gone(s, {}) == {} && OwnerLeases(s, {}) == {};
  }

  /** `reclaim_orphans`, against the node set it read first: all orphans, each once, unless a
      store error ends it early. */
  method ReclaimOrphans(store: SqliteStore.Sqlite, live: set<string>, protect: Option<string>, failing: set<Key>)
    returns (ok: bool, reclaimed: seq<string>)
    requires store.Valid()
    modifies store
    ensures store.Valid() && IsReclaimed(old(store.View()), Elements(reclaimed), store.View())
    ensures Elements(reclaimed) <= Orphans(old(store.View()), live, protect)
    ensures ok ==> Elements(reclaimed) == Orphans(old(store.View()), live, protect)
    ensures forall id, owner | Sandbox(id, Owner) in old(store.kvs) && old(store.kvs)[Sandbox(id, Owner)].value == Text(owner) ::
              if owner in live || protect == Some(owner) then id !in reclaimed else ok ==> id in reclaimed
    ensures forall id :: id in reclaimed ==> Sandbox(id, Owner) in old(store.kvs)
    ensures !ok ==> exists k :: k in failing && k in old(store.kvs)
    ensures forall i, j :: 0 <= i < j < |reclaimed| ==> reclaimed[i] != reclaimed[j]
  {
    ghost var s := store.View();
    var rows := store.List("sandbox/");
    ok, reclaimed := ReclaimRows(store, rows, store.kvs, live, protect, failing);
    OwnersListed(s, rows);
  }

  lemma OwnersListed(s: Store, rows: seq<Key>)
    requires forall k :: k in rows <==> k in s.kvs && "sandbox/" <= Render(k)
    ensures forall id :: Sandbox(id, Owner) in s.kvs ==> Sandbox(id, Owner) in rows
  {
    forall id | Sandbox(id, Owner) in s.kvs ensures Sandbox(id, Owner) in rows {
      assert Render(Sandbox(id, Owner))[..8] == "sandbox/";
    }
  }

  // ----- what a reclaim amounts to -----

  /** `live_nodes`: whoever has a heartbeat key. */
  method ListLive(store: SqliteStore.Sqlite) returns (nodes: set<string>)
    ensures nodes == LiveNodes(store.View())
    ensures forall n :: n in nodes <==> NodeAlive(n) in store.kvs
  {
    var rows := store.List("node/");
    nodes := {};
    for i := 0 to |rows|
      invariant forall n :: n in nodes <==> NodeAlive(n) in rows[..i]
    {
      assert rows[..i + 1] == rows[..i] + [rows[i]];
      if rows[i].NodeAlive? { nodes := nodes + {rows[i].node}; }
    }
    assert rows[..|rows|] == rows;
    forall n ensures n in nodes <==> NodeAlive(n) in store.kvs {
      assert "node/" <= Render(NodeAlive(n));
    }
  }

  /** Registration puts all keys of a sandbox on one live lease of its own. */
  ghost predicate OwnLeases(s: Store) {
    && (forall id, f :: Sandbox(id, f) in s.kvs ==>
          && Sandbox(id, Owner) in s.kvs
          && s.kvs[Sandbox(id, f)].lease == s.kvs[Sandbox(id, Owner)].lease
          && s.kvs[Sandbox(id, f)].lease.Some?
          && s.kvs[Sandbox(id, f)].lease.value in s.leases)
    && (forall id, k :: Sandbox(id, Owner) in s.kvs && k in s.kvs && k.Sandbox? && s.kvs[k].lease == s.kvs[Sandbox(id, Owner)].lease ==>
          k.id == id)
    && (forall id, k :: Sandbox(id, Owner) in s.kvs && k in s.kvs && s.kvs[k].lease == s.kvs[Sandbox(id, Owner)].lease ==> k.Sandbox?)
  }

  /** MAIN: with one lease per sandbox, a reclaim removes every key of exactly the
      orphaned sandboxes and changes no other key. */
  lemma ReclaimIsExact(s: Store, live: set<string>, protect: Option<string>, t: Store, k: Key)
    requires OwnLeases(s) && IsReclaimed(s, Orphans(s, live, protect), t) && k in s.kvs
    ensures k in t.kvs <==> !(k.Sandbox? && Orphan(s, live, protect, k.id))
    ensures forall owner :: k.Sandbox? && Sandbox(k.id, Owner) in s.kvs && s.kvs[Sandbox(k.id, Owner)].value == Text(owner) ==>
              (k in t.kvs <==> owner in live || protect == Some(owner))
    ensures k in t.kvs ==> t.kvs[k] == s.kvs[k]
  {
    var ids := Orphans(s, live, protect);
    if k.Sandbox? && Orphan(s, live, protect, k.id) {
      assert Sandbox(k.id, Owner) in s.kvs && k.id in ids;
      assert Sandbox(k.id, k.field) == k;
      assert s.kvs[Sandbox(k.id, Owner)].lease.value in OwnerLeases(s, ids);
      assert k in KeysOn(s, OwnerLeases(s, ids));
    }
  }

  /** MAIN: on any store, a second call right away with the same node set finds nothing
      exactly when no orphan's owner key hangs on a dead lease. */
  lemma SecondCallIff(s: Store, live: set<string>, protect: Option<string>, t: Store)
    requires IsReclaimed(s, Orphans(s, live, protect), t)
    ensures Orphans(t, live, protect) == {} <==>
            forall id :: id in Orphans(s, live, protect) ==>
              var lease := s.kvs[Sandbox(id, Owner)].lease; lease.Some? ==> lease.value in s.leases
  {
    var ids := Orphans(s, live, protect);
    forall id ensures id in Orphans(t, live, protect) <==>
                      id in ids && s.kvs[Sandbox(id, Owner)].lease.Some? && s.kvs[Sandbox(id, Owner)].lease.value !in s.leases
    {
      var k := Sandbox(id, Owner);
      if k in s.kvs && id in ids {
        if s.kvs[k].lease.Some? {
          assert s.kvs[k].lease.value in OwnerLeases(s, ids);
          assert k !in Leaseless(s, ids);
          assert k in KeysOn(s, OwnerLeases(s, ids)) <==> s.kvs[k].lease.value in s.leases;
        } else {
          assert k in Leaseless(s, ids);
        }
      }
      assert id in ids <==> k in s.kvs && Orphan(s, live, protect, id);
      assert id in Orphans(t, live, protect) <==> k in t.kvs && Orphan(t, live, protect, id);
    }
  }

  /** The guard: no node ever reclaims its own sandboxes, heartbeat or not. */
  lemma ProtectedStay(s: Store, live: set<string>, self: string, t: Store, id: string, f: Field)
    requires OwnLeases(s) && IsReclaimed(s, Orphans(s, live, Some(self)), t)
    requires Sandbox(id, f) in s.kvs && Sandbox(id, Owner) in s.kvs && OwnerOf(s, id) == self
    ensures Sandbox(id, f) in t.kvs && t.kvs[Sandbox(id, f)] == s.kvs[Sandbox(id, f)]
  {
    ReclaimIsExact(s, live, Some(self), t, Sandbox(id, f));
  }
}
