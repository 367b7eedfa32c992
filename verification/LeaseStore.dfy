/** The revisioned key-value store with leases that every protocol of the control
    plane runs on, as values and step functions. */
module LeaseStore {
  import opened Common
  import opened Keys

  datatype LeaseId = LeaseId(n: int)
  type Revision = nat

  /** What a value says once parsed: text, a sandbox's or a node's size, an
      amount, a project's limits. */
  datatype Value =
    | Text(text: string)
    | Spec(vcpus: nat, memMib: nat)
    | Amount(mib: nat)
    | Limits(maxSandboxes: nat, maxVcpus: nat, maxMemMib: nat, maxStorageMib: nat)

  datatype KeyValue = KeyValue(value: Value, createRev: Revision, modRev: Revision, lease: Option<LeaseId>)

  datatype Lease = Lease(ttl: int, expires: int)

  datatype Store = Store(kvs: map<Key, KeyValue>, leases: map<LeaseId, Lease>, rev: Revision)

  function Empty(): Store {
    Store(map[], map[], 0)
  }

  predicate OnLease(s: Store, k: Key, id: LeaseId) {
    k in s.kvs && s.kvs[k].lease == Some(id)
  }

  /** Keys attached to one of the given leases, as far as those leases are alive. */
  function KeysOn(s: Store, ids: set<LeaseId>): (ks: set<Key>) {
    set k | k in s.kvs && s.kvs[k].lease.Some? && s.kvs[k].lease.value in ids && s.kvs[k].lease.value in s.leases
  }

  // ----- writes -----

  function Write(s: Store, k: Key, v: Value, lease: Option<LeaseId>): (s': Store) {
    var created := if k in s.kvs then s.kvs[k].createRev else s.rev + 1;
    s.(kvs := s.kvs[k := KeyValue(v, created, s.rev + 1, lease)], rev := s.rev + 1)
  }

  predicate PutAllowed(s: Store, lease: Option<LeaseId>) {
    lease.Some? ==> lease.value in s.leases
  }

  /** A put onto a lease that does not exist is refused and changes nothing. */
  function Put(s: Store, k: Key, v: Value, lease: Option<LeaseId>): (s': Store) {
    if PutAllowed(s, lease) then Write(s, k, v, lease) else s
  }

  function Delete(s: Store, k: Key): (s': Store) {
    if k in s.kvs then s.(kvs := s.kvs - {k}, rev := s.rev + 1) else s
  }

  function ModRev(s: Store, k: Key): Option<Revision> {
    if k in s.kvs then Some(s.kvs[k].modRev) else None
  }

  predicate CasSucceeds(s: Store, k: Key, expected: Option<Revision>) {
    ModRev(s, k) == expected
  }

  /** Compare-and-swap does not look at the lease it attaches. */
  function Cas(s: Store, k: Key, expected: Option<Revision>, v: Value, lease: Option<LeaseId>): (s': Store) {
    if CasSucceeds(s, k, expected) then Write(s, k, v, lease) else s
  }

  // ----- leases -----

  function Grant(s: Store, id: LeaseId, ttl: int, now: int): (s': Store)
    requires id !in s.leases
  {
    s.(leases := s.leases[id := Lease(ttl, now + ttl)])
  }

  /** The id SQLite picks: one above the largest lease id still in the table. */
  ghost predicate IsNextId(s: Store, id: LeaseId) {
    && (s.leases == map[] ==> id.n == 1)
    && (s.leases != map[] ==> LeaseId(id.n - 1) in s.leases)
    && (forall l :: l in s.leases ==> l.n < id.n)
  }

  function Keepalive(s: Store, id: LeaseId, now: int): (s': Store) {
    if id in s.leases then s.(leases := s.leases[id := Lease(s.leases[id].ttl, now + s.leases[id].ttl)]) else s
  }

  /** Leases go with every key attached to them, in one step. */
  function Reap(s: Store, ids: set<LeaseId>): (s': Store) {
    var gone := KeysOn(s, ids);
    Store(s.kvs - gone, s.leases - ids, s.rev + |gone|)
  }

  function Revoke(s: Store, id: LeaseId): (s': Store) {
    Reap(s, {id})
  }

  function Due(s: Store, now: int): (ids: set<LeaseId>) {
    set id | id in s.leases && s.leases[id].expires <= now
  }

  function Sweep(s: Store, now: int): (s': Store) {
    Reap(s, Due(s, now))
  }

  // ----- what every operation keeps -----

  /** Revisions never run ahead of the counter, and a key is created before it is modified. */
  ghost predicate Valid(s: Store) {
    forall k :: k in s.kvs ==> 0 < s.kvs[k].createRev <= s.kvs[k].modRev <= s.rev
  }

  datatype Op =
    | OpPut(key: Key, value: Value, lease: Option<LeaseId>)
    | OpDelete(key: Key)
    | OpCas(key: Key, expected: Option<Revision>, value: Value, lease: Option<LeaseId>)
    | OpGrant(id: LeaseId, ttl: int, now: int)
    | OpKeepalive(id: LeaseId, now: int)
    | OpReap(ids: set<LeaseId>)

  predicate Enabled(s: Store, op: Op) {
    op.OpGrant? ==> op.id !in s.leases
  }

  function Do(s: Store, op: Op): (s': Store)
    requires Enabled(s, op)
  {
    match op
    case OpPut(k, v, l) => Put(s, k, v, l)
    case OpDelete(k) => Delete(s, k)
    case OpCas(k, e, v, l) => Cas(s, k, e, v, l)
    case OpGrant(id, ttl, now) => Grant(s, id, ttl, now)
    case OpKeepalive(id, now) => Keepalive(s, id, now)
    case OpReap(ids) => Reap(s, ids)
  }

  ghost predicate OpsOk(s: Store, ops: seq<Op>)
    decreases |ops|
  {
    ops != [] ==> Enabled(s, ops[0]) && OpsOk(Do(s, ops[0]), ops[1..])
  }

  ghost function AfterOps(s: Store, ops: seq<Op>): (s': Store)
    requires OpsOk(s, ops)
    decreases |ops|
  {
    if ops == [] then s else AfterOps(Do(s, ops[0]), ops[1..])
  }

  /** A key may change only at a later revision than the one a reader saw. */
  ghost predicate Unseen(s: Store, s': Store) {
    && s.rev <= s'.rev
    && forall k :: k in s'.kvs ==>
         || (k in s.kvs && s.kvs[k] == s'.kvs[k])
         || s.rev < s'.kvs[k].modRev
  }

  /** Reaping lease after lease is reaping them together. */
  lemma ReapOneMore(s: Store, done: set<LeaseId>, id: LeaseId)
    ensures KeysOn(s, done) !! KeysOn(Reap(s, done), {id})
    ensures KeysOn(s, done + {id}) == KeysOn(s, done) + KeysOn(Reap(s, done), {id})
    ensures Revoke(Reap(s, done), id) == Reap(s, done + {id})
  {
    assert s.leases - done - {id} == s.leases - (done + {id});
    var gone := KeysOn(s, done);
    var more := KeysOn(Reap(s, done), {id});
    assert KeysOn(s, done + {id}) == gone + more;
    assert s.kvs - gone - more == s.kvs - (gone + more);
  }

  lemma WriteKeepsValid(s: Store, k: Key, v: Value, lease: Option<LeaseId>)
    requires Valid(s)
    ensures Valid(Write(s, k, v, lease))
  {
  }

  lemma DropKeepsValid(s: Store, ks: set<Key>, n: nat)
    requires Valid(s)
    ensures Valid(s.(kvs := s.kvs - ks, rev := s.rev + n))
  {
  }

  lemma StepAdvances(s: Store, op: Op)
    requires Valid(s) && Enabled(s, op)
    ensures Valid(Do(s, op)) && Unseen(s, Do(s, op))
  {
  }

  /** Optimistic concurrency: over any run, a key whose mod revision is what a
      reader saw is untouched, value, lease and all.  So a CAS that names the
      revision read earlier succeeds only onto the very entry that was read. */
  lemma {:induction false} RunAdvances(s: Store, ops: seq<Op>)
    requires Valid(s) && OpsOk(s, ops)
    ensures Valid(AfterOps(s, ops)) && Unseen(s, AfterOps(s, ops))
    decreases |ops|
  {
    if ops != [] {
      StepAdvances(s, ops[0]);
      RunAdvances(Do(s, ops[0]), ops[1..]);
    }
  }

  lemma CasSeesWhatWasRead(s: Store, ops: seq<Op>, k: Key)
    requires Valid(s) && OpsOk(s, ops) && k in s.kvs
    ensures CasSucceeds(AfterOps(s, ops), k, Some(s.kvs[k].modRev))
            <==> k in AfterOps(s, ops).kvs && AfterOps(s, ops).kvs[k] == s.kvs[k]
  {
    RunAdvances(s, ops);
  }

  // ----- expiry -----

  /** Every attached lease is alive, so every leased key can still expire. */
  ghost predicate NoDangling(s: Store) {
    forall k :: k in s.kvs && s.kvs[k].lease.Some? ==> s.kvs[k].lease.value in s.leases
  }

  /** Of all operations only a compare-and-swap can leave a key on a dead lease,
      and it does so exactly when it succeeds with one. */
  lemma DanglingOnlyByCas(s: Store, op: Op)
    requires NoDangling(s) && Enabled(s, op)
    ensures NoDangling(Do(s, op)) <==>
            !(op.OpCas? && CasSucceeds(s, op.key, op.expected) && op.lease.Some? && op.lease.value !in s.leases)
  {
    if op.OpCas? && CasSucceeds(s, op.key, op.expected) && op.lease.Some? && op.lease.value !in s.leases {
      assert op.key in Do(s, op).kvs && Do(s, op).kvs[op.key].lease == op.lease;
    }
  }

  /** A key left on a dead lease outlives every sweep at every time: the record
      stays until its lease id is handed out again. */
  lemma DanglingOutlivesSweeps(s: Store, k: Key, now: int)
    requires k in s.kvs && s.kvs[k].lease.Some? && s.kvs[k].lease.value !in s.leases
    ensures k in Sweep(s, now).kvs && Sweep(s, now).kvs[k] == s.kvs[k]
    ensures s.kvs[k].lease.value !in Sweep(s, now).leases
  {
  }

  /** With live leases only, a sweep at `now` removes exactly the keys whose lease is due. */
  lemma SweepIsExact(s: Store, now: int, k: Key)
    requires NoDangling(s) && k in s.kvs
    ensures k in Sweep(s, now).kvs <==>
            !(s.kvs[k].lease.Some? && s.leases[s.kvs[k].lease.value].expires <= now)
    ensures NoDangling(Sweep(s, now))
  {
    assert NoDangling(Do(s, OpReap(Due(s, now)))) by { DanglingOnlyByCas(s, OpReap(Due(s, now))); }
  }
}
