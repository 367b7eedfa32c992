/** The orchestrator's three ledgers — the live table, each backend's instances, the
    leased store keys — and what every operation does to them. */
module Lifecycle {
  import opened Common
  import opened Keys
  import opened LeaseStore

  datatype Live = Live(lease: LeaseId, ttlDeadline: int, backend: nat)

  datatype Instance = Instance(paused: bool)

  datatype State = State(store: Store, backends: seq<map<string, Instance>>, live: map<string, Live>)

  datatype Request = Request(vcpus: nat, memMib: nat, ttl: int, idle: int)

  const I64_MAX := 0x7fff_ffff_ffff_ffff
  const I64_MIN := -0x8000_0000_0000_0000

  function SaturatingAdd(a: int, b: int): int {
    Common.Max(I64_MIN, Common.Min(I64_MAX, a + b))
  }

  /** Which backend a sandbox is on is the same in both ledgers. */
  ghost predicate Aligned(st: State) {
    && (forall id :: id in st.live ==> st.live[id].backend < |st.backends| && id in st.backends[st.live[id].backend])
    && (forall b, id :: 0 <= b < |st.backends| && id in st.backends[b] ==> id in st.live && st.live[id].backend == b)
  }

  /** An id no ledger has seen, as the backend draws at random. */
  ghost predicate FreshId(st: State, id: string) {
    && id !in st.live
    && (forall b :: 0 <= b < |st.backends| ==> id !in st.backends[b])
    && (forall f :: Sandbox(id, f) !in st.store.kvs)
  }

  function SetInstance(st: State, b: nat, id: string, i: Instance): State
    requires b < |st.backends|
  {
    st.(backends := st.backends[b := st.backends[b][id := i]])
  }

  function DropInstance(st: State, b: nat, id: string): State
    requires b < |st.backends|
  {
    st.(backends := st.backends[b := st.backends[b] - {id}])
  }

  // ----- what each operation may do -----

  /** Keys written at registration, and keys written by pause and resume. */
  predicate BornWith(f: Field) { f == Meta || f == Keys.State || f == Owner || f == Pin }

  predicate PauseField(f: Field) { f == Keys.State || f == Retain || f == Size }

  /** The new sandbox's keys, and nothing else, were added, all on the new lease. */
  ghost predicate OnlyAdds(s: Store, s': Store, id: string, lease: LeaseId) {
    && (forall k :: k in s.kvs && s.kvs[k].lease != Some(lease) ==> k in s'.kvs && s'.kvs[k] == s.kvs[k])
    && (forall k :: k in s.kvs && k in s'.kvs ==> s'.kvs[k] == s.kvs[k])
    && (forall k :: k in s'.kvs && k !in s.kvs ==> k.Sandbox? && k.id == id && BornWith(k.field) && s'.kvs[k].lease == Some(lease))
    && (forall l :: l in s.leases ==> l in s'.leases && s'.leases[l] == s.leases[l])
    && (forall l :: l in s'.leases && l !in s.leases ==> l == lease)
  }

  lemma AddGrant(s: Store, id: string, lease: LeaseId, ttl: int, now: int)
    requires lease !in s.leases
    ensures OnlyAdds(s, Grant(s, lease, ttl, now), id, lease)
  {
  }

  lemma AddKey(s: Store, s': Store, id: string, lease: LeaseId, f: Field, v: Value)
    requires OnlyAdds(s, s', id, lease) && Sandbox(id, f) !in s.kvs && BornWith(f)
    ensures OnlyAdds(s, Put(s', Sandbox(id, f), v, Some(lease)), id, lease)
  {
  }

  /** Revoking the new lease takes back all that was added. */
  lemma TakeBack(s: Store, s': Store, id: string, lease: LeaseId)
    requires OnlyAdds(s, s', id, lease) && lease !in s.leases && lease in s'.leases
    ensures OnlyAdds(s, Revoke(s', lease), id, lease) && Restored(s, Revoke(s', lease))
  {
  }

  /** Nothing of the attempt is left. */
  ghost predicate Restored(s: Store, s': Store) {
    s'.leases == s.leases && forall k :: k in s'.kvs ==> k in s.kvs && s'.kvs[k] == s.kvs[k]
  }

  ghost predicate Populated(s: Store, id: string, lease: LeaseId, req: Request, now: int, owner: Option<string>) {
    && lease in s.leases && s.leases[lease] == Lease(req.idle, now + req.idle)
    && OnLease(s, Sandbox(id, Meta), lease) && s.kvs[Sandbox(id, Meta)].value == Spec(req.vcpus, req.memMib)
    && OnLease(s, Sandbox(id, Keys.State), lease) && s.kvs[Sandbox(id, Keys.State)].value == Text("running")
    && (owner.Some? ==> OnLease(s, Sandbox(id, Owner), lease) && s.kvs[Sandbox(id, Owner)].value == Text(owner.value))
  }

  /** `register` on an instance the backend has just made. */
  ghost predicate RegisterSpec(st: State, st': State, b: nat, id: string, lease: LeaseId, req: Request, now: int, owner: Option<string>, ok: bool)
    requires b < |st.backends|
  {
    && OnlyAdds(st.store, st'.store, id, lease)
    && (ok ==>
          && st'.live == st.live[id := Live(lease, SaturatingAdd(now, req.ttl), b)]
          && st'.backends == st.backends
          && Populated(st'.store, id, lease, req, now, owner))
    && (!ok ==> st'.live == st.live && st'.backends == DropInstance(st, b, id).backends)
  }

  /** Create and fork: a fresh instance appears in backend `b`, then registration. */
  ghost predicate CreateSpec(st: State, st': State, b: nat, id: string, lease: LeaseId, req: Request, now: int, owner: Option<string>, ok: bool) {
    && b < |st.backends| && FreshId(st, id) && lease !in st.store.leases
    && RegisterSpec(SetInstance(st, b, id, Instance(false)), st', b, id, lease, req, now, owner, ok)
  }

  /** Only the sandbox's own keys were written, and on its lease. */
  ghost predicate OwnWrites(s: Store, s': Store, id: string, lease: LeaseId) {
    && s'.leases == s.leases
    && (forall k :: k in s.kvs ==> k in s'.kvs)
    && (forall k :: k in s'.kvs ==>
          || (k in s.kvs && s'.kvs[k] == s.kvs[k])
          || (k.Sandbox? && k.id == id && PauseField(k.field) && s'.kvs[k].lease == Some(lease)))
  }

  lemma OwnWrite(s: Store, s': Store, id: string, lease: LeaseId, f: Field, v: Value)
    requires OwnWrites(s, s', id, lease) && PauseField(f)
    ensures OwnWrites(s, Put(s', Sandbox(id, f), v, Some(lease)), id, lease)
  {
  }

  /** Pause and resume: only the flag and the sandbox's own keys, kept on its lease. */
  ghost predicate FlagSpec(st: State, st': State, id: string) {
    && id in st.live && st'.live == st.live
    && |st'.backends| == |st.backends|
    && (forall b :: 0 <= b < |st.backends| ==> st'.backends[b].Keys == st.backends[b].Keys)
    && (forall b, x :: 0 <= b < |st.backends| && x in st.backends[b] && x != id ==> st'.backends[b][x] == st.backends[b][x])
    && OwnWrites(st.store, st'.store, id, st.live[id].lease)
  }

  lemma SetFlag(st: State, st': State, id: string, paused: bool, s: Store)
    requires Aligned(st) && id in st.live && OwnWrites(st.store, s, id, st.live[id].lease)
    requires st' == SetInstance(st, st.live[id].backend, id, Instance(paused)).(store := s) || st' == st.(store := s)
    ensures FlagSpec(st, st', id) && Aligned(st')
  {
  }

  function Without(st: State, ids: set<string>): State {
    st.(live := st.live - ids, backends := seq(|st.backends|, b requires 0 <= b < |st.backends| => st.backends[b] - ids))
  }

  function LeasesOf(st: State, ids: set<string>): (ls: set<LeaseId>) {
    set id | id in ids && id in st.live :: st.live[id].lease
  }

  /** Destroy: out of both tables, and its lease revoked unless that call failed. */
  ghost predicate DestroySpec(st: State, st': State, id: string, ok: bool) {
    && id in st.live
    && st'.live == st.live - {id} && st'.backends == Without(st, {id}).backends
    && st'.store == if ok then Revoke(st.store, st.live[id].lease) else st.store
  }

  function TtlExpired(st: State, now: int): (ids: set<string>) {
    set id | id in st.live && st.live[id].ttlDeadline <= now
  }

  /** Sandboxes one of whose keys sits on one of these leases. */
  function Named(s: Store, ids: set<LeaseId>): (sids: set<string>) {
    set k | k in KeysOn(s, ids) && k.Sandbox? :: k.id
  }

  function AfterTtl(st: State, now: int): Store {
    Reap(st.store, LeasesOf(st, TtlExpired(st, now)))
  }

  function Reaped(st: State, now: int): (ids: set<string>) {
    var s := AfterTtl(st, now);
    TtlExpired(st, now) + (Named(s, Due(s, now)) * st.live.Keys)
  }

  /** A tick that returns Ok. */
  ghost predicate TickSpec(st: State, st': State, now: int) {
    && st'.store == Sweep(AfterTtl(st, now), now)
    && st'.live == st.live - Reaped(st, now)
    && st'.backends == Without(st, Reaped(st, now)).backends
  }

  /** A paused sandbox whose retention has run out. */
  predicate Expired(s: Store, id: string, now: int) {
    && Sandbox(id, Retain) in s.kvs
    && s.kvs[Sandbox(id, Retain)].value.Amount? && s.kvs[Sandbox(id, Retain)].value.mib <= now
    && Sandbox(id, Keys.State) in s.kvs && s.kvs[Sandbox(id, Keys.State)].value == Text("paused")
  }

  function RetentionDue(s: Store, now: int): (ids: set<string>) {
    set k | k in s.kvs && k.Sandbox? && k.field == Retain && Expired(s, k.id, now) :: k.id
  }

  /** The leases their retention keys are on. */
  function RetainLeases(s: Store, ids: set<string>): (ls: set<LeaseId>) {
    set id | id in ids && Sandbox(id, Retain) in s.kvs && s.kvs[Sandbox(id, Retain)].lease.Some?
      :: s.kvs[Sandbox(id, Retain)].lease.value
  }

  /** All keys of those whose retention key has no lease. */
  function Unleased(s: Store, ids: set<string>): (ks: set<Key>) {
    set k | k in s.kvs && k.Sandbox? && k.id in ids && Sandbox(k.id, Retain) in s.kvs && s.kvs[Sandbox(k.id, Retain)].lease.None?
  }

  /** These sandboxes' snapshots are collected, and nothing else is touched. */
  ghost predicate IsCollected(s: Store, ids: set<string>, t: Store) {
    && t.kvs == s.kvs - (KeysOn(s, RetainLeases(s, ids)) + Unleased(s, ids))
    && t.leases == s.leases - RetainLeases(s, ids)
  }

  /** Any other client of the store: it does not write the keys of our sandboxes. */
  ghost predicate Foreign(st: State, op: Op) {
    && Enabled(st.store, op)
    && (op.OpPut? || op.OpDelete? || op.OpCas? ==> !(op.key.Sandbox? && op.key.id in st.live))
  }

  datatype Step =
    | Create(b: nat, id: string, lease: LeaseId, req: Request, now: int, owner: Option<string>, ok: bool)
    | Flag(id: string)
    | KeepaliveOf(id: string, now: int)
    | Tag(id: string, project: string)
    | Destroy(id: string, ok: bool)
    | Tick(now: int)
    | Gc(now: int, ids: set<string>)
    | Other(op: Op)

  ghost predicate Next(st: State, step: Step, st': State) {
    match step
    case Create(b, id, lease, req, now, owner, ok) => CreateSpec(st, st', b, id, lease, req, now, owner, ok)
    case Flag(id) => FlagSpec(st, st', id)
    case KeepaliveOf(id, now) => id in st.live && st' == st.(store := Keepalive(st.store, st.live[id].lease, now))
    case Tag(id, p) => id in st.live && st' == st.(store := Put(st.store, Sandbox(id, Project), Text(p), Some(st.live[id].lease)))
    case Destroy(id, ok) => DestroySpec(st, st', id, ok)
    case Tick(now) => TickSpec(st, st', now)
    case Gc(now, ids) =>
      st' == st.(store := st'.store) && ids <= RetentionDue(st.store, now) && IsCollected(st.store, ids, st'.store)
    case Other(op) => Foreign(st, op) && st' == st.(store := Do(st.store, op))
  }

  // ----- the ledgers agree -----

  lemma CreateAligned(st: State, step: Step, st': State)
    requires Aligned(st) && step.Create? && Next(st, step, st')
    ensures Aligned(st')
  {
    var mid := SetInstance(st, step.b, step.id, Instance(false));
    forall b, id | 0 <= b < |st'.backends| && id in st'.backends[b] ensures id in st'.live && st'.live[id].backend == b {
      assert id in mid.backends[b];
      assert id != step.id ==> id in st.backends[b];
    }
    forall id | id in st'.live ensures st'.live[id].backend < |st'.backends| && id in st'.backends[st'.live[id].backend] {
      assert id != step.id ==> id in st.live && st'.live[id] == st.live[id];
    }
  }

  lemma WithoutAligned(st: State, ids: set<string>)
    requires Aligned(st)
    ensures Aligned(Without(st, ids))
  {
  }

  lemma AlignedIgnoresStore(st: State, s: Store)
    requires Aligned(st)
    ensures Aligned(st.(store := s))
  {
  }

  lemma FlagAligned(st: State, id: string, st': State)
    requires Aligned(st) && FlagSpec(st, st', id)
    ensures Aligned(st')
  {
  }

  lemma AlignedKept(st: State, step: Step, st': State)
    requires Aligned(st) && Next(st, step, st')
    ensures Aligned(st')
  {
    match step
    case Create(_, _, _, _, _, _, _) => CreateAligned(st, step, st');
    case Destroy(id, _) => WithoutAligned(st, {id});
    case Tick(now) => WithoutAligned(st, Reaped(st, now));
    case Flag(id) => FlagAligned(st, id, st');
    case _ => AlignedIgnoresStore(st, st'.store);
  }

  // ----- leases and keys -----

  /** Keys of a live sandbox sit on its lease. */
  ghost predicate Home(st: State) {
    forall id, f :: id in st.live && Sandbox(id, f) in st.store.kvs ==> OnLease(st.store, Sandbox(id, f), st.live[id].lease)
  }

  /** As long as its lease is alive, a live sandbox has its meta key. */
  ghost predicate MetaUp(st: State) {
    forall id :: id in st.live && st.live[id].lease in st.store.leases ==> OnLease(st.store, Sandbox(id, Meta), st.live[id].lease)
  }

  ghost predicate DistinctLeases(st: State) {
    forall a, b :: a in st.live && b in st.live && st.live[a].lease == st.live[b].lease ==> a == b
  }

  ghost predicate Unrecorded(st: State, id: LeaseId) {
    forall a :: a in st.live ==> st.live[a].lease != id
  }

  ghost predicate UnrecordedGrant(st: State, step: Step) {
    && (step.Create? ==> Unrecorded(st, step.lease))
    && (step.Other? && step.op.OpGrant? ==> Unrecorded(st, step.op.id))
  }

  ghost predicate Inv(st: State) {
    Aligned(st) && Home(st) && MetaUp(st) && DistinctLeases(st)
  }

  lemma CreateKeepsInv(st: State, step: Step, st': State)
    requires Inv(st) && step.Create? && Next(st, step, st') && UnrecordedGrant(st, step)
    ensures Home(st') && MetaUp(st') && DistinctLeases(st')
  {
    forall id, f | id in st'.live && Sandbox(id, f) in st'.store.kvs
      ensures OnLease(st'.store, Sandbox(id, f), st'.live[id].lease)
    {
      if id == step.id {
        assert Sandbox(id, f) !in st.store.kvs;
      } else {
        assert Sandbox(id, f) in st.store.kvs;
      }
    }
  }

  lemma TickKeepsInv(st: State, step: Step, st': State)
    requires Inv(st) && (step.Tick? || step.Destroy?) && Next(st, step, st')
    ensures Home(st') && MetaUp(st') && DistinctLeases(st')
  {
  }

  lemma OtherKeepsInv(st: State, step: Step, st': State)
    requires Inv(st) && step.Other? && Next(st, step, st') && UnrecordedGrant(st, step)
    ensures Home(st') && MetaUp(st') && DistinctLeases(st')
  {
  }

  lemma WriteKeepsInv(st: State, step: Step, st': State)
    requires Inv(st) && (step.Flag? || step.KeepaliveOf? || step.Tag? || step.Gc?) && Next(st, step, st')
    ensures Home(st') && MetaUp(st') && DistinctLeases(st')
  {
  }

  lemma InvKept(st: State, step: Step, st': State)
    requires Inv(st) && Next(st, step, st') && UnrecordedGrant(st, step)
    ensures Inv(st')
  {
    AlignedKept(st, step, st');
    match step
    case Create(_, _, _, _, _, _, _) => CreateKeepsInv(st, step, st');
    case Tick(_) => TickKeepsInv(st, step, st');
    case Destroy(_, _) => TickKeepsInv(st, step, st');
    case Other(_) => OtherKeepsInv(st, step, st');
    case _ => WriteKeepsInv(st, step, st');
  }

  ghost predicate Run(states: seq<State>, steps: seq<Step>) {
    |states| == |steps| + 1 && forall i :: 0 <= i < |steps| ==> Next(states[i], steps[i], states[i + 1])
  }

  ghost predicate Booted(st: State) {
    st.live == map[] && forall b :: 0 <= b < |st.backends| ==> st.backends[b] == map[]
  }

  /** MAIN: in every run of create, fork, pause, resume, keepalive, tag, destroy, tick,
      gc and foreign store activity, with store calls failing inside, each backend's
      instances are exactly the live sandboxes routed to it. */
  lemma {:induction false} LedgersAgree(states: seq<State>, steps: seq<Step>, i: nat)
    requires Run(states, steps) && Booted(states[0]) && i < |states|
    ensures Aligned(states[i])
  {
    if i > 0 {
      LedgersAgree(states, steps, i - 1);
      AlignedKept(states[i - 1], steps[i - 1], states[i]);
    }
  }

  /** MAIN: and as long as no lease id still recorded is handed out again, live leases
      are pairwise distinct and every sandbox's keys are on its own lease. */
  lemma {:induction false} LeasesStayApart(states: seq<State>, steps: seq<Step>, i: nat)
    requires Run(states, steps) && Booted(states[0]) && i < |states|
    requires forall j :: 0 <= j < |steps| ==> UnrecordedGrant(states[j], steps[j])
    ensures Inv(states[i])
  {
    if i > 0 {
      LeasesStayApart(states, steps, i - 1);
      InvKept(states[i - 1], steps[i - 1], states[i]);
    }
  }

  // ----- the two timers -----

  /** On any state, also with stale leases about: after a tick nothing live is past its
      TTL, no lease due by `now` is left, and whoever went was due for one reason. */
  lemma TickClears(st: State, st': State, now: int)
    requires TickSpec(st, st', now)
    ensures forall id :: id in st'.live ==> id in st.live && st'.live[id] == st.live[id] && now < st'.live[id].ttlDeadline
    ensures forall l :: l in st'.store.leases ==> now < st'.store.leases[l].expires
    ensures forall l :: l in st'.store.leases ==> l in st.store.leases && st'.store.leases[l] == st.store.leases[l]
  {
  }

  lemma DueLeaseNames(st: State, now: int, id: string)
    requires Inv(st) && id in st.live && st.live[id].lease in Due(st.store, now) && now < st.live[id].ttlDeadline
    ensures id in Reaped(st, now)
  {
    var s := AfterTtl(st, now);
    var l := st.live[id].lease;
    assert l !in LeasesOf(st, TtlExpired(st, now));
    assert OnLease(st.store, Sandbox(id, Meta), l);
    assert Sandbox(id, Meta) in KeysOn(s, Due(s, now));
  }

  lemma NamedMeansDue(st: State, now: int, id: string)
    requires Inv(st) && id in st.live && id in Reaped(st, now) && now < st.live[id].ttlDeadline
    ensures st.live[id].lease in Due(st.store, now)
  {
    var s := AfterTtl(st, now);
    var k :| k in KeysOn(s, Due(s, now)) && k.Sandbox? && k.id == id;
    assert Sandbox(id, k.field) == k && k in st.store.kvs;
    assert OnLease(st.store, k, st.live[id].lease);
  }

  /** MAIN: a tick reaps exactly the live sandboxes past their TTL and those whose
      lease is due, and keeps all others. */
  lemma TickIsExact(st: State, st': State, now: int, id: string)
    requires Inv(st) && TickSpec(st, st', now) && id in st.live
    ensures id !in st'.live <==>
            || st.live[id].ttlDeadline <= now
            || (st.live[id].lease in st.store.leases && st.store.leases[st.live[id].lease].expires <= now)
  {
    if now < st.live[id].ttlDeadline {
      if st.live[id].lease in Due(st.store, now) { DueLeaseNames(st, now, id); }
      if id in Reaped(st, now) { NamedMeansDue(st, now, id); }
    }
  }

  /** No operation moves a live sandbox's deadline, lease or backend. */
  lemma LiveEntryFixed(st: State, step: Step, st': State, id: string)
    requires Next(st, step, st') && id in st.live && id in st'.live
    ensures st'.live[id] == st.live[id]
  {
  }

  lemma {:induction false} DeadlineFixed(states: seq<State>, steps: seq<Step>, i: nat, j: nat, id: string)
    requires Run(states, steps) && i <= j < |states|
    requires forall n :: i <= n <= j ==> id in states[n].live
    ensures states[j].live[id] == states[i].live[id]
  {
    if i < j {
      DeadlineFixed(states, steps, i, j - 1, id);
      LiveEntryFixed(states[j - 1], steps[j - 1], states[j], id);
    }
  }

  /** MAIN: the TTL is a hard cap: whatever keepalives came in between, a sandbox is not
      live after a tick at or past the deadline it was created with. */
  lemma TtlIsHardCap(states: seq<State>, steps: seq<Step>, i: nat, j: nat, id: string)
    requires Run(states, steps) && i <= j < |steps| && steps[j].Tick?
    requires forall n :: i <= n <= j ==> id in states[n].live
    requires states[i].live[id].ttlDeadline <= steps[j].now
    ensures id !in states[j + 1].live
  {
    DeadlineFixed(states, steps, i, j, id);
    assert Next(states[j], steps[j], states[j + 1]);
  }

  // ----- when leases collide -----

  /** A successful create keeps live leases distinct exactly when the lease it was
      granted is not still recorded for another sandbox. */
  lemma CreateKeepsDistinctIff(st: State, step: Step, st': State)
    requires DistinctLeases(st) && step.Create? && step.ok && Next(st, step, st')
    ensures DistinctLeases(st') <==> Unrecorded(st, step.lease)
  {
    assert st'.live == st.live[step.id := st'.live[step.id]];
    if !Unrecorded(st, step.lease) {
      var a :| a in st.live && st.live[a].lease == step.lease;
      assert a in st'.live && st'.live[a].lease == st'.live[step.id].lease && a != step.id;
    }
    if Unrecorded(st, step.lease) {
      forall a, b | a in st'.live && b in st'.live && st'.live[a].lease == st'.live[b].lease ensures a == b {
        assert a != step.id ==> a in st.live && st'.live[a] == st.live[a];
        assert b != step.id ==> b in st.live && st'.live[b] == st.live[b];
      }
    }
  }

  /** Retention GC takes the lease and the keys but leaves the sandbox live. */
  lemma GcLeavesItLive(st: State, now: int, ids: set<string>, st': State, id: string)
    requires Home(st) && Next(st, Gc(now, ids), st') && id in ids && id in st.live
    requires st.live[id].lease in st.store.leases
    ensures id in st'.live && st'.live[id] == st.live[id]
    ensures st.live[id].lease !in st'.store.leases && forall f :: Sandbox(id, f) !in st'.store.kvs
  {
    var ls := RetainLeases(st.store, ids);
    assert id in RetentionDue(st.store, now) && Expired(st.store, id, now);
    assert OnLease(st.store, Sandbox(id, Retain), st.live[id].lease);
    assert st.live[id].lease in ls;
    forall f ensures Sandbox(id, f) !in st'.store.kvs {
      if Sandbox(id, f) in st.store.kvs {
        assert OnLease(st.store, Sandbox(id, f), st.live[id].lease);
        assert Sandbox(id, f) in KeysOn(st.store, ls);
      }
    }
  }

  /** Two live sandboxes on one lease: destroying one wipes the other's records,
      while it stays live and running. */
  lemma SharedLeaseHitsNeighbour(st: State, st': State, a: string, b: string)
    requires Aligned(st) && DestroySpec(st, st', a, true) && a != b && b in st.live
    requires st.live[a].lease == st.live[b].lease && st.live[b].lease in st.store.leases
    requires OnLease(st.store, Sandbox(b, Meta), st.live[b].lease)
    ensures b in st'.live && b in st'.backends[st'.live[b].backend] && Sandbox(b, Meta) !in st'.store.kvs
  {
    assert Sandbox(b, Meta) in KeysOn(st.store, {st.live[a].lease});
  }

  /** With distinct leases a destroy is local: it removes exactly the keys on the
      destroyed sandbox's lease, none of them another live sandbox's. */
  lemma DestroyIsLocal(st: State, st': State, id: string, other: string, f: Field)
    requires Inv(st) && DestroySpec(st, st', id, true) && other in st.live && other != id
    requires Sandbox(other, f) in st.store.kvs
    ensures Sandbox(other, f) in st'.store.kvs && st'.store.kvs[Sandbox(other, f)] == st.store.kvs[Sandbox(other, f)]
    ensures other in st'.live && st'.live[other] == st.live[other]
    ensures st.live[id].lease in st.store.leases ==> forall g :: Sandbox(id, g) !in st'.store.kvs
  {
    assert OnLease(st.store, Sandbox(other, f), st.live[other].lease);
    if st.live[id].lease in st.store.leases {
      forall g ensures Sandbox(id, g) !in st'.store.kvs {
        if Sandbox(id, g) in st.store.kvs {
          assert OnLease(st.store, Sandbox(id, g), st.live[id].lease);
          assert Sandbox(id, g) in KeysOn(st.store, {st.live[id].lease});
        }
      }
    }
  }
}

/** The orchestrator object: each method is proved to be one of the steps above. */
module Orchestrator {
  import opened Common
  import opened Keys
  import opened LeaseStore
  import opened Lifecycle

  /** Which of its store calls fail during a registration; `applied` says that a failed call
      took effect all the same. */
  datatype Faults = Faults(grant: bool, meta: bool, state: bool, owner: bool, revoke: bool, applied: bool)

  class Orch {
    var store: Store
    var backends: seq<map<string, Instance>>
    var live: map<string, Live>
    const nodeId: Option<string>
    /** Which backends can pause, resume and fork. */
    const snapshots: seq<bool>

    ghost function View(): Lifecycle.State reads this { Lifecycle.State(store, backends, live) }

    ghost predicate Valid() reads this { Aligned(View()) && |snapshots| == |backends| }

    constructor (store: Store, snapshots: seq<bool>, nodeId: Option<string>)
      ensures Valid() && Booted(View()) && this.store == store && this.nodeId == nodeId && this.snapshots == snapshots
    {
      this.store, this.snapshots, this.nodeId := store, snapshots, nodeId;
      this.backends := seq(|snapshots|, _ => map[]);
      this.live := map[];
    }

    /** What the store says of a sandbox just registered: its size, that it runs, which node has
        it, and a lease of its idle time. */
    ghost predicate Recorded(s: Store, id: string, lease: LeaseId, req: Request, now: int)
      reads this
    {
      && lease in s.leases && s.leases[lease].ttl == req.idle && s.leases[lease].expires == now + req.idle
      && Sandbox(id, Meta) in s.kvs && s.kvs[Sandbox(id, Meta)].value == Spec(req.vcpus, req.memMib) && s.kvs[Sandbox(id, Meta)].lease == Some(lease)
      && Sandbox(id, Keys.State) in s.kvs && s.kvs[Sandbox(id, Keys.State)].value == Text("running") && s.kvs[Sandbox(id, Keys.State)].lease == Some(lease)
      && (nodeId.Some? ==> Sandbox(id, Owner) in s.kvs && s.kvs[Sandbox(id, Owner)].value == Text(nodeId.value) && s.kvs[Sandbox(id, Owner)].lease == Some(lease))
    }

    /** The live entry of a sandbox just registered: its deadline is the ttl from now, held
        within 64 bits. */
    ghost predicate Entered(id: string, lease: LeaseId, req: Request, now: int, b: nat)
      reads this
    {
      && id in live && live[id].lease == lease && live[id].backend == b
      && (-0x8000_0000_0000_0000 <= now + req.ttl <= 0x7fff_ffff_ffff_ffff ==> live[id].ttlDeadline == now + req.ttl)
      && (now + req.ttl > 0x7fff_ffff_ffff_ffff ==> live[id].ttlDeadline == 0x7fff_ffff_ffff_ffff)
      && (now + req.ttl < -0x8000_0000_0000_0000 ==> live[id].ttlDeadline == -0x8000_0000_0000_0000)
    }

    /** One key of a registration; a failure, with or without effect, revokes the lease again. */
    method WriteOrUndo(s: Store, key: Field, v: Value, fails: bool, f: Faults, id: string, lease: LeaseId, ghost was: Store)
      returns (s': Store, ok: bool)
      requires OnlyAdds(was, s, id, lease) && lease !in was.leases && lease in s.leases
      requires Sandbox(id, key) !in was.kvs && BornWith(key)
      ensures OnlyAdds(was, s', id, lease) && ok == !fails
      ensures ok ==> s' == Put(s, Sandbox(id, key), v, Some(lease))
      ensures !ok && !f.revoke ==> Restored(was, s')
    {
      AddKey(was, s, id, lease, key, v);
      s' := if fails && !f.applied then s else Put(s, Sandbox(id, key), v, Some(lease));
      ok := !fails;
      if fails && !f.revoke {
        TakeBack(was, s', id, lease);
        s' := Revoke(s', lease);
      }
    }

    /** The version pin, written as far as that works. */
    method WritePin(s: Store, pin: Option<string>, id: string, lease: LeaseId, ghost was: Store) returns (s': Store)
      requires OnlyAdds(was, s, id, lease) && Sandbox(id, Pin) !in was.kvs
      ensures OnlyAdds(was, s', id, lease)
      ensures s' == if pin.Some? then Put(s, Sandbox(id, Pin), Text(pin.value), Some(lease)) else s
    {
      s' := s;
      if pin.Some? {
        AddKey(was, s, id, lease, Pin, Text(pin.value));
        s' := Put(s, Sandbox(id, Pin), Text(pin.value), Some(lease));
      }
    }

    /** The store's part of `register`: lease, meta, state and owner key, then the pin. */
    method Populate(id: string, lease: LeaseId, req: Request, now: int, pin: Option<string>, f: Faults) returns (s: Store, ok: bool)
      requires lease !in store.leases && forall g :: Sandbox(id, g) !in store.kvs
      ensures OnlyAdds(store, s, id, lease)
      ensures ok <==> !f.grant && !f.meta && !f.state && !(nodeId.Some? && f.owner)
      ensures ok ==> Populated(s, id, lease, req, now, nodeId) && Recorded(s, id, lease, req, now)
      ensures ok && pin.Some? ==> OnLease(s, Sandbox(id, Pin), lease) && s.kvs[Sandbox(id, Pin)].value == Text(pin.value)
      ensures !ok && !f.revoke && !(f.grant && f.applied) ==> Restored(store, s)
    {
      s, ok := WriteAll(id, lease, req, now, f);
      if ok {
        s := WritePin(s, pin, id, lease, store);
      }
    }

    method WriteAll(id: string, lease: LeaseId, req: Request, now: int, f: Faults) returns (s: Store, ok: bool)
      requires lease !in store.leases && forall g :: Sandbox(id, g) !in store.kvs
      ensures OnlyAdds(store, s, id, lease)
      ensures ok <==> !f.grant && !f.meta && !f.state && !(nodeId.Some? && f.owner)
      ensures ok ==> Populated(s, id, lease, req, now, nodeId) && Recorded(s, id, lease, req, now)
      ensures !ok && !f.revoke && !(f.grant && f.applied) ==> Restored(store, s)
    {
      AddGrant(store, id, lease, req.idle, now);
      s := Grant(store, lease, req.idle, now);
      if f.grant {
        return if f.applied then s else store, false;
      }
      s, ok := WriteOrUndo(s, Meta, Spec(req.vcpus, req.memMib), f.meta, f, id, lease, store);
      if !ok {
        return;
      }
      s, ok := WriteOrUndo(s, Keys.State, Text("running"), f.state, f, id, lease, store);
      if ok && nodeId.Some? {
        s, ok := WriteOrUndo(s, Owner, Text(nodeId.value), f.owner, f, id, lease, store);
      }
    }

    /** `register`: the keys, then the live entry; on failure the instance goes too. */
    method Register(b: nat, id: string, lease: LeaseId, req: Request, now: int, pin: Option<string>, f: Faults) returns (ok: bool)
      requires b < |backends| && lease !in store.leases && forall g :: Sandbox(id, g) !in store.kvs
      modifies this
      ensures RegisterSpec(old(View()), View(), b, id, lease, req, now, nodeId, ok)
      ensures ok <==> !f.grant && !f.meta && !f.state && !(nodeId.Some? && f.owner)
      ensures ok ==> Recorded(store, id, lease, req, now) && Entered(id, lease, req, now, b)
      ensures !ok && !f.revoke && !(f.grant && f.applied) ==> Restored(old(store), store)
    {
      var s;
      s, ok := Populate(id, lease, req, now, pin, f);
      store := s;
      if ok {
        live := live[id := Live(lease, SaturatingAdd(now, req.ttl), b)];
      } else {
        backends := backends[b := backends[b] - {id}];
      }
    }

    /** `create_in`, once a backend is selected; `made` says whether it made the instance. */
    method CreateIn(b: nat, id: string, lease: LeaseId, req: Request, now: int, made: bool, pin: Option<string>, f: Faults) returns (ok: bool)
      requires Valid() && b < |backends| && FreshId(View(), id) && lease !in store.leases
      modifies this
      ensures Valid()
      ensures made ==> Next(old(View()), Create(b, id, lease, req, now, nodeId, ok), View())
      ensures !made ==> View() == old(View())
      ensures ok <==> made && !f.grant && !f.meta && !f.state && !(nodeId.Some? && f.owner)
      ensures ok ==> Recorded(store, id, lease, req, now) && Entered(id, lease, req, now, b) && backends[b] == old(backends)[b][id := Instance(false)]
    {
      if !made {
        return false;
      }
      backends := backends[b := backends[b][id := Instance(false)]];
      ok := Register(b, id, lease, req, now, pin, f);
      CreateAligned(old(View()), Create(b, id, lease, req, now, nodeId, ok), View());
    }

    /** `fork`: only from a known, paused parent on a backend with snapshots. */
    method Fork(parent: string, id: string, lease: LeaseId, req: Request, now: int, made: bool, pin: Option<string>, f: Faults) returns (ok: bool)
      requires Valid() && FreshId(View(), id) && lease !in store.leases
      modifies this
      ensures Valid()
      ensures ok <==> && parent in old(live) && snapshots[old(live)[parent].backend] && old(backends)[old(live)[parent].backend][parent].paused
                      && made && !f.grant && !f.meta && !f.state && !(nodeId.Some? && f.owner)
      ensures ok ==> Recorded(store, id, lease, req, now) && Entered(id, lease, req, now, old(live)[parent].backend)
      ensures ok || View() != old(View()) ==>
                parent in old(live) && Next(old(View()), Create(old(live)[parent].backend, id, lease, req, now, nodeId, ok), View())
    {
      if parent !in live || !snapshots[live[parent].backend] {
        return false;
      }
      var b := live[parent].backend;
      if !backends[b][parent].paused {
        return false;
      }
      ok := CreateIn(b, id, lease, req, now, made, pin, f);
    }

    /** The project a sandbox's snapshots are sealed for. */
    function KeyOwner(id: string): string
      reads this
    {
      if Sandbox(id, Project) in store.kvs && store.kvs[Sandbox(id, Project)].value.Text? then store.kvs[Sandbox(id, Project)].value.text
      else "default"
    }

    /** `snap_key_for`, before every pause, resume and fork when snapshots are sealed: the
        project's key is unwrapped, or a fresh one is put on record without a lease. */
    method ArmKey(id: string, unwrap: string -> Option<string>, mine: string, blob: string) returns (r: Option<string>)
      requires Valid() && unwrap(blob) == Some(mine)
      modifies this
      ensures Valid() && live == old(live) && backends == old(backends)
      ensures Next(old(View()), Other(OpCas(Kek(old(KeyOwner(id))), None, Text(blob), None)), View())
      ensures Kek(old(KeyOwner(id))) in store.kvs
      ensures var v := store.kvs[Kek(old(KeyOwner(id)))].value; r == if v.Text? then unwrap(v.text) else None
      ensures Kek(old(KeyOwner(id))) in old(store.kvs) ==> store == old(store)
      ensures Kek(old(KeyOwner(id))) !in old(store.kvs) ==> r == Some(mine)
      ensures Sandbox(id, Project) !in old(store.kvs) ==> Kek("default") in store.kvs
      ensures forall p :: Sandbox(id, Project) in old(store.kvs) && old(store.kvs)[Sandbox(id, Project)].value == Text(p) ==> Kek(p) in store.kvs
      ensures forall k :: k in store.kvs && k !in old(store.kvs) ==>
                k.Kek? && store.kvs[k].value == Text(blob) && store.kvs[k].lease == None
    {
      var key := Kek(KeyOwner(id));
      if key in store.kvs {
        var v := store.kvs[key].value;
        return if v.Text? then unwrap(v.text) else None;
      }
      AlignedIgnoresStore(View(), Cas(store, key, None, Text(blob), None));
      store := Cas(store, key, None, Text(blob), None);
      return Some(mine);
    }

    /** `pause`: `admitted` is the storage quota and key setup, `works` the backend. */
    method Pause(id: string, now: nat, sizeMib: nat, admitted: bool, works: bool) returns (ok: bool)
      requires Valid()
      modifies this
      ensures Valid()
      ensures ok <==> id in old(live) && snapshots[old(live)[id].backend] && admitted &&
                      (works || old(backends)[old(live)[id].backend][id].paused)
      ensures ok ==> Next(old(View()), Flag(id), View()) && backends[live[id].backend][id].paused
      ensures ok && live[id].lease in store.leases ==>
                && OnLease(store, Sandbox(id, Keys.State), live[id].lease) && store.kvs[Sandbox(id, Keys.State)].value == Text("paused")
                && OnLease(store, Sandbox(id, Size), live[id].lease) && store.kvs[Sandbox(id, Size)].value == Amount(sizeMib)
                && OnLease(store, Sandbox(id, Retain), live[id].lease) && store.kvs[Sandbox(id, Retain)].value == Amount(now + 604800)
      ensures ok && live[id].lease !in store.leases ==> store == old(store)
      ensures !ok ==> View() == old(View())
    {
      if id !in live || !snapshots[live[id].backend] || !admitted {
        return false;
      }
      var b, lease := live[id].backend, live[id].lease;
      if !backends[b][id].paused {
        if !works {
          return false;
        }
        backends := backends[b := backends[b][id := Instance(true)]];
      }
      store := PauseKeys(store, id, lease, now, sizeMib);
      SetFlag(old(View()), View(), id, true, store);
      return true;
    }

    method Resume(id: string, works: bool) returns (ok: bool)
      requires Valid()
      modifies this
      ensures Valid()
      ensures ok <==> id in old(live) && snapshots[old(live)[id].backend] && old(backends)[old(live)[id].backend][id].paused && works
      ensures ok ==> Next(old(View()), Flag(id), View()) && !backends[live[id].backend][id].paused
      ensures ok && live[id].lease in store.leases ==>
                OnLease(store, Sandbox(id, Keys.State), live[id].lease) && store.kvs[Sandbox(id, Keys.State)].value == Text("running")
      ensures forall k :: k in store.kvs && k != Sandbox(id, Keys.State) ==> k in old(store.kvs) && store.kvs[k] == old(store.kvs)[k]
      ensures !ok ==> View() == old(View())
    {
      if id !in live || !snapshots[live[id].backend] {
        return false;
      }
      var b := live[id].backend;
      if !backends[b][id].paused || !works {
        return false;
      }
      backends := backends[b := backends[b][id := Instance(false)]];
      OwnWrite(store, store, id, live[id].lease, Keys.State, Text("running"));
      store := Put(store, Sandbox(id, Keys.State), Text("running"), Some(live[id].lease));
      SetFlag(old(View()), View(), id, false, store);
      return true;
    }

    method KeepAlive(id: string, now: int) returns (r: Result<int>)
      requires Valid()
      modifies this
      ensures Valid()
      ensures r.Ok? <==> id in old(live) && old(live)[id].lease in old(store.leases)
      ensures r.Ok? ==> Next(old(View()), KeepaliveOf(id, now), View())
      ensures r.Ok? ==> var l := live[id].lease;
                        && r.value == now + old(store.leases)[l].ttl
                        && store == old(store).(leases := old(store.leases)[l := Lease(old(store.leases)[l].ttl, r.value)])
      ensures r.Err? ==> View() == old(View())
    {
      if id !in live || live[id].lease !in store.leases {
        return Err("unknown");
      }
      store := Keepalive(store, live[id].lease, now);
      return Ok(store.leases[live[id].lease].expires);
    }

    /** Out of the live table and off its backend. */
    method Forget(id: string)
      requires Valid() && id in live
      modifies this
      ensures Valid() && DestroySpec(old(View()), View(), id, false)
    {
      DropIsWithout(View(), id);
      WithoutAligned(View(), {id});
      var b := live[id].backend;
      live := live - {id};
      backends := backends[b := backends[b] - {id}];
    }

    /** `destroy`: out of the tables first, so a failed revocation still leaves them in step. */
    method DestroySandbox(id: string, revokes: bool) returns (r: Result<()>)
      requires Valid()
      modifies this
      ensures Valid()
      ensures id in old(live) ==> Next(old(View()), Destroy(id, revokes), View()) && (r.Ok? <==> revokes)
      ensures id in old(live) && revokes ==>
                && store.leases == old(store.leases) - {old(live)[id].lease}
                && forall k :: k in store.kvs <==> k in old(store.kvs) && !(old(live)[id].lease in old(store.leases) && old(store.kvs)[k].lease == Some(old(live)[id].lease))
      ensures id in old(live) ==> live == old(live) - {id} && id !in backends[old(live)[id].backend]
      ensures id !in old(live) ==> r.Err? && View() == old(View())
    {
      if id !in live {
        return Err("unknown");
      }
      var lease := live[id].lease;
      Forget(id);
      if !revokes {
        return Err("revoke");
      }
      AlignedIgnoresStore(View(), Revoke(store, lease));
      store := Revoke(store, lease);
      return Ok(());
    }

    /** The TTL half of `tick`: one destroy at a time, ended early by a failed revocation. */
    method ReapTtl(now: int, failing: set<string>) returns (ok: bool, reaped: seq<string>)
      requires Valid()
      modifies this
      ensures Valid() && live.Keys <= old(live).Keys
      ensures ok ==> Partway(old(View()), TtlExpired(old(View()), now), AfterTtl(old(View()), now), View())
      ensures ok ==> Lists(reaped, TtlExpired(old(View()), now))
      ensures ok <==> failing !! TtlExpired(old(View()), now)
    {
      ghost var st := View();
      reaped := [];
      var todo := set id | id in live && live[id].ttlDeadline <= now;
      ghost var done: set<string> := {};
      WithoutNone(st);
      while todo != {}
        invariant forall x :: x in TtlExpired(st, now) <==> x in done || x in todo
        invariant forall x :: x in done ==> x !in todo && x !in failing
        invariant Valid() && Partway(st, done, Reap(st.store, LeasesOf(st, done)), View())
        invariant Lists(reaped, done)
        decreases todo
      {
        var id :| id in todo;
        ghost var cur := View();
        var d := DestroySandbox(id, id !in failing);
        if d.Err? {
          return false, reaped;
        }
        PartwayDestroy(st, done, id, cur, View());
        ListsMore(reaped, done, id);
        todo := todo - {id};
        done := done + {id};
        reaped := reaped + [id];
      }
      assert done == TtlExpired(st, now);
      ok := true;
    }

    /** One swept name: forgotten and reported if it is still live. */
    method ReapOne(id: string, all: seq<string>, ghost st: Lifecycle.State, ghost gone: set<string>, ghost before: set<string>)
      returns (all': seq<string>, ghost gone': set<string>)
      requires Valid() && Partway(st, gone, st.store, View()) && before !! st.live.Keys
      requires Lists(all, before + gone) && gone <= st.live.Keys
      modifies this
      ensures Valid() && Partway(st, gone', st.store, View())
      ensures Lists(all', before + gone') && gone' <= st.live.Keys
      ensures forall x :: x in gone' <==> x in gone || (x == id && x in st.live)
    {
      all', gone' := all, gone;
      if id in live {
        ghost var cur := View();
        Forget(id);
        PartwayForget(st, gone, id, cur, View());
        ListsMore(all, before + gone, id);
        all', gone' := all + [id], gone + {id};
        assert before + gone + {id} == before + gone';
      }
    }

    /** The idle half: the sandboxes named by swept keys, as far as they are still live. */
    method ReapNamed(names: set<string>, reaped: seq<string>, ghost before: set<string>) returns (all: seq<string>)
      requires Valid()
      requires Lists(reaped, before) && before !! live.Keys
      modifies this
      ensures Valid() && Partway(old(View()), names * old(live).Keys, old(store), View())
      ensures Lists(all, before + (names * old(live).Keys))
    {
      ghost var st := View();
      all := reaped;
      var todo := names;
      ghost var gone: set<string> := {};
      assert Partway(st, gone, st.store, View()) by { WithoutNone(st); }
      assert before + gone == before;
      while todo != {}
        invariant Valid() && Partway(st, gone, st.store, View())
        invariant Lists(all, before + gone) && gone <= st.live.Keys
        invariant forall x :: x in gone || x in todo ==> x in names
        invariant forall x :: x in names && x in st.live ==> x in gone || x in todo
        decreases todo
      {
        var id :| id in todo;
        all, gone := ReapOne(id, all, st, gone, before);
        todo := todo - {id};
      }
      assert gone == names * st.live.Keys;
    }

    /** `tick`: TTL first, then the leases due by `now`.  `failing` are the sandboxes whose
        revocation fails, `sweeps` says whether the sweep does not.  An error leaves the
        tables in step; after a failed sweep the TTL half is done. */
    method TickAt(now: int, failing: set<string>, sweeps: bool) returns (r: Result<seq<string>>)
      requires Valid()
      modifies this
      ensures Valid() && live.Keys <= old(live).Keys
      ensures r.Ok? <==> sweeps && failing !! TtlExpired(old(View()), now)
      ensures r.Ok? ==> Next(old(View()), Tick(now), View())
      ensures r.Ok? ==> Lists(r.value, Reaped(old(View()), now))
      ensures !sweeps && failing !! TtlExpired(old(View()), now) ==>
                Partway(old(View()), TtlExpired(old(View()), now), AfterTtl(old(View()), now), View())
    {
      ghost var st := View();
      var ok, reaped := ReapTtl(now, failing);
      if !ok {
        return Err("revoke");
      }
      if !sweeps {
        return Err("sweep");
      }
      ghost var expired := TtlExpired(st, now);
      var swept := KeysOn(store, Due(store, now));
      var names := set k | k in swept && k.Sandbox? :: k.id;
      AlignedIgnoresStore(View(), Sweep(store, now));
      store := Sweep(store, now);
      ghost var more := names * live.Keys;
      WithoutMore(st, expired, more);
      reaped := ReapNamed(names, reaped, expired);
      assert Reaped(st, now) == expired + more;
      return Ok(reaped);
    }

    /** The lease a project key goes on: the sandbox's own if it lives here, else the one its
        meta key is on. */
    function TagLease(id: string): Option<LeaseId>
      reads this
    {
      if id in live then Some(live[id].lease)
      else if Sandbox(id, Meta) in store.kvs then store.kvs[Sandbox(id, Meta)].lease
      else None
    }

    /** `tag_project`, also for a sandbox placed on another node. */
    method TagProject(id: string, project: string) returns (ok: bool)
      requires Valid()
      modifies this
      ensures Valid() && live == old(live) && backends == old(backends)
      ensures id in live ==> Next(old(View()), Tag(id, project), View())
      ensures id !in live ==> Next(old(View()), Other(OpPut(Sandbox(id, Project), Text(project), old(TagLease(id)))), View())
      ensures ok <==> PutAllowed(old(store), old(TagLease(id)))
      ensures ok ==> Sandbox(id, Project) in store.kvs && store.kvs[Sandbox(id, Project)].value == Text(project)
      ensures ok && id in live ==> store.kvs[Sandbox(id, Project)].lease == Some(live[id].lease)
      ensures ok && id !in live && Sandbox(id, Meta) in old(store.kvs) ==>
                store.kvs[Sandbox(id, Project)].lease == old(store.kvs)[Sandbox(id, Meta)].lease
      ensures ok && id !in live && Sandbox(id, Meta) !in old(store.kvs) ==> store.kvs[Sandbox(id, Project)].lease == None
      ensures forall k :: k != Sandbox(id, Project) ==> (k in store.kvs <==> k in old(store.kvs)) && (k in store.kvs ==> store.kvs[k] == old(store.kvs)[k])
    {
      var lease := TagLease(id);
      ok := PutAllowed(store, lease);
      AlignedIgnoresStore(View(), Put(store, Sandbox(id, Project), Text(project), lease));
      store := Put(store, Sandbox(id, Project), Text(project), lease);
    }

    /** `gc_retention`: the snapshots past their retention, one after the other, each reported
        once.  `failing` are those whose revocation errs, which ends the round; what was
        collected stays collected. */
    method GcRetention(now: int, failing: set<string>) returns (ok: bool, gced: seq<string>)
      requires Valid()
      modifies this
      ensures Valid() && exists ids :: Lists(gced, ids) && Next(old(View()), Gc(now, ids), View())
      ensures ok ==> Lists(gced, RetentionDue(old(store), now)) && Next(old(View()), Gc(now, RetentionDue(old(store), now)), View())
      ensures ok ==> forall id :: id in gced <==>
                && Sandbox(id, Retain) in old(store.kvs) && Sandbox(id, Keys.State) in old(store.kvs)
                && old(store.kvs)[Sandbox(id, Keys.State)].value == Text("paused")
                && old(store.kvs)[Sandbox(id, Retain)].value.Amount? && old(store.kvs)[Sandbox(id, Retain)].value.mib <= now
      ensures forall k :: k in store.kvs <==>
                && k in old(store.kvs)
                && !(k.Sandbox? && k.id in gced && Sandbox(k.id, Retain) in old(store.kvs) && old(store.kvs)[Sandbox(k.id, Retain)].lease == None)
                && !(exists id :: id in gced && Sandbox(id, Retain) in old(store.kvs) && old(store.kvs)[Sandbox(id, Retain)].lease.Some?
                                  && old(store.kvs)[Sandbox(id, Retain)].lease.value in old(store.leases)
                                  && old(store.kvs)[k].lease == old(store.kvs)[Sandbox(id, Retain)].lease)
      ensures !ok ==> exists id :: id in failing && id in RetentionDue(old(store), now)
    {
      ghost var done;
      var s;
      ok, s, gced, done := CollectAll(store, now, failing);
      AlignedIgnoresStore(View(), s);
      store := s;
      assert Next(old(View()), Gc(now, done), View());
    }
  }

  /** The keys a pause writes: the state, the retention of seven days, the size.  On a dead
      lease the store refuses all three. */
  method PauseKeys(s: Store, id: string, lease: LeaseId, now: nat, sizeMib: nat) returns (s': Store)
    ensures OwnWrites(s, s', id, lease) && (lease !in s.leases ==> s' == s)
    ensures lease in s.leases ==>
              && OnLease(s', Sandbox(id, Keys.State), lease) && s'.kvs[Sandbox(id, Keys.State)].value == Text("paused")
              && OnLease(s', Sandbox(id, Retain), lease) && s'.kvs[Sandbox(id, Retain)].value == Amount(now + 604800)
              && OnLease(s', Sandbox(id, Size), lease) && s'.kvs[Sandbox(id, Size)].value == Amount(sizeMib)
  {
    s' := s;
    OwnWrite(s, s', id, lease, Keys.State, Text("paused"));
    s' := Put(s', Sandbox(id, Keys.State), Text("paused"), Some(lease));
    OwnWrite(s, s', id, lease, Retain, Amount(now + 7 * 24 * 3600));
    s' := Put(s', Sandbox(id, Retain), Amount(now + 7 * 24 * 3600), Some(lease));
    OwnWrite(s, s', id, lease, Size, Amount(sizeMib));
    s' := Put(s', Sandbox(id, Size), Amount(sizeMib), Some(lease));
  }

  /** The collecting loop, on what it read first. */
  method CollectAll(s: Store, now: int, failing: set<string>) returns (ok: bool, s': Store, gced: seq<string>, ghost done: set<string>)
    ensures done <= RetentionDue(s, now) && IsCollected(s, done, s') && Lists(gced, done)
    ensures ok ==> done == RetentionDue(s, now)
    ensures !ok ==> exists id :: id in failing && id in RetentionDue(s, now)
  {
    var due := RetentionDue(s, now);
    ok, s', gced, done := true, s, [], {};
    var todo := due;
    NoneCollected(s);
    while todo != {}
      invariant done + todo == due && done !! todo
      invariant IsCollected(s, done, s') && Lists(gced, done)
      decreases todo
    {
      var id :| id in todo;
      assert id in due && Expired(s, id, now);
      match s.kvs[Sandbox(id, Retain)].lease {
        case Some(l) =>
          if id in failing {
            ok := false;
            return;
          }
          CollectLeased(s, done, id, s', l);
          s' := Revoke(s', l);
        case None =>
          var t := DeleteFields(s', id);
          CollectUnleased(s, done, id, s', t);
          s' := t;
      }
      ListsMore(gced, done, id);
      gced := gced + [id];
      todo := todo - {id};
      done := done + {id};
    }
  }

  /** All keys of a sandbox, suffix by suffix. */
  method DeleteFields(s: Store, id: string) returns (t: Store)
    ensures t.leases == s.leases && forall k :: k in t.kvs <==> k in s.kvs && !(k.Sandbox? && k.id == id)
    ensures forall k :: k in t.kvs ==> t.kvs[k] == s.kvs[k]
  {
    var fields := [Meta, Keys.State, Pin, Retain, Project, Owner, Size];
    t := s;
    for i := 0 to |fields|
      invariant t.leases == s.leases
      invariant forall k :: k in t.kvs <==> k in s.kvs && !(k.Sandbox? && k.id == id && k.field in fields[..i])
      invariant forall k :: k in t.kvs ==> t.kvs[k] == s.kvs[k]
    {
      t := LeaseStore.Delete(t, Sandbox(id, fields[i]));
      assert fields[..i + 1] == fields[..i] + [fields[i]];
    }
    AllFields(fields);
  }

  lemma AllFields(fields: seq<Field>)
    requires fields == [Meta, Keys.State, Pin, Retain, Project, Owner, Size]
    ensures fields[..|fields|] == fields && forall f: Field :: f in fields
  {
    assert fields[0] == Meta && fields[1] == Keys.State && fields[2] == Pin && fields[3] == Retain;
    assert fields[4] == Project && fields[5] == Owner && fields[6] == Size;
    forall f: Field ensures f in fields {
      match f
      case Meta => case State => case Pin => case Retain => case Project => case Owner => case Size =>
    }
  }

  lemma NoneCollected(s: Store)
    ensures IsCollected(s, {}, s)
  {
    assert RetainLeases(s, {}) == {} && KeysOn(s, {}) == {} && Unleased(s, {}) == {};
  }

  lemma CollectLeased(s: Store, done: set<string>, id: string, t: Store, l: LeaseId)
    requires IsCollected(s, done, t) && Sandbox(id, Retain) in s.kvs && s.kvs[Sandbox(id, Retain)].lease == Some(l)
    ensures IsCollected(s, done + {id}, Revoke(t, l))
  {
    var ls, gone := RetainLeases(s, done), KeysOn(s, RetainLeases(s, done)) + Unleased(s, done);
    assert RetainLeases(s, done + {id}) == ls + {l};
    assert Unleased(s, done + {id}) == Unleased(s, done);
    assert KeysOn(s, ls + {l}) + Unleased(s, done) == gone + KeysOn(t, {l});
    assert s.kvs - gone - KeysOn(t, {l}) == s.kvs - (gone + KeysOn(t, {l}));
    assert s.leases - ls - {l} == s.leases - (ls + {l});
  }

  lemma CollectUnleased(s: Store, done: set<string>, id: string, t: Store, t': Store)
    requires IsCollected(s, done, t) && Sandbox(id, Retain) in s.kvs && s.kvs[Sandbox(id, Retain)].lease == None
    requires t'.leases == t.leases && forall k :: k in t'.kvs <==> k in t.kvs && !(k.Sandbox? && k.id == id)
    requires forall k :: k in t'.kvs ==> t'.kvs[k] == t.kvs[k]
    ensures IsCollected(s, done + {id}, t')
  {
    assert RetainLeases(s, done + {id}) == RetainLeases(s, done);
    var gone := KeysOn(s, RetainLeases(s, done)) + Unleased(s, done + {id});
    assert t'.kvs == s.kvs - gone;
  }

  ghost predicate NoDuplicates(s: seq<string>) {
    forall i, j :: 0 <= i < j < |s| ==> s[i] != s[j]
  }

  ghost predicate Lists(s: seq<string>, ids: set<string>) {
    NoDuplicates(s) && forall id :: id in s <==> id in ids
  }

  /** `cur` is `st` with `ids` out of both tables and the store at `s`. */
  ghost predicate Partway(st: Lifecycle.State, ids: set<string>, s: Store, cur: Lifecycle.State) {
    cur.live == st.live - ids && cur.backends == Without(st, ids).backends && cur.store == s
  }

  lemma DropIsWithout(st: Lifecycle.State, id: string)
    requires Aligned(st) && id in st.live
    ensures DropInstance(st, st.live[id].backend, id).backends == Without(st, {id}).backends
  {
    forall b | 0 <= b < |st.backends| && b != st.live[id].backend ensures st.backends[b] - {id} == st.backends[b] {
      assert id !in st.backends[b];
    }
  }

  lemma PartwayForget(st: Lifecycle.State, ids: set<string>, id: string, cur: Lifecycle.State, next: Lifecycle.State)
    requires Partway(st, ids, cur.store, cur) && DestroySpec(cur, next, id, false)
    ensures Partway(st, ids + {id}, cur.store, next)
  {
    WithoutMore(st, ids, {id});
    assert Without(cur, {id}).backends == Without(Without(st, ids), {id}).backends;
  }

  lemma PartwayDestroy(st: Lifecycle.State, done: set<string>, id: string, cur: Lifecycle.State, next: Lifecycle.State)
    requires Partway(st, done, Reap(st.store, LeasesOf(st, done)), cur) && DestroySpec(cur, next, id, true)
    ensures Partway(st, done + {id}, Reap(st.store, LeasesOf(st, done + {id})), next)
  {
    PartwayForget(st, done, id, cur, next.(store := cur.store));
    LeasesOfMore(st, done, id);
  }

  lemma ListsMore(s: seq<string>, ids: set<string>, id: string)
    requires Lists(s, ids) && id !in ids
    ensures Lists(s + [id], ids + {id})
  {
  }

  lemma LeasesOfMore(st: Lifecycle.State, done: set<string>, id: string)
    requires id in st.live
    ensures Revoke(Reap(st.store, LeasesOf(st, done)), st.live[id].lease) == Reap(st.store, LeasesOf(st, done + {id}))
  {
    assert LeasesOf(st, done + {id}) == LeasesOf(st, done) + {st.live[id].lease};
    ReapOneMore(st.store, LeasesOf(st, done), st.live[id].lease);
  }

  lemma WithoutNone(st: Lifecycle.State)
    ensures Without(st, {}) == st && LeasesOf(st, {}) == {} && Reap(st.store, {}) == st.store
  {
    assert KeysOn(st.store, {}) == {};
    forall b | 0 <= b < |st.backends| ensures st.backends[b] - {} == st.backends[b] {
    }
  }

  lemma WithoutMore(st: Lifecycle.State, a: set<string>, b: set<string>)
    ensures Without(Without(st, a), b) == Without(st, a + b)
  {
    assert st.live - a - b == st.live - (a + b);
    forall i | 0 <= i < |st.backends| ensures st.backends[i] - a - b == st.backends[i] - (a + b) {
    }
  }
}
