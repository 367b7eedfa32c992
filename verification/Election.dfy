/** Leader election as interleaved store steps of any number of participants. */
module ElectionProtocol {
  import opened Common
  import opened Keys
  import opened LeaseStore

  /** Where a participant stands inside `try_campaign` or `resign`. */
  datatype Pc =
    | Idle
    | Renewed                      // keepalive succeeded, the confirming read is next
    | Campaigning                  // about to ask for a lease
    | Granted(lease: LeaseId)      // holds a fresh lease, the swap is next
    | Lost(lease: LeaseId)         // lost the swap, about to give the lease back
    | Resigning(lease: LeaseId)    // gave up leadership, about to revoke

  datatype Node = Node(id: string, rec: Option<LeaseId>, pc: Pc)

  datatype Sys = Sys(store: Store, nodes: seq<Node>)

  datatype Step =
    | Renew(i: nat, now: int, reply: bool)            // reply: the call was answered
    | RenewFails(i: nat)
    | Confirm(i: nat, reply: bool)
    | Begin(i: nat)
    | Ask(i: nat, id: LeaseId, ttl: int, now: int)
    | AskFails(i: nat)
    | Swap(i: nat, reply: bool)
    | SwapFails(i: nat)
    | GiveBack(i: nat, reply: bool)
    | Resign(i: nat)
    | Withdraw(i: nat, reply: bool)
    | Crash(i: nat)
    | Other(op: Op)                                   // any other client of the store, and expiry

  ghost predicate WellFormed(sys: Sys) {
    forall i, j :: 0 <= i < |sys.nodes| && 0 <= j < |sys.nodes| && sys.nodes[i].id == sys.nodes[j].id ==> i == j
  }

  /** Other clients leave the leader key alone, except that its lease may be reaped. */
  predicate Foreign(s: Store, op: Op) {
    && Enabled(s, op)
    && (op.OpPut? || op.OpDelete? || op.OpCas? ==> op.key != Leader)
  }

  predicate NodeCan(s: Store, n: Node, step: Step) {
    match step
    case Ask(_, id, _, _) => n.pc.Campaigning? && id !in s.leases
    case Renew(_, _, _) => n.pc.Idle? && n.rec.Some?
    case RenewFails(_) => n.pc.Idle? && n.rec.Some?
    case Begin(_) => n.pc.Idle? && n.rec.None?
    case Confirm(_, _) => n.pc.Renewed?
    case AskFails(_) => n.pc.Campaigning?
    case Swap(_, _) => n.pc.Granted?
    case SwapFails(_) => n.pc.Granted?
    case GiveBack(_, _) => n.pc.Lost?
    case Resign(_) => n.pc.Idle?
    case Withdraw(_, _) => n.pc.Resigning?
    case Crash(_) => true
    case Other(_) => false
  }

  predicate Can(sys: Sys, step: Step) {
    if step.Other? then Foreign(sys.store, step.op)
    else step.i < |sys.nodes| && NodeCan(sys.store, sys.nodes[step.i], step)
  }

  predicate HoldsKey(s: Store, id: string) {
    Leader in s.kvs && s.kvs[Leader].value == Text(id)
  }

  /** What one step does to the acting participant and to the store. */
  function Act(s: Store, n: Node, step: Step): (r: (Store, Node))
    requires NodeCan(s, n, step)
  {
    match step
    case Renew(_, now, reply) =>
      var s' := Keepalive(s, n.rec.value, now);
      if reply && n.rec.value in s.leases then (s', n.(pc := Renewed)) else (s', n.(rec := None, pc := Campaigning))
    case RenewFails(_) => (s, n.(rec := None, pc := Campaigning))
    case Confirm(_, reply) =>
      if !reply then (s, n.(pc := Idle))
      else if HoldsKey(s, n.id) then (s, n.(pc := Idle))
      else (s, n.(rec := None, pc := Campaigning))
    case Begin(_) => (s, n.(pc := Campaigning))
    case Ask(_, id, ttl, now) => (Grant(s, id, ttl, now), n.(pc := Granted(id)))
    case AskFails(_) => (s, n.(pc := Idle))
    case Swap(_, reply) =>
      var s' := Cas(s, Leader, None, Text(n.id), Some(n.pc.lease));
      if !reply then (s', n.(pc := Idle))
      else if CasSucceeds(s, Leader, None) then (s', n.(rec := Some(n.pc.lease), pc := Idle))
      else (s', n.(pc := Lost(n.pc.lease)))
    case SwapFails(_) => (s, n.(pc := Idle))
    case GiveBack(_, reply) => (if reply then Revoke(s, n.pc.lease) else s, n.(pc := Idle))
    case Resign(_) => (s, if n.rec.Some? then n.(rec := None, pc := Resigning(n.rec.value)) else n)
    case Withdraw(_, reply) => (if reply then Revoke(s, n.pc.lease) else s, n.(pc := Idle))
    case Crash(_) => (s, n.(rec := None, pc := Idle))
  }

  function Next(sys: Sys, step: Step): (sys': Sys)
    requires Can(sys, step)
  {
    if step.Other? then sys.(store := Do(sys.store, step.op))
    else
      var r := Act(sys.store, sys.nodes[step.i], step);
      Sys(r.0, sys.nodes[step.i := r.1])
  }

  // ----- safety -----

  predicate LeaderIs(s: Store, id: string, lease: LeaseId) {
    HoldsKey(s, id) && s.kvs[Leader].lease == Some(lease)
  }

  /** A recorded lease that is alive is the one the leader key sits on, under that
      participant's id. */
  ghost predicate Sound(sys: Sys) {
    forall i | 0 <= i < |sys.nodes| :: Leads(sys, i) ==> LeaderIs(sys.store, sys.nodes[i].id, sys.nodes[i].rec.value)
  }

  /** While a participant records a lease, a leader key with its name is on that lease. */
  ghost predicate Named(sys: Sys) {
    forall i :: 0 <= i < |sys.nodes| && sys.nodes[i].rec.Some? && HoldsKey(sys.store, sys.nodes[i].id) ==>
      sys.store.kvs[Leader].lease == sys.nodes[i].rec
  }

  predicate Mentions(n: Node, id: LeaseId) {
    n.rec == Some(id) || ((n.pc.Granted? || n.pc.Lost? || n.pc.Resigning?) && n.pc.lease == id)
  }

  /** No two participants mention one lease, and none mentions one lease twice. */
  ghost predicate Owned(sys: Sys) {
    && (forall i, j, id | 0 <= i < |sys.nodes| && 0 <= j < |sys.nodes| ::
          Mentions(sys.nodes[i], id) && Mentions(sys.nodes[j], id) ==> i == j)
    && (forall i :: 0 <= i < |sys.nodes| && sys.nodes[i].rec.Some? ==> sys.nodes[i].pc.Idle? || sys.nodes[i].pc.Renewed?)
  }

  ghost predicate Inv(sys: Sys) {
    WellFormed(sys) && Sound(sys) && Named(sys) && Owned(sys)
  }

  predicate Leads(sys: Sys, i: nat)
    requires i < |sys.nodes|
  {
    sys.nodes[i].rec.Some? && sys.nodes[i].rec.value in sys.store.leases
  }

  ghost predicate Exclusive(sys: Sys) {
    forall i, j | 0 <= i < |sys.nodes| && 0 <= j < |sys.nodes| :: Leads(sys, i) && Leads(sys, j) ==> i == j
  }

  ghost predicate Unheld(sys: Sys, id: LeaseId) {
    forall j :: 0 <= j < |sys.nodes| ==> !Mentions(sys.nodes[j], id)
  }

  /** The id a grant hands out is one nobody still holds on to. */
  ghost predicate UnheldGrant(sys: Sys, step: Step) {
    && (step.Ask? ==> Unheld(sys, step.id))
    && (step.Other? && step.op.OpGrant? ==> Unheld(sys, step.op.id))
  }

  /** The id a grant hands out is the one SQLite picks. */
  ghost predicate SqliteGrant(sys: Sys, step: Step) {
    && (step.Ask? ==> IsNextId(sys.store, step.id))
    && (step.Other? && step.op.OpGrant? ==> IsNextId(sys.store, step.op.id))
  }

  lemma SoundGivesExclusive(sys: Sys)
    requires WellFormed(sys) && Sound(sys)
    ensures Exclusive(sys)
  {
  }

  lemma SoundKept(sys: Sys, step: Step)
    requires Inv(sys) && Can(sys, step) && UnheldGrant(sys, step)
    ensures Sound(Next(sys, step))
  {
    var sys' := Next(sys, step);
    forall j | 0 <= j < |sys'.nodes| && Leads(sys', j)
      ensures LeaderIs(sys'.store, sys'.nodes[j].id, sys'.nodes[j].rec.value)
    {
      if !step.Other? && j == step.i {
      } else {
        assert sys'.nodes[j] == sys.nodes[j];
      }
    }
  }

  lemma NamedKept(sys: Sys, step: Step)
    requires Inv(sys) && Can(sys, step)
    ensures WellFormed(Next(sys, step)) && Named(Next(sys, step))
  {
    var sys' := Next(sys, step);
    forall j | 0 <= j < |sys'.nodes| && sys'.nodes[j].rec.Some? && HoldsKey(sys'.store, sys'.nodes[j].id)
      ensures sys'.store.kvs[Leader].lease == sys'.nodes[j].rec
    {
      if !step.Other? && j != step.i {
        assert sys'.nodes[j] == sys.nodes[j];
      }
    }
  }

  lemma OwnedKept(sys: Sys, step: Step)
    requires Owned(sys) && Can(sys, step) && UnheldGrant(sys, step)
    ensures Owned(Next(sys, step))
  {
    var sys' := Next(sys, step);
    if !step.Other? {
      var n, n' := sys.nodes[step.i], sys'.nodes[step.i];
      assert forall id :: Mentions(n', id) ==> Mentions(n, id) || (step.Ask? && id == step.id);
      assert forall j :: 0 <= j < |sys.nodes| && j != step.i ==> sys'.nodes[j] == sys.nodes[j];
    }
  }

  ghost predicate RunOk(sys: Sys, steps: seq<Step>)
    decreases |steps|
  {
    steps != [] ==> Can(sys, steps[0]) && RunOk(Next(sys, steps[0]), steps[1..])
  }

  ghost function After(sys: Sys, steps: seq<Step>): Sys
    requires RunOk(sys, steps)
    decreases |steps|
  {
    if steps == [] then sys else After(Next(sys, steps[0]), steps[1..])
  }

  ghost predicate NeverReissued(sys: Sys, steps: seq<Step>)
    requires RunOk(sys, steps)
    decreases |steps|
  {
    steps != [] ==> UnheldGrant(sys, steps[0]) && NeverReissued(Next(sys, steps[0]), steps[1..])
  }

  ghost predicate OnSqlite(sys: Sys, steps: seq<Step>)
    requires RunOk(sys, steps)
    decreases |steps|
  {
    steps != [] ==> SqliteGrant(sys, steps[0]) && OnSqlite(Next(sys, steps[0]), steps[1..])
  }

  function Issued(step: Step): set<LeaseId> {
    if step.Ask? then {step.id} else if step.Other? && step.op.OpGrant? then {step.op.id} else {}
  }

  /** The store never hands out an id twice. */
  ghost predicate IdsDistinct(steps: seq<Step>, used: set<LeaseId>)
    decreases |steps|
  {
    steps != [] ==> Issued(steps[0]) !! used && IdsDistinct(steps[1..], used + Issued(steps[0]))
  }

  /** A store that numbers leases uniquely never reissues one that is held on to. */
  lemma {:induction false} DistinctIdsSuffice(sys: Sys, steps: seq<Step>, used: set<LeaseId>)
    requires RunOk(sys, steps) && IdsDistinct(steps, used)
    requires forall i, id :: 0 <= i < |sys.nodes| && Mentions(sys.nodes[i], id) ==> id in used
    ensures NeverReissued(sys, steps)
    decreases |steps|
  {
    if steps != [] {
      var sys' := Next(sys, steps[0]);
      forall i, id | 0 <= i < |sys'.nodes| && Mentions(sys'.nodes[i], id) ensures id in used + Issued(steps[0]) {
        assert Mentions(sys.nodes[i], id) || id in Issued(steps[0]);
      }
      DistinctIdsSuffice(sys', steps[1..], used + Issued(steps[0]));
    }
  }

  ghost predicate Fresh(sys: Sys) {
    WellFormed(sys) && forall i :: 0 <= i < |sys.nodes| ==> sys.nodes[i].rec.None? && sys.nodes[i].pc.Idle?
  }

  lemma {:induction false} InvHolds(sys: Sys, steps: seq<Step>)
    requires Inv(sys) && RunOk(sys, steps) && NeverReissued(sys, steps)
    ensures Inv(After(sys, steps))
    decreases |steps|
  {
    if steps != [] {
      SoundKept(sys, steps[0]);
      NamedKept(sys, steps[0]);
      OwnedKept(sys, steps[0]);
      InvHolds(Next(sys, steps[0]), steps[1..]);
    }
  }

  /** MAIN: in every interleaving — grants, swaps, keepalives, reads, revocations,
      expiry, lost replies, crashes, other clients — at most one participant's
      recorded lease is alive, and then the leader key carries that participant's
      id on that very lease. */
  lemma AtMostOneLeader(sys: Sys, steps: seq<Step>)
    requires Fresh(sys) && RunOk(sys, steps) && NeverReissued(sys, steps)
    ensures Sound(After(sys, steps)) && Exclusive(After(sys, steps))
  {
    InvHolds(sys, steps);
    SoundGivesExclusive(After(sys, steps));
  }

  /** MAIN: a participant whose confirming read answers "still leader" holds the
      leader key on the lease it has recorded, at the moment of that read. */
  lemma ConfirmedMeansHeld(sys: Sys, steps: seq<Step>, i: nat)
    requires Fresh(sys) && RunOk(sys, steps) && NeverReissued(sys, steps) && Can(After(sys, steps), Confirm(i, true))
    requires Next(After(sys, steps), Confirm(i, true)).nodes[i].rec.Some?
    ensures LeaderIs(After(sys, steps).store, After(sys, steps).nodes[i].id, After(sys, steps).nodes[i].rec.value)
  {
    InvHolds(sys, steps);
  }

  /** MAIN: nobody deposes a leader but itself or expiry: a step of another
      participant leaves a live leader's lease and the leader key as they were. */
  lemma OthersNeverDepose(sys: Sys, steps: seq<Step>, step: Step, j: nat)
    requires Fresh(sys) && RunOk(sys, steps) && NeverReissued(sys, steps)
    requires var now := After(sys, steps);
             && Can(now, step) && !step.Other? && step.i != j < |now.nodes|
             && Leads(now, j)
    ensures var now := After(sys, steps);
            var next := Next(now, step);
            && next.nodes[j] == now.nodes[j] && Leads(next, j)
            && Leader in now.store.kvs && Leader in next.store.kvs && next.store.kvs[Leader] == now.store.kvs[Leader]
  {
    InvHolds(sys, steps);
    var now := After(sys, steps);
    var l := now.nodes[j].rec.value;
    assert Leads(now, j) && LeaderIs(now.store, now.nodes[j].id, l);
    assert Mentions(now.nodes[j], l) && !Mentions(now.nodes[step.i], l);
  }

  // ----- when the guarantee fails -----

  /** The step grants this lease, to a participant or to any other client. */
  predicate Grants(step: Step, id: LeaseId) {
    (step.Ask? && step.id == id) || (step.Other? && step.op.OpGrant? && step.op.id == id)
  }

  /** A grant, whoever asks for it, breaks the guarantee exactly when the id it returns is
      still recorded by a participant who does not hold the key on it. */
  lemma GrantKeepsSoundIff(sys: Sys, step: Step, id: LeaseId)
    requires Sound(sys) && Can(sys, step) && Grants(step, id) && (step.Ask? ==> sys.nodes[step.i].rec.None?)
    ensures Sound(Next(sys, step)) <==>
            forall j :: 0 <= j < |sys.nodes| && sys.nodes[j].rec == Some(id) ==> LeaderIs(sys.store, sys.nodes[j].id, id)
  {
    var sys' := Next(sys, step);
    forall j | 0 <= j < |sys.nodes| ensures sys'.nodes[j].rec == sys.nodes[j].rec && sys'.nodes[j].id == sys.nodes[j].id {
    }
    if Sound(sys') {
      forall j | 0 <= j < |sys.nodes| && sys.nodes[j].rec == Some(id) ensures LeaderIs(sys.store, sys.nodes[j].id, id) {
        assert Leads(sys', j);
        assert LeaderIs(sys'.store, sys'.nodes[j].id, id);
      }
    }
  }

  // The states and steps of a concrete run on SQLite.

  const one := LeaseId(1)
  const fromA := KeyValue(Text("a"), 1, 1, Some(one))
  const fromB := KeyValue(Text("b"), 3, 3, Some(one))

  const script := [Begin(0), Ask(0, one, 30, 0), Swap(0, true), Other(OpReap({one})), Begin(1), Ask(1, one, 30, 31), Swap(1, true)]

  function Scene(k: nat): Sys {
    if k == 0 then Sys(Store(map[], map[], 0), [Node("a", None, Idle), Node("b", None, Idle)])
    else if k == 1 then Sys(Store(map[], map[], 0), [Node("a", None, Campaigning), Node("b", None, Idle)])
    else if k == 2 then Sys(Store(map[], map[one := Lease(30, 30)], 0), [Node("a", None, Granted(one)), Node("b", None, Idle)])
    else if k == 3 then Sys(Store(map[Leader := fromA], map[one := Lease(30, 30)], 1), [Node("a", Some(one), Idle), Node("b", None, Idle)])
    else if k == 4 then Sys(Store(map[], map[], 2), [Node("a", Some(one), Idle), Node("b", None, Idle)])
    else if k == 5 then Sys(Store(map[], map[], 2), [Node("a", Some(one), Idle), Node("b", None, Campaigning)])
    else if k == 6 then Sys(Store(map[], map[one := Lease(30, 61)], 2), [Node("a", Some(one), Idle), Node("b", None, Granted(one))])
    else Sys(Store(map[Leader := fromB], map[one := Lease(30, 61)], 3), [Node("a", Some(one), Idle), Node("b", Some(one), Idle)])
  }

  lemma SceneStep(k: nat)
    requires k < 7
    ensures Can(Scene(k), script[k]) && SqliteGrant(Scene(k), script[k]) && Next(Scene(k), script[k]) == Scene(k + 1)
  {
    if k == 3 {
      assert KeysOn(Scene(3).store, {one}) == {Leader};
      assert Scene(3).store.kvs - {Leader} == map[];
      assert Scene(3).store.leases - {one} == map[];
    }
  }

  lemma {:induction false} SceneRun(k: nat)
    requires k <= 7
    ensures RunOk(Scene(k), script[k..]) && OnSqlite(Scene(k), script[k..]) && After(Scene(k), script[k..]) == Scene(7)
    decreases 7 - k
  {
    if k < 7 {
      SceneStep(k);
      SceneRun(k + 1);
      assert script[k..][1..] == script[k + 1..];
    }
  }

  /** SQLite numbers leases one above the largest still present, so it does hand out
      an old id.  Two participants: the first leads on lease 1, it expires, the
      second is given id 1 again and leads — and the first still records lease 1, alive. */
  lemma ReissuedIdBreaksIt(start: Sys, steps: seq<Step>)
    requires start == Scene(0) && steps == script
    ensures Fresh(start) && RunOk(start, steps) && OnSqlite(start, steps) && After(start, steps) == Scene(7)
    ensures !Exclusive(Scene(7)) && !Sound(Scene(7)) && HoldsKey(Scene(7).store, "b")
  {
    SceneRun(0);
    assert steps == script[0..];
    assert Leads(Scene(7), 0) && Leads(Scene(7), 1);
    assert !LeaderIs(Scene(7).store, "a", one);
  }

  /** There the first participant's resignation takes the second leader's key away. */
  lemma ThenResigningDeposes(end: Sys)
    requires end == Scene(7)
    ensures Can(end, Resign(0)) && Can(Next(end, Resign(0)), Withdraw(0, true))
    ensures HoldsKey(end.store, "b") && Leader !in Next(Next(end, Resign(0)), Withdraw(0, true)).store.kvs
  {
    assert Leader in KeysOn(Next(end, Resign(0)).store, {one});
  }
}

/** The participant object.  Alone with its store, each call is a run of the protocol. */
module Election {
  import opened Common
  import opened Keys
  import opened LeaseStore
  import opened ElectionProtocol
  import SqliteStore

  /** Which store calls of one attempt err; `applied` says that they took effect all the same. */
  datatype Faults = Faults(keepalive: bool, confirm: bool, grant: bool, swap: bool, giveBack: bool, applied: bool)

  class Participant {
    const store: SqliteStore.Sqlite
    const nodeId: string
    const ttl: int
    var lease: Option<LeaseId>

    constructor (store: SqliteStore.Sqlite, nodeId: string, ttl: int)
      ensures this.store == store && this.nodeId == nodeId && this.ttl == ttl && lease == None
    {
      this.store, this.nodeId, this.ttl, this.lease := store, nodeId, ttl, None;
    }

    /** This participant, alone, between calls. */
    ghost function Solo(): Sys
      reads this, store
    {
      Sys(store.View(), [Node(nodeId, lease, Idle)])
    }

    method HoldsLeadership() returns (held: bool)
      ensures held <==> HoldsKey(store.View(), nodeId)
      ensures held <==> Leader in store.kvs && store.kvs[Leader].value == Text(nodeId)
    {
      var kv := store.Get(Leader);
      held := kv.Some? && kv.value.value == Text(nodeId);
    }

    /** The recorded lease is alive and the keepalive reports it. */
    ghost predicate Renewable(f: Faults)
      reads this, store
    {
      lease.Some? && lease.value in store.leases && !f.keepalive
    }

    /** This lease now runs its ttl from `now` on, and no other lease has changed. */
    twostate predicate Extended(now: int, l: LeaseId)
      reads this, store
    {
      && l in old(store.leases)
      && store.leases == old(store.leases)[l := Lease(old(store.leases)[l].ttl, now + old(store.leases)[l].ttl)]
    }

    /** The leader key is new, on a new lease that runs `ttl` from `now` on, and nothing else
        has changed. */
    twostate predicate TookOver(now: int, l: LeaseId)
      reads this, store
    {
      && l !in old(store.leases) && Leader !in old(store.kvs)
      && store.leases == old(store.leases)[l := Lease(ttl, now + ttl)]
      && store.kvs == old(store.kvs)[Leader := KeyValue(Text(nodeId), old(store.rev) + 1, old(store.rev) + 1, Some(l))]
    }

    /** The renewal half of `try_campaign`.  Only the confirming read can end it with an
        error, and then the lease stays recorded. */
    method Renewal(now: int, f: Faults) returns (r: Result<bool>, ghost steps: seq<Step>)
      requires store.Valid() && lease.Some?
      modifies this`lease, store
      ensures store.Valid() && store.kvs == old(store.kvs) && store.rev == old(store.rev)
      ensures old(Renewable(f)) ==> Extended(now, old(lease).value)
      ensures !old(Renewable(f)) ==> store.leases == old(store.leases) || (f.keepalive && f.applied && Extended(now, old(lease).value))
      ensures r.Err? <==> old(Renewable(f)) && f.confirm
      ensures r.Ok? ==> (r.value <==> old(Renewable(f)) && HoldsKey(old(store.View()), nodeId))
      ensures RunOk(old(Solo()), steps)
      ensures r != Ok(false) ==> lease == old(lease) && After(old(Solo()), steps) == Solo()
      ensures r == Ok(false) ==> lease == None && After(old(Solo()), steps) == Sys(store.View(), [Node(nodeId, None, Campaigning)])
    {
      ghost var start := Solo();
      if f.keepalive && !f.applied {
        One(start, RenewFails(0));
        lease := None;
        return Ok(false), [RenewFails(0)];
      }
      var kept := store.LeaseKeepalive(lease.value, now);
      if f.keepalive || kept.Err? {
        One(start, Renew(0, now, !f.keepalive));
        lease := None;
        return Ok(false), [Renew(0, now, !f.keepalive)];
      }
      Two(start, Renew(0, now, true), Confirm(0, !f.confirm));
      steps := [Renew(0, now, true), Confirm(0, !f.confirm)];
      if f.confirm {
        return Err("read"), steps;
      }
      var held := HoldsLeadership();
      if !held { lease := None; }
      r := Ok(held);
    }

    /** The campaigning half: a fresh lease, the swap, and the lease given back on defeat. */
    method Campaign(now: int, f: Faults) returns (r: Result<bool>, ghost steps: seq<Step>)
      requires store.Valid() && lease == None
      modifies this`lease, store
      ensures store.Valid()
      ensures r.Err? <==> f.grant || f.swap
      ensures r.Ok? ==> (r.value <==> Leader !in old(store.kvs))
      ensures r == Ok(true) ==> lease.Some? && TookOver(now, lease.value)
      ensures r != Ok(true) ==> lease == None
      ensures r == Ok(false) && !f.giveBack ==> store.leases == old(store.leases)
      ensures r == Ok(false) && !f.giveBack && NoDangling(old(store.View())) ==> store.kvs == old(store.kvs)
      ensures var mid := Sys(old(store.View()), [Node(nodeId, None, Campaigning)]);
              RunOk(mid, steps) && After(mid, steps) == Solo()
    {
      if f.grant {
        steps := FailedGrant(now, f.applied);
        r := Err("grant");
      } else if f.swap {
        steps := FailedSwap(now, f.applied);
        r := Err("swap");
      } else {
        r, steps := Contend(now, f.giveBack);
      }
    }

    method Contend(now: int, keeps: bool) returns (r: Result<bool>, ghost steps: seq<Step>)
      requires store.Valid() && lease == None
      modifies this`lease, store
      ensures store.Valid() && r == Ok(Leader !in old(store.kvs))
      ensures r == Ok(true) ==> lease.Some? && TookOver(now, lease.value)
      ensures r != Ok(true) ==> lease == None
      ensures r == Ok(false) && !keeps ==> store.leases == old(store.leases)
      ensures r == Ok(false) && !keeps && NoDangling(old(store.View())) ==> store.kvs == old(store.kvs)
      ensures var mid := Sys(old(store.View()), [Node(nodeId, None, Campaigning)]);
              RunOk(mid, steps) && After(mid, steps) == Solo()
    {
      ghost var s := store.View();
      var id := store.LeaseGrant(ttl, now);
      var won, _, _ := store.CompareAndSwap(Leader, None, Text(nodeId), Some(id));
      if won {
        lease := Some(id);
        steps := [Ask(0, id, ttl, now), Swap(0, true)];
        WinningRun(s, nodeId, id, ttl, now);
      } else {
        if !keeps {
          LeavesNothing(s, id, ttl, now);
          var _ := store.LeaseRevoke(id);
        }
        steps := [Ask(0, id, ttl, now), Swap(0, true), GiveBack(0, !keeps)];
        LosingRun(s, nodeId, id, ttl, now, !keeps);
      }
      r := Ok(won);
    }

    /** The swap errs, with or without effect; the lease is left to expire. */
    method FailedSwap(now: int, applied: bool) returns (ghost steps: seq<Step>)
      requires store.Valid() && lease == None
      modifies store
      ensures store.Valid()
      ensures var mid := Sys(old(store.View()), [Node(nodeId, None, Campaigning)]);
              RunOk(mid, steps) && After(mid, steps) == Solo()
    {
      ghost var s := store.View();
      var id := store.LeaseGrant(ttl, now);
      if applied {
        var _, _, _ := store.CompareAndSwap(Leader, None, Text(nodeId), Some(id));
      }
      UnansweredRun(s, nodeId, id, ttl, now, applied);
      steps := [Ask(0, id, ttl, now), if applied then Swap(0, false) else SwapFails(0)];
    }

    /** The grant errs; the lease may be there all the same, for nobody. */
    method FailedGrant(now: int, applied: bool) returns (ghost steps: seq<Step>)
      requires store.Valid() && lease == None
      modifies store
      ensures store.Valid() && store.kvs == old(store.kvs)
      ensures var mid := Sys(old(store.View()), [Node(nodeId, None, Campaigning)]);
              RunOk(mid, steps) && After(mid, steps) == Solo()
    {
      ghost var mid := Sys(store.View(), [Node(nodeId, None, Campaigning)]);
      if applied {
        var id := store.LeaseGrant(ttl, now);
        steps := [Other(OpGrant(id, ttl, now)), AskFails(0)];
        Two(mid, steps[0], steps[1]);
      } else {
        steps := [AskFails(0)];
        One(mid, steps[0]);
      }
    }

    /** `try_campaign`: renew and confirm, else campaign afresh.  Without store errors the
        answer is "leader" exactly when a live recorded lease was confirmed by the key, or
        the key was free. */
    method TryCampaign(now: int, f: Faults) returns (r: Result<bool>, ghost steps: seq<Step>)
      requires store.Valid()
      modifies this`lease, store
      ensures store.Valid()
      ensures RunOk(old(Solo()), steps) && After(old(Solo()), steps) == Solo()
      ensures var renewed := old(Renewable(f)) && HoldsKey(old(store.View()), nodeId);
              && (r.Err? <==> (old(Renewable(f)) && f.confirm) || (!renewed && (f.grant || f.swap)))
              && (r.Ok? ==> (r.value <==> renewed || Leader !in old(store.kvs)))
      ensures r.Ok? ==> (r.value <==> lease.Some?)
      ensures r == Ok(true) ==> HoldsKey(store.View(), nodeId)
      ensures r == Ok(true) && old(Renewable(f)) && HoldsKey(old(store.View()), nodeId) ==>
                lease == old(lease) && store.kvs == old(store.kvs) && Extended(now, lease.value)
      ensures r == Ok(true) && !(old(Renewable(f)) && HoldsKey(old(store.View()), nodeId)) ==>
                && lease.value in store.leases && store.leases[lease.value] == Lease(ttl, now + ttl)
                && lease.value !in old(store.leases) && LeaderIs(store.View(), nodeId, lease.value)
                && forall k :: k != Leader ==> (k in store.kvs <==> k in old(store.kvs)) && (k in store.kvs ==> store.kvs[k] == old(store.kvs)[k])
      ensures r == Ok(true) ==> forall l :: l in old(store.leases) && Some(l) != old(lease) ==> l in store.leases && store.leases[l] == old(store.leases)[l]
      ensures r == Ok(false) && !f.giveBack && NoDangling(old(store.View())) ==> store.kvs == old(store.kvs)
    {
      ghost var start := Solo();
      ghost var first: seq<Step>;
      if lease.Some? {
        r, first := Renewal(now, f);
        if r != Ok(false) { return r, first; }
      } else {
        first := [Begin(0)];
        One(start, first[0]);
      }
      ghost var mid := Sys(store.View(), [Node(nodeId, None, Campaigning)]);
      assert After(start, first) == mid;
      ghost var rest;
      r, rest := Campaign(now, f);
      Chain(start, first, rest);
      steps := first + rest;
    }

    /** `resign`: idempotent; afterwards nothing is recorded and, unless the revocation errs
        without effect, the old lease is gone. */
    method Resign(fails: bool, applied: bool) returns (ok: bool, ghost steps: seq<Step>)
      requires store.Valid()
      modifies this`lease, store
      ensures store.Valid() && lease == None
      ensures ok <==> old(lease) == None || !fails
      ensures RunOk(old(Solo()), steps) && After(old(Solo()), steps) == Solo()
      ensures store.View() == if old(lease).Some? && (!fails || applied) then Revoke(old(store.View()), old(lease).value) else old(store.View())
    {
      ghost var start := Solo();
      if lease == None {
        One(start, ElectionProtocol.Resign(0));
        return true, [ElectionProtocol.Resign(0)];
      }
      var id := lease.value;
      lease := None;
      var done := !fails || applied;
      if done {
        var _ := store.LeaseRevoke(id);
      }
      Two(start, ElectionProtocol.Resign(0), Withdraw(0, done));
      return !fails, [ElectionProtocol.Resign(0), Withdraw(0, done)];
    }
  }

  lemma One(sys: Sys, a: Step)
    requires Can(sys, a)
    ensures RunOk(sys, [a]) && After(sys, [a]) == Next(sys, a)
  {
    assert [a][1..] == [];
    var s1 := Next(sys, a);
    assert RunOk(s1, []) && After(s1, []) == s1;
    assert After(sys, [a]) == After(s1, [a][1..]);
  }

  lemma WinningRun(s: Store, name: string, id: LeaseId, ttl: int, now: int)
    requires id !in s.leases && Leader !in s.kvs
    ensures var mid, steps := Sys(s, [Node(name, None, Campaigning)]), [Ask(0, id, ttl, now), Swap(0, true)];
            && RunOk(mid, steps)
            && After(mid, steps) == Sys(Write(Grant(s, id, ttl, now), Leader, Text(name), Some(id)), [Node(name, Some(id), Idle)])
  {
    var mid := Sys(s, [Node(name, None, Campaigning)]);
    assert Next(mid, Ask(0, id, ttl, now)) == Sys(Grant(s, id, ttl, now), [Node(name, None, Granted(id))]);
    Two(mid, Ask(0, id, ttl, now), Swap(0, true));
  }

  /** A lease granted and revoked again leaves nothing behind. */
  lemma LeavesNothing(s: Store, id: LeaseId, ttl: int, now: int)
    requires id !in s.leases
    ensures Revoke(Grant(s, id, ttl, now), id).leases == s.leases
    ensures NoDangling(s) ==> Revoke(Grant(s, id, ttl, now), id).kvs == s.kvs
  {
    var t := Grant(s, id, ttl, now);
    assert t.leases - {id} == s.leases;
    if NoDangling(s) { assert KeysOn(t, {id}) == {} && t.kvs - {} == t.kvs; }
  }

  lemma LosingRun(s: Store, name: string, id: LeaseId, ttl: int, now: int, back: bool)
    requires id !in s.leases && Leader in s.kvs
    ensures var mid, steps := Sys(s, [Node(name, None, Campaigning)]), [Ask(0, id, ttl, now), Swap(0, true), GiveBack(0, back)];
            var t := Grant(s, id, ttl, now);
            && RunOk(mid, steps)
            && After(mid, steps) == Sys(if back then Revoke(t, id) else t, [Node(name, None, Idle)])
  {
    var mid, t := Sys(s, [Node(name, None, Campaigning)]), Grant(s, id, ttl, now);
    assert Next(mid, Ask(0, id, ttl, now)) == Sys(t, [Node(name, None, Granted(id))]);
    assert Next(Sys(t, [Node(name, None, Granted(id))]), Swap(0, true)) == Sys(t, [Node(name, None, Lost(id))]);
    Three(mid, Ask(0, id, ttl, now), Swap(0, true), GiveBack(0, back));
  }

  lemma UnansweredRun(s: Store, name: string, id: LeaseId, ttl: int, now: int, applied: bool)
    requires id !in s.leases
    ensures var mid, last := Sys(s, [Node(name, None, Campaigning)]), if applied then Swap(0, false) else SwapFails(0);
            var t := Grant(s, id, ttl, now);
            && RunOk(mid, [Ask(0, id, ttl, now), last])
            && After(mid, [Ask(0, id, ttl, now), last]) == Sys(if applied then Cas(t, Leader, None, Text(name), Some(id)) else t, [Node(name, None, Idle)])
  {
    var mid, t := Sys(s, [Node(name, None, Campaigning)]), Grant(s, id, ttl, now);
    assert Next(mid, Ask(0, id, ttl, now)) == Sys(t, [Node(name, None, Granted(id))]);
    Two(mid, Ask(0, id, ttl, now), if applied then Swap(0, false) else SwapFails(0));
  }

  lemma Two(sys: Sys, a: Step, b: Step)
    requires Can(sys, a) && Can(Next(sys, a), b)
    ensures RunOk(sys, [a, b]) && After(sys, [a, b]) == Next(Next(sys, a), b)
  {
    assert [a, b][1..] == [b];
    One(Next(sys, a), b);
  }

  lemma Three(sys: Sys, a: Step, b: Step, c: Step)
    requires Can(sys, a) && Can(Next(sys, a), b) && Can(Next(Next(sys, a), b), c)
    ensures RunOk(sys, [a, b, c]) && After(sys, [a, b, c]) == Next(Next(Next(sys, a), b), c)
  {
    assert [a, b, c][1..] == [b, c];
    Two(Next(sys, a), b, c);
  }

  lemma {:induction false} Chain(sys: Sys, a: seq<Step>, b: seq<Step>)
    requires RunOk(sys, a) && RunOk(After(sys, a), b)
    ensures RunOk(sys, a + b) && After(sys, a + b) == After(After(sys, a), b)
    decreases |a|
  {
    if a == [] {
      assert a + b == b;
    } else {
      assert (a + b)[1..] == a[1..] + b;
      Chain(Next(sys, a[0]), a[1..], b);
    }
  }
}
