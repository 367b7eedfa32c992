/** How SQLite's lease numbering brings a recorded id back, and what that does to two
    sandboxes. */
module LeaseReuse {
  import opened Common
  import opened Keys
  import opened LeaseStore
  import opened Lifecycle

  /** A revoked lease's id is the next one granted exactly when no other lease is above
      it and the one below it is there — or it was number 1 and alone. */
  lemma ReissuedIff(s: Store, l: LeaseId)
    requires l in s.leases
    ensures IsNextId(Revoke(s, l), l) <==>
            && (forall m :: m in s.leases && m != l ==> m.n < l.n)
            && (LeaseId(l.n - 1) in s.leases || (l.n == 1 && s.leases.Keys == {l}))
  {
    var rest := Revoke(s, l).leases;
    assert rest == s.leases - {l};
    if rest == map[] {
      assert s.leases.Keys == {l} by {
        forall m | m in s.leases ensures m == l { assert m in rest || m == l; }
      }
    } else {
      var m :| m in rest;
      assert m in s.leases && m != l;
    }
  }

  const one := LeaseId(1)

  /** Seven days after the pause. */
  const RETENTION := 7 * 24 * 3600

  /** Two sandboxes, their size and times, and when the first is paused. */
  datatype Plot = Plot(a: string, b: string, req: Request, paused: nat)

  function Script(p: Plot, k: nat): Step {
    if k == 0 then Create(0, p.a, one, p.req, 0, None, true)
    else if k == 1 then Flag(p.a)
    else if k == 2 then Gc(p.paused + RETENTION, {p.a})
    else if k == 3 then Create(0, p.b, one, p.req, p.paused + RETENTION, None, true)
    else Destroy(p.a, true)
  }

  function Registered(id: string, req: Request, rev: nat): map<Key, KeyValue> {
    map[Sandbox(id, Meta) := KeyValue(Spec(req.vcpus, req.memMib), rev + 1, rev + 1, Some(one)),
        Sandbox(id, Keys.State) := KeyValue(Text("running"), rev + 2, rev + 2, Some(one))]
  }

  function Paused(id: string, req: Request, paused: nat): map<Key, KeyValue> {
    map[Sandbox(id, Meta) := KeyValue(Spec(req.vcpus, req.memMib), 1, 1, Some(one)),
        Sandbox(id, Keys.State) := KeyValue(Text("paused"), 2, 3, Some(one)),
        Sandbox(id, Retain) := KeyValue(Amount(paused + RETENTION), 4, 4, Some(one)),
        Sandbox(id, Size) := KeyValue(Amount(req.memMib), 5, 5, Some(one))]
  }

  function Leased(req: Request, now: int): map<LeaseId, Lease> {
    map[one := Lease(req.idle, now + req.idle)]
  }

  function Entry(req: Request, now: int): Live {
    Live(one, SaturatingAdd(now, req.ttl), 0)
  }

  function Scene(p: Plot, k: nat): State {
    var later := p.paused + RETENTION;
    var off, on := Instance(false), Instance(true);
    if k == 0 then Lifecycle.State(Store(map[], map[], 0), [map[]], map[])
    else if k == 1 then
      Lifecycle.State(Store(Registered(p.a, p.req, 0), Leased(p.req, 0), 2), [map[p.a := off]], map[p.a := Entry(p.req, 0)])
    else if k == 2 then
      Lifecycle.State(Store(Paused(p.a, p.req, p.paused), Leased(p.req, 0), 5), [map[p.a := on]], map[p.a := Entry(p.req, 0)])
    else if k == 3 then Lifecycle.State(Store(map[], map[], 9), [map[p.a := on]], map[p.a := Entry(p.req, 0)])
    else if k == 4 then
      Lifecycle.State(Store(Registered(p.b, p.req, 9), Leased(p.req, later), 11),
                      [map[p.a := on, p.b := off]], map[p.a := Entry(p.req, 0), p.b := Entry(p.req, later)])
    else Lifecycle.State(Store(map[], map[], 13), [map[p.b := off]], map[p.b := Entry(p.req, later)])
  }

  lemma FirstCreate(p: Plot, st: State, st': State)
    requires st == Scene(p, 0) && st' == Scene(p, 1)
    ensures Next(st, Script(p, 0), st') && IsNextId(st.store, one)
  {
    assert SetInstance(st, 0, p.a, Instance(false)).backends == st'.backends;
  }

  lemma Pausing(p: Plot, st: State, st': State)
    requires st == Scene(p, 1) && st' == Scene(p, 2)
    ensures Next(st, Script(p, 1), st')
  {
  }

  lemma PausedCollected(id: string, req: Request, paused: nat, s: Store)
    requires s == Store(Paused(id, req, paused), Leased(req, 0), 5)
    ensures id in RetentionDue(s, paused + RETENTION) && IsCollected(s, {id}, Store(map[], map[], 9))
  {
    assert Sandbox(id, Retain) in s.kvs && Expired(s, id, paused + RETENTION);
    assert RetainLeases(s, {id}) == {one} && Unleased(s, {id}) == {};
    var all := {Sandbox(id, Meta), Sandbox(id, Keys.State), Sandbox(id, Retain), Sandbox(id, Size)};
    assert KeysOn(s, {one}) == all;
    assert s.kvs - (all + {}) == map[] && s.leases - {one} == map[];
  }

  lemma Collecting(p: Plot, st: State, st': State)
    requires st == Scene(p, 2) && st' == Scene(p, 3)
    ensures Next(st, Script(p, 2), st')
  {
    PausedCollected(p.a, p.req, p.paused, st.store);
  }

  lemma SecondCreate(p: Plot, st: State, st': State)
    requires p.a != p.b && st == Scene(p, 3) && st' == Scene(p, 4)
    ensures Next(st, Script(p, 3), st') && IsNextId(st.store, one)
  {
    assert SetInstance(st, 0, p.b, Instance(false)).backends == st'.backends;
  }

  lemma RegisteredReaped(id: string, req: Request, now: int)
    ensures Revoke(Store(Registered(id, req, 9), Leased(req, now), 11), one) == Store(map[], map[], 13)
  {
    var s := Store(Registered(id, req, 9), Leased(req, now), 11);
    var all := {Sandbox(id, Meta), Sandbox(id, Keys.State)};
    assert KeysOn(s, {one}) == all && |all| == 2;
    assert s.kvs - all == map[] && s.leases - {one} == map[];
  }

  lemma Destroying(p: Plot, st: State, st': State)
    requires p.a != p.b && st == Scene(p, 4) && st' == Scene(p, 5)
    ensures Next(st, Script(p, 4), st')
  {
    RegisteredReaped(p.b, p.req, p.paused + RETENTION);
    assert st.backends[0] - {p.a} == st'.backends[0];
    assert Without(st, {p.a}).backends == st'.backends;
    assert st.live - {p.a} == st'.live;
  }

  lemma StepOk(p: Plot, k: nat)
    requires p.a != p.b && k < 5
    ensures Next(Scene(p, k), Script(p, k), Scene(p, k + 1))
    ensures Script(p, k).Create? ==> IsNextId(Scene(p, k).store, Script(p, k).lease)
  {
    match k
    case 0 => FirstCreate(p, Scene(p, 0), Scene(p, 1));
    case 1 => Pausing(p, Scene(p, 1), Scene(p, 2));
    case 2 => Collecting(p, Scene(p, 2), Scene(p, 3));
    case 3 => SecondCreate(p, Scene(p, 3), Scene(p, 4));
    case _ => Destroying(p, Scene(p, 4), Scene(p, 5));
  }

  ghost predicate SqliteGrants(states: seq<State>, steps: seq<Step>)
    requires |states| == |steps| + 1
  {
    forall i :: 0 <= i < |steps| && steps[i].Create? ==> IsNextId(states[i].store, steps[i].lease)
  }

  /** MAIN: on SQLite's numbering, for any two sandboxes: one is created, paused and
      collected after its retention, the other is created and gets the same lease — two
      live sandboxes on one lease — and destroying the first wipes the records of the
      second, which stays live and running. */
  lemma CollectedLeaseIsShared(p: Plot, states: seq<State>, steps: seq<Step>)
    requires p.a != p.b && |states| == 6 && |steps| == 5
    requires forall k :: 0 <= k < 6 ==> states[k] == Scene(p, k)
    requires forall k :: 0 <= k < 5 ==> steps[k] == Script(p, k)
    ensures Booted(states[0]) && Run(states, steps) && SqliteGrants(states, steps)
    ensures !DistinctLeases(states[4]) && Sandbox(p.b, Meta) in states[4].store.kvs
    ensures Sandbox(p.b, Meta) !in states[5].store.kvs && p.b in states[5].live && states[5].backends == [map[p.b := Instance(false)]]
  {
    forall k | 0 <= k < |steps|
      ensures Next(states[k], steps[k], states[k + 1]) && (steps[k].Create? ==> IsNextId(states[k].store, steps[k].lease))
    {
      StepOk(p, k);
    }
    var st := states[4];
    assert p.a in st.live && p.b in st.live && st.live[p.a].lease == st.live[p.b].lease;
  }
}
