/** A run on SQLite's lease numbering in which every swap is prompt and a ticket is
    accepted twice all the same: a refused call gives back an id that meanwhile belongs to
    another ticket's nonce. */
module TicketReuse {
  import opened Common
  import opened Keys
  import opened LeaseStore
  import opened TicketEncoding
  import opened TicketProtocol

  const one := LeaseId(1)
  const two := LeaseId(2)

  /** Two tickets of one gateway; the first expires first. */
  datatype Plot = Plot(a: Query, b: Query)

  predicate Fits(p: Plot) {
    && p.a.sig == Mac(p.a.sig.secret, Payload(p.a.ticket)) && p.b.sig == Mac(p.a.sig.secret, Payload(p.b.ticket))
    && p.a.ticket.nonce != p.b.ticket.nonce && p.a.ticket.exp < p.b.ticket.exp
  }

  function Script(p: Plot, k: nat): Step {
    match k
    case 0 => Arrive(p.a)
    case 1 => Arrive(p.a)
    case 2 => Ask(0, one)
    case 3 => Ask(1, two)
    case 4 => Swap(1, true)
    case 5 => Swap(0, true)
    case 6 => Tick(p.a.ticket.exp)
    case 7 => Other(OpReap({one, two}))
    case 8 => Arrive(p.b)
    case 9 => Ask(2, one)
    case 10 => Swap(2, true)
    case 11 => GiveBack(0, true)
    case 12 => Arrive(p.b)
    case 13 => Ask(3, one)
    case _ => Swap(3, true)
  }

  /** The store at each point: nothing, leases alone, or a nonce on a lease. */
  function StoreAt(p: Plot, k: nat): Store {
    var e: int, f: int := p.a.ticket.exp, p.b.ticket.exp;
    var short, long := Lease(1, e), Lease(f - e, f);
    if k < 3 then Store(map[], map[], 0)
    else if k == 3 then Store(map[], map[one := short], 0)
    else if k == 4 then Store(map[], map[one := short, two := short], 0)
    else if k < 8 then Store(map[Nonce(p.a.ticket.nonce) := KeyValue(Text("1"), 1, 1, Some(two))], map[one := short, two := short], 1)
    else if k < 10 then Store(map[], map[], 2)
    else if k == 10 then Store(map[], map[one := long], 2)
    else if k == 11 then Store(map[Nonce(p.b.ticket.nonce) := KeyValue(Text("1"), 3, 3, Some(one))], map[one := long], 3)
    else if k < 14 then Store(map[], map[], 4)
    else if k == 14 then Store(map[], map[one := long], 4)
    else Store(map[Nonce(p.b.ticket.nonce) := KeyValue(Text("1"), 5, 5, Some(one))], map[one := long], 5)
  }

  function CallsAt(p: Plot, k: nat): seq<Call> {
    var e: int := p.a.ticket.exp;
    var a, b := Checked(p.a, e - 1), Checked(p.b, e);
    var heldA, heldB := Leased(p.a, e - 1, one), Leased(p.b, e, one);
    if k == 0 then []
    else if k == 1 then [a]
    else if k == 2 then [a, a]
    else if k == 3 then [heldA, a]
    else if k == 4 then [heldA, Leased(p.a, e - 1, two)]
    else if k == 5 then [heldA, Done]
    else if k < 9 then [Refused(one), Done]
    else if k == 9 then [Refused(one), Done, b]
    else if k == 10 then [Refused(one), Done, heldB]
    else if k == 11 then [Refused(one), Done, Done]
    else if k == 12 then [Done, Done, Done]
    else if k == 13 then [Done, Done, Done, b]
    else if k == 14 then [Done, Done, Done, heldB]
    else [Done, Done, Done, Done]
  }

  /** The system at point `k`, with a store and calls. */
  function With(p: Plot, k: nat, st: Store, cs: seq<Call>): Sys {
    Sys(p.a.sig.secret, st, if k < 7 then p.a.ticket.exp - 1 else p.a.ticket.exp, cs,
        if k < 5 then [] else if k < 11 then [p.a] else if k < 15 then [p.a, p.b] else [p.a, p.b, p.b])
  }

  function Scene(p: Plot, k: nat): Sys {
    With(p, k, StoreAt(p, k), CallsAt(p, k))
  }

  /** The id a grant hands out is the one SQLite picks. */
  ghost predicate SqliteGrant(sys: Sys, step: Step) {
    step.Ask? ==> IsNextId(sys.store, step.id)
  }

  /** A prompt step with SQLite's numbering. */
  ghost predicate Leads(s: Sys, step: Step, s': Sys) {
    Can(s, step) && Prompt(s, step) && SqliteGrant(s, step) && Next(s, step) == s'
  }

  // ----- one lemma for each kind of step -----

  lemma ArriveStep(s: Sys, q: Query, s': Sys)
    requires q.sig == Mac(s.secret, Payload(q.ticket)) && s.clock < q.ticket.exp
    requires s' == s.(calls := s.calls + [Checked(q, s.clock)])
    ensures Leads(s, Arrive(q), s')
  {
  }

  lemma AskStep(s: Sys, c: nat, id: LeaseId, q: Query, read: int, s': Sys)
    requires c < |s.calls| && s.calls[c] == Checked(q, read) && read < q.ticket.exp && id !in s.store.leases && IsNextId(s.store, id)
    requires s' == s.(store := Grant(s.store, id, q.ticket.exp - read, s.clock), calls := s.calls[c := Leased(q, read, id)])
    ensures Leads(s, Ask(c, id), s')
  {
  }

  lemma SwapStep(s: Sys, c: nat, q: Query, read: int, id: LeaseId, s': Sys)
    requires c < |s.calls| && s.calls[c] == Leased(q, read, id) && s.clock < q.ticket.exp && Nonce(q.ticket.nonce) !in s.store.kvs
    requires s' == s.(store := Write(s.store, Nonce(q.ticket.nonce), Text("1"), Some(id)), calls := s.calls[c := Done], accepted := s.accepted + [q])
    ensures Leads(s, Swap(c, true), s')
  {
  }

  lemma RefuseStep(s: Sys, c: nat, q: Query, read: int, id: LeaseId, s': Sys)
    requires c < |s.calls| && s.calls[c] == Leased(q, read, id) && s.clock < q.ticket.exp && Nonce(q.ticket.nonce) in s.store.kvs
    requires s' == s.(calls := s.calls[c := Refused(id)])
    ensures Leads(s, Swap(c, true), s')
  {
  }

  lemma TickStep(s: Sys, to: int, s': Sys)
    requires s.clock <= to && s' == s.(clock := to)
    ensures Leads(s, Tick(to), s')
  {
  }

  lemma LapseStep(s: Sys, ids: set<LeaseId>, s': Sys)
    requires forall id :: id in ids && id in s.store.leases ==> s.store.leases[id].expires <= s.clock
    requires s' == s.(store := Reap(s.store, ids))
    ensures Leads(s, Other(OpReap(ids)), s')
  {
  }

  lemma GiveBackStep(s: Sys, c: nat, id: LeaseId, s': Sys)
    requires c < |s.calls| && s.calls[c] == Refused(id)
    requires s' == s.(store := Revoke(s.store, id), calls := s.calls[c := Done])
    ensures Leads(s, GiveBack(c, true), s')
  {
  }

  // ----- the stores follow from one another -----

  lemma NextIds(s: Store)
    ensures s.leases == map[] ==> IsNextId(s, one)
    ensures s.leases.Keys == {one} ==> IsNextId(s, two)
  {
    if s.leases.Keys == {one} {
      assert one in s.leases && LeaseId(two.n - 1) == one;
    }
  }

  lemma OneNonceReaped(key: Key, kv: KeyValue, leases: map<LeaseId, Lease>, rev: nat, ids: set<LeaseId>)
    requires kv.lease.Some? && kv.lease.value in ids && leases.Keys == ids
    ensures Reap(Store(map[key := kv], leases, rev), ids) == Store(map[], map[], rev + 1)
  {
    var s := Store(map[key := kv], leases, rev);
    assert KeysOn(s, ids) == {key};
    assert s.kvs - {key} == map[] && s.leases - ids == map[];
  }

  /** How store and calls go on at step `k`. */
  ghost predicate Fact(p: Plot, k: nat, st: Store, st': Store, cs: seq<Call>, cs': seq<Call>) {
    var e: int, f: int := p.a.ticket.exp, p.b.ticket.exp;
    var a, b := Nonce(p.a.ticket.nonce), Nonce(p.b.ticket.nonce);
    match k
    case 0 => st' == st && cs' == cs + [Checked(p.a, e - 1)]
    case 1 => st' == st && cs' == cs + [Checked(p.a, e - 1)]
    case 2 => st.leases == map[] && st' == Grant(st, one, 1, e - 1) && IsCall(cs, 0, Checked(p.a, e - 1)) && cs' == cs[0 := Leased(p.a, e - 1, one)]
    case 3 => st.leases.Keys == {one} && st' == Grant(st, two, 1, e - 1) && IsCall(cs, 1, Checked(p.a, e - 1)) && cs' == cs[1 := Leased(p.a, e - 1, two)]
    case 4 => a !in st.kvs && st' == Write(st, a, Text("1"), Some(two)) && IsCall(cs, 1, Leased(p.a, e - 1, two)) && cs' == cs[1 := Done]
    case 5 => a in st.kvs && st' == st && IsCall(cs, 0, Leased(p.a, e - 1, one)) && cs' == cs[0 := Refused(one)]
    case 6 => st' == st && cs' == cs
    case 7 => (forall id :: id in st.leases ==> st.leases[id].expires <= e) && st' == Reap(st, {one, two}) && cs' == cs
    case 8 => st' == st && cs' == cs + [Checked(p.b, e)]
    case 9 => st.leases == map[] && st' == Grant(st, one, f - e, e) && IsCall(cs, 2, Checked(p.b, e)) && cs' == cs[2 := Leased(p.b, e, one)]
    case 10 => b !in st.kvs && st' == Write(st, b, Text("1"), Some(one)) && IsCall(cs, 2, Leased(p.b, e, one)) && cs' == cs[2 := Done]
    case 11 => st' == Revoke(st, one) && IsCall(cs, 0, Refused(one)) && cs' == cs[0 := Done]
    case 12 => st' == st && cs' == cs + [Checked(p.b, e)]
    case 13 => st.leases == map[] && st' == Grant(st, one, f - e, e) && IsCall(cs, 3, Checked(p.b, e)) && cs' == cs[3 := Leased(p.b, e, one)]
    case _ => b !in st.kvs && st' == Write(st, b, Text("1"), Some(one)) && IsCall(cs, 3, Leased(p.b, e, one)) && cs' == cs[3 := Done]
  }

  predicate IsCall(cs: seq<Call>, c: nat, call: Call) {
    c < |cs| && cs[c] == call
  }

  lemma FactOk(p: Plot, k: nat)
    requires Fits(p) && k < 15
    ensures Fact(p, k, StoreAt(p, k), StoreAt(p, k + 1), CallsAt(p, k), CallsAt(p, k + 1))
  {
    var st, a, b := StoreAt(p, k), Nonce(p.a.ticket.nonce), Nonce(p.b.ticket.nonce);
    if k == 7 {
      OneNonceReaped(a, st.kvs[a], st.leases, 1, {one, two});
      assert st.kvs == map[a := st.kvs[a]];
    } else if k == 11 {
      OneNonceReaped(b, st.kvs[b], st.leases, 3, {one});
      assert st.kvs == map[b := st.kvs[b]];
    }
  }

  ghost predicate GoodWith(p: Plot, k: nat, st: Store, st': Store, cs: seq<Call>, cs': seq<Call>) {
    Leads(With(p, k, st, cs), Script(p, k), With(p, k + 1, st', cs'))
  }

  lemma FirstSteps(p: Plot, k: nat, st: Store, st': Store, cs: seq<Call>, cs': seq<Call>)
    requires Fits(p) && k < 5 && Fact(p, k, st, st', cs, cs')
    ensures GoodWith(p, k, st, st', cs, cs')
  {
    var s, s', e: int := With(p, k, st, cs), With(p, k + 1, st', cs'), p.a.ticket.exp;
    NextIds(st);
    match k
    case 2 => AskStep(s, 0, one, p.a, e - 1, s');
    case 3 => AskStep(s, 1, two, p.a, e - 1, s');
    case 4 => SwapStep(s, 1, p.a, e - 1, two, s');
    case _ => ArriveStep(s, p.a, s');
  }

  lemma MiddleSteps(p: Plot, k: nat, st: Store, st': Store, cs: seq<Call>, cs': seq<Call>)
    requires Fits(p) && 5 <= k < 10 && Fact(p, k, st, st', cs, cs')
    ensures GoodWith(p, k, st, st', cs, cs')
  {
    var s, s', e: int := With(p, k, st, cs), With(p, k + 1, st', cs'), p.a.ticket.exp;
    NextIds(st);
    match k
    case 5 => RefuseStep(s, 0, p.a, e - 1, one, s');
    case 6 => TickStep(s, e, s');
    case 7 => LapseStep(s, {one, two}, s');
    case 8 => ArriveStep(s, p.b, s');
    case _ => AskStep(s, 2, one, p.b, e, s');
  }

  lemma LastSteps(p: Plot, k: nat, st: Store, st': Store, cs: seq<Call>, cs': seq<Call>)
    requires Fits(p) && 10 <= k < 15 && Fact(p, k, st, st', cs, cs')
    ensures GoodWith(p, k, st, st', cs, cs')
  {
    var s, s', e: int := With(p, k, st, cs), With(p, k + 1, st', cs'), p.a.ticket.exp;
    NextIds(st);
    match k
    case 10 => SwapStep(s, 2, p.b, e, one, s');
    case 11 => GiveBackStep(s, 0, one, s');
    case 12 => ArriveStep(s, p.b, s');
    case 13 => AskStep(s, 3, one, p.b, e, s');
    case _ => SwapStep(s, 3, p.b, e, one, s');
  }

  lemma AllGood(p: Plot, k: nat)
    requires Fits(p) && k < 15
    ensures Leads(Scene(p, k), Script(p, k), Scene(p, k + 1))
  {
    var st, st', cs, cs' := StoreAt(p, k), StoreAt(p, k + 1), CallsAt(p, k), CallsAt(p, k + 1);
    FactOk(p, k);
    if k < 5 {
      FirstSteps(p, k, st, st', cs, cs');
    } else if k < 10 {
      MiddleSteps(p, k, st, st', cs, cs');
    } else {
      LastSteps(p, k, st, st', cs, cs');
    }
  }

  function From(p: Plot, k: nat): seq<Step>
    decreases 15 - k
  {
    if k >= 15 then [] else [Script(p, k)] + From(p, k + 1)
  }

  ghost predicate OnSqlite(sys: Sys, steps: seq<Step>)
    requires RunOk(sys, steps)
    decreases |steps|
  {
    steps != [] ==> SqliteGrant(sys, steps[0]) && OnSqlite(Next(sys, steps[0]), steps[1..])
  }

  lemma {:induction false} SceneRun(p: Plot, k: nat, s: Sys, steps: seq<Step>)
    requires Fits(p) && k <= 15 && s == Scene(p, k) && steps == From(p, k)
    ensures RunOk(s, steps) && AllPrompt(s, steps) && OnSqlite(s, steps) && After(s, steps) == Scene(p, 15)
    decreases 15 - k
  {
    if k < 15 {
      AllGood(p, k);
      assert steps[0] == Script(p, k) && steps[1..] == From(p, k + 1);
      SceneRun(p, k + 1, Next(s, steps[0]), steps[1..]);
    }
  }

  /** MAIN: for any two tickets of one gateway with different nonces and expiries there is a
      run with SQLite's lease ids and only prompt swaps that accepts the longer-lived one
      twice. */
  lemma ReusedLeaseAcceptsTwice(p: Plot, start: Sys, steps: seq<Step>)
    requires Fits(p) && start == Scene(p, 0) && steps == From(p, 0)
    ensures Initial(start) && RunOk(start, steps) && AllPrompt(start, steps) && OnSqlite(start, steps)
    ensures After(start, steps).accepted == [p.a, p.b, p.b]
  {
    SceneRun(p, 0, start, steps);
  }
}
