/** Whole runs of survey, place and record. */
module SchedRuns {
  import opened Common
  import opened Keys
  import opened LeaseStore
  import opened Sums
  import opened Books
  import opened Sched
  import Cluster

  datatype Capacity = Capacity(cpus: nat, memMib: nat)

  /** Nodes report a fixed capacity whenever they are up. */
  ghost predicate Reported(s: Store, caps: map<string, Capacity>) {
    forall n :: NodeAlive(n) in s.kvs ==>
      n in caps && VcpusIn(s.kvs[NodeAlive(n)].value) == caps[n].cpus && MemIn(s.kvs[NodeAlive(n)].value) == caps[n].memMib
  }

  function Owned(s: Store): (ids: set<string>) {
    set k | k in s.kvs && k.Sandbox? && k.field == Meta && Sandbox(k.id, Owner) in s.kvs :: k.id
  }

  function EntryOf(s: Store, id: string): Entry
    requires Sandbox(id, Meta) in s.kvs && Sandbox(id, Owner) in s.kvs
  {
    var v := s.kvs[Sandbox(id, Meta)].value;
    Entry(TextIn(s.kvs[Sandbox(id, Owner)].value), VcpusIn(v), MemIn(v))
  }

  ghost function BookOf(s: Store): Book {
    map id | id in Owned(s) :: EntryOf(s, id)
  }

  lemma LoadIsBooked(s: Store, n: string)
    requires NodeAlive(n) in s.kvs
    ensures var l, b := LoadOf(s, n), BookOf(s);
            l.sandboxes == |Ids(b, n)| && l.usedVcpus == VcpusOn(b, n) && l.usedMem == MemOn(b, n)
  {
    var b := BookOf(s);
    forall id ensures id in Placed(s, n) <==> id in b && b[id].under == n {
      assert id in Placed(s, n) <==> Sandbox(id, Meta) in s.kvs && On(s, id, n);
      if On(s, id, n) { assert Sandbox(id, Meta) in s.kvs && id in b; }
    }
    assert Placed(s, n) == Ids(b, n);
    assert Vcpus(s, Placed(s, n)) == VcpuColumn(b, n) && Mem(s, Placed(s, n)) == MemColumn(b, n);
  }

  /** No node, up or down, is charged with more than its overcommitted capacity. */
  ghost predicate WithinCapacity(b: Book, caps: map<string, Capacity>, overcommit: nat) {
    forall n :: n in caps ==>
      && VcpusOn(b, n) <= Ceiling(caps[n].cpus, overcommit)
      && MemOn(b, n) <= Ceiling(caps[n].memMib, overcommit)
  }

  /** Does the accounting read this key? */
  predicate Accounted(k: Key) {
    k.Sandbox? && (k.field == Meta || k.field == Owner)
  }

  ghost predicate Kept(s: Store, s': Store, k: Key) {
    k in s'.kvs ==> k in s.kvs && s'.kvs[k].value == s.kvs[k].value
  }

  /** The keys of a new sandbox, as far as they were written before a failure. */
  ghost predicate RecordedOn(s: Store, s': Store, id: string, node: string, req: Request) {
    && (forall f :: Sandbox(id, f) !in s.kvs)
    && (forall k :: Accounted(k) && k.id != id ==> Kept(s, s', k))
    && (Sandbox(id, Meta) in s'.kvs ==> s'.kvs[Sandbox(id, Meta)].value == Spec(req.vcpus, req.memMib))
    && (Sandbox(id, Owner) in s'.kvs ==> s'.kvs[Sandbox(id, Owner)].value == Text(node))
  }

  datatype Step =
    | Arrive(self: string, req: Request, id: string, nodes: seq<NodeLoad>, target: NodeLoad)
    | Otherwise   // departures, heartbeats, lost nodes, any other write

  ghost predicate Next(s: Store, step: Step, s': Store, overcommit: nat) {
    match step
    case Arrive(self, req, id, nodes, target) =>
      && IsSurvey(s, nodes) && Chosen(nodes, target, req, self, overcommit)
      && RecordedOn(s, s', id, target.id, req)
    case Otherwise => forall k :: Accounted(k) ==> Kept(s, s', k)
  }

  lemma RecordingBooks(s: Store, s': Store, id: string, node: string, req: Request)
    requires RecordedOn(s, s', id, node, req)
    ensures id !in BookOf(s)
    ensures Sub(BookOf(s'), BookOf(s)[id := Entry(node, req.vcpus, req.memMib)])
  {
    forall x | x in BookOf(s') && x != id ensures x in BookOf(s) && BookOf(s')[x] == BookOf(s)[x] {
      assert Accounted(Sandbox(x, Meta)) && Accounted(Sandbox(x, Owner));
      assert Sandbox(x, Meta) in s.kvs && x in BookOf(s);
    }
  }

  lemma OtherwiseShrinks(s: Store, s': Store)
    requires forall k :: Accounted(k) ==> Kept(s, s', k)
    ensures Sub(BookOf(s'), BookOf(s))
  {
    forall x | x in BookOf(s') ensures x in BookOf(s) && BookOf(s')[x] == BookOf(s)[x] {
      assert Accounted(Sandbox(x, Meta)) && Accounted(Sandbox(x, Owner));
      assert Sandbox(x, Meta) in s.kvs && x in BookOf(s);
    }
  }

  ghost predicate Sane(caps: map<string, Capacity>, overcommit: nat) {
    forall n :: n in caps ==> Ceiling(caps[n].cpus, overcommit) < TWO63 && Ceiling(caps[n].memMib, overcommit) < TWO63
  }

  predicate SaneRequest(req: Request) {
    req.vcpus < TWO63 && req.memMib < TWO63
  }

  lemma ArrivalFits(s: Store, step: Step, caps: map<string, Capacity>, overcommit: nat)
    requires step.Arrive? && SaneRequest(step.req) && Sane(caps, overcommit)
    requires Reported(s, caps) && WithinCapacity(BookOf(s), caps, overcommit)
    requires IsSurvey(s, step.nodes) && Chosen(step.nodes, step.target, step.req, step.self, overcommit)
    ensures step.target.id in caps
    ensures VcpusOn(BookOf(s), step.target.id) + step.req.vcpus <= Ceiling(caps[step.target.id].cpus, overcommit)
    ensures MemOn(BookOf(s), step.target.id) + step.req.memMib <= Ceiling(caps[step.target.id].memMib, overcommit)
  {
    var n := step.target;
    assert n == LoadOf(s, n.id);
    LoadIsBooked(s, n.id);
    AdmissionExactIff(n.cpus, n.usedVcpus, overcommit, step.req.vcpus);
    AdmissionExactIff(n.memMib, n.usedMem, overcommit, step.req.memMib);
  }

  lemma EntryWithin(b: Book, b': Book, id: string, e: Entry, caps: map<string, Capacity>, overcommit: nat)
    requires WithinCapacity(b, caps, overcommit) && id !in b && Sub(b', b[id := e]) && e.under in caps
    requires VcpusOn(b, e.under) + e.vcpus <= Ceiling(caps[e.under].cpus, overcommit)
    requires MemOn(b, e.under) + e.memMib <= Ceiling(caps[e.under].memMib, overcommit)
    ensures WithinCapacity(b', caps, overcommit)
  {
    forall n | n in caps
      ensures VcpusOn(b', n) <= VcpusOn(b, n) + If(n == e.under, e.vcpus) && MemOn(b', n) <= MemOn(b, n) + If(n == e.under, e.memMib)
    {
      BookAdd(b, id, e, n);
      BookBelow(b', b[id := e], n);
    }
  }

  lemma StepWithinCapacity(s: Store, step: Step, s': Store, caps: map<string, Capacity>, overcommit: nat)
    requires Next(s, step, s', overcommit) && (step.Arrive? ==> SaneRequest(step.req)) && Sane(caps, overcommit)
    requires Reported(s, caps) && WithinCapacity(BookOf(s), caps, overcommit)
    ensures WithinCapacity(BookOf(s'), caps, overcommit)
  {
    var b, b' := BookOf(s), BookOf(s');
    if step.Arrive? {
      ArrivalFits(s, step, caps, overcommit);
      RecordingBooks(s, s', step.id, step.target.id, step.req);
      EntryWithin(b, b', step.id, Entry(step.target.id, step.req.vcpus, step.req.memMib), caps, overcommit);
    } else {
      OtherwiseShrinks(s, s');
      forall n | n in caps ensures VcpusOn(b', n) <= VcpusOn(b, n) && MemOn(b', n) <= MemOn(b, n) { BookBelow(b', b, n); }
    }
  }

  /** A step and the store it leaves. */
  datatype Move = Move(step: Step, after: Store)

  ghost predicate Run(s: Store, moves: seq<Move>, caps: map<string, Capacity>, overcommit: nat)
    decreases |moves|
  {
    && Reported(s, caps)
    && (moves != [] ==>
          && (moves[0].step.Arrive? ==> SaneRequest(moves[0].step.req))
          && Next(s, moves[0].step, moves[0].after, overcommit)
          && Run(moves[0].after, moves[1..], caps, overcommit))
  }

  function Final(s: Store, moves: seq<Move>): Store {
    if moves == [] then s else moves[|moves| - 1].after
  }

  /** MAIN: with each placement recorded before the next survey, no node is ever
      charged beyond overcommit times capacity — after any run of arrivals (also
      half-failed ones), departures and nodes coming and going. */
  lemma {:induction false} CapacityHolds(s: Store, moves: seq<Move>, caps: map<string, Capacity>, overcommit: nat)
    requires Run(s, moves, caps, overcommit) && Sane(caps, overcommit)
    requires WithinCapacity(BookOf(s), caps, overcommit)
    ensures WithinCapacity(BookOf(Final(s, moves)), caps, overcommit)
    decreases |moves|
  {
    if moves != [] {
      StepWithinCapacity(s, moves[0].step, moves[0].after, caps, overcommit);
      CapacityHolds(moves[0].after, moves[1..], caps, overcommit);
      assert Final(s, moves) == Final(moves[0].after, moves[1..]);
    }
  }

  // ----- balance -----

  /** One request: who asks, the id it would get, the survey read, the node chosen. */
  datatype Ask = Ask(self: string, id: string, nodes: seq<NodeLoad>, choice: Option<NodeLoad>)

  /** Placed and recorded in full, or refused because nothing fits. */
  ghost predicate Repeat(s: Store, ask: Ask, req: Request, s': Store, overcommit: nat) {
    && IsSurvey(s, ask.nodes)
    && match ask.choice
       case None => s' == s && forall n :: n in ask.nodes ==> !Fits(n, req, overcommit)
       case Some(n) => Chosen(ask.nodes, n, req, ask.self, overcommit) && FullyRecorded(s, s', ask.id, n.id, req)
  }

  ghost predicate FullyRecorded(s: Store, s': Store, id: string, node: string, req: Request) {
    && RecordedOn(s, s', id, node, req)
    && Sandbox(id, Meta) in s'.kvs && Sandbox(id, Owner) in s'.kvs
    && (forall k: Key :: k.NodeAlive? || (Accounted(k) && k.id != id) ==>
          (k in s'.kvs <==> k in s.kvs) && (k in s.kvs ==> s'.kvs[k].value == s.kvs[k].value))
  }

  lemma FullBooks(s: Store, s': Store, id: string, node: string, req: Request)
    requires FullyRecorded(s, s', id, node, req)
    ensures id !in BookOf(s) && BookOf(s') == BookOf(s)[id := Entry(node, req.vcpus, req.memMib)]
  {
    var b, b' := BookOf(s), BookOf(s');
    RecordingBooks(s, s', id, node, req);
    forall x | x in b ensures x in b' && x != id {
      assert Accounted(Sandbox(x, Meta)) && Accounted(Sandbox(x, Owner));
      assert Sandbox(x, Meta) in s'.kvs;
    }
    assert Sandbox(id, Meta) in s'.kvs && id in b';
  }

  type Loads = map<string, NodeLoad>

  ghost function LoadsOf(s: Store): Loads {
    map n | n in Cluster.LiveNodes(s) :: LoadOf(s, n)
  }

  function OneMore(l: NodeLoad, req: Request): NodeLoad {
    l.(sandboxes := l.sandboxes + 1, usedVcpus := l.usedVcpus + req.vcpus, usedMem := l.usedMem + req.memMib)
  }

  lemma LoadsHas(s: Store, n: string)
    ensures n in LoadsOf(s) <==> NodeAlive(n) in s.kvs
  {
    if NodeAlive(n) in s.kvs { assert NodeAlive(n).NodeAlive?; }
  }

  lemma RecordMoves(s: Store, s': Store, id: string, node: string, req: Request, n: string)
    requires FullyRecorded(s, s', id, node, req) && NodeAlive(n) in s.kvs && NodeAlive(n) in s'.kvs
    ensures LoadOf(s', n).sandboxes == LoadOf(s, n).sandboxes + If(n == node, 1)
    ensures LoadOf(s', n).usedVcpus == LoadOf(s, n).usedVcpus + If(n == node, req.vcpus)
    ensures LoadOf(s', n).usedMem == LoadOf(s, n).usedMem + If(n == node, req.memMib)
  {
    var e := Entry(node, req.vcpus, req.memMib);
    LoadIsBooked(s, n);
    LoadIsBooked(s', n);
    assert id !in BookOf(s) && BookOf(s') == BookOf(s)[id := e] by { FullBooks(s, s', id, node, req); }
    BookAdd(BookOf(s), id, e, n);
  }

  lemma RecordKeepsNodes(s: Store, s': Store, id: string, node: string, req: Request)
    requires FullyRecorded(s, s', id, node, req)
    ensures LoadsOf(s').Keys == LoadsOf(s).Keys
    ensures forall n :: n in LoadsOf(s) ==> && NodeAlive(n) in s'.kvs && s'.kvs[NodeAlive(n)].value == s.kvs[NodeAlive(n)].value
  {
    forall n ensures n in LoadsOf(s') <==> n in LoadsOf(s) {
      assert NodeAlive(n).NodeAlive?;
      LoadsHas(s, n);
      LoadsHas(s', n);
    }
    forall n | n in LoadsOf(s) ensures NodeAlive(n) in s'.kvs && s'.kvs[NodeAlive(n)].value == s.kvs[NodeAlive(n)].value {
      assert NodeAlive(n).NodeAlive?;
    }
  }

  lemma RecordMovesLoad(s: Store, s': Store, id: string, node: string, req: Request, n: string)
    requires FullyRecorded(s, s', id, node, req) && NodeAlive(n) in s.kvs && NodeAlive(n) in s'.kvs
    requires s'.kvs[NodeAlive(n)].value == s.kvs[NodeAlive(n)].value
    ensures LoadOf(s', n) == if n == node then OneMore(LoadOf(s, n), req) else LoadOf(s, n)
  {
    RecordMoves(s, s', id, node, req, n);
  }

  lemma BumpAt(s: Store, s': Store, id: string, node: string, req: Request, n: string)
    requires FullyRecorded(s, s', id, node, req) && n in LoadsOf(s)
    ensures n in LoadsOf(s') && LoadsOf(s')[n] == if n == node then OneMore(LoadsOf(s)[n], req) else LoadsOf(s)[n]
  {
    RecordKeepsNodes(s, s', id, node, req);
    RecordMovesLoad(s, s', id, node, req, n);
  }

  /** `b` is `a` with one more copy of the request on a node. */
  ghost predicate Bumped(a: Loads, b: Loads, node: string, req: Request) {
    && node in a && b.Keys == a.Keys
    && forall n :: n in a ==> b[n] == if n == node then OneMore(a[n], req) else a[n]
  }

  lemma RecordBumps(s: Store, s': Store, id: string, node: string, req: Request)
    requires FullyRecorded(s, s', id, node, req) && node in LoadsOf(s)
    ensures Bumped(LoadsOf(s), LoadsOf(s'), node, req)
  {
    RecordKeepsNodes(s, s', id, node, req);
    forall n | n in LoadsOf(s) ensures LoadsOf(s')[n] == if n == node then OneMore(LoadsOf(s)[n], req) else LoadsOf(s)[n] {
      BumpAt(s, s', id, node, req, n);
    }
  }

  function Times(k: nat, x: nat): nat { k * x }

  /** All nodes alike, and each loaded with so many copies of the request. */
  ghost predicate Uniform(loads: Loads, cap: Capacity, req: Request, overcommit: nat) {
    forall n :: n in loads ==>
      var l := loads[n];
      && l.id == n && l.cpus == cap.cpus && l.memMib == cap.memMib
      && l.usedVcpus == Times(l.sandboxes, req.vcpus) <= Ceiling(cap.cpus, overcommit)
      && l.usedMem == Times(l.sandboxes, req.memMib) <= Ceiling(cap.memMib, overcommit)
  }

  ghost predicate Balanced(loads: Loads) {
    forall a, b :: a in loads && b in loads ==> loads[a].sandboxes <= loads[b].sandboxes + 1
  }

  lemma TimesMonotone(j: nat, k: nat, x: nat)
    requires j <= k
    ensures Times(j, x) <= Times(k, x)
  {
  }

  lemma TimesNext(k: nat, x: nat)
    ensures Times(k + 1, x) == Times(k, x) + x
  {
  }

  /** With less on it, a node still fits and comes before. */
  lemma LessIsBetter(m: NodeLoad, n: NodeLoad, req: Request, self: string, cap: Capacity, overcommit: nat)
    requires Fits(n, req, overcommit) && m.sandboxes < n.sandboxes && m.cpus == n.cpus && m.memMib == n.memMib
    requires m.usedVcpus <= n.usedVcpus <= Ceiling(n.cpus, overcommit) < TWO63
    requires m.usedMem <= n.usedMem <= Ceiling(n.memMib, overcommit) < TWO63
    ensures Fits(m, req, overcommit) && Better(m, n, self, overcommit)
  {
    FreeIsRoom(n.memMib, n.usedMem, overcommit);
    FreeIsRoom(n.cpus, n.usedVcpus, overcommit);
    FreeIsRoom(m.memMib, m.usedMem, overcommit);
    FreeIsRoom(m.cpus, m.usedVcpus, overcommit);
  }

  ghost predicate SaneCapacity(cap: Capacity, overcommit: nat) {
    Ceiling(cap.cpus, overcommit) < TWO63 && Ceiling(cap.memMib, overcommit) < TWO63
  }

  /** The chosen node is among the least loaded. */
  lemma ChosenIsLeast(loads: Loads, nodes: seq<NodeLoad>, n: NodeLoad, req: Request, self: string, cap: Capacity, overcommit: nat, b: string)
    requires Chosen(nodes, n, req, self, overcommit) && Uniform(loads, cap, req, overcommit) && SaneCapacity(cap, overcommit)
    requires b in loads && loads[b] in nodes && n.id in loads && loads[n.id] == n
    ensures n.sandboxes <= loads[b].sandboxes
  {
    var m := loads[b];
    if m.sandboxes < n.sandboxes {
      TimesMonotone(m.sandboxes, n.sandboxes, req.memMib);
      TimesMonotone(m.sandboxes, n.sandboxes, req.vcpus);
      LessIsBetter(m, n, req, self, cap, overcommit);
    }
  }

  lemma RepeatKeepsBalance(loads: Loads, nodes: seq<NodeLoad>, n: NodeLoad, loads': Loads, req: Request, self: string, cap: Capacity, overcommit: nat)
    requires Chosen(nodes, n, req, self, overcommit) && Uniform(loads, cap, req, overcommit) && Balanced(loads)
    requires SaneCapacity(cap, overcommit) && SaneRequest(req)
    requires Bumped(loads, loads', n.id, req) && loads[n.id] == n && forall b :: b in loads ==> loads[b] in nodes
    ensures Balanced(loads') && Uniform(loads', cap, req, overcommit)
  {
    forall b | b in loads ensures n.sandboxes <= loads[b].sandboxes {
      ChosenIsLeast(loads, nodes, n, req, self, cap, overcommit, b);
    }
    AdmissionExactIff(n.cpus, n.usedVcpus, overcommit, req.vcpus);
    AdmissionExactIff(n.memMib, n.usedMem, overcommit, req.memMib);
    TimesNext(n.sandboxes, req.vcpus);
    TimesNext(n.sandboxes, req.memMib);
  }

  lemma StepKeepsBalance(s: Store, ask: Ask, req: Request, s': Store, cap: Capacity, overcommit: nat)
    requires Repeat(s, ask, req, s', overcommit) && SaneCapacity(cap, overcommit) && SaneRequest(req)
    requires Uniform(LoadsOf(s), cap, req, overcommit) && Balanced(LoadsOf(s))
    ensures Uniform(LoadsOf(s'), cap, req, overcommit) && Balanced(LoadsOf(s')) && LoadsOf(s').Keys == LoadsOf(s).Keys
  {
    if ask.choice.Some? {
      var n, loads := ask.choice.value, LoadsOf(s);
      LoadsHas(s, n.id);
      RecordBumps(s, s', ask.id, n.id, req);
      RepeatKeepsBalance(loads, ask.nodes, n, LoadsOf(s'), req, ask.self, cap, overcommit);
    }
  }

  /** Equal nodes with nothing on them. */
  ghost predicate Fresh(s: Store, cap: Capacity) {
    && (forall n :: NodeAlive(n) in s.kvs ==> s.kvs[NodeAlive(n)].value == Spec(cap.cpus, cap.memMib))
    && (forall n :: NodeAlive(n) in s.kvs ==> Placed(s, n) == {})
  }

  lemma StartsBalanced(s: Store, req: Request, cap: Capacity, overcommit: nat)
    requires Fresh(s, cap)
    ensures Balanced(LoadsOf(s)) && Uniform(LoadsOf(s), cap, req, overcommit)
  {
    forall n | n in LoadsOf(s) ensures LoadsOf(s)[n] == NodeLoad(n, cap.cpus, cap.memMib, 0, 0, 0) {
      LoadNone(s, n, s.kvs[NodeAlive(n)].value);
    }
  }

  /** A request and the store it leaves. */
  datatype Turn = Turn(ask: Ask, after: Store)

  ghost predicate Repeats(s: Store, turns: seq<Turn>, req: Request, overcommit: nat)
    decreases |turns|
  {
    turns != [] ==> Repeat(s, turns[0].ask, req, turns[0].after, overcommit) && Repeats(turns[0].after, turns[1..], req, overcommit)
  }

  function Last(s: Store, turns: seq<Turn>): Store {
    if turns == [] then s else turns[|turns| - 1].after
  }

  lemma {:induction false} BalanceHolds(s: Store, turns: seq<Turn>, req: Request, cap: Capacity, overcommit: nat)
    requires Repeats(s, turns, req, overcommit) && SaneCapacity(cap, overcommit) && SaneRequest(req)
    requires Balanced(LoadsOf(s)) && Uniform(LoadsOf(s), cap, req, overcommit)
    ensures Balanced(LoadsOf(Last(s, turns))) && LoadsOf(Last(s, turns)).Keys == LoadsOf(s).Keys
    decreases |turns|
  {
    if turns != [] {
      assert Last(s, turns) == Last(turns[0].after, turns[1..]);
      StepKeepsBalance(s, turns[0].ask, req, turns[0].after, cap, overcommit);
      BalanceHolds(turns[0].after, turns[1..], req, cap, overcommit);
    }
  }

  /** MAIN: from empty, equal nodes, the same request repeated through any replicas
      any number of times leaves every two nodes within one sandbox of each other,
      also when it takes no memory or no vcpu, and also once nothing fits any more. */
  lemma StaysBalanced(s: Store, turns: seq<Turn>, req: Request, cap: Capacity, overcommit: nat, a: string, b: string)
    requires Repeats(s, turns, req, overcommit) && SaneCapacity(cap, overcommit) && SaneRequest(req) && Fresh(s, cap)
    requires NodeAlive(a) in s.kvs && NodeAlive(b) in s.kvs
    ensures var t := Last(s, turns);
            && NodeAlive(a) in t.kvs && NodeAlive(b) in t.kvs
            && -1 <= LoadOf(t, a).sandboxes - LoadOf(t, b).sandboxes <= 1
  {
    StartsBalanced(s, req, cap, overcommit);
    BalanceHolds(s, turns, req, cap, overcommit);
    LoadsHas(s, a);
    LoadsHas(s, b);
    assert Balanced(LoadsOf(Last(s, turns)));
  }
}

/** A registration is what the other protocols take it for. */
module Registration {
  import opened Common
  import opened Keys
  import opened LeaseStore
  import Lifecycle
  import Sched
  import SchedRuns
  import Cluster

  /** A create that succeeds on a node is an arrival recorded in full on that node, and is
      up for reclaiming exactly when that node is neither alive nor protected. */
  lemma CreateIsArrival(st: Lifecycle.State, step: Lifecycle.Step, st': Lifecycle.State, node: string, live: set<string>, protect: Option<string>)
    requires Lifecycle.Next(st, step, st') && step.Create? && step.ok && step.owner == Some(node) && NoDangling(st.store)
    ensures SchedRuns.FullyRecorded(st.store, st'.store, step.id, node, Sched.Request(step.req.vcpus, step.req.memMib))
    ensures Cluster.Orphan(st'.store, live, protect, step.id) <==> node !in live && protect != Some(node)
  {
    var s, s' := st.store, st'.store;
    forall k | k in s.kvs ensures k in s'.kvs && s'.kvs[k] == s.kvs[k] {
      assert s.kvs[k].lease != Some(step.lease);
    }
    assert forall f :: Sandbox(step.id, f) !in s.kvs;
  }
}
