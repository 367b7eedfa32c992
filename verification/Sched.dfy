/** Placement: what the survey counts, where the next sandbox goes, and what holds
    over whole runs of survey, place and record. */
module Sched {
  import opened Common
  import opened Strings
  import opened Keys
  import opened LeaseStore
  import opened Sums

  /** A live node with its reported capacity and what is allocated on it. */
  datatype NodeLoad = NodeLoad(id: string, cpus: nat, memMib: nat, sandboxes: nat, usedVcpus: nat, usedMem: nat)

  datatype Request = Request(vcpus: nat, memMib: nat)

  // ----- 64-bit arithmetic -----

  const TWO63 := 0x8000_0000_0000_0000
  const TWO64 := 0x1_0000_0000_0000_0000

  /** `as i64`, and the wrap of an `i64` subtraction. */
  function Wrap(x: int): (r: int)
    ensures -TWO63 <= r < TWO63
  {
    (x + TWO63) % TWO64 - TWO63
  }

  function SaturatingMul(a: nat, b: nat): nat {
    Common.Min(a * b, TWO64 - 1)
  }

  function Factor(overcommit: nat): (f: nat)
    ensures f >= 1
  {
    Common.Max(overcommit, 1)
  }

  /** What may be allocated on a capacity. */
  function Ceiling(capacity: nat, overcommit: nat): nat {
    capacity * Factor(overcommit)
  }

  function Free(capacity: nat, used: nat, overcommit: nat): int {
    Wrap(Wrap(SaturatingMul(capacity, Factor(overcommit))) - Wrap(used))
  }

  predicate Fits(n: NodeLoad, req: Request, overcommit: nat) {
    && n.memMib > 0 && n.cpus > 0
    && Free(n.memMib, n.usedMem, overcommit) >= Wrap(req.memMib)
    && Free(n.cpus, n.usedVcpus, overcommit) >= Wrap(req.vcpus)
  }

  lemma WrapSmall(x: int)
    requires -TWO63 <= x < TWO63
    ensures Wrap(x) == x
  {
  }

  lemma FreeIsRoom(capacity: nat, used: nat, overcommit: nat)
    requires used <= Ceiling(capacity, overcommit) < TWO63
    ensures Free(capacity, used, overcommit) == Ceiling(capacity, overcommit) - used
  {
    WrapSmall(Ceiling(capacity, overcommit));
    WrapSmall(used);
    WrapSmall(Ceiling(capacity, overcommit) - used);
  }

  /** The admission test on a sanely reported dimension is the arithmetic one exactly
      for requests below 2^63; larger ones turn negative and always pass. */
  lemma AdmissionExactIff(capacity: nat, used: nat, overcommit: nat, want: nat)
    requires used <= Ceiling(capacity, overcommit) < TWO63 && want < TWO64
    ensures (Free(capacity, used, overcommit) >= Wrap(want) <==> used + want <= Ceiling(capacity, overcommit)) <==> want < TWO63
  {
    FreeIsRoom(capacity, used, overcommit);
    if want < TWO63 {
      WrapSmall(want);
    } else {
      assert Wrap(want) == want - TWO64;
    }
  }

  // ----- the placement order -----

  /** More free memory, then fewer sandboxes, then the asking node, then the id. */
  predicate Better(a: NodeLoad, b: NodeLoad, self: string, overcommit: nat) {
    var fa, fb := Free(a.memMib, a.usedMem, overcommit), Free(b.memMib, b.usedMem, overcommit);
    if fa != fb then fa > fb
    else if a.sandboxes != b.sandboxes then a.sandboxes < b.sandboxes
    else if (a.id == self) != (b.id == self) then a.id == self
    else Before(a.id, b.id)
  }

  lemma BetterTransitive(a: NodeLoad, b: NodeLoad, c: NodeLoad, self: string, overcommit: nat)
    requires Better(a, b, self, overcommit) && Better(b, c, self, overcommit)
    ensures Better(a, c, self, overcommit)
  {
    if Before(a.id, b.id) && Before(b.id, c.id) { BeforeTransitive(a.id, b.id, c.id); }
  }

  /** The node fits and no fitting node of the list is better. */
  predicate Chosen(nodes: seq<NodeLoad>, n: NodeLoad, req: Request, self: string, overcommit: nat) {
    && n in nodes && Fits(n, req, overcommit)
    && forall m :: m in nodes && Fits(m, req, overcommit) ==> !Better(m, n, self, overcommit)
  }

  /** `place`: filter, order, take the first. */
  method Place(nodes: seq<NodeLoad>, req: Request, self: string, overcommit: nat) returns (r: Option<string>)
    ensures r == None <==> forall n :: n in nodes ==> !Fits(n, req, overcommit)
    ensures r.Some? ==> exists n :: Chosen(nodes, n, req, self, overcommit) && n.id == r.value
  {
    var fit := [];
    for i := 0 to |nodes|
      invariant forall n :: n in fit <==> n in nodes[..i] && Fits(n, req, overcommit)
    {
      if Fits(nodes[i], req, overcommit) { fit := fit + [nodes[i]]; }
    }
    assert nodes[..|nodes|] == nodes;
    if fit == [] {
      return None;
    }
    var first := fit[0];
    BeforeIrreflexive(first.id);
    for i := 1 to |fit|
      invariant first in fit[..i]
      invariant forall m :: m in fit[..i] ==> !Better(m, first, self, overcommit)
    {
      if Better(fit[i], first, self, overcommit) {
        forall m | m in fit[..i] ensures !Better(m, fit[i], self, overcommit) {
          if Better(m, fit[i], self, overcommit) { BetterTransitive(m, fit[i], first, self, overcommit); }
        }
        first := fit[i];
        BeforeIrreflexive(first.id);
      }
    }
    assert fit[..|fit|] == fit;
    assert Chosen(nodes, first, req, self, overcommit);
    return Some(first.id);
  }

  /** MAIN: the choice depends on the nodes, not on the order or repetition of the list. */
  lemma ChoiceIsUnique(nodes: seq<NodeLoad>, other: seq<NodeLoad>, a: NodeLoad, b: NodeLoad, req: Request, self: string, overcommit: nat)
    requires forall n :: n in nodes <==> n in other
    requires Chosen(nodes, a, req, self, overcommit) && Chosen(other, b, req, self, overcommit)
    ensures a.id == b.id
  {
    BeforeTotal(a.id, b.id);
  }

  /** Room left in memory, on a node reported sanely. */
  function Room(n: NodeLoad, overcommit: nat): int {
    n.memMib * (if overcommit == 0 then 1 else overcommit) - n.usedMem
  }

  predicate Sane(n: NodeLoad, overcommit: nat) {
    Ceiling(n.memMib, overcommit) < TWO63 && n.usedMem <= Ceiling(n.memMib, overcommit)
  }

  /** The four keys, one by one: no fitting node has more room in memory than the one chosen;
      among those with as much, none has fewer sandboxes; among those with as many, the
      asking node is chosen; and without it, the first by id. */
  lemma ChosenBeats(nodes: seq<NodeLoad>, n: NodeLoad, m: NodeLoad, req: Request, self: string, overcommit: nat)
    requires Chosen(nodes, n, req, self, overcommit) && m in nodes && Fits(m, req, overcommit)
    requires Sane(n, overcommit) && Sane(m, overcommit)
    ensures Room(n, overcommit) >= Room(m, overcommit)
    ensures Room(n, overcommit) == Room(m, overcommit) ==> n.sandboxes <= m.sandboxes
    ensures Room(n, overcommit) == Room(m, overcommit) && n.sandboxes == m.sandboxes && m.id == self ==> n.id == self
    ensures Room(n, overcommit) == Room(m, overcommit) && n.sandboxes == m.sandboxes && n.id != self ==> n.id == m.id || Before(n.id, m.id)
  {
    FreeIsRoom(n.memMib, n.usedMem, overcommit);
    FreeIsRoom(m.memMib, m.usedMem, overcommit);
    BeforeTotal(n.id, m.id);
  }

  /** Fitting, on a node reported sanely, is room for both what is asked in memory and in
      vcpus, and a capacity that was reported at all. */
  lemma FitsMeans(n: NodeLoad, req: Request, overcommit: nat)
    requires Sane(n, overcommit) && Ceiling(n.cpus, overcommit) < TWO63 && n.usedVcpus <= Ceiling(n.cpus, overcommit)
    requires req.memMib < TWO63 && req.vcpus < TWO63
    ensures var f := if overcommit == 0 then 1 else overcommit;
            Fits(n, req, overcommit) <==>
              n.memMib > 0 && n.cpus > 0 && n.usedMem + req.memMib <= n.memMib * f && n.usedVcpus + req.vcpus <= n.cpus * f
  {
    AdmissionExactIff(n.memMib, n.usedMem, overcommit, req.memMib);
    AdmissionExactIff(n.cpus, n.usedVcpus, overcommit, req.vcpus);
  }

  // ----- the survey -----

  function VcpusIn(v: Value): nat {
    if v.Spec? then v.vcpus else 0
  }

  function MemIn(v: Value): nat {
    if v.Spec? then v.memMib else 0
  }

  function TextIn(v: Value): string {
    if v.Text? then v.text else ""
  }

  predicate OwnedBy(s: Store, id: string, node: string) {
    Sandbox(id, Owner) in s.kvs && TextIn(s.kvs[Sandbox(id, Owner)].value) == node
  }

  predicate On(s: Store, id: string, node: string) {
    Sandbox(id, Meta) in s.kvs && OwnedBy(s, id, node)
  }

  /** The sandboxes recorded on a node. */
  function Placed(s: Store, node: string): (ids: set<string>) {
    set k | k in s.kvs && k.Sandbox? && On(s, k.id, node) :: k.id
  }

  ghost function Vcpus(s: Store, ids: set<string>): map<string, nat> {
    map id | id in ids && Sandbox(id, Meta) in s.kvs :: VcpusIn(s.kvs[Sandbox(id, Meta)].value)
  }

  ghost function Mem(s: Store, ids: set<string>): map<string, nat> {
    map id | id in ids && Sandbox(id, Meta) in s.kvs :: MemIn(s.kvs[Sandbox(id, Meta)].value)
  }

  /** A node as it reports itself, with nothing on it. */
  function Bare(node: string, v: Value): NodeLoad {
    NodeLoad(node, VcpusIn(v), MemIn(v), 0, 0, 0)
  }

  /** The node charged with these sandboxes. */
  ghost function LoadFrom(s: Store, bare: NodeLoad, ids: set<string>): NodeLoad {
    bare.(sandboxes := |ids|, usedVcpus := Sum(Vcpus(s, ids)), usedMem := Sum(Mem(s, ids)))
  }

  ghost function LoadOf(s: Store, node: string): NodeLoad
    requires NodeAlive(node) in s.kvs
  {
    LoadFrom(s, Bare(node, s.kvs[NodeAlive(node)].value), Placed(s, node))
  }

  lemma LoadMore(s: Store, bare: NodeLoad, ids: set<string>, id: string)
    requires id !in ids && Sandbox(id, Meta) in s.kvs
    ensures var was, v := LoadFrom(s, bare, ids), s.kvs[Sandbox(id, Meta)].value;
            LoadFrom(s, bare, ids + {id}) == was.(sandboxes := was.sandboxes + 1, usedVcpus := was.usedVcpus + VcpusIn(v), usedMem := was.usedMem + MemIn(v))
  {
    var v := s.kvs[Sandbox(id, Meta)].value;
    SumAdd(Vcpus(s, ids), id, VcpusIn(v));
    SumAdd(Mem(s, ids), id, MemIn(v));
    assert Vcpus(s, ids + {id}) == Vcpus(s, ids)[id := VcpusIn(v)];
    assert Mem(s, ids + {id}) == Mem(s, ids)[id := MemIn(v)];
  }

  lemma LoadNone(s: Store, node: string, v: Value)
    ensures LoadFrom(s, Bare(node, v), {}) == Bare(node, v)
  {
    assert Vcpus(s, {}) == map[] && Mem(s, {}) == map[];
  }

  /** First pass: the live nodes, with nothing on them yet. */
  method Nodes(alive: Store) returns (loads: map<string, NodeLoad>)
    ensures forall n :: n in loads <==> NodeAlive(n) in alive.kvs
    ensures forall n :: n in loads ==> loads[n] == Bare(n, alive.kvs[NodeAlive(n)].value)
  {
    loads := map[];
    var todo := alive.kvs.Keys;
    while todo != {}
      invariant todo <= alive.kvs.Keys
      invariant forall n :: n in loads <==> NodeAlive(n) in alive.kvs && NodeAlive(n) !in todo
      invariant forall n :: n in loads ==> loads[n] == Bare(n, alive.kvs[NodeAlive(n)].value)
      decreases todo
    {
      var k :| k in todo;
      todo := todo - {k};
      if k.NodeAlive? {
        loads := loads[k.node := Bare(k.node, alive.kvs[k].value)];
      }
    }
  }

  /** Second pass: which node owns which sandbox. */
  method Owners(s: Store) returns (owner: map<string, string>)
    ensures forall id, n :: id in owner && owner[id] == n <==> OwnedBy(s, id, n)
  {
    owner := map[];
    var todo := s.kvs.Keys;
    while todo != {}
      invariant todo <= s.kvs.Keys
      invariant forall id, n :: id in owner && owner[id] == n <==> OwnedBy(s, id, n) && Sandbox(id, Owner) !in todo
      decreases todo
    {
      var k :| k in todo;
      todo := todo - {k};
      var sid := Scan(k, Owner);
      if sid.Some? {
        owner := owner[sid.value := TextIn(s.kvs[k].value)];
      }
    }
  }

  /** Those of the given sandboxes that are on a node. */
  ghost function Among(s: Store, node: string, ids: set<string>): set<string> {
    set id | id in ids && On(s, id, node)
  }

  function Plus(l: NodeLoad, v: Value): NodeLoad {
    l.(sandboxes := l.sandboxes + 1, usedVcpus := l.usedVcpus + VcpusIn(v), usedMem := l.usedMem + MemIn(v))
  }

  lemma AmongMore(s: Store, n: string, seen: set<string>, id: string)
    requires Sandbox(id, Meta) in s.kvs
    ensures Among(s, n, seen + {id}) == if OwnedBy(s, id, n) then Among(s, n, seen) + {id} else Among(s, n, seen)
  {
  }

  lemma ChargedNode(s: Store, bare: NodeLoad, n: string, seen: set<string>, id: string)
    requires Sandbox(id, Meta) in s.kvs && id !in seen
    ensures var was := LoadFrom(s, bare, Among(s, n, seen));
            LoadFrom(s, bare, Among(s, n, seen + {id})) == if OwnedBy(s, id, n) then Plus(was, s.kvs[Sandbox(id, Meta)].value) else was
  {
    AmongMore(s, n, seen, id);
    if OwnedBy(s, id, n) { LoadMore(s, bare, Among(s, n, seen), id); }
  }

  /** Every node is charged with those of the sandboxes seen that are on it. */
  ghost predicate Charged(s: Store, bare: map<string, NodeLoad>, loads: map<string, NodeLoad>, seen: set<string>) {
    loads.Keys == bare.Keys && forall n :: n in bare ==> loads[n] == LoadFrom(s, bare[n], Among(s, n, seen))
  }

  method ChargeOne(s: Store, ghost bare: map<string, NodeLoad>, loads: map<string, NodeLoad>, owner: map<string, string>, id: string, ghost seen: set<string>)
    returns (charged: map<string, NodeLoad>)
    requires Sandbox(id, Meta) in s.kvs && id !in seen && Charged(s, bare, loads, seen)
    requires forall n :: id in owner && owner[id] == n <==> OwnedBy(s, id, n)
    ensures Charged(s, bare, charged, seen + {id})
  {
    charged := loads;
    if id in owner && owner[id] in loads {
      charged := loads[owner[id] := Plus(loads[owner[id]], s.kvs[Sandbox(id, Meta)].value)];
    }
    forall n | n in bare ensures charged[n] == LoadFrom(s, bare[n], Among(s, n, seen + {id})) {
      ChargedNode(s, bare[n], n, seen, id);
      assert OwnedBy(s, id, n) <==> id in owner && owner[id] == n;
    }
  }

  lemma NobodyCharged(s: Store, bare: map<string, NodeLoad>)
    requires forall n :: n in bare ==> bare[n].sandboxes == bare[n].usedVcpus == bare[n].usedMem == 0
    ensures Charged(s, bare, bare, {})
  {
    forall n | n in bare ensures bare[n] == LoadFrom(s, bare[n], Among(s, n, {})) {
      assert Among(s, n, {}) == {} && Vcpus(s, {}) == map[] && Mem(s, {}) == map[];
    }
  }

  lemma AllCharged(s: Store, bare: map<string, NodeLoad>, loads: map<string, NodeLoad>, seen: set<string>)
    requires Charged(s, bare, loads, seen) && forall id :: id in seen <==> Sandbox(id, Meta) in s.kvs
    ensures forall n :: n in bare ==> loads[n] == LoadFrom(s, bare[n], Placed(s, n))
  {
    forall n | n in bare ensures Among(s, n, seen) == Placed(s, n) {
      forall id | id in Among(s, n, seen) ensures id in Placed(s, n) {
        assert Sandbox(id, Meta) in s.kvs;
      }
    }
  }

  /** Third pass: every sandbox with a known live owner is charged to it, once. */
  method Charge(s: Store, bare: map<string, NodeLoad>, owner: map<string, string>) returns (loads: map<string, NodeLoad>)
    requires forall n :: n in bare ==> bare[n].sandboxes == bare[n].usedVcpus == bare[n].usedMem == 0
    requires forall id, n :: id in owner && owner[id] == n <==> OwnedBy(s, id, n)
    ensures loads.Keys == bare.Keys
    ensures forall n :: n in bare ==> loads[n] == LoadFrom(s, bare[n], Placed(s, n))
  {
    loads := bare;
    var todo := s.kvs.Keys;
    ghost var seen: set<string> := {};
    NobodyCharged(s, bare);
    while todo != {}
      invariant todo <= s.kvs.Keys && Charged(s, bare, loads, seen)
      invariant forall id :: id in seen <==> Sandbox(id, Meta) in s.kvs && Sandbox(id, Meta) !in todo
      decreases todo
    {
      var k :| k in todo;
      todo := todo - {k};
      var sid := Scan(k, Meta);
      if sid.Some? {
        loads := ChargeOne(s, bare, loads, owner, sid.value, seen);
        seen := seen + {sid.value};
      }
    }
    AllCharged(s, bare, loads, seen);
  }

  /** Each node alive in one listing once, by id, charged with the sandboxes of the other. */
  ghost predicate IsSurveyOf(alive: Store, s: Store, nodes: seq<NodeLoad>) {
    && (forall n :: n in nodes ==>
          NodeAlive(n.id) in alive.kvs && n == LoadFrom(s, Bare(n.id, alive.kvs[NodeAlive(n.id)].value), Placed(s, n.id)))
    && (forall id :: NodeAlive(id) in alive.kvs ==> LoadFrom(s, Bare(id, alive.kvs[NodeAlive(id)].value), Placed(s, id)) in nodes)
    && (forall i, j :: 0 <= i < j < |nodes| ==> Before(nodes[i].id, nodes[j].id))
  }

  ghost predicate IsSurvey(s: Store, nodes: seq<NodeLoad>) {
    && (forall n :: n in nodes ==> NodeAlive(n.id) in s.kvs && n == LoadOf(s, n.id))
    && (forall id :: NodeAlive(id) in s.kvs ==> LoadOf(s, id) in nodes)
    && (forall i, j :: 0 <= i < j < |nodes| ==> Before(nodes[i].id, nodes[j].id))
  }

  /** Sorted insertion of a node whose id is new to the list. */
  method Insert(nodes: seq<NodeLoad>, n: NodeLoad) returns (r: seq<NodeLoad>)
    requires forall i, j :: 0 <= i < j < |nodes| ==> Before(nodes[i].id, nodes[j].id)
    requires forall i :: 0 <= i < |nodes| ==> nodes[i].id != n.id
    ensures forall i, j :: 0 <= i < j < |r| ==> Before(r[i].id, r[j].id)
    ensures forall m :: m in r <==> m in nodes || m == n
  {
    var p := 0;
    while p < |nodes| && Before(nodes[p].id, n.id)
      invariant p <= |nodes| && forall i :: 0 <= i < p ==> Before(nodes[i].id, n.id)
    {
      p := p + 1;
    }
    r := nodes[..p] + [n] + nodes[p..];
    if p < |nodes| {
      BeforeTotal(nodes[p].id, n.id);
      forall j | p < j < |nodes| ensures Before(n.id, nodes[j].id) { BeforeTransitive(n.id, nodes[p].id, nodes[j].id); }
    }
    assert forall m :: m in nodes ==> m in nodes[..p] || m in nodes[p..];
  }

  /** The table as a list, by id. */
  method Sorted(loads: map<string, NodeLoad>) returns (nodes: seq<NodeLoad>)
    requires forall n :: n in loads ==> loads[n].id == n
    ensures forall n :: n in nodes <==> n.id in loads && n == loads[n.id]
    ensures forall i, j :: 0 <= i < j < |nodes| ==> Before(nodes[i].id, nodes[j].id)
  {
    nodes := [];
    var todo := loads.Keys;
    while todo != {}
      invariant todo <= loads.Keys
      invariant forall n :: n in nodes <==> n.id in loads && n.id !in todo && n == loads[n.id]
      invariant forall i, j :: 0 <= i < j < |nodes| ==> Before(nodes[i].id, nodes[j].id)
      decreases todo
    {
      var id :| id in todo;
      todo := todo - {id};
      nodes := Insert(nodes, loads[id]);
    }
  }

  /** MAIN: `survey` lists each live node once, by id, with exactly the sandboxes the
      store records on it; sandboxes of unknown or dead owners are on no account.  The
      nodes are listed first, so the store may have moved on from `alive` to `s`. */
  method Survey(alive: Store, s: Store) returns (nodes: seq<NodeLoad>)
    ensures IsSurveyOf(alive, s, nodes)
    ensures alive == s ==> IsSurvey(s, nodes)
  {
    var bare := Nodes(alive);
    if bare == map[] {
      return [];
    }
    var owner := Owners(s);
    var loads := Charge(s, bare, owner);
    assert forall n :: n in loads ==> loads[n].id == n;
    nodes := Sorted(loads);
  }
}
