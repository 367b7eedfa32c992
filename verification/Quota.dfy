/** Per-project quotas: the usage scan, the admission check, and what checked
    operations keep over whole runs. */
module Quota {
  import opened Common
  import opened Keys
  import opened LeaseStore
  import opened Sums
  import opened Books
  import Sched

  datatype Usage = Usage(count: nat, vcpus: nat, memMib: nat, storageMib: nat)

  function AmountIn(v: Value): nat {
    if v.Amount? then v.mib else 0
  }

  /** The sandboxes that have both a project and the given other key. */
  function Tagged(s: Store, f: Field): (ids: set<string>) {
    set k | k in s.kvs && k.Sandbox? && k.field == f && Sandbox(k.id, Project) in s.kvs :: k.id
  }

  function ProjectOf(s: Store, id: string): string
    requires Sandbox(id, Project) in s.kvs
  {
    Sched.TextIn(s.kvs[Sandbox(id, Project)].value)
  }

  function SpecEntry(s: Store, id: string): Entry
    requires Sandbox(id, Project) in s.kvs && Sandbox(id, Meta) in s.kvs
  {
    var v := s.kvs[Sandbox(id, Meta)].value;
    Entry(ProjectOf(s, id), Sched.VcpusIn(v), Sched.MemIn(v))
  }

  function SizeEntry(s: Store, id: string): Entry
    requires Sandbox(id, Project) in s.kvs && Sandbox(id, Size) in s.kvs
  {
    Entry(ProjectOf(s, id), 0, AmountIn(s.kvs[Sandbox(id, Size)].value))
  }

  ghost function Specs(s: Store): Book { map id | id in Tagged(s, Meta) :: SpecEntry(s, id) }

  ghost function Sizes(s: Store): Book { map id | id in Tagged(s, Size) :: SizeEntry(s, id) }

  /** A project's usage: totals over its sandboxes. */
  ghost function UsageIn(specs: Book, sizes: Book, project: string): Usage {
    Usage(|Ids(specs, project)|, VcpusOn(specs, project), MemOn(specs, project), MemOn(sizes, project))
  }

  ghost function UsageOf(s: Store, project: string): Usage {
    UsageIn(Specs(s), Sizes(s), project)
  }

  /** First pass: which project each sandbox belongs to. */
  method Projects(s: Store) returns (proj: map<string, string>)
    ensures Knows(s, proj)
  {
    proj := map[];
    var todo := s.kvs.Keys;
    while todo != {}
      invariant todo <= s.kvs.Keys
      invariant forall id :: id in proj <==> Sandbox(id, Project) in s.kvs && Sandbox(id, Project) !in todo
      invariant forall id :: id in proj ==> proj[id] == ProjectOf(s, id)
      decreases todo
    {
      var k :| k in todo;
      todo := todo - {k};
      var sid := Scan(k, Project);
      if sid.Some? { proj := proj[sid.value := Sched.TextIn(s.kvs[k].value)]; }
    }
  }

  /** The part of a book whose keys have been read. */
  ghost predicate ReadSoFar(part: Book, whole: Book, f: Field, todo: set<Key>) {
    && (forall id :: id in part <==> id in whole && Sandbox(id, f) !in todo)
    && (forall id :: id in part ==> part[id] == whole[id])
  }

  lemma ReadOne(part: Book, whole: Book, f: Field, todo: set<Key>, k: Key)
    requires ReadSoFar(part, whole, f, todo) && k in todo
    ensures k.Sandbox? && k.field == f ==> k.id !in part
    ensures ReadSoFar(if k.Sandbox? && k.field == f && k.id in whole then part[k.id := whole[k.id]] else part, whole, f, todo - {k})
  {
  }

  lemma TaggedMeans(s: Store, id: string)
    ensures id in Specs(s) <==> Sandbox(id, Meta) in s.kvs && Sandbox(id, Project) in s.kvs
    ensures id in Sizes(s) <==> Sandbox(id, Size) in s.kvs && Sandbox(id, Project) in s.kvs
  {
    if Sandbox(id, Meta) in s.kvs { assert Sandbox(id, Meta).field == Meta; }
    if Sandbox(id, Size) in s.kvs { assert Sandbox(id, Size).field == Size; }
  }

  lemma AllRead(part: Book, whole: Book, f: Field)
    requires ReadSoFar(part, whole, f, {})
    ensures part == whole
  {
  }

  lemma NothingRead(s: Store, project: string)
    ensures ReadSoFar(map[], Specs(s), Meta, s.kvs.Keys) && ReadSoFar(map[], Sizes(s), Size, s.kvs.Keys)
    ensures UsageIn(map[], map[], project) == Usage(0, 0, 0, 0)
  {
    forall id ensures id in Specs(s) ==> Sandbox(id, Meta) in s.kvs ensures id in Sizes(s) ==> Sandbox(id, Size) in s.kvs {
      TaggedMeans(s, id);
    }
    var none: Book := map[];
    assert VcpuColumn(none, project) == map[] && MemColumn(none, project) == map[] && Ids(none, project) == {};
  }

  lemma SpecCounts(specs: Book, sizes: Book, project: string, id: string, e: Entry)
    requires id !in specs
    ensures var u := UsageIn(specs, sizes, project);
            UsageIn(specs[id := e], sizes, project) ==
            if e.under == project then u.(count := u.count + 1, vcpus := u.vcpus + e.vcpus, memMib := u.memMib + e.memMib) else u
  {
    BookAdd(specs, id, e, project);
  }

  lemma SizeCounts(specs: Book, sizes: Book, project: string, id: string, e: Entry)
    requires id !in sizes
    ensures var u := UsageIn(specs, sizes, project);
            UsageIn(specs, sizes[id := e], project) == if e.under == project then u.(storageMib := u.storageMib + e.memMib) else u
  {
    BookAdd(sizes, id, e, project);
  }

  ghost predicate Knows(s: Store, proj: map<string, string>) {
    && (forall id :: id in proj <==> Sandbox(id, Project) in s.kvs)
    && (forall id :: id in proj ==> proj[id] == ProjectOf(s, id))
  }

  /** A `meta` key in the second pass counts if its sandbox is in the project. */
  method CountSpec(s: Store, project: string, proj: map<string, string>, u: Usage, id: string, ghost specs: Book, ghost sizes: Book)
    returns (u': Usage, ghost specs': Book)
    requires Knows(s, proj) && Sandbox(id, Meta) in s.kvs && id !in specs && u == UsageIn(specs, sizes, project)
    ensures u' == UsageIn(specs', sizes, project)
    ensures specs' == if id in Specs(s) then specs[id := Specs(s)[id]] else specs
  {
    TaggedMeans(s, id);
    u', specs' := u, specs;
    if id in proj {
      var v := s.kvs[Sandbox(id, Meta)].value;
      if proj[id] == project {
        u' := u.(count := u.count + 1, vcpus := u.vcpus + Sched.VcpusIn(v), memMib := u.memMib + Sched.MemIn(v));
      }
      SpecCounts(specs, sizes, project, id, SpecEntry(s, id));
      specs' := specs[id := SpecEntry(s, id)];
    }
  }

  /** A `size` key likewise. */
  method CountSize(s: Store, project: string, proj: map<string, string>, u: Usage, id: string, ghost specs: Book, ghost sizes: Book)
    returns (u': Usage, ghost sizes': Book)
    requires Knows(s, proj) && Sandbox(id, Size) in s.kvs && id !in sizes && u == UsageIn(specs, sizes, project)
    ensures u' == UsageIn(specs, sizes', project)
    ensures sizes' == if id in Sizes(s) then sizes[id := Sizes(s)[id]] else sizes
  {
    TaggedMeans(s, id);
    u', sizes' := u, sizes;
    if id in proj {
      if proj[id] == project {
        u' := u.(storageMib := u.storageMib + AmountIn(s.kvs[Sandbox(id, Size)].value));
      }
      SizeCounts(specs, sizes, project, id, SizeEntry(s, id));
      sizes' := sizes[id := SizeEntry(s, id)];
    }
  }

  /** MAIN: the two-pass `usage` scan equals the totals over the project's sandboxes. */
  method Measure(s: Store, project: string) returns (u: Usage)
    ensures u == UsageOf(s, project)
  {
    var proj := Projects(s);
    u := Usage(0, 0, 0, 0);
    ghost var specs: Book, sizes: Book := map[], map[];
    var todo := s.kvs.Keys;
    NothingRead(s, project);
    while todo != {}
      invariant todo <= s.kvs.Keys && u == UsageIn(specs, sizes, project)
      invariant ReadSoFar(specs, Specs(s), Meta, todo) && ReadSoFar(sizes, Sizes(s), Size, todo)
      decreases todo
    {
      var k :| k in todo;
      ReadOne(specs, Specs(s), Meta, todo, k);
      ReadOne(sizes, Sizes(s), Size, todo, k);
      var meta := Scan(k, Meta);
      if meta.Some? {
        u, specs := CountSpec(s, project, proj, u, meta.value, specs, sizes);
      } else {
        var size := Scan(k, Size);
        if size.Some? {
          u, sizes := CountSize(s, project, proj, u, size.value, specs, sizes);
        }
      }
      todo := todo - {k};
    }
    AllRead(specs, Specs(s), Meta);
    AllRead(sizes, Sizes(s), Size);
  }

  function LimitsOf(s: Store, project: string): (l: Option<Value>)
    ensures l.Some? ==> l.value.Limits?
  {
    if Keys.Quota(project) in s.kvs && s.kvs[Keys.Quota(project)].value.Limits? then Some(s.kvs[Keys.Quota(project)].value) else None
  }

  /** Zero stands for "no limit". */
  predicate Below(limit: nat, amount: nat) {
    limit == 0 || amount <= limit
  }

  predicate Under(l: Value, u: Usage)
    requires l.Limits?
  {
    Below(l.maxSandboxes, u.count) && Below(l.maxVcpus, u.vcpus) && Below(l.maxMemMib, u.memMib) && Below(l.maxStorageMib, u.storageMib)
  }

  /** The check projects one sandbox more, whatever the operation. */
  function Projected(u: Usage, vcpus: nat, memMib: nat, storageMib: nat): Usage {
    Usage(u.count + 1, u.vcpus + vcpus, u.memMib + memMib, u.storageMib + storageMib)
  }

  ghost predicate Admits(s: Store, project: string, vcpus: nat, memMib: nat, storageMib: nat) {
    var l := LimitsOf(s, project);
    l.Some? ==> Under(l.value, Projected(UsageOf(s, project), vcpus, memMib, storageMib))
  }

  /** The four comparisons of the check. */
  function FirstExceeded(l: Value, u: Usage): (r: Result<()>)
    requires l.Limits?
    ensures r.Ok? <==> Under(l, u)
  {
    if l.maxSandboxes > 0 && u.count > l.maxSandboxes then Err("sandboxes")
    else if l.maxVcpus > 0 && u.vcpus > l.maxVcpus then Err("vcpus")
    else if l.maxMemMib > 0 && u.memMib > l.maxMemMib then Err("memory")
    else if l.maxStorageMib > 0 && u.storageMib > l.maxStorageMib then Err("storage")
    else Ok(())
  }

  /** The limits of a project as the store holds them. */
  ghost predicate LimitedTo(s: Store, project: string, sandboxes: nat, vcpus: nat, memMib: nat, storageMib: nat) {
    Keys.Quota(project) in s.kvs && s.kvs[Keys.Quota(project)].value == Limits(sandboxes, vcpus, memMib, storageMib)
  }

  /** What the check decides, limit by limit: a zero limit admits anything, any other the
      usage and what is asked for; one sandbox more is always counted.  Without limits on
      record everything is admitted. */
  lemma AdmitsMeans(s: Store, project: string, vcpus: nat, memMib: nat, storageMib: nat, a: nat, b: nat, c: nat, d: nat)
    ensures var u := UsageOf(s, project);
            LimitedTo(s, project, a, b, c, d) ==>
              (Admits(s, project, vcpus, memMib, storageMib) <==>
                 && (a == 0 || u.count + 1 <= a) && (b == 0 || u.vcpus + vcpus <= b)
                 && (c == 0 || u.memMib + memMib <= c) && (d == 0 || u.storageMib + storageMib <= d))
    ensures Keys.Quota(project) !in s.kvs ==> Admits(s, project, vcpus, memMib, storageMib)
  {
  }

  method Check(s: Store, project: string, vcpus: nat, memMib: nat, storageMib: nat) returns (r: Result<()>)
    ensures r.Ok? <==> Admits(s, project, vcpus, memMib, storageMib)
    ensures var u := UsageOf(s, project);
            forall a, b, c, d :: LimitedTo(s, project, a, b, c, d) ==>
              (r.Ok? <==>
                 && (a == 0 || u.count + 1 <= a) && (b == 0 || u.vcpus + vcpus <= b)
                 && (c == 0 || u.memMib + memMib <= c) && (d == 0 || u.storageMib + storageMib <= d))
    ensures Keys.Quota(project) !in s.kvs ==> r.Ok?
  {
    forall a, b, c, d { AdmitsMeans(s, project, vcpus, memMib, storageMib, a, b, c, d); }
    var lim := LimitsOf(s, project);
    if lim == None {
      return Ok(());
    }
    var u := Measure(s, project);
    r := FirstExceeded(lim.value, Projected(u, vcpus, memMib, storageMib));
  }

  // ----- checked operations over whole runs -----

  /** Does the usage scan read this key? */
  predicate Scanned(k: Key) {
    k.Sandbox? && (k.field == Meta || k.field == Project || k.field == Size)
  }

  ghost predicate Kept(s: Store, s': Store, k: Key) {
    k in s'.kvs ==> k in s.kvs && s'.kvs[k].value == s.kvs[k].value
  }

  datatype Step =
    | Admit(project: Option<string>, id: string, vcpus: nat, memMib: nat)
    | Pause(id: string, sizeMib: nat)
    | Otherwise   // resume, keepalive, destroy, tick, retention, any write outside the scan

  ghost predicate Next(s: Store, step: Step, s': Store) {
    match step
    case Admit(project, id, vcpus, memMib) =>
      && (project.Some? ==> Admits(s, project.value, vcpus, memMib, 0))
      && (forall f :: Sandbox(id, f) !in s.kvs)
      && (forall k :: Scanned(k) && k.id != id ==> Kept(s, s', k))
      && Sandbox(id, Size) !in s'.kvs
      && (Sandbox(id, Project) in s'.kvs ==>
            && project.Some? && s'.kvs[Sandbox(id, Project)].value == Text(project.value)
            && (Sandbox(id, Meta) in s'.kvs ==> s'.kvs[Sandbox(id, Meta)].value == Spec(vcpus, memMib)))
    case Pause(id, size) =>
      && (Sandbox(id, Project) in s.kvs ==> Admits(s, ProjectOf(s, id), 0, 0, size))
      && (forall k :: Scanned(k) && k != Sandbox(id, Size) ==> Kept(s, s', k))
      && (Kept(s, s', Sandbox(id, Size)) || s'.kvs[Sandbox(id, Size)].value == Amount(size))
    case Otherwise => forall k :: Scanned(k) ==> Kept(s, s', k)
  }

  ghost predicate SameLimits(s: Store, s': Store) {
    forall p :: LimitsOf(s', p) == LimitsOf(s, p)
  }

  /** Limits are set without a lease. */
  ghost predicate Standing(s: Store) {
    forall p :: Keys.Quota(p) in s.kvs ==> s.kvs[Keys.Quota(p)].lease == None
  }

  /** Limits that stand stay, and go on standing. */
  ghost predicate LimitsStay(s: Store, s': Store) {
    Standing(s) ==> SameLimits(s, s') && Standing(s')
  }

  ghost predicate WithinLimits(s: Store) {
    forall p :: LimitsOf(s, p).Some? ==> Under(LimitsOf(s, p).value, UsageOf(s, p))
  }

  /** What the books may have become after a step. */
  lemma KeptBooks(s: Store, s': Store, id: string)
    requires Kept(s, s', Sandbox(id, Project))
    ensures Kept(s, s', Sandbox(id, Meta)) && id in Specs(s') ==> id in Specs(s) && Specs(s')[id] == Specs(s)[id]
    ensures Kept(s, s', Sandbox(id, Size)) && id in Sizes(s') ==> id in Sizes(s) && Sizes(s')[id] == Sizes(s)[id]
  {
    TaggedMeans(s, id);
    TaggedMeans(s', id);
  }

  lemma AdmitBooks(s: Store, s': Store, step: Step)
    requires step.Admit? && Next(s, step, s')
    ensures step.id !in Specs(s) && Sub(Sizes(s'), Sizes(s))
    ensures Sub(Specs(s'), Specs(s)) || (step.project.Some? && Sub(Specs(s'), Specs(s)[step.id := Entry(step.project.value, step.vcpus, step.memMib)]))
  {
    TaggedMeans(s, step.id);
    TaggedMeans(s', step.id);
    forall x | x != step.id
      ensures x in Specs(s') ==> x in Specs(s) && Specs(s')[x] == Specs(s)[x]
      ensures x in Sizes(s') ==> x in Sizes(s) && Sizes(s')[x] == Sizes(s)[x]
    {
      assert Scanned(Sandbox(x, Meta)) && Scanned(Sandbox(x, Size)) && Scanned(Sandbox(x, Project));
      KeptBooks(s, s', x);
    }
  }

  lemma PauseBooks(s: Store, s': Store, step: Step)
    requires step.Pause? && Next(s, step, s')
    ensures Sub(Specs(s'), Specs(s))
    ensures Sub(Sizes(s'), Sizes(s)) ||
            (Sandbox(step.id, Project) in s.kvs && Sub(Sizes(s'), (Sizes(s) - {step.id})[step.id := Entry(ProjectOf(s, step.id), 0, step.sizeMib)]))
  {
    TaggedMeans(s', step.id);
    forall x
      ensures x in Specs(s') ==> x in Specs(s) && Specs(s')[x] == Specs(s)[x]
      ensures x != step.id && x in Sizes(s') ==> x in Sizes(s) && Sizes(s')[x] == Sizes(s)[x]
    {
      assert Scanned(Sandbox(x, Meta)) && Scanned(Sandbox(x, Size)) && Scanned(Sandbox(x, Project));
      KeptBooks(s, s', x);
    }
    if Kept(s, s', Sandbox(step.id, Size)) {
      KeptBooks(s, s', step.id);
    } else {
      assert Scanned(Sandbox(step.id, Project));
    }
  }

  lemma OtherBooks(s: Store, s': Store)
    requires Next(s, Otherwise, s')
    ensures Sub(Specs(s'), Specs(s)) && Sub(Sizes(s'), Sizes(s))
  {
    forall x
      ensures x in Specs(s') ==> x in Specs(s) && Specs(s')[x] == Specs(s)[x]
      ensures x in Sizes(s') ==> x in Sizes(s) && Sizes(s')[x] == Sizes(s)[x]
    {
      assert Scanned(Sandbox(x, Meta)) && Scanned(Sandbox(x, Size)) && Scanned(Sandbox(x, Project));
      KeptBooks(s, s', x);
    }
  }

  ghost predicate NoMore(a: Usage, b: Usage) {
    a.count <= b.count && a.vcpus <= b.vcpus && a.memMib <= b.memMib && a.storageMib <= b.storageMib
  }

  lemma BooksBelow(specs: Book, sizes: Book, specs': Book, sizes': Book, p: string)
    requires Sub(specs, specs') && Sub(sizes, sizes')
    ensures NoMore(UsageIn(specs, sizes, p), UsageIn(specs', sizes', p))
  {
    BookBelow(specs, specs', p);
    BookBelow(sizes, sizes', p);
  }

  ghost predicate Fine(l: Option<Value>, was: Usage, now: Usage)
    requires l.Some? ==> l.value.Limits?
  {
    NoMore(now, was) || (l.Some? ==> Under(l.value, now))
  }

  lemma MoreSpecs(specs: Book, sizes: Book, specs': Book, sizes': Book, id: string, e: Entry, p: string, l: Option<Value>)
    requires Sub(specs', specs[id := e]) && id !in specs && Sub(sizes', sizes) && (l.Some? ==> l.value.Limits?)
    requires p == e.under && l.Some? ==> Under(l.value, Projected(UsageIn(specs, sizes, p), e.vcpus, e.memMib, 0))
    ensures Fine(l, UsageIn(specs, sizes, p), UsageIn(specs', sizes', p))
  {
    SpecCounts(specs, sizes, p, id, e);
    BooksBelow(specs', sizes', specs[id := e], sizes, p);
  }

  lemma MoreSizes(specs: Book, sizes: Book, specs': Book, sizes': Book, id: string, e: Entry, p: string, l: Option<Value>)
    requires Sub(specs', specs) && Sub(sizes', (sizes - {id})[id := e]) && (l.Some? ==> l.value.Limits?)
    requires p == e.under && l.Some? ==> Under(l.value, Projected(UsageIn(specs, sizes, p), 0, 0, e.memMib))
    ensures Fine(l, UsageIn(specs, sizes, p), UsageIn(specs', sizes', p))
  {
    SizeCounts(specs, sizes - {id}, p, id, e);
    BooksBelow(specs, sizes - {id}, specs, sizes, p);
    BooksBelow(specs', sizes', specs, (sizes - {id})[id := e], p);
  }

  /** A step either lowers a project's usage or leaves it below what was checked. */
  lemma UsageAfter(s: Store, step: Step, s': Store, p: string)
    requires Next(s, step, s')
    ensures Fine(LimitsOf(s, p), UsageOf(s, p), UsageOf(s', p))
  {
    match step
    case Otherwise =>
      OtherBooks(s, s');
      BooksBelow(Specs(s'), Sizes(s'), Specs(s), Sizes(s), p);
    case Admit(project, id, vcpus, memMib) =>
      AdmitBooks(s, s', step);
      if Sub(Specs(s'), Specs(s)) {
        BooksBelow(Specs(s'), Sizes(s'), Specs(s), Sizes(s), p);
      } else {
        MoreSpecs(Specs(s), Sizes(s), Specs(s'), Sizes(s'), id, Entry(project.value, vcpus, memMib), p, LimitsOf(s, p));
      }
    case Pause(id, size) =>
      PauseBooks(s, s', step);
      if Sub(Sizes(s'), Sizes(s)) {
        BooksBelow(Specs(s'), Sizes(s'), Specs(s), Sizes(s), p);
      } else {
        MoreSizes(Specs(s), Sizes(s), Specs(s'), Sizes(s'), id, Entry(ProjectOf(s, id), 0, size), p, LimitsOf(s, p));
      }
  }

  /** A step and the store it leaves. */
  datatype Move = Move(step: Step, after: Store)

  ghost predicate Run(s: Store, moves: seq<Move>)
    decreases |moves|
  {
    moves != [] ==>
      && Next(s, moves[0].step, moves[0].after) && SameLimits(s, moves[0].after)
      && Run(moves[0].after, moves[1..])
  }

  function Final(s: Store, moves: seq<Move>): Store {
    if moves == [] then s else moves[|moves| - 1].after
  }

  lemma StepWithinLimits(s: Store, step: Step, s': Store)
    requires WithinLimits(s) && Next(s, step, s') && SameLimits(s, s')
    ensures WithinLimits(s')
  {
    forall p | LimitsOf(s', p).Some? ensures Under(LimitsOf(s', p).value, UsageOf(s', p)) {
      UsageAfter(s, step, s', p);
    }
  }

  /** The limits read are the limits on record. */
  lemma LimitsRead(s: Store, p: string, a: nat, b: nat, c: nat, d: nat)
    ensures LimitedTo(s, p, a, b, c, d) <==> LimitsOf(s, p) == Some(Limits(a, b, c, d))
  {
  }

  lemma WithinMeans(s: Store, p: string, a: nat, b: nat, c: nat, d: nat)
    requires WithinLimits(s) && LimitedTo(s, p, a, b, c, d)
    ensures var u := UsageOf(s, p);
            (a == 0 || u.count <= a) && (b == 0 || u.vcpus <= b) && (c == 0 || u.memMib <= c) && (d == 0 || u.storageMib <= d)
  {
    LimitsRead(s, p, a, b, c, d);
    assert LimitsOf(s, p).Some? && Under(LimitsOf(s, p).value, UsageOf(s, p));
  }

  lemma {:induction false} WithinHolds(s: Store, moves: seq<Move>)
    requires WithinLimits(s) && Run(s, moves)
    ensures WithinLimits(Final(s, moves)) && SameLimits(s, Final(s, moves))
    decreases |moves|
  {
    if moves != [] {
      StepWithinLimits(s, moves[0].step, moves[0].after);
      WithinHolds(moves[0].after, moves[1..]);
      assert Final(s, moves) == Final(moves[0].after, moves[1..]);
    }
  }

  /** MAIN: with limits fixed, no run of checked creates and forks, pauses that record
      their size, and anything that only removes, takes any project past any of its
      limits. */
  lemma LimitsHold(s: Store, moves: seq<Move>, p: string, a: nat, b: nat, c: nat, d: nat)
    requires WithinLimits(s) && Run(s, moves) && LimitedTo(s, p, a, b, c, d)
    ensures var u := UsageOf(Final(s, moves), p);
            (a == 0 || u.count <= a) && (b == 0 || u.vcpus <= b) && (c == 0 || u.memMib <= c) && (d == 0 || u.storageMib <= d)
    ensures WithinLimits(Final(s, moves)) && LimitedTo(Final(s, moves), p, a, b, c, d)
  {
    WithinHolds(s, moves);
    LimitsRead(s, p, a, b, c, d);
    LimitsRead(Final(s, moves), p, a, b, c, d);
    WithinMeans(Final(s, moves), p, a, b, c, d);
  }

  /** A store with nothing booked is within any limits. */
  lemma StartsWithin(s: Store)
    requires forall id :: Sandbox(id, Project) !in s.kvs
    ensures WithinLimits(s)
  {
    forall id ensures id !in Specs(s) && id !in Sizes(s) { TaggedMeans(s, id); }
    assert Specs(s) == map[] && Sizes(s) == map[];
    forall p ensures UsageOf(s, p) == Usage(0, 0, 0, 0) { NothingRead(s, p); }
  }
}

/** The API's checked operations, each under the orchestrator's lock. */
module Admission {
  import opened Common
  import opened Keys
  import opened LeaseStore
  import opened Quota
  import Lifecycle
  import Orchestrator
  import Sched

  method CheckQuota(s: Store, project: Option<string>, vcpus: nat, memMib: nat) returns (ok: bool)
    ensures ok <==> (project.Some? ==> Admits(s, project.value, vcpus, memMib, 0))
  {
    if project == None {
      return true;
    }
    var r := Check(s, project.value, vcpus, memMib, 0);
    ok := r.Ok?;
  }

  lemma RegistrationAdmits(s: Store, s': Store, id: string, lease: LeaseId, project: Option<string>, vcpus: nat, memMib: nat)
    requires Lifecycle.OnlyAdds(s, s', id, lease) && (forall f :: Sandbox(id, f) !in s.kvs)
    requires project.Some? ==> Admits(s, project.value, vcpus, memMib, 0)
    ensures Next(s, Admit(project, id, vcpus, memMib), s') && LimitsStay(s, s')
  {
  }

  lemma TaggingAdmits(s: Store, mid: Store, s': Store, id: string, lease: LeaseId, project: string, vcpus: nat, memMib: nat)
    requires Lifecycle.OnlyAdds(s, mid, id, lease) && (forall f :: Sandbox(id, f) !in s.kvs)
    requires Admits(s, project, vcpus, memMib, 0)
    requires Sandbox(id, Meta) in mid.kvs && mid.kvs[Sandbox(id, Meta)].value == Spec(vcpus, memMib)
    requires s' == Put(mid, Sandbox(id, Project), Text(project), Some(lease))
    ensures Next(s, Admit(Some(project), id, vcpus, memMib), s') && LimitsStay(s, s')
  {
  }

  /** `create_sandbox`: check, create and tag in one critical section. */
  method Create(o: Orchestrator.Orch, project: Option<string>, b: nat, id: string, lease: LeaseId, req: Lifecycle.Request, now: int, made: bool, pin: Option<string>, f: Orchestrator.Faults)
    returns (ok: bool)
    requires o.Valid() && b < |o.backends| && Lifecycle.FreshId(o.View(), id) && lease !in o.store.leases
    modifies o
    ensures o.Valid()
    ensures Next(old(o.store), Otherwise, o.store) || Next(old(o.store), Admit(project, id, req.vcpus, req.memMib), o.store)
    ensures LimitsStay(old(o.store), o.store)
    ensures ok <==> && (project.Some? ==> Admits(old(o.store), project.value, req.vcpus, req.memMib, 0))
                    && made && !f.grant && !f.meta && !f.state && !(o.nodeId.Some? && f.owner)
    ensures ok ==> id in o.live && Sandbox(id, Meta) in o.store.kvs && o.store.kvs[Sandbox(id, Meta)].value == Spec(req.vcpus, req.memMib)
    ensures ok && project.Some? ==> Sandbox(id, Project) in o.store.kvs && o.store.kvs[Sandbox(id, Project)].value == Text(project.value)
    ensures project.Some? && !Admits(old(o.store), project.value, req.vcpus, req.memMib, 0) ==> o.View() == old(o.View())
  {
    var admitted := CheckQuota(o.store, project, req.vcpus, req.memMib);
    if !admitted {
      return false;
    }
    ghost var s := o.store;
    ok := o.CreateIn(b, id, lease, req, now, made, pin, f);
    if made {
      RegistrationAdmits(s, o.store, id, lease, project, req.vcpus, req.memMib);
    }
    if ok && project.Some? {
      ghost var mid := o.store;
      ok := o.TagProject(id, project.value);
      TaggingAdmits(s, mid, o.store, id, lease, project.value, req.vcpus, req.memMib);
    }
  }

  /** `fork_sandbox`: the child is booked at the default size of 2 vcpus and 512 MiB. */
  method Fork(o: Orchestrator.Orch, project: Option<string>, parent: string, id: string, lease: LeaseId, ttl: int, idle: int, now: int, made: bool, pin: Option<string>, f: Orchestrator.Faults)
    returns (ok: bool)
    requires o.Valid() && Lifecycle.FreshId(o.View(), id) && lease !in o.store.leases
    modifies o
    ensures o.Valid()
    ensures Next(old(o.store), Otherwise, o.store) || Next(old(o.store), Admit(project, id, 2, 512), o.store)
    ensures LimitsStay(old(o.store), o.store)
    ensures ok <==> && (project.Some? ==> Admits(old(o.store), project.value, 2, 512, 0))
                    && parent in old(o.live) && o.snapshots[old(o.live)[parent].backend] && old(o.backends)[old(o.live)[parent].backend][parent].paused
                    && made && !f.grant && !f.meta && !f.state && !(o.nodeId.Some? && f.owner)
    ensures ok ==> id in o.live && Sandbox(id, Meta) in o.store.kvs && o.store.kvs[Sandbox(id, Meta)].value == Spec(2, 512)
    ensures ok && project.Some? ==> Sandbox(id, Project) in o.store.kvs && o.store.kvs[Sandbox(id, Project)].value == Text(project.value)
    ensures project.Some? && !Admits(old(o.store), project.value, 2, 512, 0) ==> o.View() == old(o.View())
  {
    var admitted := CheckQuota(o.store, project, 2, 512);
    if !admitted {
      return false;
    }
    ghost var s := o.store;
    ok := o.Fork(parent, id, lease, Lifecycle.Request(2, 512, ttl, idle), now, made, pin, f);
    if o.View() != old(o.View()) {
      RegistrationAdmits(s, o.store, id, lease, project, 2, 512);
    }
    if ok && project.Some? {
      ghost var mid := o.store;
      ok := o.TagProject(id, project.value);
      TaggingAdmits(s, mid, o.store, id, lease, project.value, 2, 512);
    }
  }

  function SnapshotSize(s: Store, id: string): nat {
    if Sandbox(id, Meta) in s.kvs then Sched.MemIn(s.kvs[Sandbox(id, Meta)].value) else 0
  }

  lemma WritesPause(s: Store, s': Store, id: string, lease: LeaseId, size: nat)
    requires Lifecycle.OwnWrites(s, s', id, lease)
    requires Sandbox(id, Project) in s.kvs ==> Admits(s, ProjectOf(s, id), 0, 0, size)
    requires s' == s || (Sandbox(id, Size) in s'.kvs && s'.kvs[Sandbox(id, Size)].value == Amount(size))
    ensures Next(s, Quota.Pause(id, size), s') && LimitsStay(s, s')
  {
  }

  /** `pause`: the snapshot is booked at the sandbox's memory. */
  method Pause(o: Orchestrator.Orch, id: string, now: nat, works: bool) returns (ok: bool)
    requires o.Valid()
    modifies o
    ensures o.Valid()
    ensures if ok then Next(old(o.store), Quota.Pause(id, SnapshotSize(old(o.store), id)), o.store) else o.store == old(o.store)
    ensures ok <==> && id in old(o.live) && o.snapshots[old(o.live)[id].backend] && (works || old(o.backends)[old(o.live)[id].backend][id].paused)
                    && (Sandbox(id, Project) in old(o.store.kvs) ==>
                          Admits(old(o.store), ProjectOf(old(o.store), id), 0, 0, SnapshotSize(old(o.store), id)))
    ensures forall v, m | ok && Sandbox(id, Meta) in old(o.store.kvs) && old(o.store.kvs)[Sandbox(id, Meta)].value == Spec(v, m) ::
              old(o.live)[id].lease in o.store.leases ==> Sandbox(id, Size) in o.store.kvs && o.store.kvs[Sandbox(id, Size)].value == Amount(m)
    ensures LimitsStay(old(o.store), o.store)
  {
    var s := o.store;
    var size := SnapshotSize(s, id);
    var admitted := true;
    if Sandbox(id, Project) in s.kvs {
      var r := Check(s, ProjectOf(s, id), 0, 0, size);
      admitted := r.Ok?;
    }
    ok := o.Pause(id, now, size, admitted, works);
    if ok {
      WritesPause(s, o.store, id, o.live[id].lease, size);
    }
  }

  /** `resume` writes the state key alone. */
  method Resume(o: Orchestrator.Orch, id: string, works: bool) returns (ok: bool)
    requires o.Valid()
    modifies o
    ensures o.Valid()
    ensures Next(old(o.store), Otherwise, o.store) && LimitsStay(old(o.store), o.store)
  {
    ghost var s := o.store;
    ok := o.Resume(id, works);
    if ok {
      WritesStay(s, o.store, id, old(o.live)[id].lease);
    }
  }

  lemma WritesStay(s: Store, s': Store, id: string, lease: LeaseId)
    requires Lifecycle.OwnWrites(s, s', id, lease)
    ensures LimitsStay(s, s')
  {
    if Standing(s) {
      forall p ensures LimitsOf(s', p) == LimitsOf(s, p) {
        assert Keys.Quota(p) in s'.kvs <==> Keys.Quota(p) in s.kvs;
      }
    }
  }

  /** Everything else the orchestrator does only takes away from the scan, and no limits. */
  lemma OthersOnlyRemove(st: Lifecycle.State, step: Lifecycle.Step, st': Lifecycle.State)
    requires Lifecycle.Next(st, step, st') && (step.Destroy? || step.Tick? || step.Gc? || step.KeepaliveOf?)
    ensures Next(st.store, Otherwise, st'.store) && LimitsStay(st.store, st'.store)
  {
    if Standing(st.store) {
      forall p ensures LimitsOf(st'.store, p) == LimitsOf(st.store, p) {
        assert Keys.Quota(p) in st'.store.kvs <==> Keys.Quota(p) in st.store.kvs;
      }
    }
  }
}
