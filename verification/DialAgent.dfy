/** The node's outbound agent: dial threads that check the in-flight counter and then
    raise it, in two steps, with nothing in between to stop the others. */
module DialAgent {

  /** A dial thread: holding an idle connection; past the check but not yet counted;
      counted and about to spawn; undoing after a failed spawn; serving in place. */
  datatype Dial = Idle | Decided | Counted | Failed | Inline

  /** `running`: stream threads in their handler; `finishing`: done, not yet uncounted. */
  datatype Sys = Sys(dials: seq<Dial>, inflight: int, running: nat, finishing: nat)

  datatype Step =
    | Load(i: nat) | Add(i: nat) | Spawn(i: nat) | SpawnFails(i: nat) | Undo(i: nat) | InlineDone(i: nat)
    | StreamDone | Sub

  function Limit(maxStreams: nat): (m: nat)
    ensures m >= 1
  {
    if maxStreams == 0 then 1 else maxStreams
  }

  predicate Can(s: Sys, step: Step) {
    match step
    case StreamDone => s.running > 0
    case Sub => s.finishing > 0
    case Load(i) => i < |s.dials| && s.dials[i].Idle?
    case Add(i) => i < |s.dials| && s.dials[i].Decided?
    case Spawn(i) => i < |s.dials| && s.dials[i].Counted?
    case SpawnFails(i) => i < |s.dials| && s.dials[i].Counted?
    case Undo(i) => i < |s.dials| && s.dials[i].Failed?
    case InlineDone(i) => i < |s.dials| && s.dials[i].Inline?
  }

  function Next(s: Sys, step: Step, max: nat): Sys
    requires Can(s, step)
  {
    match step
    case Load(i) => s.(dials := s.dials[i := if s.inflight >= max then Inline else Decided])
    case Add(i) => s.(dials := s.dials[i := Counted], inflight := s.inflight + 1)
    case Spawn(i) => s.(dials := s.dials[i := Idle], running := s.running + 1)
    case SpawnFails(i) => s.(dials := s.dials[i := Failed])
    case Undo(i) => s.(dials := s.dials[i := Idle], inflight := s.inflight - 1)
    case InlineDone(i) => s.(dials := s.dials[i := Idle])
    case StreamDone => s.(running := s.running - 1, finishing := s.finishing + 1)
    case Sub => s.(finishing := s.finishing - 1, inflight := s.inflight - 1)
  }

  // ----- counting threads -----

  function Count(dials: seq<Dial>, d: Dial): (n: nat)
    ensures n <= |dials|
  {
    if dials == [] then 0 else Count(dials[..|dials| - 1], d) + One(dials[|dials| - 1], d)
  }

  function One(a: Dial, d: Dial): nat {
    if a == d then 1 else 0
  }

  lemma {:induction false} CountUpdate(dials: seq<Dial>, i: nat, e: Dial, d: Dial)
    requires i < |dials|
    ensures Count(dials[i := e], d) == Count(dials, d) - One(dials[i], d) + One(e, d)
  {
    var n := |dials| - 1;
    if i == n {
      assert dials[i := e][..n] == dials[..n];
    } else {
      assert dials[i := e][..n] == dials[..n][i := e];
      CountUpdate(dials[..n], i, e, d);
    }
  }

  // ----- the bounds -----

  ghost predicate Inv(s: Sys, max: nat, pool: nat) {
    && |s.dials| == pool
    && s.inflight == Count(s.dials, Counted) + Count(s.dials, Failed) + s.running + s.finishing
    && s.inflight + Count(s.dials, Decided) <= max - 1 + pool
  }

  lemma InvKept(s: Sys, step: Step, max: nat, pool: nat)
    requires Inv(s, max, pool) && Can(s, step)
    ensures Inv(Next(s, step, max), max, pool)
  {
    if !step.StreamDone? && !step.Sub? {
      var e := Next(s, step, max).dials[step.i];
      CountUpdate(s.dials, step.i, e, Counted);
      CountUpdate(s.dials, step.i, e, Failed);
      CountUpdate(s.dials, step.i, e, Decided);
    }
  }

  predicate RunOk(s: Sys, steps: seq<Step>, max: nat)
    decreases |steps|
  {
    steps != [] ==> Can(s, steps[0]) && RunOk(Next(s, steps[0], max), steps[1..], max)
  }

  function After(s: Sys, steps: seq<Step>, max: nat): Sys
    requires RunOk(s, steps, max)
    decreases |steps|
  {
    if steps == [] then s else After(Next(s, steps[0], max), steps[1..], max)
  }

  /** `k` threads of one kind, then the others. */
  function Mix(pool: nat, k: nat, a: Dial, b: Dial): (ds: seq<Dial>)
    ensures |ds| == pool
  {
    seq(pool, i => if i < k then a else b)
  }

  function Start(pool: nat): Sys {
    Sys(Mix(pool, 0, Idle, Idle), 0, 0, 0)
  }

  lemma {:induction false} NoneOf(dials: seq<Dial>, d: Dial)
    requires forall i :: 0 <= i < |dials| ==> dials[i] != d
    ensures Count(dials, d) == 0
  {
    if dials != [] { NoneOf(dials[..|dials| - 1], d); }
  }

  lemma {:induction false} InvHolds(s: Sys, steps: seq<Step>, max: nat, pool: nat)
    requires Inv(s, max, pool) && RunOk(s, steps, max)
    ensures Inv(After(s, steps, max), max, pool)
    decreases |steps|
  {
    if steps != [] {
      InvKept(s, steps[0], max, pool);
      InvHolds(Next(s, steps[0], max), steps[1..], max, pool);
    }
  }

  /** Handlers at work: in stream threads and in dial threads. */
  function Handlers(s: Sys): nat {
    s.running + Count(s.dials, Inline)
  }

  /** MAIN: with the check and the increment as separate steps, in every interleaving the
      counter stays between 0 and max + pool - 1, and at most max + 2 pool - 1 handlers
      run at once. */
  lemma BoundsHold(maxStreams: nat, pool: nat, steps: seq<Step>)
    requires pool >= 1 && RunOk(Start(pool), steps, Limit(maxStreams))
    ensures var s := After(Start(pool), steps, Limit(maxStreams));
            && 0 <= s.inflight <= Limit(maxStreams) + pool - 1
            && Handlers(s) <= Limit(maxStreams) + 2 * pool - 1
            && (maxStreams > 0 ==> s.inflight <= maxStreams + pool - 1 && Handlers(s) <= maxStreams + 2 * pool - 1)
            && (maxStreams == 0 ==> s.inflight <= pool && Handlers(s) <= 2 * pool)
  {
    NoneOf(Start(pool).dials, Counted);
    NoneOf(Start(pool).dials, Failed);
    NoneOf(Start(pool).dials, Decided);
    InvHolds(Start(pool), steps, Limit(maxStreams), pool);
  }

  // ----- the bounds are reached -----

  ghost predicate Reachable(s: Sys, max: nat, pool: nat) {
    exists steps :: RunOk(Start(pool), steps, max) && After(Start(pool), steps, max) == s
  }

  lemma {:induction false} RunAppend(s: Sys, steps: seq<Step>, step: Step, max: nat)
    requires RunOk(s, steps, max) && Can(After(s, steps, max), step)
    ensures RunOk(s, steps + [step], max) && After(s, steps + [step], max) == Next(After(s, steps, max), step, max)
    decreases |steps|
  {
    if steps == [] {
      var t := Next(s, step, max);
      assert steps + [step] == [step] && [step][1..] == [];
      assert RunOk(t, [], max) && After(t, [], max) == t;
    } else {
      RunAppend(Next(s, steps[0], max), steps[1..], step, max);
      assert (steps + [step])[1..] == steps[1..] + [step];
    }
  }

  lemma ReachNext(s: Sys, step: Step, max: nat, pool: nat, t: Sys)
    requires Reachable(s, max, pool) && Can(s, step) && t == Next(s, step, max)
    ensures Reachable(t, max, pool)
  {
    var steps :| RunOk(Start(pool), steps, max) && After(Start(pool), steps, max) == s;
    RunAppend(Start(pool), steps, step, max);
  }

  /** First: `n` streams, all from thread 0. */
  lemma {:induction false} Busy(n: nat, max: nat, pool: nat)
    requires pool >= 1 && n < max
    ensures Reachable(Sys(Mix(pool, 0, Idle, Idle), n, n, 0), max, pool)
  {
    var idle := Mix(pool, 0, Idle, Idle);
    if n == 0 {
      var none: seq<Step> := [];
      assert RunOk(Start(pool), none, max) && After(Start(pool), none, max) == Start(pool);
    } else {
      Busy(n - 1, max, pool);
      var s := Sys(idle, n - 1, n - 1, 0);
      var a := Sys(idle[0 := Decided], n - 1, n - 1, 0);
      var b := Sys(idle[0 := Counted], n, n - 1, 0);
      var c := Sys(idle, n, n, 0);
      ReachNext(s, Load(0), max, pool, a);
      assert idle[0 := Decided][0 := Counted] == idle[0 := Counted] && idle[0 := Counted][0 := Idle] == idle;
      ReachNext(a, Add(0), max, pool, b);
      ReachNext(b, Spawn(0), max, pool, c);
    }
  }

  lemma MixNext(pool: nat, k: nat, a: Dial, b: Dial)
    requires k < pool
    ensures Mix(pool, k, a, b)[k := a] == Mix(pool, k + 1, a, b) && Mix(pool, k, a, b)[k] == b
  {
  }

  /** Then all dial threads read the same counter, one below the limit. */
  lemma {:induction false} AllDecide(k: nat, max: nat, pool: nat)
    requires pool >= 1 && k <= pool && max >= 1
    ensures Reachable(Sys(Mix(pool, k, Decided, Idle), max - 1, max - 1, 0), max, pool)
  {
    if k == 0 {
      Busy(max - 1, max, pool);
      assert Mix(pool, 0, Decided, Idle) == Mix(pool, 0, Idle, Idle);
    } else {
      AllDecide(k - 1, max, pool);
      MixNext(pool, k - 1, Decided, Idle);
      ReachNext(Sys(Mix(pool, k - 1, Decided, Idle), max - 1, max - 1, 0), Load(k - 1), max, pool,
                Sys(Mix(pool, k, Decided, Idle), max - 1, max - 1, 0));
    }
  }

  /** All of them raise it and hand over. */
  lemma {:induction false} AllSpawn(k: nat, max: nat, pool: nat)
    requires pool >= 1 && k <= pool && max >= 1
    ensures Reachable(Sys(Mix(pool, k, Idle, Decided), max - 1 + k, max - 1 + k, 0), max, pool)
  {
    if k == 0 {
      AllDecide(pool, max, pool);
      assert Mix(pool, 0, Idle, Decided) == Mix(pool, pool, Decided, Idle);
    } else {
      AllSpawn(k - 1, max, pool);
      MixNext(pool, k - 1, Idle, Decided);
      var was := Mix(pool, k - 1, Idle, Decided);
      var s := Sys(was, max - 2 + k, max - 2 + k, 0);
      var a := Sys(was[k - 1 := Counted], max - 1 + k, max - 2 + k, 0);
      ReachNext(s, Add(k - 1), max, pool, a);
      assert was[k - 1 := Counted][k - 1 := Idle] == was[k - 1 := Idle];
      ReachNext(a, Spawn(k - 1), max, pool, Sys(Mix(pool, k, Idle, Decided), max - 1 + k, max - 1 + k, 0));
    }
  }

  /** And all of them then serve one more in place. */
  lemma {:induction false} AllInline(k: nat, max: nat, pool: nat)
    requires pool >= 1 && k <= pool && max >= 1
    ensures Reachable(Sys(Mix(pool, k, Inline, Idle), max - 1 + pool, max - 1 + pool, 0), max, pool)
  {
    if k == 0 {
      AllSpawn(pool, max, pool);
      assert Mix(pool, 0, Inline, Idle) == Mix(pool, pool, Idle, Decided);
    } else {
      AllInline(k - 1, max, pool);
      MixNext(pool, k - 1, Inline, Idle);
      ReachNext(Sys(Mix(pool, k - 1, Inline, Idle), max - 1 + pool, max - 1 + pool, 0), Load(k - 1), max, pool,
                Sys(Mix(pool, k, Inline, Idle), max - 1 + pool, max - 1 + pool, 0));
    }
  }

  lemma {:induction false} CountMix(pool: nat)
    ensures Count(Mix(pool, pool, Inline, Idle), Inline) == pool
  {
    if pool > 0 {
      CountMix(pool - 1);
      assert Mix(pool, pool, Inline, Idle)[..pool - 1] == Mix(pool - 1, pool - 1, Inline, Idle);
    }
  }

  /** MAIN: for every limit and pool size both bounds are reached, so neither can be
      stated lower. */
  lemma BoundsAreReached(maxStreams: nat, pool: nat)
    requires pool >= 1
    ensures exists s :: Reachable(s, Limit(maxStreams), pool)
                        && s.inflight == Limit(maxStreams) + pool - 1 && Handlers(s) == Limit(maxStreams) + 2 * pool - 1
  {
    var max := Limit(maxStreams);
    var s := Sys(Mix(pool, pool, Inline, Idle), max - 1 + pool, max - 1 + pool, 0);
    AllInline(pool, max, pool);
    CountMix(pool);
    assert Reachable(s, max, pool) && Handlers(s) == max + 2 * pool - 1;
  }
}
