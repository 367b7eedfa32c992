/** First-writer-wins secrets: `cluster/gw_secret` and `kek/<project>`.  Replicas read,
    else swap in a secret of their own, else read back the winner's. */
module Convergence {
  import opened Common
  import opened Keys
  import opened LeaseStore

  /** How a stored value yields a secret. The gateway takes 32 bytes as they are and
      treats anything else as absent; a KEK is unwrapped, and a value that does not
      unwrap is an error. */
  datatype Scheme = Scheme(key: Key, decode: string -> Option<string>, skipsMalformed: bool)

  datatype Replica =
    | Start
    | Swapping(mine: string, blob: string)
    | Reading                                  // lost the swap, about to read back
    | Obtained(secret: string)
    | Failed

  datatype Sys = Sys(scheme: Scheme, store: Store, replicas: seq<Replica>)

  datatype Step =
    | FirstRead(i: nat, mine: string, blob: string)
    | Swap(i: nat)
    | SwapLost(i: nat, applied: bool)          // no answer; the write may have happened
    | ReadBack(i: nat)
    | ReadFails(i: nat)                        // the first read or the read back errs
    | Other(op: Op)

  function Decoded(sys: Sys): Option<string> {
    if sys.scheme.key in sys.store.kvs && sys.store.kvs[sys.scheme.key].value.Text?
    then sys.scheme.decode(sys.store.kvs[sys.scheme.key].value.text)
    else None
  }

  /** The rest of the world neither writes nor deletes the key: it carries no lease,
      so it does not expire either. */
  predicate Foreign(sys: Sys, op: Op) {
    && Enabled(sys.store, op)
    && (op.OpPut? || op.OpDelete? || op.OpCas? ==> op.key != sys.scheme.key)
  }

  predicate Can(sys: Sys, step: Step) {
    match step
    case FirstRead(i, mine, blob) => i < |sys.replicas| && sys.replicas[i].Start? && sys.scheme.decode(blob) == Some(mine)
    case Swap(i) => i < |sys.replicas| && sys.replicas[i].Swapping?
    case SwapLost(i, _) => i < |sys.replicas| && sys.replicas[i].Swapping?
    case ReadBack(i) => i < |sys.replicas| && sys.replicas[i].Reading?
    case ReadFails(i) => i < |sys.replicas| && (sys.replicas[i].Start? || sys.replicas[i].Reading?)
    case Other(op) => Foreign(sys, op)
  }

  function Next(sys: Sys, step: Step): (sys': Sys)
    requires Can(sys, step)
  {
    var key := sys.scheme.key;
    match step
    case FirstRead(i, mine, blob) =>
      var r :=
        if key !in sys.store.kvs then Swapping(mine, blob)
        else if Decoded(sys).Some? then Obtained(Decoded(sys).value)
        else if sys.scheme.skipsMalformed then Swapping(mine, blob)
        else Failed;
      sys.(replicas := sys.replicas[i := r])
    case Swap(i) =>
      var Swapping(mine, blob) := sys.replicas[i];
      sys.(store := Cas(sys.store, key, None, Text(blob), None),
           replicas := sys.replicas[i := if CasSucceeds(sys.store, key, None) then Obtained(mine) else Reading])
    case SwapLost(i, applied) =>
      sys.(store := if applied then Cas(sys.store, key, None, Text(sys.replicas[i].blob), None) else sys.store,
           replicas := sys.replicas[i := Failed])
    case ReadBack(i) =>
      sys.(replicas := sys.replicas[i := if Decoded(sys).Some? then Obtained(Decoded(sys).value) else Failed])
    case ReadFails(i) => sys.(replicas := sys.replicas[i := Failed])
    case Other(op) => sys.(store := Do(sys.store, op))
  }

  ghost predicate Inv(sys: Sys) {
    && (forall i :: 0 <= i < |sys.replicas| && sys.replicas[i].Obtained? ==> Decoded(sys) == Some(sys.replicas[i].secret))
    && (forall i :: 0 <= i < |sys.replicas| && sys.replicas[i].Swapping? ==>
          sys.scheme.decode(sys.replicas[i].blob) == Some(sys.replicas[i].mine))
    && (forall i :: 0 <= i < |sys.replicas| && sys.replicas[i].Reading? ==> sys.scheme.key in sys.store.kvs)
    && (sys.scheme.key in sys.store.kvs ==> sys.store.kvs[sys.scheme.key].lease.None?)
  }

  lemma Kept(sys: Sys, step: Step)
    requires Inv(sys) && Can(sys, step)
    ensures Inv(Next(sys, step))
    ensures sys.scheme.key in sys.store.kvs ==>
              && sys.scheme.key in Next(sys, step).store.kvs
              && Next(sys, step).store.kvs[sys.scheme.key] == sys.store.kvs[sys.scheme.key]
  {
    var sys' := Next(sys, step);
    var key := sys.scheme.key;
    if key in sys.store.kvs {
      assert key in sys'.store.kvs && sys'.store.kvs[key] == sys.store.kvs[key];
      assert Decoded(sys') == Decoded(sys);
    }
    if !step.Other? {
      assert forall j :: 0 <= j < |sys.replicas| && j != step.i ==> sys'.replicas[j] == sys.replicas[j];
    }
  }

  ghost predicate RunOk(sys: Sys, steps: seq<Step>)
    decreases |steps|
  {
    steps != [] ==> Can(sys, steps[0]) && RunOk(Next(sys, steps[0]), steps[1..])
  }

  ghost function After(sys: Sys, steps: seq<Step>): Sys
    requires RunOk(sys, steps)
    decreases |steps|
  {
    if steps == [] then sys else After(Next(sys, steps[0]), steps[1..])
  }

  ghost predicate Initial(sys: Sys) {
    && (forall i :: 0 <= i < |sys.replicas| ==> sys.replicas[i] == Start)
    && (sys.scheme.key in sys.store.kvs ==> sys.store.kvs[sys.scheme.key].lease.None?)
  }

  lemma {:induction false} InvHolds(sys: Sys, steps: seq<Step>)
    requires Inv(sys) && RunOk(sys, steps)
    ensures Inv(After(sys, steps))
    decreases |steps|
  {
    if steps != [] {
      Kept(sys, steps[0]);
      InvHolds(Next(sys, steps[0]), steps[1..]);
    }
  }

  /** MAIN: all replicas that obtain a secret obtain the same one, and it is the one
      on record, whatever the interleaving. */
  lemma AllObtainTheSame(sys: Sys, steps: seq<Step>, i: nat, j: nat)
    requires Initial(sys) && RunOk(sys, steps)
    requires var now := After(sys, steps);
             i < |now.replicas| && j < |now.replicas| && now.replicas[i].Obtained? && now.replicas[j].Obtained?
    ensures var now := After(sys, steps);
            now.replicas[i].secret == now.replicas[j].secret && Decoded(now) == Some(now.replicas[i].secret)
  {
    InvHolds(sys, steps);
  }

  /** A store call of this replica errs. */
  predicate LostBy(step: Step, i: nat) {
    (step.SwapLost? || step.ReadFails?) && step.i == i
  }

  /** The record, if there is one, decodes, and the replica has not failed. */
  ghost predicate Sane(sys: Sys, i: nat) {
    && Inv(sys) && i < |sys.replicas| && !sys.replicas[i].Failed?
    && (sys.scheme.key in sys.store.kvs ==> Decoded(sys).Some?)
  }

  /** With a record that decodes, or none, a replica fails only when a store call of its own
      errs, whatever happens to the others. */
  lemma {:induction false} NoneFails(sys: Sys, steps: seq<Step>, i: nat)
    requires Sane(sys, i) && RunOk(sys, steps) && forall k :: 0 <= k < |steps| ==> !LostBy(steps[k], i)
    ensures Sane(After(sys, steps), i)
    decreases |steps|
  {
    if steps != [] {
      Kept(sys, steps[0]);
      var sys' := Next(sys, steps[0]);
      assert !LostBy(steps[0], i);
      assert sys.scheme.key in sys.store.kvs ==> Decoded(sys') == Decoded(sys);
      NoneFails(sys', steps[1..], i);
    }
  }
}

/** `ensure_gw_secret` and `snap_key_for` as one replica runs them. */
module Secrets {
  import opened Common
  import opened Keys
  import opened LeaseStore
  import opened Convergence
  import SqliteStore

  method Decode(scheme: Scheme, kv: KeyValue) returns (r: Option<string>)
    ensures r == if kv.value.Text? then scheme.decode(kv.value.text) else None
  {
    r := if kv.value.Text? then scheme.decode(kv.value.text) else None;
  }

  /** Which store calls of one attempt err; a failed swap may have taken effect. */
  datatype Faults = Faults(read: bool, swap: bool, applied: bool, readBack: bool)

  /** Read, else swap in one's own, else read back.  `mine` is fresh and `blob` how it
      would be stored.  The call is a run of the protocol, and what it returns is stored. */
  method Ensure(store: SqliteStore.Sqlite, scheme: Scheme, mine: string, blob: string, f: Faults) returns (r: Option<string>, ghost steps: seq<Step>)
    requires store.Valid() && scheme.decode(blob) == Some(mine)
    modifies store
    ensures store.Valid()
    ensures RunOk(Sys(scheme, old(store.View()), [Start]), steps)
    ensures After(Sys(scheme, old(store.View()), [Start]), steps) ==
            Sys(scheme, store.View(), [match r case Some(secret) => Obtained(secret) case None => Failed])
    ensures r.Some? ==> Decoded(Sys(scheme, store.View(), [])) == r
    ensures !f.read && !f.swap && !f.readBack ==>
              r == if scheme.key in old(store.kvs) then Decoded(Sys(scheme, old(store.View()), [])) else Some(mine)
    ensures store.leases == old(store.leases) && (scheme.key in old(store.kvs) ==> store.kvs == old(store.kvs))
    ensures scheme.key !in old(store.kvs) && r.Some? ==> store.kvs == old(store.kvs)[scheme.key := KeyValue(Text(blob), store.rev, store.rev, None)]
  {
    ghost var start := Sys(scheme, store.View(), [Start]);
    if f.read {
      Single(start, ReadFails(0), Failed);
      return None, [ReadFails(0)];
    }
    var kv := store.Get(scheme.key);
    if kv.Some? {
      r := Decode(scheme, kv.value);
      if r.Some? || !scheme.skipsMalformed {
        Single(start, FirstRead(0, mine, blob), if r.Some? then Obtained(r.value) else Failed);
        return r, [FirstRead(0, mine, blob)];
      }
    }
    assert Next(start, FirstRead(0, mine, blob)) == start.(replicas := [Swapping(mine, blob)]);
    ghost var rest: seq<Step>;
    r, rest := SwapIn(store, scheme, mine, blob, f);
    Longer(start, FirstRead(0, mine, blob), rest);
    steps := [FirstRead(0, mine, blob)] + rest;
  }

  /** The second half: swap in one's own, else read back. */
  method SwapIn(store: SqliteStore.Sqlite, scheme: Scheme, mine: string, blob: string, f: Faults) returns (r: Option<string>, ghost steps: seq<Step>)
    requires store.Valid() && scheme.decode(blob) == Some(mine)
    modifies store
    ensures store.Valid()
    ensures RunOk(Sys(scheme, old(store.View()), [Swapping(mine, blob)]), steps)
    ensures After(Sys(scheme, old(store.View()), [Swapping(mine, blob)]), steps) ==
            Sys(scheme, store.View(), [match r case Some(secret) => Obtained(secret) case None => Failed])
    ensures r.Some? ==> Decoded(Sys(scheme, store.View(), [])) == r
    ensures !f.swap && !f.readBack ==>
              r == if scheme.key in old(store.kvs) then Decoded(Sys(scheme, old(store.View()), [])) else Some(mine)
    ensures store.leases == old(store.leases) && (scheme.key in old(store.kvs) ==> store.kvs == old(store.kvs))
    ensures scheme.key !in old(store.kvs) && r.Some? ==> store.kvs == old(store.kvs)[scheme.key := KeyValue(Text(blob), store.rev, store.rev, None)]
  {
    ghost var start := Sys(scheme, store.View(), [Swapping(mine, blob)]);
    if f.swap {
      if f.applied {
        var _, _, _ := store.CompareAndSwap(scheme.key, None, Text(blob), None);
      }
      Swapped(start, SwapLost(0, f.applied), store.View(), Failed);
      return None, [SwapLost(0, f.applied)];
    }
    var swapped, _, _ := store.CompareAndSwap(scheme.key, None, Text(blob), None);
    if swapped {
      Swapped(start, Convergence.Swap(0), store.View(), Obtained(mine));
      return Some(mine), [Convergence.Swap(0)];
    }
    assert Next(start, Convergence.Swap(0)) == Sys(scheme, store.View(), [Reading]);
    var kv := store.Get(scheme.key);
    ghost var mid := Sys(scheme, store.View(), [Reading]);
    if f.readBack || kv == None {
      Single(mid, ReadFails(0), Failed);
      Longer(start, Convergence.Swap(0), [ReadFails(0)]);
      return None, [Convergence.Swap(0), ReadFails(0)];
    }
    r := Decode(scheme, kv.value);
    Single(mid, ReadBack(0), if r.Some? then Obtained(r.value) else Failed);
    Longer(start, Convergence.Swap(0), [ReadBack(0)]);
    steps := [Convergence.Swap(0), ReadBack(0)];
  }

  lemma Swapped(sys: Sys, step: Step, s: Store, end: Replica)
    requires Can(sys, step) && Next(sys, step) == sys.(store := s, replicas := [end])
    ensures RunOk(sys, [step]) && After(sys, [step]) == sys.(store := s, replicas := [end])
  {
    assert [step][1..] == [];
    var next := Next(sys, step);
    assert RunOk(next, []) && After(next, []) == next;
  }

  lemma Single(sys: Sys, step: Step, end: Replica)
    requires Can(sys, step) && Next(sys, step) == sys.(replicas := [end])
    ensures RunOk(sys, [step]) && After(sys, [step]) == sys.(replicas := [end])
  {
    Swapped(sys, step, sys.store, end);
  }

  lemma Longer(sys: Sys, step: Step, rest: seq<Step>)
    requires Can(sys, step) && RunOk(Next(sys, step), rest)
    ensures RunOk(sys, [step] + rest) && After(sys, [step] + rest) == After(Next(sys, step), rest)
  {
    assert ([step] + rest)[1..] == rest;
  }
}
