/** Streaming exec in the guest: two forwarders and the exit frame share one channel,
    every `write` may be partial, and only the write lock keeps frames whole. */
module ExecStream {
  import opened Common
  import opened ByteStrings
  import opened Frames

  const BUF := 16384

  /** One thread: reading its pipe, waiting for the lock with a frame, writing it under
      the lock from offset `off` on, or finished. */
  datatype Thread = Reading | Ready(out: ExecOutput) | Writing(out: ExecOutput, off: nat) | Over

  /** Threads 0 and 1 forward stdout and stderr, thread 2 waits for both and sends the
      exit code.  `left` is what the child still has for each pipe. */
  datatype Sys = Sys(threads: seq<Thread>, left: seq<Bytes>, lock: Option<nat>, channel: Bytes)

  datatype Step =
    | Read(t: nat, n: nat)
    | Eof(t: nat)
    | Joined(status: nat)
    | Acquire(t: nat)
    | Write(t: nat, n: nat)
    | Release(t: nat)

  predicate Shaped(s: Sys) {
    |s.threads| == 3 && |s.left| == 2
  }

  function Bits(o: ExecOutput): Bytes {
    Frame(ExecPayload(o))
  }

  function Output(t: nat, data: Bytes): ExecOutput {
    if t == 0 then Stdout(data) else Stderr(data)
  }

  /** The exit code sent for a raw wait status: the process's own, 128 and the signal, or -1. */
  function ExitCode(status: nat): int {
    if status % 128 == 0 then status / 256 % 256
    else if status % 128 < 127 then 128 + status % 128
    else -1
  }

  /** A child that exits with a code is reported with it; one that dies of a signal with 128
      more than the signal, core dump or not; one that is only stopped with -1. */
  lemma ExitCodeMeans(code: nat, signal: nat, core: bool)
    requires code < 256 && 0 < signal < 127
    ensures ExitCode(code * 256) == code
    ensures ExitCode(signal + if core then 128 else 0) == 128 + signal
    ensures ExitCode(127 + 256 * signal) == -1
  {
  }

  predicate Can(s: Sys, step: Step) {
    Shaped(s) &&
    match step
    case Read(t, n) => t < 2 && s.threads[t].Reading? && 0 < n <= Common.Min(BUF, |s.left[t]|)
    case Eof(t) => t < 2 && s.threads[t].Reading? && s.left[t] == []
    case Joined(_) => s.threads[0].Over? && s.threads[1].Over? && s.threads[2].Reading?
    case Acquire(t) => t < 3 && s.threads[t].Ready? && s.lock == None
    case Write(t, n) => t < 3 && s.threads[t].Writing? && 0 < n && s.threads[t].off + n <= |Bits(s.threads[t].out)|
    case Release(t) => t < 3 && s.threads[t].Writing? && s.threads[t].off == |Bits(s.threads[t].out)|
  }

  function Next(s: Sys, step: Step): Sys
    requires Can(s, step)
  {
    match step
    case Read(t, n) => s.(threads := s.threads[t := Ready(Output(t, s.left[t][..n]))], left := s.left[t := s.left[t][n..]])
    case Eof(t) => s.(threads := s.threads[t := Over])
    case Joined(status) => s.(threads := s.threads[2 := Ready(Exit(ExitCode(status)))])
    case Acquire(t) => s.(threads := s.threads[t := Writing(s.threads[t].out, 0)], lock := Some(t))
    case Write(t, n) =>
      var Writing(o, off) := s.threads[t];
      s.(threads := s.threads[t := Writing(o, off + n)], channel := s.channel + Bits(o)[off..off + n])
    case Release(t) => s.(threads := s.threads[t := if t == 2 then Over else Reading], lock := None)
  }

  /** The frames begun, in the order the lock was taken. */
  function Log(log: seq<ExecOutput>, s: Sys, step: Step): seq<ExecOutput>
    requires Can(s, step)
  {
    if step.Acquire? then log + [s.threads[step.t].out] else log
  }

  // ----- whole frames on the channel -----

  predicate OutputOf(t: nat, o: ExecOutput) {
    Small(o) && if t == 0 then o.Stdout? else if t == 1 then o.Stderr? else o.Exit?
  }

  /** Every thread holds frames of its own kind, and exactly the lock holder writes. */
  ghost predicate Threads(s: Sys) {
    && Shaped(s)
    && (forall t :: 0 <= t < 3 && (s.threads[t].Ready? || s.threads[t].Writing?) ==> OutputOf(t, s.threads[t].out))
    && (forall t :: 0 <= t < 3 ==> (s.threads[t].Writing? <==> s.lock == Some(t)))
    && (s.lock.Some? ==> s.lock.value < 3)
  }

  lemma ThreadsKept(s: Sys, step: Step)
    requires Threads(s) && Can(s, step)
    ensures Threads(Next(s, step))
  {
  }

  /** All frames begun but the last are on the channel whole, the last up to the
      holder's offset. */
  ghost predicate OnChannel(s: Sys, log: seq<ExecOutput>)
    requires Threads(s)
  {
    && (forall o :: o in log ==> Small(o))
    && match s.lock
       case None => s.channel == Wire(log)
       case Some(t) =>
         var Writing(o, off) := s.threads[t];
         log != [] && log[|log| - 1] == o && off <= |Bits(o)| && s.channel == Wire(log[..|log| - 1]) + Bits(o)[..off]
  }

  lemma AcquireOnChannel(s: Sys, t: nat, log: seq<ExecOutput>)
    requires Threads(s) && OnChannel(s, log) && Can(s, Acquire(t)) && Threads(Next(s, Acquire(t)))
    ensures OnChannel(Next(s, Acquire(t)), log + [s.threads[t].out])
  {
    var o := s.threads[t].out;
    assert (log + [o])[..|log|] == log && Bits(o)[..0] == [] && Wire(log) + [] == Wire(log);
  }

  lemma Glue(a: Bytes, b: Bytes, off: nat, n: nat)
    requires off + n <= |b|
    ensures a + b[..off] + b[off..off + n] == a + b[..off + n]
  {
    assert b[..off] + b[off..off + n] == b[..off + n];
  }

  lemma WriteOnChannel(s: Sys, t: nat, n: nat, log: seq<ExecOutput>)
    requires Threads(s) && OnChannel(s, log) && Can(s, Write(t, n)) && Threads(Next(s, Write(t, n)))
    ensures OnChannel(Next(s, Write(t, n)), log)
  {
    assert s.lock == Some(t);
    var Writing(o, off) := s.threads[t];
    var s', init, bits := Next(s, Write(t, n)), Wire(log[..|log| - 1]), Bits(o);
    assert s'.lock == Some(t) && s'.threads[t] == Writing(o, off + n);
    assert s'.channel == init + bits[..off + n] by {
      assert s.channel == init + bits[..off] && s'.channel == s.channel + bits[off..off + n];
      Glue(init, bits, off, n);
    }
  }

  lemma LastIsWhole(log: seq<ExecOutput>, off: nat)
    requires log != [] && off == |Bits(log[|log| - 1])|
    ensures Wire(log[..|log| - 1]) + Bits(log[|log| - 1])[..off] == Wire(log)
  {
    var init, o := log[..|log| - 1], log[|log| - 1];
    WireAppend(init, o);
    assert log == init + [o] && Bits(o)[..off] == Bits(o);
  }

  lemma ReleaseOnChannel(s: Sys, t: nat, log: seq<ExecOutput>)
    requires Threads(s) && OnChannel(s, log) && Can(s, Release(t)) && Threads(Next(s, Release(t)))
    ensures OnChannel(Next(s, Release(t)), log)
  {
    assert s.lock == Some(t);
    assert Next(s, Release(t)).lock == None && Next(s, Release(t)).channel == s.channel;
    LastIsWhole(log, s.threads[t].off);
  }

  lemma OnChannelKept(s: Sys, step: Step, log: seq<ExecOutput>)
    requires Threads(s) && OnChannel(s, log) && Can(s, step)
    ensures Threads(Next(s, step)) && OnChannel(Next(s, step), Log(log, s, step))
  {
    ThreadsKept(s, step);
    match step
    case Acquire(t) => AcquireOnChannel(s, t, log);
    case Write(t, n) => WriteOnChannel(s, t, n, log);
    case Release(t) => ReleaseOnChannel(s, t, log);
    case _ =>
      assert s.lock.Some? ==> Next(s, step).threads[s.lock.value] == s.threads[s.lock.value];
  }

  // ----- nothing lost, nothing invented, the exit last -----

  function DataFor(t: nat, o: ExecOutput): Bytes {
    if (t == 0 && o.Stdout?) || (t == 1 && o.Stderr?) then o.data else []
  }

  /** All data of one kind, in order. */
  function Collected(t: nat, outs: seq<ExecOutput>): Bytes {
    if outs == [] then [] else Collected(t, outs[..|outs| - 1]) + DataFor(t, outs[|outs| - 1])
  }

  lemma CollectedNext(t: nat, outs: seq<ExecOutput>, o: ExecOutput)
    ensures Collected(t, outs + [o]) == Collected(t, outs) + DataFor(t, o)
  {
    assert (outs + [o])[..|outs|] == outs;
  }

  lemma {:induction false} CollectedConcat(t: nat, a: seq<ExecOutput>, b: seq<ExecOutput>)
    ensures Collected(t, a + b) == Collected(t, a) + Collected(t, b)
  {
    if b == [] {
      assert a + b == a;
    } else {
      var init, last := b[..|b| - 1], b[|b| - 1];
      CollectedConcat(t, a, init);
      assert a + b == (a + init) + [last];
      CollectedNext(t, a + init, last);
      Associative(Collected(t, a), Collected(t, init), DataFor(t, last));
    }
  }

  lemma Associative(a: Bytes, b: Bytes, c: Bytes)
    ensures a + b + c == a + (b + c)
  {
  }

  lemma CollectedOne(t: nat, o: ExecOutput)
    ensures Collected(t, [o]) == DataFor(t, o)
  {
    assert [o][..0] == [];
  }

  /** Pipe 0 is the data of stdout frames, pipe 1 that of stderr frames, in order. */
  lemma CollectedMeans(t: nat, a: seq<ExecOutput>, b: seq<ExecOutput>, d: Bytes, c: int)
    ensures Collected(0, [Stdout(d)]) == d == Collected(1, [Stderr(d)])
    ensures Collected(1, [Stdout(d)]) == [] == Collected(0, [Stderr(d)]) && Collected(t, [Exit(c)]) == []
    ensures Collected(t, a + b) == Collected(t, a) + Collected(t, b)
  {
    CollectedOne(0, Stdout(d));
    CollectedOne(1, Stdout(d));
    CollectedOne(0, Stderr(d));
    CollectedOne(1, Stderr(d));
    CollectedOne(t, Exit(c));
    CollectedConcat(t, a, b);
  }

  function InHand(s: Sys, t: nat): Bytes
    requires Shaped(s) && t < 2
  {
    if s.threads[t].Ready? then DataFor(t, s.threads[t].out) else []
  }

  /** The data of pipe `t`, wherever it is. */
  function Everywhere(s: Sys, log: seq<ExecOutput>, t: nat): Bytes
    requires Shaped(s) && t < 2
  {
    Collected(t, log) + InHand(s, t) + s.left[t]
  }

  /** What was framed, what is in hand and what is left make up the child's output. */
  ghost predicate Conserved(s: Sys, log: seq<ExecOutput>, total: seq<Bytes>)
    requires Shaped(s) && |total| == 2
  {
    && (forall t :: 0 <= t < 2 ==> Everywhere(s, log, t) == total[t])
    && (forall t :: 0 <= t < 2 && s.threads[t].Over? ==> s.left[t] == [])
  }

  lemma Empties(a: Bytes, b: Bytes, c: Bytes)
    ensures a + b + [] + c == a + b + c && a + [] + b + c == a + b + c
  {
    assert a + b + [] == a + b && a + [] == a;
  }

  lemma AcquireConserves(s: Sys, u: nat, log: seq<ExecOutput>, t: nat)
    requires Threads(s) && Can(s, Acquire(u)) && t < 2
    ensures Everywhere(Next(s, Acquire(u)), log + [s.threads[u].out], t) == Everywhere(s, log, t)
  {
    var o := s.threads[u].out;
    CollectedNext(t, log, o);
    assert OutputOf(u, o);
    Empties(Collected(t, log), InHand(s, t), s.left[t]);
    if u != t {
      assert DataFor(t, o) == [] && InHand(Next(s, Acquire(u)), t) == InHand(s, t);
    }
  }

  lemma ReadConserves(s: Sys, u: nat, n: nat, log: seq<ExecOutput>, t: nat)
    requires Threads(s) && Can(s, Read(u, n)) && t < 2
    ensures Everywhere(Next(s, Read(u, n)), log, t) == Everywhere(s, log, t)
  {
    if u == t {
      Regroup(Collected(t, log), s.left[t], n);
    }
  }

  lemma Regroup(a: Bytes, b: Bytes, n: nat)
    requires n <= |b|
    ensures a + b[..n] + b[n..] == a + [] + b
  {
    assert b == b[..n] + b[n..];
  }

  lemma ConservedKept(s: Sys, step: Step, log: seq<ExecOutput>, total: seq<Bytes>)
    requires Threads(s) && |total| == 2 && Conserved(s, log, total) && Can(s, step)
    ensures Threads(Next(s, step)) && Conserved(Next(s, step), Log(log, s, step), total)
  {
    ThreadsKept(s, step);
    forall t | 0 <= t < 2 ensures Everywhere(Next(s, step), Log(log, s, step), t) == total[t] {
      assert Everywhere(s, log, t) == total[t];
      match step
      case Acquire(u) => AcquireConserves(s, u, log, t);
      case Read(u, n) => ReadConserves(s, u, n, log, t);
      case _ => assert InHand(Next(s, step), t) == InHand(s, t);
    }
  }

  ghost predicate NoExit(outs: seq<ExecOutput>) {
    forall o :: o in outs ==> !o.Exit?
  }

  /** One exit frame, behind everything else, once the two forwarders are done, with the
      code of the one status collected. */
  ghost predicate ExitLast(s: Sys, log: seq<ExecOutput>, statuses: seq<nat>)
    requires Shaped(s)
  {
    && (!s.threads[2].Reading? ==> s.threads[0].Over? && s.threads[1].Over? && |statuses| == 1)
    && (s.threads[2].Reading? ==> statuses == [])
    && (s.threads[2].Reading? || s.threads[2].Ready? ==> NoExit(log))
    && (s.threads[2].Ready? ==> s.threads[2].out == Exit(ExitCode(statuses[0])))
    && (s.threads[2].Writing? || s.threads[2].Over? ==> log != [] && log[|log| - 1] == Exit(ExitCode(statuses[0])) && NoExit(log[..|log| - 1]))
  }

  function Collects(step: Step): seq<nat> {
    if step.Joined? then [step.status] else []
  }

  lemma ExitLastKept(s: Sys, step: Step, log: seq<ExecOutput>, statuses: seq<nat>)
    requires Threads(s) && ExitLast(s, log, statuses) && Can(s, step)
    ensures Threads(Next(s, step)) && ExitLast(Next(s, step), Log(log, s, step), statuses + Collects(step))
  {
    ThreadsKept(s, step);
    assert !step.Joined? ==> statuses + Collects(step) == statuses;
    if step.Acquire? {
      assert (log + [s.threads[step.t].out])[..|log|] == log;
    }
  }

  // ----- runs -----

  predicate RunOk(s: Sys, steps: seq<Step>)
    decreases |steps|
  {
    steps != [] ==> Can(s, steps[0]) && RunOk(Next(s, steps[0]), steps[1..])
  }

  function After(s: Sys, steps: seq<Step>): Sys
    requires RunOk(s, steps)
    decreases |steps|
  {
    if steps == [] then s else After(Next(s, steps[0]), steps[1..])
  }

  function LogAfter(log: seq<ExecOutput>, s: Sys, steps: seq<Step>): seq<ExecOutput>
    requires RunOk(s, steps)
    decreases |steps|
  {
    if steps == [] then log else LogAfter(Log(log, s, steps[0]), Next(s, steps[0]), steps[1..])
  }

  /** The wait statuses collected along a run. */
  function Statuses(steps: seq<Step>): seq<nat> {
    if steps == [] then [] else Collects(steps[0]) + Statuses(steps[1..])
  }

  ghost predicate Inv(s: Sys, log: seq<ExecOutput>, total: seq<Bytes>, statuses: seq<nat>) {
    Threads(s) && |total| == 2 && OnChannel(s, log) && Conserved(s, log, total) && ExitLast(s, log, statuses)
  }

  lemma InvKept(s: Sys, step: Step, log: seq<ExecOutput>, total: seq<Bytes>, statuses: seq<nat>)
    requires Inv(s, log, total, statuses) && Can(s, step)
    ensures Inv(Next(s, step), Log(log, s, step), total, statuses + Collects(step))
  {
    OnChannelKept(s, step, log);
    ConservedKept(s, step, log, total);
    ExitLastKept(s, step, log, statuses);
  }

  lemma {:induction false} InvHolds(s: Sys, log: seq<ExecOutput>, total: seq<Bytes>, statuses: seq<nat>, steps: seq<Step>)
    requires Inv(s, log, total, statuses) && RunOk(s, steps)
    ensures Inv(After(s, steps), LogAfter(log, s, steps), total, statuses + Statuses(steps))
    decreases |steps|
  {
    if steps == [] {
      assert statuses + Statuses(steps) == statuses;
    } else {
      var next := statuses + Collects(steps[0]);
      InvKept(s, steps[0], log, total, statuses);
      InvHolds(Next(s, steps[0]), Log(log, s, steps[0]), total, next, steps[1..]);
      assert next + Statuses(steps[1..]) == statuses + Statuses(steps);
    }
  }

  function Start(total: seq<Bytes>): Sys {
    Sys([Reading, Reading, Reading], total, None, [])
  }

  lemma StartInv(total: seq<Bytes>)
    requires |total| == 2
    ensures Inv(Start(total), [], total, [])
  {
  }

  lemma RunInv(total: seq<Bytes>, steps: seq<Step>)
    requires |total| == 2 && RunOk(Start(total), steps)
    ensures Inv(After(Start(total), steps), LogAfter([], Start(total), steps), total, Statuses(steps))
  {
    StartInv(total);
    InvHolds(Start(total), [], total, [], steps);
    assert [] + Statuses(steps) == Statuses(steps);
  }

  /** The frames the host can read so far. */
  ghost function Whole(s: Sys, log: seq<ExecOutput>): seq<ExecOutput>
    requires Threads(s) && OnChannel(s, log)
  {
    match s.lock
    case None => log
    case Some(t) => if s.threads[t].off == |Bits(s.threads[t].out)| then log else log[..|log| - 1]
  }

  /** Whole frames and part of one more are read as the whole ones, and as all once the part
      is whole. */
  lemma PartRead(init: seq<ExecOutput>, o: ExecOutput, off: nat)
    requires (forall x :: x in init ==> Small(x)) && Small(o) && off <= |Bits(o)|
    ensures HostReads(Wire(init) + Bits(o)[..off]) == if off == |Bits(o)| then init + [o] else init
  {
    if off == |Bits(o)| {
      WireAppend(init, o);
      assert Wire(init) + Bits(o)[..off] == Wire(init + [o]) + [] by { assert Bits(o)[..off] == Bits(o); }
      HostReadsWhole(init + [o], []);
    } else {
      CutFrameUnread(ExecPayload(o), Bits(o)[..off]);
      HostReadsWhole(init, Bits(o)[..off]);
    }
  }

  lemma HolderSeen(s: Sys, log: seq<ExecOutput>, t: nat, o: ExecOutput, off: nat)
    requires Threads(s) && OnChannel(s, log) && s.lock == Some(t) && s.threads[t] == Writing(o, off)
    ensures HostReads(s.channel) == if off == |Bits(o)| then log else log[..|log| - 1]
  {
    var init := log[..|log| - 1];
    assert log == init + [o] && (forall x :: x in init ==> Small(x)) && Small(o) by {
      assert log[|log| - 1] in log;
    }
    assert s.channel == Wire(init) + Bits(o)[..off];
    PartRead(init, o, off);
  }

  lemma HostSees(s: Sys, log: seq<ExecOutput>)
    requires Threads(s) && OnChannel(s, log)
    ensures HostReads(s.channel) == Whole(s, log)
  {
    match s.lock
    case None =>
      HostReadsWhole(log, []);
      assert Wire(log) + [] == Wire(log);
    case Some(t) => HolderSeen(s, log, t, s.threads[t].out, s.threads[t].off);
  }

  lemma InvPrefix(s: Sys, log: seq<ExecOutput>, total: seq<Bytes>, statuses: seq<nat>, t: nat)
    requires Inv(s, log, total, statuses) && t < 2
    ensures Collected(t, HostReads(s.channel)) <= total[t]
  {
    HostSees(s, log);
    assert Everywhere(s, log, t) == total[t];
    assert Collected(t, log) <= total[t];
  }

  /** MAIN: at every moment of every interleaving the host has read whole frames only,
      whose stdout data is a prefix of the child's stdout and whose stderr data is a
      prefix of its stderr. */
  lemma HostReadsPrefix(total: seq<Bytes>, steps: seq<Step>, t: nat)
    requires |total| == 2 && RunOk(Start(total), steps) && t < 2
    ensures Collected(t, HostReads(After(Start(total), steps).channel)) <= total[t]
  {
    RunInv(total, steps);
    InvPrefix(After(Start(total), steps), LogAfter([], Start(total), steps), total, Statuses(steps), t);
  }

  ghost predicate Complete(outs: seq<ExecOutput>, total: seq<Bytes>, code: int)
    requires |total| == 2
  {
    && Collected(0, outs) == total[0] && Collected(1, outs) == total[1]
    && outs != [] && outs[|outs| - 1] == Exit(code) && NoExit(outs[..|outs| - 1])
  }

  lemma InvComplete(s: Sys, log: seq<ExecOutput>, total: seq<Bytes>, statuses: seq<nat>)
    requires Inv(s, log, total, statuses) && s.threads[2].Over?
    ensures |statuses| == 1 && Complete(HostReads(s.channel), total, ExitCode(statuses[0]))
  {
    assert s.lock == None;
    HostSees(s, log);
    assert Everywhere(s, log, 0) == total[0];
    assert Everywhere(s, log, 1) == total[1];
  }

  /** MAIN: when the exit frame is out, one wait status was collected, and the host has read
      exactly the child's stdout and stderr and, last, the one exit code of that status. */
  lemma HostReadsAll(total: seq<Bytes>, steps: seq<Step>)
    requires |total| == 2 && RunOk(Start(total), steps)
    requires Shaped(After(Start(total), steps)) && After(Start(total), steps).threads[2].Over?
    ensures |Statuses(steps)| == 1
    ensures Complete(HostReads(After(Start(total), steps).channel), total, ExitCode(Statuses(steps)[0]))
  {
    RunInv(total, steps);
    InvComplete(After(Start(total), steps), LogAfter([], Start(total), steps), total, Statuses(steps));
  }

  /** A step that is open to the system unless it has finished. */
  function Choose(s: Sys): Step
    requires Shaped(s)
  {
    if s.lock.Some? && s.lock.value < 3 && s.threads[s.lock.value].Writing? then
      var t := s.lock.value;
      if s.threads[t].off < |Bits(s.threads[t].out)| then Write(t, 1) else Release(t)
    else if s.threads[0].Ready? then Acquire(0)
    else if s.threads[1].Ready? then Acquire(1)
    else if s.threads[2].Ready? then Acquire(2)
    else if s.threads[0].Reading? then (if s.left[0] == [] then Eof(0) else Read(0, 1))
    else if s.threads[1].Reading? then (if s.left[1] == [] then Eof(1) else Read(1, 1))
    else Joined(0)
  }

  lemma CanChoose(s: Sys, log: seq<ExecOutput>)
    requires Threads(s) && OnChannel(s, log)
    ensures s.threads[2].Over? || Can(s, Choose(s))
  {
    if s.lock.Some? {
      var t := s.lock.value;
      assert s.threads[t].Writing?;
    } else {
      assert !s.threads[0].Writing? && !s.threads[1].Writing? && !s.threads[2].Writing?;
    }
  }

  /** No interleaving gets stuck before the exit frame is out. */
  lemma NeverStuck(total: seq<Bytes>, steps: seq<Step>)
    requires |total| == 2 && RunOk(Start(total), steps)
    ensures var s := After(Start(total), steps); Shaped(s) && (s.threads[2].Over? || Can(s, Choose(s)))
  {
    RunInv(total, steps);
    CanChoose(After(Start(total), steps), LogAfter([], Start(total), steps));
  }
}
