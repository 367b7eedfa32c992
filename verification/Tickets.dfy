/** The signed payload of a gateway ticket and how it can be read back. */
module TicketEncoding {
  import opened Common

  datatype Action =
    | Exec | File | Logs | Port | Stream
    | Pause | Resume | Fork | Destroy | Keepalive | Expose | Unexpose | Exposes | Create

  function Name(a: Action): string {
    match a
    case Exec => "exec"
    case File => "file"
    case Logs => "logs"
    case Port => "port"
    case Stream => "stream"
    case Pause => "pause"
    case Resume => "resume"
    case Fork => "fork"
    case Destroy => "destroy"
    case Keepalive => "keepalive"
    case Expose => "expose"
    case Unexpose => "unexpose"
    case Exposes => "exposes"
    case Create => "create"
  }

  function FromName(s: string): Option<Action> {
    if s == "exec" then Some(Exec)
    else if s == "file" then Some(File)
    else if s == "logs" then Some(Logs)
    else if s == "port" then Some(Port)
    else if s == "stream" then Some(Stream)
    else if s == "pause" then Some(Pause)
    else if s == "resume" then Some(Resume)
    else if s == "fork" then Some(Fork)
    else if s == "destroy" then Some(Destroy)
    else if s == "keepalive" then Some(Keepalive)
    else if s == "expose" then Some(Expose)
    else if s == "unexpose" then Some(Unexpose)
    else if s == "exposes" then Some(Exposes)
    else if s == "create" then Some(Create)
    else None
  }

  lemma NameRoundTrip(a: Action)
    ensures FromName(Name(a)) == Some(a)
  {
  }

  /** The names, and no others. */
  lemma ActionNames(s: string)
    ensures FromName("exec") == Some(Exec) && FromName("file") == Some(File) && FromName("logs") == Some(Logs)
    ensures FromName("port") == Some(Port) && FromName("stream") == Some(Stream) && FromName("pause") == Some(Pause)
    ensures FromName("resume") == Some(Resume) && FromName("fork") == Some(Fork) && FromName("destroy") == Some(Destroy)
    ensures FromName("keepalive") == Some(Keepalive) && FromName("expose") == Some(Expose) && FromName("unexpose") == Some(Unexpose)
    ensures FromName("exposes") == Some(Exposes) && FromName("create") == Some(Create)
    ensures FromName(s).Some? ==> Name(FromName(s).value) == s
  {
  }

  lemma NameShape(a: Action)
    ensures ':' !in Name(a) && Name(a) != "" && 'a' <= Name(a)[0] <= 'z'
  {
  }

  // ----- decimal numbers, as `format!` prints them -----

  function Digit(d: nat): (c: char)
    requires d < 10
    ensures '0' <= c <= '9'
  {
    "0123456789"[d]
  }

  function DecNat(n: nat): (s: string)
    ensures s != "" && forall i :: 0 <= i < |s| ==> '0' <= s[i] <= '9'
  {
    if n < 10 then [Digit(n)] else DecNat(n / 10) + [Digit(n % 10)]
  }

  function Dec(n: int): (s: string)
    ensures s != "" && ':' !in s && !('a' <= s[0] <= 'z')
  {
    if n < 0 then "-" + DecNat(-n) else DecNat(n)
  }

  lemma {:induction false} DecNatInjective(m: nat, n: nat)
    requires DecNat(m) == DecNat(n)
    ensures m == n
  {
    var s, t := DecNat(m), DecNat(n);
    assert s[|s| - 1] == Digit(m % 10) && t[|t| - 1] == Digit(n % 10);
    assert m % 10 == n % 10;
    if m >= 10 && n >= 10 {
      assert DecNat(m / 10) == s[..|s| - 1] && DecNat(n / 10) == t[..|t| - 1];
      DecNatInjective(m / 10, n / 10);
    }
  }

  /** Digits read in base ten. */
  function Reads(s: string): int {
    if s == "" then 0 else 10 * Reads(s[..|s| - 1]) + (s[|s| - 1] as int - '0' as int)
  }

  /** What is printed reads as the number. */
  lemma {:induction false} DecNatReads(n: nat)
    ensures Reads(DecNat(n)) == n
  {
    assert Digit(n % 10) as int == '0' as int + n % 10;
    if n < 10 {
      assert DecNat(n)[..0] == "";
    } else {
      DecNatReads(n / 10);
      assert DecNat(n)[..|DecNat(n)| - 1] == DecNat(n / 10);
    }
  }

  lemma DecReads(n: int)
    ensures n >= 0 ==> Reads(Dec(n)) == n
    ensures n < 0 ==> Dec(n)[0] == '-' && Reads(Dec(n)[1..]) == -n
  {
    if n >= 0 { DecNatReads(n); } else { DecNatReads(-n); assert Dec(n)[1..] == DecNat(-n); }
  }

  lemma DecSign(n: int)
    ensures n < 0 <==> Dec(n)[0] == '-'
  {
  }

  lemma DecInjective(m: int, n: int)
    requires Dec(m) == Dec(n)
    ensures m == n
  {
    DecSign(m);
    DecSign(n);
    if m < 0 {
      assert Dec(m)[1..] == DecNat(-m) && Dec(n)[1..] == DecNat(-n);
      DecNatInjective(-m, -n);
    } else {
      DecNatInjective(m, n);
    }
  }

  // ----- colon-separated parts -----

  function Parts(s: string): (p: seq<string>)
    ensures p != []
    ensures forall i :: 0 <= i < |p| ==> ':' !in p[i]
  {
    if s == "" then [""]
    else
      var rest := Parts(s[1..]);
      if s[0] == ':' then [""] + rest else [[s[0]] + rest[0]] + rest[1..]
  }

  function Join(p: seq<string>): string
    requires p != []
  {
    if |p| == 1 then p[0] else p[0] + ":" + Join(p[1..])
  }

  lemma {:induction false} JoinParts(s: string)
    ensures Join(Parts(s)) == s
  {
    if s != "" {
      JoinParts(s[1..]);
      var rest := Parts(s[1..]);
      assert s == [s[0]] + s[1..];
      if s[0] == ':' {
        assert ([""] + rest)[1..] == rest;
      } else {
        assert ([[s[0]] + rest[0]] + rest[1..])[1..] == rest[1..];
      }
    }
  }

  lemma {:induction false} PartsPlain(s: string)
    requires ':' !in s
    ensures Parts(s) == [s]
  {
    if s != "" {
      PartsPlain(s[1..]);
      assert s == [s[0]] + s[1..];
    }
  }

  lemma {:induction false} PartsConcat(a: string, b: string)
    ensures Parts(a + ":" + b) == Parts(a) + Parts(b)
  {
    if a == "" {
      assert a + ":" + b == ":" + b;
      assert (":" + b)[1..] == b;
    } else {
      assert (a + ":" + b)[1..] == a[1..] + ":" + b;
      PartsConcat(a[1..], b);
    }
  }

  lemma {:induction false} PartsOfJoin(p: seq<string>)
    requires p != [] && Plain(p)
    ensures Parts(Join(p)) == p
  {
    PartsPlain(p[0]);
    if |p| > 1 {
      PartsOfJoin(p[1..]);
      PartsConcat(p[0], Join(p[1..]));
      assert p == [p[0]] + p[1..];
    }
  }

  // ----- the payload -----

  type U32 = x: int | 0 <= x < 0x1_0000_0000
  type I64 = x: int | -0x8000_0000_0000_0000 <= x < 0x8000_0000_0000_0000

  datatype Ticket = Ticket(sid: string, action: Action, port: U32, exp: I64, nonce: string)

  function Colons(sid: string, a: string, b: string, c: string, nonce: string): string {
    "v1" + ":" + (sid + ":" + (a + ":" + (b + ":" + (c + ":" + nonce))))
  }

  function Payload(t: Ticket): string {
    Colons(t.sid, Name(t.action), Dec(t.port), Dec(t.exp), t.nonce)
  }

  /** The signed text. */
  lemma PayloadText(t: Ticket)
    ensures Payload(t) == "v1:" + t.sid + ":" + Name(t.action) + ":" + Dec(t.port) + ":" + Dec(t.exp) + ":" + t.nonce
  {
    Flat(t.sid, Name(t.action), Dec(t.port), Dec(t.exp), t.nonce);
  }

  lemma Shift(x: string, a: string, y: string)
    ensures x + (a + ":" + y) == x + a + ":" + y
  {
    assert a + ":" + y == a + (":" + y);
  }

  lemma Flat(a: string, b: string, c: string, d: string, e: string)
    ensures Colons(a, b, c, d, e) == "v1:" + a + ":" + b + ":" + c + ":" + d + ":" + e
  {
    var x1 := "v1:";
    var x2 := x1 + a + ":";
    var x3 := x2 + b + ":";
    var x4 := x3 + c + ":";
    assert "v1" + ":" == x1;
    Shift(x1, a, b + ":" + (c + ":" + (d + ":" + e)));
    Shift(x2, b, c + ":" + (d + ":" + e));
    Shift(x3, c, d + ":" + e);
    Shift(x4, d, e);
  }

  lemma TailParts(a: string, b: string, c: string, nonce: string)
    requires ':' !in a && ':' !in b && ':' !in c
    ensures Parts(a + ":" + (b + ":" + (c + ":" + nonce))) == [a, b, c] + Parts(nonce)
  {
    var z := c + ":" + nonce;
    PartsPlain(a);
    PartsPlain(b);
    PartsPlain(c);
    PartsConcat(c, nonce);
    PartsConcat(b, z);
    PartsConcat(a, b + ":" + z);
  }

  lemma ColonsParts(sid: string, a: string, b: string, c: string, nonce: string)
    requires ':' !in a && ':' !in b && ':' !in c
    ensures Parts(Colons(sid, a, b, c, nonce)) == ["v1"] + Parts(sid) + [a, b, c] + Parts(nonce)
  {
    var x := a + ":" + (b + ":" + (c + ":" + nonce));
    TailParts(a, b, c, nonce);
    PartsPlain("v1");
    PartsConcat(sid, x);
    PartsConcat("v1", sid + ":" + x);
  }

  lemma PayloadParts(t: Ticket)
    ensures Parts(Payload(t)) ==
            ["v1"] + Parts(t.sid) + [Name(t.action), Dec(t.port), Dec(t.exp)] + Parts(t.nonce)
  {
    NameShape(t.action);
    ColonsParts(t.sid, Name(t.action), Dec(t.port), Dec(t.exp), t.nonce);
  }

  /** Where the fields are among the parts of the payload. */
  lemma FieldsAt(t: Ticket, p: seq<string>, k: nat)
    requires p == Parts(Payload(t)) && k == |Parts(t.sid)|
    ensures |p| > 4 + k && p[1..1 + k] == Parts(t.sid) && p[4 + k..] == Parts(t.nonce)
    ensures p[1 + k] == Name(t.action) && p[2 + k] == Dec(t.port) && p[3 + k] == Dec(t.exp)
  {
    PayloadParts(t);
  }

  lemma SameWidthSameTicket(t: Ticket, u: Ticket)
    requires Payload(t) == Payload(u) && |Parts(t.sid)| == |Parts(u.sid)|
    ensures t == u
  {
    var p, k := Parts(Payload(t)), |Parts(t.sid)|;
    FieldsAt(t, p, k);
    FieldsAt(u, p, k);
    JoinParts(t.sid);
    JoinParts(u.sid);
    JoinParts(t.nonce);
    JoinParts(u.nonce);
    NameRoundTrip(t.action);
    NameRoundTrip(u.action);
    DecInjective(t.port, u.port);
    DecInjective(t.exp, u.exp);
  }

  /** The payload is injective on tickets whose nonce has no colon, as minted ones
      (hex) have none. */
  lemma PayloadInjective(t: Ticket, u: Ticket)
    requires Payload(t) == Payload(u) && ':' !in t.nonce && ':' !in u.nonce
    ensures t == u
  {
    PayloadParts(t);
    PayloadParts(u);
    PartsPlain(t.nonce);
    PartsPlain(u.nonce);
    SameWidthSameTicket(t, u);
  }

  /** Part `j` onwards reads as an action, a port and an expiry. */
  ghost predicate TripleAt(p: seq<string>, j: nat) {
    && 1 <= j && j + 2 < |p|
    && (exists a :: p[j] == Name(a))
    && (exists n: U32 :: p[j + 1] == Dec(n))
    && (exists n: I64 :: p[j + 2] == Dec(n))
  }

  /** The sandbox id itself contains `:<action>:<port>:<expiry>`. */
  ghost predicate Embeds(sid: string) {
    exists j :: TripleAt(Parts(sid), j)
  }

  lemma OtherReadingIsEmbedded(t: Ticket, u: Ticket)
    requires Payload(t) == Payload(u) && ':' !in t.nonce && u != t
    ensures Embeds(t.sid)
  {
    var p := Parts(Payload(t));
    var k, j := |Parts(t.sid)|, |Parts(u.sid)|;
    FieldsAt(t, p, k);
    FieldsAt(u, p, j);
    PartsPlain(t.nonce);
    if j == k {
      SameWidthSameTicket(t, u);
    }
    assert j < k;
    NameShape(t.action);
    NameShape(u.action);
    assert j + 1 != k && j + 2 != k;
    var q := Parts(t.sid);
    assert forall i :: 0 <= i < k ==> q[i] == p[1 + i];
    assert TripleAt(q, j);
  }

  lemma EmbeddedGivesOtherReading(t: Ticket) returns (u: Ticket)
    requires ':' !in t.nonce && Embeds(t.sid)
    ensures u != t && Payload(u) == Payload(t)
  {
    var q := Parts(t.sid);
    var j: nat :| TripleAt(q, j);
    var a :| q[j] == Name(a);
    var port: U32 :| q[j + 1] == Dec(port);
    var exp: I64 :| q[j + 2] == Dec(exp);
    u := Ticket(Join(q[..j]), a, port, exp, Join(q[j + 3..] + [Name(t.action), Dec(t.port), Dec(t.exp), t.nonce]));
    SameParts(t, u, q, j);
  }

  lemma SameParts(t: Ticket, u: Ticket, q: seq<string>, j: nat)
    requires ':' !in t.nonce && q == Parts(t.sid) && 1 <= j && j + 2 < |q|
    requires q[j] == Name(u.action) && q[j + 1] == Dec(u.port) && q[j + 2] == Dec(u.exp)
    requires u.sid == Join(q[..j]) && u.nonce == Join(q[j + 3..] + [Name(t.action), Dec(t.port), Dec(t.exp), t.nonce])
    ensures u != t && Payload(u) == Payload(t)
  {
    NameShape(t.action);
    var tail := [Name(t.action), Dec(t.port), Dec(t.exp), t.nonce];
    Regroup(["v1"], q, j, tail);
    assert Plain(q) && Plain(q[..j]) && Plain(q[j + 3..]) && Plain(tail);
    PlainConcat(q[j + 3..], tail);
    PartsOfJoin(q[..j]);
    PartsOfJoin(q[j + 3..] + tail);
    PayloadParts(t);
    PayloadParts(u);
    PartsPlain(t.nonce);
    assert Parts(Payload(t)) == ["v1"] + q + tail;
    assert Parts(Payload(u)) == ["v1"] + q[..j] + [q[j], q[j + 1], q[j + 2]] + (q[j + 3..] + tail);
    JoinParts(Payload(t));
    JoinParts(Payload(u));
    assert |Parts(u.sid)| == j;
  }

  predicate Plain(p: seq<string>) {
    forall i :: 0 <= i < |p| ==> ':' !in p[i]
  }

  lemma PlainConcat(p: seq<string>, q: seq<string>)
    requires Plain(p) && Plain(q)
    ensures Plain(p + q)
  {
  }

  /** Moving the parts behind the triple from the id into the nonce keeps the whole. */
  lemma Regroup<T>(h: seq<T>, q: seq<T>, j: nat, tail: seq<T>)
    requires j + 2 < |q|
    ensures h + q[..j] + [q[j], q[j + 1], q[j + 2]] + (q[j + 3..] + tail) == h + q + tail
  {
    assert q == q[..j] + [q[j], q[j + 1], q[j + 2]] + q[j + 3..];
  }

  /** MAIN: the query a gateway is handed is not checked for colons, so a signed
      payload could be presented under other fields.  For a minted ticket it can
      exactly when its sandbox id embeds an action, a port and an expiry. */
  lemma SecondReadingIff(t: Ticket)
    requires ':' !in t.nonce
    ensures (exists u :: u != t && Payload(u) == Payload(t)) <==> Embeds(t.sid)
  {
    if exists u :: u != t && Payload(u) == Payload(t) {
      var u :| u != t && Payload(u) == Payload(t);
      OtherReadingIsEmbedded(t, u);
    }
    if Embeds(t.sid) {
      var u := EmbeddedGivesOtherReading(t);
    }
  }

  /** Sandbox ids (hex) and creation targets (`node:<host>:<pid>`) have at most two
      colons, which leaves no room. */
  lemma FewColonsEmbedNothing(sid: string)
    requires |Parts(sid)| <= 3
    ensures !Embeds(sid)
  {
  }

  /** `ct_eq`: accumulates the differences, and answers equality. */
  method ConstantTimeEq(a: seq<bv8>, b: seq<bv8>) returns (eq: bool)
    ensures eq <==> a == b
  {
    if |a| != |b| {
      return false;
    }
    var d: bv8 := 0;
    for i := 0 to |a|
      invariant d == 0 <==> a[..i] == b[..i]
    {
      var before := d;
      d := d | (a[i] ^ b[i]);
      OrXor(before, a[i], b[i]);
      assert a[..i + 1] == a[..i] + [a[i]] && b[..i + 1] == b[..i] + [b[i]];
    }
    assert a[..|a|] == a && b[..|b|] == b;
    eq := d == 0;
  }

  lemma OrXor(d: bv8, x: bv8, y: bv8)
    ensures d | (x ^ y) == 0 <==> d == 0 && x == y
  {
  }
}

/** Consuming a ticket across gateway replicas that share a store. */
module TicketProtocol {
  import opened Common
  import opened Keys
  import opened LeaseStore
  import opened TicketEncoding

  /** The MAC as an ideal function: equal tags have equal key and message. */
  datatype Tag = Mac(secret: string, message: string)

  datatype Query = Query(ticket: Ticket, sig: Tag)

  /** A `verify` call between two of its store operations. */
  datatype Call =
    | Checked(q: Query, read: int)                    // signature and expiry passed at clock reading `read`
    | Leased(q: Query, read: int, lease: LeaseId)
    | Refused(lease: LeaseId)                         // the nonce was taken, the lease goes back
    | Done

  datatype Sys = Sys(secret: string, store: Store, clock: int, calls: seq<Call>, accepted: seq<Query>)

  datatype Step =
    | Tick(to: int)
    | Arrive(q: Query)
    | Ask(c: nat, id: LeaseId)
    | AskFails(c: nat)
    | Swap(c: nat, reply: bool)
    | SwapFails(c: nat)
    | GiveBack(c: nat, reply: bool)
    | Other(op: Op)

  predicate Holds(c: Call, id: LeaseId) {
    (c.Leased? || c.Refused?) && c.lease == id
  }

  ghost predicate HeldByCall(sys: Sys, id: LeaseId) {
    exists c :: 0 <= c < |sys.calls| && Holds(sys.calls[c], id)
  }

  ghost predicate HoldsNonce(s: Store, id: LeaseId) {
    exists n :: OnLease(s, Nonce(n), id)
  }

  /** Other clients keep off the nonce keys and leases; what is due may expire. */
  ghost predicate Foreign(sys: Sys, op: Op) {
    && Enabled(sys.store, op)
    && (op.OpPut? || op.OpDelete? || op.OpCas? ==> !op.key.Nonce?)
    && (op.OpKeepalive? ==> op.now == sys.clock && !HeldByCall(sys, op.id) && !HoldsNonce(sys.store, op.id))
    && (op.OpReap? ==> forall id :: id in op.ids && id in sys.store.leases ==>
          sys.store.leases[id].expires <= sys.clock || (!HeldByCall(sys, id) && !HoldsNonce(sys.store, id)))
  }

  ghost predicate Can(sys: Sys, step: Step) {
    match step
    case Tick(to) => sys.clock <= to
    case Arrive(q) => q.sig == Mac(sys.secret, Payload(q.ticket)) && sys.clock < q.ticket.exp
    case Ask(c, id) => c < |sys.calls| && sys.calls[c].Checked? && id !in sys.store.leases
    case AskFails(c) => c < |sys.calls| && sys.calls[c].Checked?
    case Swap(c, _) => c < |sys.calls| && sys.calls[c].Leased?
    case SwapFails(c) => c < |sys.calls| && sys.calls[c].Leased?
    case GiveBack(c, _) => c < |sys.calls| && sys.calls[c].Refused?
    case Other(op) => Foreign(sys, op)
  }

  function Next(sys: Sys, step: Step): (sys': Sys)
    requires Can(sys, step)
  {
    match step
    case Tick(to) => sys.(clock := to)
    case Arrive(q) => sys.(calls := sys.calls + [Checked(q, sys.clock)])
    case Ask(c, id) =>
      var Checked(q, read) := sys.calls[c];
      var ttl := Common.Max(q.ticket.exp - read, 1);
      sys.(store := Grant(sys.store, id, ttl, sys.clock), calls := sys.calls[c := Leased(q, read, id)])
    case AskFails(c) => sys.(calls := sys.calls[c := Done])
    case SwapFails(c) => sys.(calls := sys.calls[c := Done])
    case Swap(c, reply) =>
      var Leased(q, _, lease) := sys.calls[c];
      var key := Nonce(q.ticket.nonce);
      var store := Cas(sys.store, key, None, Text("1"), Some(lease));
      if CasSucceeds(sys.store, key, None) then
        sys.(store := store, calls := sys.calls[c := Done], accepted := sys.accepted + (if reply then [q] else []))
      else
        sys.(calls := sys.calls[c := if reply then Refused(lease) else Done])
    case GiveBack(c, reply) =>
      sys.(store := if reply then Revoke(sys.store, sys.calls[c].lease) else sys.store, calls := sys.calls[c := Done])
    case Other(op) => sys.(store := Do(sys.store, op))
  }

  // ----- what a run has to keep to -----

  /** A swap reaches the store before the ticket it is for expires. */
  predicate Prompt(sys: Sys, step: Step)
    requires Can(sys, step)
  {
    step.Swap? ==> sys.clock < sys.calls[step.c].q.ticket.exp
  }

  predicate PromptFor(sys: Sys, step: Step, t: Ticket)
    requires Can(sys, step)
  {
    step.Swap? && sys.calls[step.c].q.ticket == t ==> Prompt(sys, step)
  }

  ghost predicate Accepted(sys: Sys, t: Ticket) {
    exists i :: 0 <= i < |sys.accepted| && sys.accepted[i].ticket == t
  }

  predicate LeasedFor(c: Call, t: Ticket, id: LeaseId) {
    c.Leased? && c.q.ticket == t && c.lease == id
  }

  /** The ticket depends on the lease: its nonce is on it, or about to be put there. */
  ghost predicate InUse(sys: Sys, t: Ticket, id: LeaseId) {
    && sys.clock < t.exp
    && ((Accepted(sys, t) && OnLease(sys.store, Nonce(t.nonce), id)) || exists c :: 0 <= c < |sys.calls| && LeasedFor(sys.calls[c], t, id))
  }

  /** A refused call does not revoke a lease the ticket depends on. */
  ghost predicate HarmlessFor(sys: Sys, step: Step, t: Ticket)
    requires Can(sys, step)
  {
    step.GiveBack? && step.reply ==> !InUse(sys, t, sys.calls[step.c].lease)
  }

  ghost predicate RunOk(sys: Sys, steps: seq<Step>)
    decreases |steps|
  {
    steps != [] ==> Can(sys, steps[0]) && RunOk(Next(sys, steps[0]), steps[1..])
  }

  ghost function After(sys: Sys, steps: seq<Step>): Sys
    requires RunOk(sys, steps)
    decreases |steps|
  {
    if steps == [] then sys else After(Next(sys, steps[0]), steps[1..])
  }

  /** Every swap is prompt. */
  ghost predicate AllPrompt(sys: Sys, steps: seq<Step>)
    requires RunOk(sys, steps)
    decreases |steps|
  {
    steps != [] ==> Prompt(sys, steps[0]) && AllPrompt(Next(sys, steps[0]), steps[1..])
  }

  /** Every swap for this ticket is prompt. */
  ghost predicate PromptRun(sys: Sys, steps: seq<Step>, t: Ticket)
    requires RunOk(sys, steps)
    decreases |steps|
  {
    steps != [] ==> PromptFor(sys, steps[0], t) && PromptRun(Next(sys, steps[0]), steps[1..], t)
  }

  /** No refused call revokes a lease this ticket depends on. */
  ghost predicate HarmlessRun(sys: Sys, steps: seq<Step>, t: Ticket)
    requires RunOk(sys, steps)
    decreases |steps|
  {
    steps != [] ==> HarmlessFor(sys, steps[0], t) && HarmlessRun(Next(sys, steps[0]), steps[1..], t)
  }

  ghost predicate Initial(sys: Sys) {
    sys.calls == [] && sys.accepted == [] && forall n :: Nonce(n) !in sys.store.kvs
  }

  // ----- the invariant, ticket by ticket -----

  /** Until the ticket expires, its consumed nonce is on record and cannot lapse earlier. */
  predicate Recorded(sys: Sys, t: Ticket) {
    sys.clock < t.exp ==>
      && Nonce(t.nonce) in sys.store.kvs
      && sys.store.kvs[Nonce(t.nonce)].lease.Some?
      && sys.store.kvs[Nonce(t.nonce)].lease.value in sys.store.leases
      && t.exp <= sys.store.leases[sys.store.kvs[Nonce(t.nonce)].lease.value].expires
  }

  /** A lease taken for the ticket lasts at least as long as the ticket. */
  predicate LongEnough(sys: Sys, c: Call) {
    match c
    case Checked(q, read) => read <= sys.clock && read < q.ticket.exp
    case Leased(q, read, l) => sys.clock < q.ticket.exp ==> l in sys.store.leases && q.ticket.exp <= sys.store.leases[l].expires
    case _ => true
  }

  predicate For(c: Call, t: Ticket) {
    (c.Checked? || c.Leased?) && c.q.ticket == t
  }

  ghost predicate Lasting(sys: Sys, t: Ticket) {
    forall c :: 0 <= c < |sys.calls| && For(sys.calls[c], t) ==> LongEnough(sys, sys.calls[c])
  }

  ghost predicate Once(sys: Sys, t: Ticket) {
    forall i, j | 0 <= i < j < |sys.accepted| :: !(sys.accepted[i].ticket == t && sys.accepted[j].ticket == t)
  }

  ghost predicate Signed(sys: Sys) {
    && (forall i :: 0 <= i < |sys.accepted| ==> sys.accepted[i].sig == Mac(sys.secret, Payload(sys.accepted[i].ticket)))
    && (forall c :: 0 <= c < |sys.calls| && (sys.calls[c].Checked? || sys.calls[c].Leased?) ==>
          sys.calls[c].q.sig == Mac(sys.secret, Payload(sys.calls[c].q.ticket)))
  }

  ghost predicate Inv(sys: Sys, t: Ticket) {
    (Accepted(sys, t) ==> Recorded(sys, t)) && Lasting(sys, t) && Once(sys, t) && Signed(sys)
  }

  lemma SignedKept(sys: Sys, step: Step)
    requires Signed(sys) && Can(sys, step)
    ensures Signed(Next(sys, step)) && Next(sys, step).secret == sys.secret
  {
    var sys' := Next(sys, step);
    forall i | 0 <= i < |sys'.accepted| ensures sys'.accepted[i].sig == Mac(sys.secret, Payload(sys'.accepted[i].ticket)) {
    }
  }

  /** What other clients do, and expiry, leaves a nonce on record that has time left. */
  lemma RecordOutlastsOthers(sys: Sys, op: Op, t: Ticket)
    requires Can(sys, Other(op)) && Recorded(sys, t)
    ensures Recorded(Next(sys, Other(op)), t)
  {
    if sys.clock < t.exp {
      assert OnLease(sys.store, Nonce(t.nonce), sys.store.kvs[Nonce(t.nonce)].lease.value);
    }
  }

  lemma RecordedKept(sys: Sys, step: Step, t: Ticket)
    requires Inv(sys, t) && Can(sys, step) && PromptFor(sys, step, t) && HarmlessFor(sys, step, t)
    ensures Accepted(Next(sys, step), t) ==> Recorded(Next(sys, step), t)
  {
    var sys' := Next(sys, step);
    if Accepted(sys, t) {
      if step.Other? { RecordOutlastsOthers(sys, step.op, t); }
    } else if Accepted(sys', t) {
      assert step.Swap? && sys.calls[step.c].q.ticket == t;
      assert For(sys.calls[step.c], t) && LongEnough(sys, sys.calls[step.c]);
    }
  }

  lemma OnceKept(sys: Sys, step: Step, t: Ticket)
    requires Inv(sys, t) && Can(sys, step) && PromptFor(sys, step, t)
    ensures Once(Next(sys, step), t)
  {
    var sys' := Next(sys, step);
    if step.Swap? && sys'.accepted != sys.accepted && sys.calls[step.c].q.ticket == t {
      assert !Accepted(sys, t);
    }
  }

  lemma LeaseOutlastsOthers(sys: Sys, op: Op, c: nat)
    requires Can(sys, Other(op)) && c < |sys.calls| && LongEnough(sys, sys.calls[c])
    ensures LongEnough(Next(sys, Other(op)), sys.calls[c])
  {
    if sys.calls[c].Leased? {
      assert Holds(sys.calls[c], sys.calls[c].lease);
      assert HeldByCall(sys, sys.calls[c].lease);
    }
  }

  lemma LastingKept(sys: Sys, step: Step, t: Ticket)
    requires Lasting(sys, t) && Can(sys, step) && HarmlessFor(sys, step, t)
    ensures Lasting(Next(sys, step), t)
  {
    var sys' := Next(sys, step);
    forall d | 0 <= d < |sys'.calls| && For(sys'.calls[d], t) ensures LongEnough(sys', sys'.calls[d]) {
      if d < |sys.calls| && sys'.calls[d] == sys.calls[d] {
        assert LongEnough(sys, sys.calls[d]);
        if step.Other? { LeaseOutlastsOthers(sys, step.op, d); }
        if sys.calls[d].Leased? { assert LeasedFor(sys.calls[d], t, sys.calls[d].lease); }
      } else if step.Ask? && d == step.c {
        assert For(sys.calls[d], t) && LongEnough(sys, sys.calls[d]);
      }
    }
  }

  lemma InvKept(sys: Sys, step: Step, t: Ticket)
    requires Inv(sys, t) && Can(sys, step) && PromptFor(sys, step, t) && HarmlessFor(sys, step, t)
    ensures Inv(Next(sys, step), t)
  {
    SignedKept(sys, step);
    RecordedKept(sys, step, t);
    OnceKept(sys, step, t);
    LastingKept(sys, step, t);
  }

  lemma {:induction false} InvHolds(sys: Sys, steps: seq<Step>, t: Ticket)
    requires Inv(sys, t) && RunOk(sys, steps) && PromptRun(sys, steps, t) && HarmlessRun(sys, steps, t)
    ensures Inv(After(sys, steps), t) && After(sys, steps).secret == sys.secret
    decreases |steps|
  {
    if steps != [] {
      InvKept(sys, steps[0], t);
      SignedKept(sys, steps[0]);
      InvHolds(Next(sys, steps[0]), steps[1..], t);
    }
  }

  /** MAIN: over any run of any number of replicas, with expiry, lost replies and other
      clients in between, a minted ticket is accepted at most once — also after its
      nonce record has lapsed — as long as the swaps for this ticket are prompt and no
      refused call revokes a lease this ticket depends on. */
  lemma AcceptedAtMostOnce(sys: Sys, steps: seq<Step>, t: Ticket, i: nat, j: nat)
    requires Initial(sys) && RunOk(sys, steps) && PromptRun(sys, steps, t) && HarmlessRun(sys, steps, t)
    requires ':' !in t.nonce && !Embeds(t.sid)
    requires i < |After(sys, steps).accepted| && j < |After(sys, steps).accepted|
    requires After(sys, steps).accepted[i].sig == After(sys, steps).accepted[j].sig == Mac(sys.secret, Payload(t))
    ensures i == j && After(sys, steps).accepted[i].ticket == t
  {
    InvHolds(sys, steps, t);
    var a, b := After(sys, steps).accepted[i].ticket, After(sys, steps).accepted[j].ticket;
    assert Payload(a) == Payload(t) && Payload(b) == Payload(t);
    SecondReadingIff(t);
    assert a == t && b == t;
  }

  // ----- when a refused call is harmless -----

  /** Giving a lease back keeps every accepted ticket on record exactly when the lease
      carries no nonce of an accepted ticket with time left. */
  lemma GiveBackKeepsRecordsIff(sys: Sys, c: nat)
    requires Can(sys, GiveBack(c, true)) && forall t :: Accepted(sys, t) ==> Recorded(sys, t)
    ensures (forall t :: Accepted(sys, t) ==> Recorded(Next(sys, GiveBack(c, true)), t)) <==>
            (forall t :: Accepted(sys, t) && sys.clock < t.exp ==> !OnLease(sys.store, Nonce(t.nonce), sys.calls[c].lease))
  {
    var sys', l := Next(sys, GiveBack(c, true)), sys.calls[c].lease;
    forall t | Accepted(sys, t) ensures Recorded(sys', t) <==> sys.clock >= t.exp || !OnLease(sys.store, Nonce(t.nonce), l) {
      assert Recorded(sys, t);
      if sys.clock < t.exp && OnLease(sys.store, Nonce(t.nonce), l) {
        assert Nonce(t.nonce) in KeysOn(sys.store, {l});
      }
    }
  }

  /** No grant hands out an id that a call in progress holds. */
  ghost predicate UnheldGrant(sys: Sys, step: Step) {
    && (step.Ask? ==> !HeldByCall(sys, step.id))
    && (step.Other? && step.op.OpGrant? ==> !HeldByCall(sys, step.op.id))
  }

  ghost predicate UnheldGrants(sys: Sys, steps: seq<Step>)
    requires RunOk(sys, steps)
    decreases |steps|
  {
    steps != [] ==> UnheldGrant(sys, steps[0]) && UnheldGrants(Next(sys, steps[0]), steps[1..])
  }

  /** Calls hold different leases, and none holds the one the ticket's nonce is on. */
  ghost predicate Apart(sys: Sys, t: Ticket) {
    && (forall c, d, id | 0 <= c < |sys.calls| && 0 <= d < |sys.calls| ::
          Holds(sys.calls[c], id) && Holds(sys.calls[d], id) ==> c == d)
    && (Accepted(sys, t) && sys.clock < t.exp ==>
          forall c, id :: 0 <= c < |sys.calls| && Holds(sys.calls[c], id) ==> !OnLease(sys.store, Nonce(t.nonce), id))
  }

  lemma ApartIsHarmless(sys: Sys, step: Step, t: Ticket)
    requires Apart(sys, t) && Can(sys, step)
    ensures HarmlessFor(sys, step, t)
  {
    if step.GiveBack? {
      var l := sys.calls[step.c].lease;
      assert Holds(sys.calls[step.c], l);
      forall c | 0 <= c < |sys.calls| && LeasedFor(sys.calls[c], t, l) ensures false {
        assert Holds(sys.calls[c], l);
      }
    }
  }

  lemma HeldBefore(sys: Sys, step: Step, c: nat, id: LeaseId)
    requires Can(sys, step) && c < |Next(sys, step).calls| && Holds(Next(sys, step).calls[c], id)
    ensures c < |sys.calls| && (Holds(sys.calls[c], id) || (step.Ask? && step.c == c && step.id == id))
  {
  }

  lemma CallsStayApart(sys: Sys, step: Step, t: Ticket)
    requires Apart(sys, t) && Can(sys, step) && UnheldGrant(sys, step)
    ensures var sys' := Next(sys, step);
            forall c, d, id | 0 <= c < |sys'.calls| && 0 <= d < |sys'.calls| ::
              Holds(sys'.calls[c], id) && Holds(sys'.calls[d], id) ==> c == d
  {
    var sys' := Next(sys, step);
    forall c, d, id | 0 <= c < |sys'.calls| && 0 <= d < |sys'.calls| && Holds(sys'.calls[c], id) && Holds(sys'.calls[d], id)
      ensures c == d
    {
      HeldBefore(sys, step, c, id);
      HeldBefore(sys, step, d, id);
    }
  }

  /** The nonce of an accepted ticket stays on its lease while the ticket has time left. */
  lemma NonceStays(sys: Sys, step: Step, t: Ticket, id: LeaseId)
    requires Inv(sys, t) && Apart(sys, t) && Can(sys, step) && Accepted(sys, t) && Next(sys, step).clock < t.exp
    requires OnLease(Next(sys, step).store, Nonce(t.nonce), id)
    ensures OnLease(sys.store, Nonce(t.nonce), id) && id in sys.store.leases
  {
  }

  lemma ApartKept(sys: Sys, step: Step, t: Ticket)
    requires Inv(sys, t) && Apart(sys, t) && Can(sys, step) && PromptFor(sys, step, t) && UnheldGrant(sys, step)
    ensures Apart(Next(sys, step), t)
  {
    var sys' := Next(sys, step);
    CallsStayApart(sys, step, t);
    if Accepted(sys', t) && sys'.clock < t.exp {
      forall c, id | 0 <= c < |sys'.calls| && Holds(sys'.calls[c], id) ensures !OnLease(sys'.store, Nonce(t.nonce), id) {
        HeldBefore(sys, step, c, id);
        if OnLease(sys'.store, Nonce(t.nonce), id) {
          if Accepted(sys, t) {
            NonceStays(sys, step, t, id);
          } else {
            assert step.Swap? && Holds(sys.calls[step.c], id);
          }
        }
      }
    }
  }

  /** Ids not handed out while a call holds them make every refusal harmless. */
  lemma {:induction false} UnheldSuffices(sys: Sys, steps: seq<Step>, t: Ticket)
    requires Inv(sys, t) && Apart(sys, t) && RunOk(sys, steps) && PromptRun(sys, steps, t) && UnheldGrants(sys, steps)
    ensures HarmlessRun(sys, steps, t)
    decreases |steps|
  {
    if steps != [] {
      ApartIsHarmless(sys, steps[0], t);
      ApartKept(sys, steps[0], t);
      InvKept(sys, steps[0], t);
      UnheldSuffices(Next(sys, steps[0]), steps[1..], t);
    }
  }

  function Issued(step: Step): set<LeaseId> {
    if step.Ask? then {step.id} else if step.Other? && step.op.OpGrant? then {step.op.id} else {}
  }

  /** The store never hands out an id twice. */
  ghost predicate IdsDistinct(steps: seq<Step>, used: set<LeaseId>)
    decreases |steps|
  {
    steps != [] ==> Issued(steps[0]) !! used && IdsDistinct(steps[1..], used + Issued(steps[0]))
  }

  /** Neither does it while a call holds the id, then. */
  lemma {:induction false} DistinctIdsSuffice(sys: Sys, steps: seq<Step>, used: set<LeaseId>)
    requires RunOk(sys, steps) && IdsDistinct(steps, used)
    requires forall c, id :: 0 <= c < |sys.calls| && Holds(sys.calls[c], id) ==> id in used
    ensures UnheldGrants(sys, steps)
    decreases |steps|
  {
    if steps != [] {
      var sys' := Next(sys, steps[0]);
      forall c, id | 0 <= c < |sys'.calls| && Holds(sys'.calls[c], id) ensures id in used + Issued(steps[0]) {
        HeldBefore(sys, steps[0], c, id);
      }
      DistinctIdsSuffice(sys', steps[1..], used + Issued(steps[0]));
    }
  }

  /** MAIN: on a store that never repeats a lease id, promptness of the ticket's own swaps
      is all it takes. */
  lemma AcceptedAtMostOnceWithDistinctIds(sys: Sys, steps: seq<Step>, t: Ticket, i: nat, j: nat)
    requires Initial(sys) && RunOk(sys, steps) && PromptRun(sys, steps, t) && IdsDistinct(steps, {})
    requires ':' !in t.nonce && !Embeds(t.sid)
    requires i < |After(sys, steps).accepted| && j < |After(sys, steps).accepted|
    requires After(sys, steps).accepted[i].sig == After(sys, steps).accepted[j].sig == Mac(sys.secret, Payload(t))
    ensures i == j && After(sys, steps).accepted[i].ticket == t
  {
    DistinctIdsSuffice(sys, steps, {});
    UnheldSuffices(sys, steps, t);
    AcceptedAtMostOnce(sys, steps, t, i, j);
  }

  // ----- why promptness is needed -----

  const first := LeaseId(1)
  const second := LeaseId(2)

  function Script(q: Query): seq<Step> {
    [Arrive(q), Arrive(q), Ask(0, first), Swap(0, true), Tick(q.ticket.exp), Other(OpReap({first})), Ask(1, second), Swap(1, true)]
  }

  function Scene(q: Query, k: nat): Sys {
    var e := q.ticket.exp;
    var key := Nonce(q.ticket.nonce);
    var idle, held := Checked(q, e - 1), map[key := KeyValue(Text("1"), 1, 1, Some(first))];
    var lease1, lease2 := map[first := Lease(1, e)], map[second := Lease(1, e + 1)];
    if k == 0 then Sys(q.sig.secret, Store(map[], map[], 0), e - 1, [], [])
    else if k == 1 then Sys(q.sig.secret, Store(map[], map[], 0), e - 1, [idle], [])
    else if k == 2 then Sys(q.sig.secret, Store(map[], map[], 0), e - 1, [idle, idle], [])
    else if k == 3 then Sys(q.sig.secret, Store(map[], lease1, 0), e - 1, [Leased(q, e - 1, first), idle], [])
    else if k == 4 then Sys(q.sig.secret, Store(held, lease1, 1), e - 1, [Done, idle], [q])
    else if k == 5 then Sys(q.sig.secret, Store(held, lease1, 1), e, [Done, idle], [q])
    else if k == 6 then Sys(q.sig.secret, Store(map[], map[], 2), e, [Done, idle], [q])
    else if k == 7 then Sys(q.sig.secret, Store(map[], lease2, 2), e, [Done, Leased(q, e - 1, second)], [q])
    else Sys(q.sig.secret, Store(map[key := KeyValue(Text("1"), 3, 3, Some(second))], lease2, 3), e, [Done, Done], [q, q])
  }

  lemma ArriveScene(q: Query, k: nat)
    requires k < 2 && q.sig.message == Payload(q.ticket)
    ensures Can(Scene(q, k), Script(q)[k])
    ensures Next(Scene(q, k), Script(q)[k]) == Scene(q, k + 1)
  {
    assert Script(q)[k] == Arrive(q);
  }

  lemma AskScene(q: Query, k: nat)
    requires k == 2 && q.sig.message == Payload(q.ticket)
    ensures Can(Scene(q, k), Script(q)[k])
    ensures Next(Scene(q, k), Script(q)[k]) == Scene(q, k + 1)
  {
    var s := Scene(q, 2);
    assert Script(q)[2] == Ask(0, first) && s.calls[0] == Checked(q, q.ticket.exp - 1);
    assert Grant(s.store, first, 1, s.clock) == Scene(q, 3).store;
    assert s.calls[0 := Leased(q, q.ticket.exp - 1, first)] == Scene(q, 3).calls;
  }

  lemma SwapScene(q: Query, k: nat)
    requires k == 3 && q.sig.message == Payload(q.ticket)
    ensures Can(Scene(q, k), Script(q)[k])
    ensures Next(Scene(q, k), Script(q)[k]) == Scene(q, k + 1)
  {
    assert Script(q)[3] == Swap(0, true) && CasSucceeds(Scene(q, 3).store, Nonce(q.ticket.nonce), None);
  }

  lemma TickScene(q: Query, k: nat)
    requires k == 4 && q.sig.message == Payload(q.ticket)
    ensures Can(Scene(q, k), Script(q)[k])
    ensures Next(Scene(q, k), Script(q)[k]) == Scene(q, k + 1)
  {
    assert Script(q)[4] == Tick(q.ticket.exp);
  }

  lemma LapseScene(q: Query, k: nat)
    requires k == 5 && q.sig.message == Payload(q.ticket)
    ensures Can(Scene(q, k), Script(q)[k])
    ensures Next(Scene(q, k), Script(q)[k]) == Scene(q, k + 1)
  {
    var key := Nonce(q.ticket.nonce);
    var s := Scene(q, 5).store;
    assert KeysOn(s, {first}) == {key};
    assert s.kvs - {key} == map[] && s.leases - {first} == map[];
  }

  lemma LateScene(q: Query, k: nat)
    requires k == 6 && q.sig.message == Payload(q.ticket)
    ensures Can(Scene(q, k), Script(q)[k])
    ensures Next(Scene(q, k), Script(q)[k]) == Scene(q, k + 1)
  {
  }

  lemma LastScene(q: Query, k: nat)
    requires k == 7 && q.sig.message == Payload(q.ticket)
    ensures Can(Scene(q, k), Script(q)[k])
    ensures Next(Scene(q, k), Script(q)[k]) == Scene(q, k + 1)
  {
    var s := Scene(q, 7);
    assert Script(q)[7] == Swap(1, true) && s.calls[1] == Leased(q, q.ticket.exp - 1, second);
    assert CasSucceeds(s.store, Nonce(q.ticket.nonce), None);
  }

  lemma {:induction false} SceneRun(q: Query, k: nat)
    requires k <= 8 && q.sig.message == Payload(q.ticket)
    ensures RunOk(Scene(q, k), Script(q)[k..]) && After(Scene(q, k), Script(q)[k..]) == Scene(q, 8)
    decreases 8 - k
  {
    if k < 8 {
      if k < 2 {
        ArriveScene(q, k);
      } else {
        match k
        case 2 => AskScene(q, k);
        case 3 => SwapScene(q, k);
        case 4 => TickScene(q, k);
        case 5 => LapseScene(q, k);
        case 6 => LateScene(q, k);
        case _ => LastScene(q, k);
      }
      SceneRun(q, k + 1);
      assert Script(q)[k..][1..] == Script(q)[k + 1..];
    }
  }

  /** For every ticket: one replica consumes it in its last second, another has read
      the clock in that second but swaps after the record lapsed — and accepts it too. */
  lemma LateSwapAcceptsTwice(q: Query, start: Sys, steps: seq<Step>)
    requires q.sig.message == Payload(q.ticket) && start == Scene(q, 0) && steps == Script(q)
    ensures Initial(start) && RunOk(start, steps) && After(start, steps).accepted == [q, q]
  {
    SceneRun(q, 0);
    assert steps == Script(q)[0..];
  }
}

/** The gateway's `verify`, against the protocol and, on a single machine, against a
    set of used nonces. */
module Gateway {
  import opened Common
  import opened Keys
  import opened LeaseStore
  import opened TicketEncoding
  import opened TicketProtocol
  import SqliteStore

  /** The checks that come before the nonce is touched. */
  predicate Genuine(secret: string, q: Query, now: int) {
    q.sig == Mac(secret, Payload(q.ticket)) && now < q.ticket.exp
  }

  /** The call is this prompt run of the protocol, leaving this store and these acceptances. */
  ghost predicate AmountsTo(start: Sys, steps: seq<Step>, s: Store, accepted: seq<Query>) {
    RunOk(start, steps) && AllPrompt(start, steps) && After(start, steps).store == s && After(start, steps).accepted == accepted
  }

  /** Which store calls of one attempt err.  A grant or a swap that errs may have taken effect. */
  datatype Faults = Faults(grant: bool, swap: bool, giveBack: bool, applied: bool)

  lemma Ends(sys: Sys)
    ensures RunOk(sys, []) && AllPrompt(sys, []) && After(sys, []) == sys
  {
  }

  lemma Leads(sys: Sys, step: Step, rest: seq<Step>)
    requires Can(sys, step) && Prompt(sys, step) && RunOk(Next(sys, step), rest) && AllPrompt(Next(sys, step), rest)
    ensures RunOk(sys, [step] + rest) && AllPrompt(sys, [step] + rest) && After(sys, [step] + rest) == After(Next(sys, step), rest)
  {
    assert ([step] + rest)[1..] == rest;
  }

  /** One call alone: `q` admitted, then these steps. */
  ghost predicate CallRun(start: Sys, call: Call, s: Store, steps: seq<Step>, s': Store, accepted: seq<Query>) {
    AmountsTo(start.(calls := [call], store := s), steps, s', accepted)
  }

  lemma OneStep(start: Sys, call: Call, s: Store, step: Step, s': Store, accepted: seq<Query>)
    requires Can(start.(calls := [call], store := s), step) && Prompt(start.(calls := [call], store := s), step)
    requires var end := Next(start.(calls := [call], store := s), step); end.store == s' && end.accepted == accepted
    ensures CallRun(start, call, s, [step], s', accepted)
  {
    var sys := start.(calls := [call], store := s);
    Ends(Next(sys, step));
    Leads(sys, step, []);
    assert [step] + [] == [step];
  }

  lemma OneMoreStep(start: Sys, call: Call, s: Store, step: Step, call': Call, mid: Store, rest: seq<Step>, s': Store, accepted: seq<Query>)
    requires Can(start.(calls := [call], store := s), step) && Prompt(start.(calls := [call], store := s), step)
    requires Next(start.(calls := [call], store := s), step) == start.(calls := [call'], store := mid)
    requires CallRun(start, call', mid, rest, s', accepted)
    ensures CallRun(start, call, s, [step] + rest, s', accepted)
  {
    Leads(start.(calls := [call], store := s), step, rest);
  }

  /** The first step, and for a call whose grant errs the last. */
  lemma Arrives(start: Sys, q: Query, rest: seq<Step>, s': Store, accepted: seq<Query>)
    requires start.calls == [] && Genuine(start.secret, q, start.clock)
    requires CallRun(start, Checked(q, start.clock), start.store, rest, s', accepted)
    ensures AmountsTo(start, [Arrive(q)] + rest, s', accepted)
  {
    assert Next(start, Arrive(q)) == start.(calls := [Checked(q, start.clock)], store := start.store);
    Leads(start, Arrive(q), rest);
  }

  class Shared {
    const store: SqliteStore.Sqlite
    const secret: string

    constructor (store: SqliteStore.Sqlite, secret: string)
      ensures this.store == store && this.secret == secret
    {
      this.store, this.secret := store, secret;
    }

    /** The nonce is new on record, on a new lease that ends with the ticket, and nothing else
        has changed. */
    twostate predicate Used(t: Ticket)
      reads store
    {
      exists l ::
        && l !in old(store.leases) && Nonce(t.nonce) !in old(store.kvs)
        && store.leases.Keys == old(store.leases).Keys + {l} && store.leases[l].expires == t.exp
        && (forall m :: m in old(store.leases) ==> store.leases[m] == old(store.leases)[m])
        && store.kvs == old(store.kvs)[Nonce(t.nonce) := KeyValue(Text("1"), store.rev, store.rev, Some(l))]
    }

    /** `verify` with the nonce kept in the shared store: the answer, and the protocol
        steps the call amounts to. */
    method Verify(q: Query, now: int, f: Faults) returns (ok: bool, ghost steps: seq<Step>)
      requires store.Valid()
      modifies store
      ensures store.Valid()
      ensures ok <==> && q.sig == Mac(secret, Payload(q.ticket)) && now < q.ticket.exp
                      && !f.grant && !f.swap && Nonce(q.ticket.nonce) !in old(store.kvs)
      ensures !(q.sig == Mac(secret, Payload(q.ticket)) && now < q.ticket.exp) ==> store.View() == old(store.View())
      ensures Genuine(secret, q, now) ==>
                AmountsTo(Sys(secret, old(store.View()), now, [], []), steps, store.View(), if ok then [q] else [])
      ensures ok ==> Used(q.ticket)
    {
      steps := [];
      if q.sig != Mac(secret, Payload(q.ticket)) || now >= q.ticket.exp {
        return false, [];
      }
      ghost var start := Sys(secret, store.View(), now, [], []);
      ghost var rest;
      if f.grant {
        ok, rest := FailedGrant(q, now, f.applied, start);
      } else {
        ok, rest := Consume(q, now, f, start);
      }
      Arrives(start, q, rest, store.View(), if ok then [q] else []);
      steps := [Arrive(q)] + rest;
    }

    /** The grant errs; the lease may be there all the same, for nobody. */
    method FailedGrant(q: Query, now: int, applied: bool, ghost start: Sys) returns (ok: bool, ghost steps: seq<Step>)
      requires store.Valid() && start == Sys(secret, store.View(), now, [], [])
      modifies store
      ensures store.Valid() && !ok
      ensures CallRun(start, Checked(q, now), start.store, steps, store.View(), [])
    {
      ok := false;
      if applied {
        var ttl := Common.Max(q.ticket.exp - now, 1);
        var id := store.LeaseGrant(ttl, now);
        OneStep(start, Checked(q, now), store.View(), AskFails(0), store.View(), []);
        OneMoreStep(start, Checked(q, now), start.store, Other(OpGrant(id, ttl, now)), Checked(q, now), store.View(), [AskFails(0)], store.View(), []);
        steps := [Other(OpGrant(id, ttl, now)), AskFails(0)];
      } else {
        OneStep(start, Checked(q, now), start.store, AskFails(0), start.store, []);
        steps := [AskFails(0)];
      }
    }

    /** The lease, the swap, and the lease given back when the nonce was taken. */
    method Consume(q: Query, now: int, f: Faults, ghost start: Sys) returns (ok: bool, ghost steps: seq<Step>)
      requires store.Valid() && start == Sys(secret, store.View(), now, [], []) && now < q.ticket.exp
      modifies store
      ensures store.Valid()
      ensures ok <==> !f.swap && Nonce(q.ticket.nonce) !in old(store.kvs)
      ensures CallRun(start, Checked(q, now), start.store, steps, store.View(), if ok then [q] else [])
      ensures ok ==> Used(q.ticket)
      ensures !ok && !f.swap && !f.giveBack ==> store.leases == old(store.leases)
      ensures !ok && !f.swap && !f.giveBack && NoDangling(old(store.View())) ==> store.kvs == old(store.kvs)
    {
      var lease := store.LeaseGrant(Common.Max(q.ticket.exp - now, 1), now);
      ghost var mid := store.View();
      ghost var rest;
      if f.swap {
        ok, rest := FailedSwap(q, now, lease, f.applied, start);
      } else {
        ok, rest := SwapNonce(q, now, lease, f.giveBack, start);
      }
      assert Next(start.(calls := [Checked(q, now)], store := start.store), Ask(0, lease)) == start.(calls := [Leased(q, now, lease)], store := mid);
      OneMoreStep(start, Checked(q, now), start.store, Ask(0, lease), Leased(q, now, lease), mid, rest, store.View(), if ok then [q] else []);
      steps := [Ask(0, lease)] + rest;
    }

    method FailedSwap(q: Query, now: int, lease: LeaseId, applied: bool, ghost start: Sys) returns (ok: bool, ghost steps: seq<Step>)
      requires store.Valid() && start.clock == now && start.accepted == [] && now < q.ticket.exp
      modifies store
      ensures store.Valid() && !ok
      ensures CallRun(start, Leased(q, now, lease), old(store.View()), steps, store.View(), [])
    {
      ok := false;
      ghost var was := store.View();
      if applied {
        var _, _, _ := store.CompareAndSwap(Nonce(q.ticket.nonce), None, Text("1"), Some(lease));
        OneStep(start, Leased(q, now, lease), was, Swap(0, false), store.View(), []);
        steps := [Swap(0, false)];
      } else {
        OneStep(start, Leased(q, now, lease), was, SwapFails(0), was, []);
        steps := [SwapFails(0)];
      }
    }

    method SwapNonce(q: Query, now: int, lease: LeaseId, keeps: bool, ghost start: Sys) returns (ok: bool, ghost steps: seq<Step>)
      requires store.Valid() && start.clock == now && start.accepted == [] && now < q.ticket.exp
      modifies store
      ensures store.Valid()
      ensures ok <==> Nonce(q.ticket.nonce) !in old(store.kvs)
      ensures CallRun(start, Leased(q, now, lease), old(store.View()), steps, store.View(), if ok then [q] else [])
      ensures ok ==> store.leases == old(store.leases) && store.kvs == old(store.kvs)[Nonce(q.ticket.nonce) := KeyValue(Text("1"), store.rev, store.rev, Some(lease))]
      ensures !ok ==> store.View() == if keeps then old(store.View()) else Revoke(old(store.View()), lease)
    {
      ghost var was := store.View();
      var swapped, _, _ := store.CompareAndSwap(Nonce(q.ticket.nonce), None, Text("1"), Some(lease));
      ok := swapped;
      if ok {
        OneStep(start, Leased(q, now, lease), was, Swap(0, true), store.View(), [q]);
        steps := [Swap(0, true)];
      } else {
        if !keeps {
          var _ := store.LeaseRevoke(lease);
        }
        OneStep(start, Refused(lease), was, GiveBack(0, !keeps), store.View(), []);
        OneMoreStep(start, Leased(q, now, lease), was, Swap(0, true), Refused(lease), was, [GiveBack(0, !keeps)], store.View(), []);
        steps := [Swap(0, true), GiveBack(0, !keeps)];
      }
    }
  }

  class Local {
    const secret: string
    var used: set<string>
    ghost var accepted: seq<Query>

    ghost predicate Valid() reads this {
      && (forall i :: 0 <= i < |accepted| ==> accepted[i].ticket.nonce in used)
      && (forall i, j | 0 <= i < j < |accepted| :: accepted[i].ticket.nonce != accepted[j].ticket.nonce)
    }

    constructor (secret: string)
      ensures Valid() && this.secret == secret && used == {} && accepted == []
    {
      this.secret, this.used, this.accepted := secret, {}, [];
    }

    /** `verify` on a single machine: no two accepted tickets ever share a nonce. */
    method Verify(q: Query, now: int) returns (ok: bool)
      requires Valid()
      modifies this
      ensures Valid()
      ensures ok <==> q.sig == Mac(secret, Payload(q.ticket)) && now < q.ticket.exp && q.ticket.nonce !in old(used)
      ensures used == if q.sig == Mac(secret, Payload(q.ticket)) && now < q.ticket.exp then old(used) + {q.ticket.nonce} else old(used)
      ensures accepted == if ok then old(accepted) + [q] else old(accepted)
    {
      if q.sig != Mac(secret, Payload(q.ticket)) || now >= q.ticket.exp {
        return false;
      }
      ok := q.ticket.nonce !in used;
      used := used + {q.ticket.nonce};
      if ok { accepted := accepted + [q]; }
    }
  }
}
