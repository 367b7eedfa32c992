/** Length-prefixed frames on a byte stream, and what they carry. */
module Frames {
  import opened Common
  import opened ByteStrings

  const MAX_FRAME := 16 * 1024 * 1024

  const STDOUT: Byte := 0
  const STDERR: Byte := 1
  const EXIT: Byte := 2
  const STDIN: Byte := 0
  const RESIZE: Byte := 1

  /** The bytes of one frame; the length is cut to 32 bits. */
  function Frame(payload: Bytes): Bytes {
    Be(|payload|, 4) + payload
  }

  /** `write_frame` refuses what is too large. */
  function WriteFrame(payload: Bytes): Option<Bytes> {
    if |payload| > MAX_FRAME then None else Some(Frame(payload))
  }

  /** `read_frame`: the payload and the rest of the stream. */
  function ReadFrame(b: Bytes): (r: Option<(Bytes, Bytes)>)
    ensures r.Some? ==> |r.value.1| < |b| && |r.value.0| <= MAX_FRAME
  {
    match ReadAt(b, 0, 4)
    case None => None
    case Some(l) =>
      var len := FromBe(l);
      if len > MAX_FRAME then None
      else
        match ReadAt(b, 4, len)
        case None => None
        case Some(p) => Some((p, b[4 + len..]))
  }

  /** MAIN: a frame is read back as written, whatever follows, exactly when it is
      within the limit; `write_frame` lets through exactly those. */
  lemma FrameRoundTripIff(payload: Bytes, rest: Bytes)
    ensures ReadFrame(Frame(payload) + rest) == Some((payload, rest)) <==> |payload| <= 16777216
    ensures WriteFrame(payload) == if |payload| <= 16777216 then Some(Frame(payload)) else None
  {
    if |payload| <= MAX_FRAME {
      Widths();
      BeRoundTrip(|payload|, 4);
      var b := Frame(payload) + rest;
      assert b[0..4] == Be(|payload|, 4);
      assert b[4..4 + |payload|] == payload && b[4 + |payload|..] == rest;
    }
  }

  /** Nothing is read from a frame cut short. */
  lemma CutFrameUnread(payload: Bytes, cut: Bytes)
    requires |payload| <= MAX_FRAME && cut < Frame(payload)
    ensures ReadFrame(cut) == None
  {
    Widths();
    BeRoundTrip(|payload|, 4);
    if |cut| >= 4 {
      assert cut[0..4] == Frame(payload)[0..4] == Be(|payload|, 4);
    }
  }

  /** The bytes on the wire: four of length, most significant first, then the payload. */
  lemma FrameBytes(payload: Bytes)
    requires |payload| < TWO32
    ensures |Frame(payload)| == 4 + |payload| && Frame(payload)[4..] == payload
    ensures FromBe(Frame(payload)[..4]) == |payload|
  {
    Widths();
    BeRoundTrip(|payload|, 4);
    assert Frame(payload)[..4] == Be(|payload|, 4);
  }

  // ----- exec output -----

  datatype ExecOutput = Stdout(data: Bytes) | Stderr(data: Bytes) | Exit(code: int)

  const TWO31 := 0x8000_0000

  function ExecPayload(o: ExecOutput): Bytes {
    match o
    case Stdout(d) => [STDOUT] + d
    case Stderr(d) => [STDERR] + d
    case Exit(c) => [EXIT] + Be(c % TWO32, 4)
  }

  function ParseExecOutput(p: Bytes): Option<ExecOutput> {
    if p == [] then None
    else if p[0] == STDOUT then Some(Stdout(p[1..]))
    else if p[0] == STDERR then Some(Stderr(p[1..]))
    else if p[0] == EXIT && |p| == 5 then
      var u := FromBe(p[1..]);
      Some(Exit(if u < TWO31 then u else u - TWO32))
    else None
  }

  predicate I32(o: ExecOutput) {
    o.Exit? ==> -TWO31 <= o.code < TWO31
  }

  lemma ExecRoundTrip(o: ExecOutput)
    requires I32(o)
    ensures ParseExecOutput(ExecPayload(o)) == Some(o)
  {
    var p := ExecPayload(o);
    if o.Exit? {
      Widths();
      assert p[1..] == Be(o.code % TWO32, 4);
      BeRoundTrip(o.code % TWO32, 4);
    }
  }

  /** Kind 0 is stdout, 1 stderr, 2 the exit code as a signed number of four bytes. */
  lemma ExecBytes(d: Bytes, a: Byte, b: Byte, c: Byte, e: Byte)
    ensures ExecPayload(Stdout(d)) == [0] + d && ExecPayload(Stderr(d)) == [1] + d
    ensures var u := 0x100_0000 * a + 0x1_0000 * b + 0x100 * c + e;
            ParseExecOutput([2, a, b, c, e]) == Some(Exit(if a < 128 then u else u - 0x1_0000_0000))
  {
    assert [2, a, b, c, e][1..] == [a, b, c, e];
    FromBeMeans(a, b, c, e, []);
  }

  // ----- terminal input -----

  datatype PtyInput = Stdin(data: Bytes) | Resize(cols: nat, rows: nat)

  function PtyPayload(i: PtyInput): Bytes {
    match i
    case Stdin(d) => [STDIN] + d
    case Resize(c, r) => [RESIZE] + Be(c, 2) + Be(r, 2)
  }

  function ParsePtyInput(p: Bytes): Option<PtyInput> {
    if p == [] then None
    else if p[0] == STDIN then Some(Stdin(p[1..]))
    else if p[0] == RESIZE && |p| == 5 then Some(Resize(FromBe(p[1..3]), FromBe(p[3..5])))
    else None
  }

  lemma PtyRoundTrip(i: PtyInput)
    requires i.Resize? ==> i.cols < TWO16 && i.rows < TWO16
    ensures ParsePtyInput(PtyPayload(i)) == Some(i)
  {
    var p := PtyPayload(i);
    if i.Resize? {
      Widths();
      assert p[1..3] == Be(i.cols, 2) && p[3..5] == Be(i.rows, 2);
      BeRoundTrip(i.cols, 2);
      BeRoundTrip(i.rows, 2);
    }
  }

  /** Kind 0 is keystrokes, 1 a window size, columns before rows. */
  lemma PtyBytes(d: Bytes, a: Byte, b: Byte, c: Byte, e: Byte)
    ensures PtyPayload(Stdin(d)) == [0] + d
    ensures ParsePtyInput([1, a, b, c, e]) == Some(Resize(0x100 * a + b, 0x100 * c + e))
  {
    assert [1, a, b, c, e][1..3] == [a, b] && [1, a, b, c, e][3..5] == [c, e];
    FromBeMeans(a, b, 0, 0, []);
    FromBeMeans(c, e, 0, 0, []);
  }

  // ----- what the host reads -----

  /** The host reads frame after frame until the stream ends or makes no sense. */
  function HostReads(b: Bytes): (outs: seq<ExecOutput>)
    decreases |b|
  {
    match ReadFrame(b)
    case None => []
    case Some(r) =>
      match ParseExecOutput(r.0)
      case None => []
      case Some(o) => [o] + HostReads(r.1)
  }

  function Wire(outs: seq<ExecOutput>): Bytes {
    if outs == [] then [] else Frame(ExecPayload(outs[0])) + Wire(outs[1..])
  }

  predicate Small(o: ExecOutput) {
    I32(o) && |ExecPayload(o)| <= MAX_FRAME
  }

  /** MAIN: whole frames followed by a frame cut short are read as exactly the whole ones. */
  lemma {:induction false} HostReadsWhole(outs: seq<ExecOutput>, cut: Bytes)
    requires forall o :: o in outs ==> Small(o)
    requires ReadFrame(cut) == None
    ensures HostReads(Wire(outs) + cut) == outs
  {
    if outs == [] {
      assert Wire(outs) + cut == cut;
    } else {
      var o, rest := outs[0], outs[1..];
      var f := Frame(ExecPayload(o));
      assert Wire(outs) + cut == f + (Wire(rest) + cut);
      assert Small(o);
      FrameRoundTripIff(ExecPayload(o), Wire(rest) + cut);
      ExecRoundTrip(o);
      HostReadsWhole(rest, cut);
      assert outs == [o] + rest;
    }
  }

  lemma {:induction false} WireAppend(outs: seq<ExecOutput>, o: ExecOutput)
    ensures Wire(outs + [o]) == Wire(outs) + Frame(ExecPayload(o))
  {
    if outs == [] {
      assert outs + [o] == [o] && [o][1..] == [];
    } else {
      assert (outs + [o])[1..] == outs[1..] + [o];
      WireAppend(outs[1..], o);
    }
  }
}
