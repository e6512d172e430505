/** The TFTP read client against a lossy, duplicating, reordering network and an honest server. */
module Tftp {
  import opened Basics

  const BLOCK: nat := 512
  const WRAP: nat := 65536
  const OP_DATA: nat := 3
  const OP_ERROR: nat := 5
  const MAX_RETX: nat := 5

  type Octets = seq<nat>

  // ----- the client -----

  /** The transfer state; `out` holds the bytes stored so far. */
  datatype Client = Client(cap: nat, out: Octets, block: nat, port: nat, haveTid: bool, progress: bool, done: bool,
      error: bool)

  function Opcode(b: Octets): nat
    requires |b| >= 4
  {
    b[0] * 256 + b[1]
  }

  function Number(b: Octets): nat
    requires |b| >= 4
  {
    b[2] * 256 + b[3]
  }

  function Space(c: Client): nat { if c.cap > |c.out| then c.cap - |c.out| else 0 }

  /** Storing the payload of the expected block. */
  function Store(c: Client, payload: Octets): Client {
    var take := Least(|payload|, Space(c));
    var full := take < |payload|;
    c.(out := c.out + payload[..take], block := (c.block + 1) % WRAP, progress := true,
       error := c.error || full, done := c.done || full || (!c.error && |payload| < BLOCK))
  }

  /** The receive callback: the new state and the acknowledged block, if any. */
  function Rx(c: Client, port: nat, b: Octets): (Client, Option<nat>) {
    if |b| < 4 then (c, None)
    else if Opcode(b) == OP_ERROR then (c.(error := true, done := true), None)
    else if Opcode(b) != OP_DATA then (c, None)
    else if c.haveTid && port != c.port then (c, None)
    else
      var t := c.(port := port, haveTid := true);
      if Number(b) == (c.block + 1) % WRAP then (Store(t, b[4..]), Some((c.block + 1) % WRAP)) else (t, Some(c.block))
  }

  /** The receive callback as it updates the transfer in place. */
  class Transfer {
    var out: Octets
    const cap: nat
    var block: nat
    var port: nat
    var haveTid: bool
    var progress: bool
    var done: bool
    var error: bool

    ghost function State(): Client
      reads this
    {
      Client(cap, out, block, port, haveTid, progress, done, error)
    }

    constructor (cap: nat)
      ensures State() == Start(cap)
    {
      this.cap, out, block, port := cap, [], 0, 0;
      haveTid, progress, done, error := false, false, false, false;
    }

    method Receive(from: nat, b: Octets) returns (ack: Option<nat>)
      requires block < WRAP
      modifies this
      ensures (State(), ack) == Rx(old(State()), from, b)
      ensures block < WRAP
    {
      ack := None;
      if |b| < 4 { return; }
      var op, blk := b[0] * 256 + b[1], b[2] * 256 + b[3];
      if op == OP_ERROR {
        error, done := true, true;
        return;
      }
      if op != OP_DATA { return; }
      if !haveTid {
        port, haveTid := from, true;
      } else if from != port {
        return;
      }
      var next, dlen := (block + 1) % WRAP, |b| - 4;
      if blk == next {
        if dlen > 0 {
          var space := if cap > |out| then cap - |out| else 0;
          var take := if dlen <= space then dlen else space;
          if take > 0 { out := out + b[4..4 + take]; }
          if take < dlen { error, done := true, true; }
        }
        ghost var stored := Least(dlen, Space(old(State())));
        assert b[4..][..stored] == b[4..4 + stored];
        assert out == old(out) + b[4..][..stored];
        block := next;
        progress := true;
        ack := Some(next);
        if !error && dlen < BLOCK { done := true; }
      } else {
        ack := Some(block);
      }
    }
  }

  function Start(cap: nat): Client { Client(cap, [], 0, 0, false, false, false, false) }

  // ----- the server's file -----

  /** The file as blocks 1 to Blocks(file); the last is short, and empty if the length is a multiple of 512. */
  function Blocks(file: Octets): nat { |file| / BLOCK + 1 }

  function BlockAt(file: Octets, k: nat): Octets
    requires 1 <= k <= Blocks(file)
  {
    file[(k - 1) * BLOCK..Least(k * BLOCK, |file|)]
  }

  function DataPacket(file: Octets, k: nat): Octets
    requires 1 <= k <= Blocks(file)
  {
    [0, OP_DATA, k % WRAP / 256, k % 256] + BlockAt(file, k)
  }

  // ----- the system -----

  datatype Packet = Request | Ack(port: nat, block: nat) | ToClient(port: nat, bytes: Octets)

  datatype Phase = Running | Returned(code: int)

  /** `net` keeps every packet ever sent: delivery is optional, repeated and in any order.  `sent` is the
      last block each server session has sent. */
  datatype State = State(client: Client, retries: nat, phase: Phase, net: set<Packet>, sent: map<nat, nat>)

  function Init(cap: nat): State { State(Start(cap), 0, Running, {Request}, map[]) }

  datatype Event =
    | Open(port: nat)
    | Answer(port: nat)
    | Noise(packet: Packet)
    | Deliver(packet: Packet)
    | Timer
    | Finish

  function Acked(s: State, port: nat, ack: Option<nat>): set<Packet> {
    if ack.Some? then s.net + {Ack(port, ack.value)} else s.net
  }

  function Resend(s: State): Packet {
    if s.client.block == 0 then Request else Ack(s.client.port, s.client.block)
  }

  function Timed(s: State): State {
    if s.client.progress then s.(client := s.client.(progress := false))
    else if s.retries < MAX_RETX then s.(retries := s.retries + 1, net := s.net + {Resend(s)})
    else s.(retries := s.retries + 1, phase := Returned(Result(s.client)))
  }

  function Result(c: Client): int { if c.done && !c.error then 0 else -1 }

  /** One step.  A session opens on a request, at a port of its own; it sends the next block when the last
      one is acknowledged.  Noise is anything that is not DATA.  The client may handle packets after the
      last block, until its loop looks at `done`. */
  ghost predicate Step(file: Octets, s: State, e: Event, s': State) {
    match e
    case Open(p) =>
      && Request in s.net && p !in s.sent
      && s' == s.(sent := s.sent[p := 1], net := s.net + {ToClient(p, DataPacket(file, 1))})
    case Answer(p) =>
      && p in s.sent && 1 <= s.sent[p] < Blocks(file) && Ack(p, s.sent[p] % WRAP) in s.net
      && s' == s.(sent := s.sent[p := s.sent[p] + 1], net := s.net + {ToClient(p, DataPacket(file, s.sent[p] + 1))})
    case Noise(q) =>
      && (q.ToClient? ==> |q.bytes| < 4 || Opcode(q.bytes) != OP_DATA)
      && s' == s.(net := s.net + {q})
    case Deliver(q) =>
      && q in s.net && q.ToClient? && s.phase == Running
      && var (c, ack) := Rx(s.client, q.port, q.bytes);
         s' == s.(client := c, net := Acked(s, q.port, ack))
    case Timer => s.phase == Running && s' == Timed(s)
    case Finish => s.phase == Running && s' == s.(phase := Returned(Result(s.client)))
  }

  ghost predicate IsRun(file: Octets, cap: nat, run: seq<State>) {
    && |run| > 0 && run[0] == Init(cap)
    && forall k :: 0 <= k < |run| - 1 ==> CanStep(file, run[k], run[k + 1])
  }

  ghost predicate CanStep(file: Octets, s: State, s': State) { exists e: Event :: Step(file, s, e, s') }

  // ----- safety -----

  /** The client has stored the blocks up to its number, as far as the buffer goes; done means all. */
  ghost predicate ClientOk(file: Octets, c: Client) {
    && c.block <= Blocks(file)
    && c.out == file[..Least(c.cap, Least(c.block * BLOCK, |file|))]
    && (!c.error ==> Least(c.block * BLOCK, |file|) <= c.cap)
    && (!c.error ==> (c.done <==> c.block == Blocks(file)))
  }

  ghost predicate NetOk(file: Octets, s: State) {
    && (forall q :: q in s.net && q.ToClient? && |q.bytes| >= 4 && Opcode(q.bytes) == OP_DATA ==>
       IsBlock(file, q.bytes))
    && (forall p :: p in s.sent ==> 1 <= s.sent[p] <= Blocks(file))
  }

  ghost predicate IsBlock(file: Octets, b: Octets) {
    exists k: nat :: 1 <= k <= Blocks(file) && b == DataPacket(file, k)
  }

  ghost predicate Inv(file: Octets, s: State) {
    ClientOk(file, s.client) && NetOk(file, s)
      && (s.phase.Returned? ==> s.phase.code == if s.client.done && !s.client.error then 0 else -1)
  }

  predicate Small(file: Octets) { Blocks(file) < WRAP }

  lemma PacketParts(file: Octets, k: nat)
    requires 1 <= k <= Blocks(file)
    ensures var b := DataPacket(file, k);
            |b| >= 4 && Opcode(b) == OP_DATA && Number(b) == k % WRAP && b[4..] == BlockAt(file, k)
  {
    var n := k % WRAP;
    assert k % 256 == n % 256;
    assert n == n / 256 * 256 + n % 256;
  }

  /** Block k of a file on the wire, as RFC 1350 has it. */
  lemma DataBytes(file: Octets, k: nat)
    requires 1 <= k <= |file| / 512 + 1
    ensures DataPacket(file, k) ==
              [0, 3, k / 256 % 256, k % 256] + file[(k - 1) * 512..if k * 512 < |file| then k * 512 else |file|]
  {
    assert k % WRAP / 256 == k / 256 % 256;
  }

  /** An ERROR packet ends the transfer, whoever sent it; anything that is neither DATA nor ERROR is ignored. */
  lemma OtherPackets(c: Client, port: nat, b: Octets)
    requires |b| >= 4 && b[0] * 256 + b[1] != 3
    ensures Rx(c, port, b) == if b[0] * 256 + b[1] == 5 then (c.(error := true, done := true), None) else (c, None)
  {}

  /** When the timer fires: after progress it is only reset; else the request or the last acknowledgement goes out
      again, five times in all; then the call returns. */
  lemma TimerExactly(file: Octets, s: State, s': State)
    requires Step(file, s, Timer, s')
    ensures s.phase == Running
    ensures s.client.progress ==> s' == s.(client := s.client.(progress := false))
    ensures !s.client.progress && s.retries < 5 ==>
              s' == s.(retries := s.retries + 1,
                       net := s.net + {if s.client.block == 0 then Request else Ack(s.client.port, s.client.block)})
    ensures !s.client.progress && s.retries >= 5 ==>
              s'.phase == Returned(if s.client.done && !s.client.error then 0 else -1) && s'.client == s.client
  {}

  lemma StoreOk(file: Octets, c: Client, k: nat)
    requires ClientOk(file, c) && k == c.block + 1 <= Blocks(file) < WRAP
    ensures ClientOk(file, Store(c, BlockAt(file, k)))
  {
    var payload := BlockAt(file, k);
    var have := Least(c.block * BLOCK, |file|);
    assert have == c.block * BLOCK && payload == file[have..Least(k * BLOCK, |file|)];
    var take := Least(|payload|, Space(c));
    var next := Store(c, payload);
    assert next.block == k;
    if have <= c.cap {
      assert next.out == file[..have] + payload[..take];
      assert payload[..take] == file[have..have + take];
      assert next.out == file[..have + take];
    } else {
      assert take == 0 && next.out == c.out;
    }
  }

  lemma RxOk(file: Octets, c: Client, port: nat, b: Octets)
    requires ClientOk(file, c) && Small(file) && (|b| >= 4 && Opcode(b) == OP_DATA ==> IsBlock(file, b))
    ensures ClientOk(file, Rx(c, port, b).0)
  {
    hide BlockAt, DataPacket, Store;
    if |b| >= 4 && Opcode(b) == OP_DATA {
      var k: nat :| 1 <= k <= Blocks(file) && b == DataPacket(file, k);
      PacketParts(file, k);
      var t := c.(port := port, haveTid := true);
      if Number(b) == (c.block + 1) % WRAP { StoreOk(file, t, k); }
    }
  }

  lemma StepOk(file: Octets, s: State, e: Event, s': State)
    requires Inv(file, s) && Small(file) && Step(file, s, e, s')
    ensures Inv(file, s')
  {
    hide BlockAt, DataPacket, Rx, ClientOk;
    match e
    case Open(p) => assert IsBlock(file, DataPacket(file, 1));
    case Answer(p) => assert IsBlock(file, DataPacket(file, s.sent[p] + 1));
    case Noise(q) =>
    case Deliver(q) => RxOk(file, s.client, q.port, q.bytes);
    case Timer => ProgressFree(file, s.client);
    case Finish =>
  }

  lemma ProgressFree(file: Octets, c: Client)
    requires ClientOk(file, c)
    ensures ClientOk(file, c.(progress := false))
  {}

  lemma {:induction false} RunOk(file: Octets, cap: nat, run: seq<State>, k: nat)
    requires IsRun(file, cap, run) && Small(file) && k < |run|
    ensures Inv(file, run[k])
  {
    if k == 0 {
      assert Least(0, |file|) == 0;
    } else {
      RunOk(file, cap, run, k - 1);
      assert CanStep(file, run[k - 1], run[k - 1 + 1]);
      var e: Event :| Step(file, run[k - 1], e, run[k]);
      StepOk(file, run[k - 1], e, run[k]);
    }
  }

  /** What a state must satisfy: a prefix is stored, and a return of 0 means the whole file. */
  ghost predicate Safe(file: Octets, s: State) {
    && s.client.out <= file
    && (s.phase == Returned(0) ==> s.client.out == file)
  }

  /** In every run, with any losses, duplicates and reordering, a file of fewer than 65535 full blocks is
      received as a prefix, and completely if the call returns 0. */
  lemma AlwaysSafe(file: Octets, cap: nat, run: seq<State>, k: nat)
    requires IsRun(file, cap, run) && Small(file) && k < |run|
    ensures Safe(file, run[k])
  {
    RunOk(file, cap, run, k);
  }

  /** When the call returns: 0 exactly if the last block is stored and no error was met, and -1 otherwise. */
  lemma ReturnExactly(file: Octets, cap: nat, run: seq<State>, k: nat)
    requires IsRun(file, cap, run) && Small(file) && k < |run| && run[k].phase.Returned?
    ensures var s := run[k];
            s.phase.code == if s.client.block == |file| / 512 + 1 && !s.client.error then 0 else -1
  {
    RunOk(file, cap, run, k);
  }

  // ----- runs -----

  const CAP: nat := 65537 * BLOCK

  /** i full blocks are in, session 1 has sent the next one, and the first one is still around. */
  ghost predicate Received(file: Octets, s: State, cap: nat, i: nat)
    requires i < Blocks(file)
  {
    && s.phase == Running && s.client.cap == cap && s.client.out == file[..i * BLOCK] && s.client.block == i % WRAP
    && (s.client.haveTid ==> s.client.port == 1) && !s.client.done && !s.client.error
    && 1 in s.sent && s.sent[1] == i + 1
    && ToClient(1, DataPacket(file, i + 1)) in s.net && ToClient(1, DataPacket(file, 1)) in s.net
  }

  function Delivered(s: State, port: nat, b: Octets): State {
    var (c, ack) := Rx(s.client, port, b);
    s.(client := c, net := Acked(s, port, ack))
  }

  lemma DeliverStep(file: Octets, s: State, port: nat, b: Octets)
    requires ToClient(port, b) in s.net && s.phase == Running
    ensures CanStep(file, s, Delivered(s, port, b))
  {
    assert Step(file, s, Deliver(ToClient(port, b)), Delivered(s, port, b));
  }

  /** Handing the expected block over. */
  lemma Accept(file: Octets, s: State, k: nat)
    requires 1 <= k <= Blocks(file) && s.phase == Running && ToClient(1, DataPacket(file, k)) in s.net
    requires k % WRAP == (s.client.block + 1) % WRAP && (s.client.haveTid ==> s.client.port == 1) && !s.client.error
    requires |s.client.out| + |BlockAt(file, k)| <= s.client.cap
    ensures var s' := Delivered(s, 1, DataPacket(file, k));
            && CanStep(file, s, s') && s'.phase == Running && s'.sent == s.sent && s'.net == s.net + {Ack(1, k % WRAP)}
            && s'.client.out == s.client.out + BlockAt(file, k) && s'.client.block == k % WRAP && s'.client.port == 1
            && s'.client.cap == s.client.cap && !s'.client.error
            && s'.client.done == (s.client.done || |BlockAt(file, k)| < BLOCK)
  {
    PacketParts(file, k);
    DeliverStep(file, s, 1, DataPacket(file, k));
    hide DataPacket, Opcode, Number, Step, CanStep;
    assert BlockAt(file, k)[..|BlockAt(file, k)|] == BlockAt(file, k);
    hide BlockAt;
  }

  lemma NextBlock(file: Octets, s: State, cap: nat, i: nat) returns (t: State, u: State)
    requires i + 1 < Blocks(file) && i < 65535 && Received(file, s, cap, i) && (i + 1) * BLOCK <= cap
    ensures CanStep(file, s, t) && CanStep(file, t, u) && Received(file, u, cap, i + 1)
  {
    assert BlockAt(file, i + 1) == file[i * BLOCK..(i + 1) * BLOCK];
    assert file[..(i + 1) * BLOCK] == file[..i * BLOCK] + file[i * BLOCK..(i + 1) * BLOCK];
    hide BlockAt, DataPacket;
    Accept(file, s, i + 1);
    t := Delivered(s, 1, DataPacket(file, i + 1));
    hide Delivered;
    u := t.(sent := t.sent[1 := i + 2], net := t.net + {ToClient(1, DataPacket(file, i + 2))});
    assert Step(file, t, Answer(1), u);
  }

  /** Running i blocks without a loss. */
  lemma {:induction false} Blockwise(file: Octets, cap: nat, i: nat) returns (run: seq<State>)
    requires i < Blocks(file) && i <= 65535 && i * BLOCK <= cap
    ensures IsRun(file, cap, run) && Received(file, run[|run| - 1], cap, i)
  {
    if i == 0 {
      var s := Init(cap);
      var t := s.(sent := map[1 := 1], net := s.net + {ToClient(1, DataPacket(file, 1))});
      assert Step(file, s, Open(1), t);
      run := [s, t];
    } else {
      var r := Blockwise(file, cap, i - 1);
      var t, u := NextBlock(file, r[|r| - 1], cap, i - 1);
      hide Received, CanStep;
      Append(file, cap, r, t);
      Append(file, cap, r + [t], u);
      run := r + [t] + [u];
    }
  }

  lemma Append(file: Octets, cap: nat, run: seq<State>, s: State)
    requires IsRun(file, cap, run) && CanStep(file, run[|run| - 1], s)
    ensures IsRun(file, cap, run + [s])
  {
    hide CanStep;
    var r := run + [s];
    forall k | 0 <= k < |r| - 1 ensures CanStep(file, r[k], r[k + 1]) {
      assert k < |run| - 1 ==> r[k] == run[k] && r[k + 1] == run[k + 1];
    }
  }

  /** A file that fits the buffer can be fetched. */
  lemma Fetched(file: Octets, cap: nat) returns (run: seq<State>)
    requires Small(file) && |file| <= cap
    ensures IsRun(file, cap, run)
    ensures var s := run[|run| - 1]; s.phase == Returned(0) && s.client.out == file
  {
    var n := Blocks(file);
    var r := Blockwise(file, cap, n - 1);
    var s := r[|r| - 1];
    assert BlockAt(file, n) == file[(n - 1) * BLOCK..];
    assert file == file[..(n - 1) * BLOCK] + file[(n - 1) * BLOCK..];
    hide BlockAt, DataPacket, CanStep, IsRun;
    Accept(file, s, n);
    var t := Delivered(s, 1, DataPacket(file, n));
    Append(file, cap, r, t);
    var u := t.(phase := Returned(0));
    assert CanStep(file, t, u) by { FinishStep(file, t); }
    hide Delivered;
    Append(file, cap, r + [t], u);
    run := r + [t] + [u];
  }

  lemma FinishStep(file: Octets, s: State)
    requires s.phase == Running && s.client.done && !s.client.error
    ensures CanStep(file, s, s.(phase := Returned(0)))
  {
    assert Step(file, s, Finish, s.(phase := Returned(0)));
  }

  /** If nothing is ever delivered, the request goes out five more times, and the next time the call fails. */
  lemma GivesUp(file: Octets, cap: nat) returns (run: seq<State>)
    ensures |run| == 7 && IsRun(file, cap, run) && run[6].phase == Returned(-1)
    ensures forall k :: 0 <= k < 6 ==> run[k].phase == Running && run[k].net == {Request}
  {
    var s := Init(cap);
    var t: State -> State := (x: State) => x.(retries := x.retries + 1);
    run := [s, t(s), t(t(s)), t(t(t(s))), t(t(t(t(s)))), t(t(t(t(t(s)))))];
    assert s.net + {Request} == s.net;
    forall k | 0 <= k < 5 ensures CanStep(file, run[k], run[k + 1]) {
      assert run[k].net + {Request} == {Request};
      assert Step(file, run[k], Timer, run[k + 1]);
    }
    var u := Timed(run[5]);
    assert Step(file, run[5], Timer, u);
    Append(file, cap, run, u);
    run := run + [u];
  }

  ghost predicate CanSucceed(file: Octets, cap: nat) {
    exists run: seq<State>, k: nat {:trigger IsRun(file, cap, run), run[k]} ::
      IsRun(file, cap, run) && k < |run| && run[k].phase == Returned(0)
  }

  /** Some run returns 0 if and only if the file fits the buffer. */
  lemma SucceedsExactly(file: Octets, cap: nat)
    requires Small(file)
    ensures CanSucceed(file, cap) <==> |file| <= cap
  {
    hide IsRun;
    if |file| <= cap {
      var run := Fetched(file, cap);
      RunLength(file, cap, run);
      var k: nat := |run| - 1;
      assert run[k].phase == Returned(0);
    } else if CanSucceed(file, cap) {
      var run: seq<State>, k: nat :| IsRun(file, cap, run) && k < |run| && run[k].phase == Returned(0);
      RunOk(file, cap, run, k);
      RunCap(file, cap, run, k);
    }
  }

  lemma {:induction false} RunCap(file: Octets, cap: nat, run: seq<State>, k: nat)
    requires IsRun(file, cap, run) && k < |run|
    ensures run[k].client.cap == cap
  {
    if k > 0 {
      RunCap(file, cap, run, k - 1);
      assert CanStep(file, run[k - 1], run[k - 1 + 1]);
      var e: Event :| Step(file, run[k - 1], e, run[k]);
    }
  }

  // ----- and no further -----

  function Telltale(n: nat): Octets
    requires n > 0
  {
    [1] + seq(n - 1, _ => 0)
  }

  /** With 65536 blocks or more, a late copy of block 1 is taken for block 65537. */
  lemma StaleBlock(n: nat) returns (run: seq<State>)
    requires n >= 65535 * BLOCK
    ensures |Telltale(n)| == n && IsRun(Telltale(n), CAP, run) && !Safe(Telltale(n), run[|run| - 1])
  {
    hide Telltale, BlockAt, DataPacket, CanStep, IsRun;
    TelltaleFacts(n);
    var file, m := Telltale(n), Least(65536 * BLOCK, n);
    var r := Blockwise(file, CAP, 65535);
    RunLength(file, CAP, r);
    var s := r[|r| - 1];
    Accept(file, s, 65536);
    var t := Delivered(s, 1, DataPacket(file, 65536));
    hide Delivered;
    Append(file, CAP, r, t);
    Accept(file, t, 1);
    var u := Delivered(t, 1, DataPacket(file, 1));
    hide Received;
    Append(file, CAP, r + [t], u);
    run := r + [t] + [u];
    NotPrefix(file, m, u.client.out);
  }

  lemma TelltaleFacts(n: nat)
    requires n >= 65535 * BLOCK
    ensures var file, m := Telltale(n), Least(65536 * BLOCK, n);
            && |file| == n && file[0] == 1 && (forall k :: 1 <= k < n ==> file[k] == 0) && Blocks(file) >= 65536
            && BlockAt(file, 1) == file[..BLOCK] && BlockAt(file, 65536) == file[65535 * BLOCK..m]
            && file[..65535 * BLOCK] + BlockAt(file, 65536) == file[..m]
  {
    var file, m := Telltale(n), Least(65536 * BLOCK, n);
    assert file[..m] == file[..65535 * BLOCK] + file[65535 * BLOCK..m];
  }

  lemma NotPrefix(file: Octets, m: nat, out: Octets)
    requires BLOCK <= m <= |file| && out == file[..m] + file[..BLOCK] && file[0] == 1
             && forall k :: 1 <= k < |file| ==> file[k] == 0
    ensures !(out <= file)
  {
    assert out[m] == 1;
  }

  ghost predicate SafeSize(n: nat) {
    forall file: Octets, cap: nat, run: seq<State>, k: nat {:trigger IsRun(file, cap, run), run[k]} ::
      |file| == n && IsRun(file, cap, run) && k < |run| ==> Safe(file, run[k])
  }

  /** Transfers of n bytes are safe in every run exactly if they have fewer than 65536 blocks. */
  lemma SafeExactly(n: nat)
    ensures SafeSize(n) <==> n / 512 + 1 < 65536
  {
    hide IsRun, Safe;
    if n / BLOCK + 1 < WRAP {
      forall file: Octets, cap: nat, run: seq<State>, k: nat | |file| == n && IsRun(file, cap, run) && k < |run|
        ensures Safe(file, run[k])
      {
        AlwaysSafe(file, cap, run, k);
      }
    } else {
      var run := StaleBlock(n);
      assert |run| > 0 by { RunLength(Telltale(n), CAP, run); }
      var k: nat := |run| - 1;
      assert !Safe(Telltale(n), run[k]);
    }
  }

  lemma RunLength(file: Octets, cap: nat, run: seq<State>)
    requires IsRun(file, cap, run)
    ensures |run| > 0
  {}
}
