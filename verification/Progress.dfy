/**
  Runs that exist.  The theorems about streams and datagrams say what holds if a run gets
  somewhere; these say where runs can get: every send at rest can deliver all of its data,
  every truthful list of acks can occur, every datagram can be sent, and a refused begin
  can go unnoticed.
*/
module Progress {
  import opened Acks
  import opened ChipModel
  import opened Machine
  import opened Proto
  import opened Replies
  import opened Requests
  import opened Session
  import opened Udp

  // ---- one exchange ----

  /** The two windows of an exchange that goes well, with `items` in the reply. */
  function TurnsOf(pc: Pc, items: seq<seq<byte>>, ch: Choice): seq<Turn>
    requires Asks(pc)
  {
    var ask := AskOf(pc);
    [Window(Send(ask.cmd, ask.params, Wire(ask.cmd, ask.params), Ok(())), ch),
     Window(Recv(ask.cmd, ask.how, Reply8(ask.cmd, items), Ok(items)), ch)]
  }

  function RequestOfPc(pc: Pc): Request
    requires Asks(pc)
  {
    Request(AskOf(pc).cmd, AskOf(pc).params)
  }

  lemma SendArrives(s: State, pc: Pc, ch: Choice)
    requires s.ctl == Ready(pc) && Asks(pc) && Sized(AskOf(pc).params)
    requires Uniform(AskOf(pc).cmd, AskOf(pc).params) && AsRequest(AskOf(pc).cmd) == AskOf(pc).cmd
    ensures var x, req := TurnsOf(pc, [], ch)[0].x, RequestOfPc(pc);
            Step(s, x, ch) == Some(State(Await(pc), React(s.chip, req, ch), s.took + Moved(s.chip, req, ch)))
  {
    hide Wire, Frame, ChipDecode, React, Moved, Reply8, Sized, Uniform, AskOf;
    var x := TurnsOf(pc, [], ch)[0].x;
    RequestArrives(x.cmd, x.params, x.mosi);
  }

  /** A reply with 8-bit lengths, straight off the bus. */
  lemma ReplyReturns(s: State, pc: Pc, items: seq<seq<byte>>, ch: Choice)
    requires s.ctl == Await(pc) && Asks(pc) && !AskOf(pc).how.One16? && Deliverable(AskOf(pc).how, items)
    requires s.chip.reply.Some? && s.chip.reply.value == Answer(RequestOfPc(pc), items)
    ensures Step(s, TurnsOf(pc, items, ch)[1].x, ch) ==
            Some(State(Ready(Resume(pc, Ok(items))), s.chip.(reply := None), s.took))
  {
    var cmd, how := AskOf(pc).cmd, AskOf(pc).how;
    AskMatches(pc);
    hide Tail8, Decode, Resume, Deliverable, Wire, AskOf;
    var stream := Reply8(cmd, items);
    assert [] + stream == stream;
    assert Carries(stream, [], Message(cmd, how, items));
    MessageDecodes(cmd, how, items, [], stream);
    assert Offers(stream, Some(stream));
  }

  /** What such an exchange does to the machine, the chip and the count of moved bytes. */
  lemma OneExchange(strict: bool, s: State, pc: Pc, items: seq<seq<byte>>, ch: Choice)
    requires s.ctl == Ready(pc) && Asks(pc) && Sized(AskOf(pc).params) && Lawful(strict, ch)
    requires !AskOf(pc).how.One16? && Deliverable(AskOf(pc).how, items)
    requires var reply := React(s.chip, RequestOfPc(pc), ch).reply;
             reply.Some? && reply.value == Answer(RequestOfPc(pc), items)
    ensures Exec(strict, s, TurnsOf(pc, items, ch)) ==
            Some(State(Ready(Resume(pc, Ok(items))),
                       React(s.chip, RequestOfPc(pc), ch).(reply := None),
                       s.took + Moved(s.chip, RequestOfPc(pc), ch)))
  {
    AskUniform(pc);
    hide Wire, Reply8, React, Moved, Sized, Uniform, AskOf, Step, Deliverable, Resume, Lawful;
    SendArrives(s, pc, ch);
    var turns := TurnsOf(pc, items, ch);
    var m := Step(s, turns[0].x, ch).value;
    ReplyReturns(m, pc, items, ch);
    ExecTwo(strict, s, turns[0], turns[1]);
  }

  lemma ExecTwo(strict: bool, s: State, a: Turn, b: Turn)
    requires TurnStep(strict, s, a).Some?
    ensures Exec(strict, s, [a, b]) == TurnStep(strict, TurnStep(strict, s, a).value, b)
  {
    assert [a, b][..1] == [a] && [a][..0] == [];
    assert Exec(strict, s, [a]) == TurnStep(strict, s, a);
  }

  lemma {:induction false} ExecConcat(strict: bool, s: State, a: seq<Turn>, b: seq<Turn>)
    requires Exec(strict, s, a).Some?
    ensures Exec(strict, s, a + b) == Exec(strict, Exec(strict, s, a).value, b)
  {
    if b == [] {
      assert a + b == a;
    } else {
      hide TurnStep;
      var n := |b| - 1;
      assert (a + b)[..|a + b| - 1] == a + b[..n] && (a + b)[|a + b| - 1] == b[n];
      ExecConcat(strict, s, a, b[..n]);
    }
  }

  // ---- sends ----

  /** A chip that takes `w` bytes of a chunk (in strict runs, all or nothing), and its way of writing the ack. */
  function Taking(strict: bool, w: nat, narrow: bool): Choice {
    Choice(if strict && w > 0 then 0xFFFF else w, 0, narrow, true, [[1]])
  }

  lemma ChunkExchange(strict: bool, s: State, pc: Pc, w: nat, narrow: bool)
    requires s.ctl == Ready(pc) && pc.Chunk?
    requires var chunk := ChunkAt(pc.data, |pc.acks|); w <= |chunk| && (strict && w > 0 ==> w == |chunk|)
    ensures var turns := TurnsOf(pc, [AckItem(w, narrow)], Taking(strict, w, narrow));
            && Exec(strict, s, turns).Some?
            && Exec(strict, s, turns).value.ctl == Ready(Resume(pc, Ok([AckItem(w, narrow)])))
            && Exec(strict, s, turns).value.took == s.took + ChunkAt(pc.data, |pc.acks|)[..w]
    ensures AckValue(AckItem(w, narrow)) == Some(w)
  {
    var ch := Taking(strict, w, narrow);
    SmallRequests(pc);
    SendReact(s.chip, pc.sock, ChunkAt(pc.data, |pc.acks|), ch);
    AckFits(w, narrow);
    hide ChunkAt, Exec, React, Moved, AckValue, Wire, Reply8, TurnsOf, Resume, AckItem;
    OneExchange(strict, s, pc, [AckItem(w, narrow)], ch);
  }

  lemma AckFits(w: nat, narrow: bool)
    requires w <= 0xFFFF
    ensures Deliverable(One8(4), [AckItem(w, narrow)])
  {
  }

  lemma DrainReact(c: Chip, sock: byte, ch: Choice)
    ensures var req := Request(CMD_DATA_SENT_TCP, Shorts([[sock]]));
            && React(c, req, ch).reply.Some? && React(c, req, ch).reply.value == Answer(req, ch.items)
            && Moved(c, req, ch) == []
  {
  }

  /** The chip says whether a chunk is out. */
  lemma DrainExchange(strict: bool, s: State, pc: Pc, b: byte)
    requires s.ctl == Ready(pc) && pc.Drain?
    ensures var turns := TurnsOf(pc, [[b]], Choice(0, 0, true, true, [[b]]));
            && Exec(strict, s, turns).Some?
            && Exec(strict, s, turns).value.ctl == Ready(Resume(pc, Ok([[b]])))
            && Exec(strict, s, turns).value.took == s.took
  {
    var ch := Choice(0, 0, true, true, [[b]]);
    DrainReact(s.chip, pc.sock, ch);
    assert s.took + [] == s.took;
    hide Exec, React, Moved, Wire, Reply8, TurnsOf, Resume;
    OneExchange(strict, s, pc, [[b]], ch);
  }

  /** A truthful ack for every chunk, all of them full in strict runs. */
  predicate FullList(strict: bool, data: seq<byte>, acks: seq<nat>) {
    AcksSo(strict, data, acks) && |acks| == ChunkCount(|data|)
  }

  /** How a chunk gets across: how often it is refused first, how its ack is written, and how long its drain takes. */
  datatype Manner = Manner(refusals: nat, narrow: bool, waits: nat)

  predicate Patient(ms: seq<Manner>) {
    forall i :: 0 <= i < |ms| ==> ms[i].refusals <= 4 && ms[i].waits <= 19
  }

  /** A send between two exchanges that has had the first of `acks`, with `r` refusals or `w` waits still to come here. */
  predicate OnTheWay(s: State, sock: byte, data: seq<byte>, acks: seq<nat>, r: nat, w: nat) {
    && s.ctl.Ready?
    && match s.ctl.pc
       case Chunk(k, d, had, tries) =>
         && k == sock && d == data && |had| < |acks| && had <= acks && s.took == Kept(data, had) && tries + r <= 4
       case Drain(k, d, had, polls) =>
         k == sock && d == data && had != [] && had <= acks && s.took == Kept(data, had) && polls + w <= 19
       case Done(res) => res == Ok(Count(Total(acks))) && s.took == Kept(data, acks)
       case _ => false
  }

  /** Exchanges left, counting two for each ack. */
  function Remaining(s: State, acks: seq<nat>): nat {
    match s.ctl.pc
    case Chunk(_, _, had, _) => if |had| <= |acks| then 2 * (|acks| - |had|) else 0
    case Drain(_, _, had, _) => if |had| <= |acks| then 2 * (|acks| - |had|) + 1 else 0
    case _ => 0
  }

  lemma NextOnTheWay(s: State, sock: byte, data: seq<byte>, acks: seq<nat>, had: seq<nat>, r: nat)
    requires s.ctl == Ready(NextChunk(sock, data, had)) && |acks| == ChunkCount(|data|)
    requires had <= acks && s.took == Kept(data, had) && r <= 4
    ensures OnTheWay(s, sock, data, acks, r, 0)
  {
    hide Kept, Total;
    if 64 * |had| >= |data| {
      assert had == acks;
    }
  }

  lemma OneMoreAck(data: seq<byte>, had: seq<nat>, acks: seq<nat>)
    requires AcksFit(data, acks) && had <= acks && |had| < |acks|
    ensures var w := acks[|had|];
            && had + [w] <= acks && 1 <= w <= |ChunkAt(data, |had|)|
            && Kept(data, had + [w]) == Kept(data, had) + ChunkAt(data, |had|)[..w]
    ensures ChunkAt(data, |had|)[..0] == [] && Kept(data, had) + [] == Kept(data, had)
  {
    hide ChunkAt, Kept;
    KeptSnoc(data, had, acks[|had|]);
  }

  /** One exchange of a patient send: a refusal, an ack, a wait, or the end of a drain. */
  lemma OneMore(strict: bool, s: State, sock: byte, data: seq<byte>, acks: seq<nat>, ms: seq<Manner>, r: nat, w: nat)
    returns (turns: seq<Turn>, r': nat, w': nat)
    requires FullList(strict, data, acks) && |ms| == |acks| && Patient(ms)
    requires OnTheWay(s, sock, data, acks, r, w) && !s.ctl.pc.Done?
    ensures Exec(strict, s, turns).Some? && OnTheWay(Exec(strict, s, turns).value, sock, data, acks, r', w')
    ensures var s' := Exec(strict, s, turns).value;
            || Remaining(s', acks) < Remaining(s, acks)
            || (Remaining(s', acks) == Remaining(s, acks) && r' + w' < r + w)
  {
    hide Exec, TurnsOf, Kept, Total, ChunkAt, Taking, AckItem, AckValue;
    var pc := s.ctl.pc;
    if pc.Chunk? {
      var ack := if r > 0 then 0 else acks[|pc.acks|];
      var narrow := ms[|pc.acks|].narrow;
      OneMoreAck(data, pc.acks, acks);
      ChunkExchange(strict, s, pc, ack, narrow);
      ResumeChunk(pc, [AckItem(ack, narrow)]);
      turns := TurnsOf(pc, [AckItem(ack, narrow)], Taking(strict, ack, narrow));
      r', w' := if r > 0 then r - 1 else 0, if r > 0 then w else ms[|pc.acks|].waits;
    } else if w > 0 {
      DrainExchange(strict, s, pc, 0);
      turns := TurnsOf(pc, [[0]], Choice(0, 0, true, true, [[0]]));
      r', w' := r, w - 1;
    } else {
      DrainExchange(strict, s, pc, 1);
      turns := TurnsOf(pc, [[1]], Choice(0, 0, true, true, [[1]]));
      r', w' := if |pc.acks| < |ms| then ms[|pc.acks|].refusals else 0, 0;
      NextOnTheWay(Exec(strict, s, turns).value, sock, data, acks, pc.acks, r');
      NextIsNotDrain(pc);
    }
  }

  lemma NextIsNotDrain(pc: Pc)
    requires pc.Drain?
    ensures var next := NextChunk(pc.sock, pc.data, pc.acks); next.Done? || (next.Chunk? && next.acks == pc.acks)
  {
  }

  lemma ExecNothing(strict: bool, s: State)
    ensures Exec(strict, s, []) == Some(s)
  {
  }

  /** From anywhere on the way, the rest of the acks can follow, each in its manner. */
  lemma {:induction false} RunsToTheEnd(strict: bool, s: State, sock: byte, data: seq<byte>, acks: seq<nat>, ms: seq<Manner>,
                                        r: nat, w: nat)
    returns (turns: seq<Turn>)
    requires FullList(strict, data, acks) && |ms| == |acks| && Patient(ms) && OnTheWay(s, sock, data, acks, r, w)
    ensures Exec(strict, s, turns).Some?
    ensures var s' := Exec(strict, s, turns).value;
            s'.ctl == Ready(Done(Ok(Count(Total(acks))))) && s'.took == Kept(data, acks)
    decreases Remaining(s, acks), r + w
  {
    hide Exec, Kept, Total, Remaining;
    if s.ctl.pc.Done? {
      turns := [];
      ExecNothing(strict, s);
    } else {
      var front, r', w' := OneMore(strict, s, sock, data, acks, ms, r, w);
      var rest := RunsToTheEnd(strict, Exec(strict, s, front).value, sock, data, acks, ms, r', w');
      ExecConcat(strict, s, front, rest);
      turns := front + rest;
    }
  }

  function FullAcks(data: seq<byte>): seq<nat> {
    seq(ChunkCount(|data|), i requires 0 <= i < ChunkCount(|data|) => |ChunkAt(data, i)|)
  }

  lemma FullAcksFit(data: seq<byte>)
    ensures AcksFit(data, FullAcks(data)) && AllFull(data, FullAcks(data)) && |FullAcks(data)| == ChunkCount(|data|)
    ensures Kept(data, FullAcks(data)) == data && Total(FullAcks(data)) == Min(|data|, 0xFFFF)
  {
    FullAcksKeepPrefix(data, FullAcks(data));
    TotalIsCappedSum(FullAcks(data));
    assert data[..|data|] == data;
  }

  /** Whatever a strict send has been through, unless it has failed it has had full acks only. */
  lemma RestingOnTheWay(s: State, sock: byte, data: seq<byte>)
    requires Inv(true, Write(sock, data), s) && s.ctl.Ready? && (s.ctl.pc.Done? ==> s.ctl.pc.res.Ok?)
    ensures OnTheWay(s, sock, data, FullAcks(data), 0, 0)
  {
    FullAcksFit(data);
    hide Kept, Total, ChunkAt, Sent;
    if s.ctl.pc.Done? {
      StrictlySent(data, s.took, s.ctl.pc.res);
    } else {
      var had := s.ctl.pc.acks;
      assert forall i :: 0 <= i < |had| ==> had[i] == FullAcks(data)[i];
    }
  }

  /**
    A send that rests between two exchanges and has not failed can still succeed, with
    all of its data accepted: no number of retries, polls, arrivals and refused chunks
    so far leads into a dead end.
  */
  lemma SendCanFinish(s: State, sock: byte, data: seq<byte>) returns (turns: seq<Turn>)
    requires Inv(true, Write(sock, data), s) && s.ctl.Ready? && (s.ctl.pc.Done? ==> s.ctl.pc.res.Ok?)
    ensures Exec(true, s, turns).Some?
    ensures var s' := Exec(true, s, turns).value;
            && s'.ctl == Ready(Done(Ok(Count(Min(|data|, 0xFFFF)))))
            && s'.took == data && s.took <= data
            && Get(s'.chip.tx, sock) == Get(s.chip.tx, sock) + data[|s.took|..]
  {
    RestingOnTheWay(s, sock, data);
    FullAcksFit(data);
    hide Exec, Inv, OnTheWay, Kept, Total;
    var ms := seq(|FullAcks(data)|, _ => Manner(0, true, 0));
    turns := RunsToTheEnd(true, s, sock, data, FullAcks(data), ms, 0, 0);
    ExecKeeps(true, Write(sock, data), s, turns, sock);
  }

  /**
    Every list of truthful acks, short ones included, is what the chip says in some run,
    with up to four refusals in front of each, written in one byte or two, and with up to
    nineteen "not yet" behind each; the send reports their capped sum and the slot has
    gained what they kept.
  */
  lemma EveryAckHappens(sock: byte, data: seq<byte>, acks: seq<nat>, ms: seq<Manner>, chip: Chip)
    returns (turns: seq<Turn>)
    requires AcksFit(data, acks) && |acks| == |ms| == ChunkCount(|data|) && Patient(ms)
    ensures Exec(false, State(Ready(Start(Write(sock, data))), chip, []), turns).Some?
    ensures var s' := Exec(false, State(Ready(Start(Write(sock, data))), chip, []), turns).value;
            && s'.ctl == Ready(Done(Ok(Count(Min(Sum(acks), 0xFFFF)))))
            && Get(s'.chip.tx, sock) == Get(chip.tx, sock) + Kept(data, acks)
  {
    var op := Write(sock, data);
    var s := State(Ready(Start(op)), chip, []);
    var r := if ms == [] then 0 else ms[0].refusals;
    assert Kept(data, []) == [];
    NextOnTheWay(s, sock, data, acks, [], r);
    StartInv(false, op, chip);
    TotalIsCappedSum(acks);
    hide Exec, Inv, OnTheWay, Kept, Total, Sum;
    turns := RunsToTheEnd(false, s, sock, data, acks, ms, r, 0);
    ExecKeeps(false, op, s, turns, sock);
    assert Exec(false, s, turns).value.took[0..] == Kept(data, acks);
  }

  /**
    A successful send of 65 bytes of which the chip took 63 and then 1: the caller hears
    64, and the 64th byte has been skipped, not the last one.
  */
  lemma ShortChunkRun(sock: byte, data: seq<byte>, chip: Chip) returns (turns: seq<Turn>)
    requires |data| == 65
    ensures Exec(false, State(Ready(Start(Write(sock, data))), chip, []), turns).Some?
    ensures var s' := Exec(false, State(Ready(Start(Write(sock, data))), chip, []), turns).value;
            && s'.ctl == Ready(Done(Ok(Count(64))))
            && Get(s'.chip.tx, sock) == Get(chip.tx, sock) + (data[..63] + data[64..])
  {
    ShortChunkCounterexample(data);
    hide Exec, Kept, Sum, ChunkAt;
    turns := EveryAckHappens(sock, data, [63, 1], [Manner(0, true, 0), Manner(0, true, 0)], chip);
  }

  // ---- datagrams ----

  lemma WillingReact(c: Chip, op: Op, ch: Choice)
    requires UdpOp(op) && ch.accept
    ensures Asks(Start(op))
    ensures var req := RequestOfPc(Start(op));
            var c' := React(c, req, ch);
            c'.reply.Some? && c'.reply.value == Answer(req, [[1]]) && ViewOf(c') == Applied(op, ViewOf(c))
  {
    if op.Begin? {
      assert FromBe16(LowByte(op.port / 0x100), LowByte(op.port)) == op.port;
    }
  }

  lemma RefusingReact(c: Chip, op: Op, ch: Choice)
    requires UdpOp(op) && op.Begin? && !ch.accept
    ensures Asks(Start(op))
    ensures var req := RequestOfPc(Start(op));
            var c' := React(c, req, ch);
            c'.reply.Some? && c'.reply.value == Answer(req, []) && ViewOf(c') == ViewOf(c)
  {
  }

  lemma UdpReplyFits(op: Op)
    requires UdpOp(op)
    ensures Asks(Start(op)) && !AskOf(Start(op)).how.One16? && Deliverable(AskOf(Start(op)).how, [[1]])
    ensures op.Begin? ==> Deliverable(AskOf(Start(op)).how, [])
  {
    assert [[1 as byte]][1..] == [];
  }

  lemma LastOfTurns(pc: Pc, items: seq<seq<byte>>, ch: Choice)
    requires Asks(pc)
    ensures var last := Last(LogOf(TurnsOf(pc, items, ch))); last.Recv? && last.got == Ok(items)
  {
  }

  /** Any begin, write of at most 247 bytes, or commit can complete and take effect. */
  lemma UdpCanFinish(op: Op, c: Chip) returns (turns: seq<Turn>, c': Chip)
    requires UdpOp(op)
    ensures ReturnsOk(op, c, turns, c') && Completes(op, c, c') && ViewOf(c') == Applied(op, ViewOf(c))
  {
    var pc, ch := Start(op), Choice(0, 0, true, true, [[1]]);
    RequestOf(op);
    UdpStart(op);
    ResumeUdp(pc);
    UdpReplyFits(op);
    WillingReact(c, op, ch);
    hide React, Sized, Uniform, Exec, Applied, AskOf, Resume, TurnsOf, Deliverable, Start, Moved;
    OneExchange(false, State(Ready(pc), c, []), pc, [[1]], ch);
    turns := TurnsOf(pc, [[1]], ch);
    c' := React(c, RequestOfPc(pc), ch).(reply := None);
    assert ReturnsOk(op, c, turns, c');
  }

  lemma {:induction false} WritesCanFinish(k: byte, slices: seq<seq<byte>>, c: Chip) returns (chips: seq<Chip>)
    requires forall i :: 0 <= i < |slices| ==> |slices[i]| <= 247
    ensures WritesComplete(k, slices, chips) && chips[0] == c
  {
    hide Completes, ReturnsOk;
    if slices == [] {
      chips := [c];
    } else {
      var n := |slices| - 1;
      var before := WritesCanFinish(k, slices[..n], c);
      var turns, last := UdpCanFinish(Insert(k, slices[n]), before[n]);
      chips := before + [last];
    }
  }

  /** Every datagram of slices that fit can be sent from any chip, whatever was assembled before. */
  lemma DatagramCanBeSent(k: byte, ip: seq<byte>, port: nat, slices: seq<seq<byte>>, c0: Chip)
    returns (begun: seq<Turn>, chips: seq<Chip>, c3: Chip)
    requires |ip| == 4 && port <= 0xFFFF && forall i :: 0 <= i < |slices| ==> |slices[i]| <= 247
    ensures WritesComplete(k, slices, chips)
    ensures ReturnsOk(Begin(k, ip, port), c0, begun, chips[0]) && Completes(Commit(k), chips[|slices|], c3)
    ensures c3.wire == c0.wire + [Datagram(ip, port, Flatten(slices))]
  {
    var c1, turns;
    begun, c1 := UdpCanFinish(Begin(k, ip, port), c0);
    chips := WritesCanFinish(k, slices, c1);
    turns, c3 := UdpCanFinish(Commit(k), chips[|slices|]);
    hide Completes, ReturnsOk, Flatten;
    WritesAppend(k, slices, chips);
    assert [] + Flatten(slices) == Flatten(slices);
  }

  /** The begin that is refused and still returns Ok. */
  lemma RefusedBegin(c: Chip, k: byte, ip: seq<byte>, port: nat) returns (turns: seq<Turn>, c': Chip)
    requires |ip| == 4 && port <= 0xFFFF
    ensures ReturnsOk(Begin(k, ip, port), c, turns, c')
    ensures ViewOf(c') == ViewOf(c) && !Acked(Last(LogOf(turns)))
  {
    var op, ch := Begin(k, ip, port), Choice(0, 0, false, false, []);
    var pc := Start(op);
    RequestOf(op);
    UdpReplyFits(op);
    RefusingReact(c, op, ch);
    LastOfTurns(pc, [], ch);
    ResumeUdp(pc);
    hide React, Sized, Uniform, Exec, AskOf, Resume, TurnsOf, Deliverable, Start, Moved, LogOf;
    OneExchange(false, State(Ready(pc), c, []), pc, [], ch);
    turns := TurnsOf(pc, [], ch);
    c' := React(c, RequestOfPc(pc), ch).(reply := None);
  }

  /** So a one-call send can return Ok and put something else on the wire than it was asked to. */
  lemma MisdirectedDatagram(c0: Chip, k: byte, ip: seq<byte>, port: nat, data: seq<byte>)
    returns (begun: seq<Turn>, c1: Chip, c2: Chip, c3: Chip)
    requires |ip| == 4 && port <= 0xFFFF && |data| <= 247
    requires PacketIn(ViewOf(c0), k) != Datagram(ip, port, [])
    ensures ReturnsOk(Begin(k, ip, port), c0, begun, c1)
    ensures Completes(Insert(k, data), c1, c2) && Completes(Commit(k), c2, c3)
    ensures |c3.wire| == |c0.wire| + 1 && c3.wire[|c0.wire|] != Datagram(ip, port, data)
  {
    var turns;
    begun, c1 := RefusedBegin(c0, k, ip, port);
    turns, c2 := UdpCanFinish(Insert(k, data), c1);
    turns, c3 := UdpCanFinish(Commit(k), c2);
    hide Completes, ReturnsOk, Acked;
    FlattenOne(data);
    DatagramAssembly(k, ip, port, [data], c0, begun, [c1, c2], c3);
  }

  // ---- lookups ----

  /** Poll replies that say "not ready" in each of the ways a lookup knows. */
  datatype Delay = Payload(p: seq<byte>) | Garbled | Refused

  predicate IsDelay(d: Delay) {
    d.Payload? ==> |d.p| < 4 || d.p == [0, 0, 0, 0]
  }

  lemma PlainReact(c: Chip, pc: Pc, ch: Choice)
    requires pc.DnsAsk? || pc.DnsPoll?
    ensures var reply := React(c, RequestOfPc(pc), ch).reply;
            reply.Some? && reply.value == Answer(RequestOfPc(pc), ch.items)
  {
  }

  /** An exchange whose reply comes to `e`, the stream being none the chip would offer. */
  lemma BadExchange(strict: bool, s: State, pc: Pc, e: Error) returns (turns: seq<Turn>)
    requires s.ctl == Ready(pc) && pc.DnsPoll? && (e == Framing || e == Nina)
    ensures Exec(strict, s, turns).Some? && Exec(strict, s, turns).value.ctl == Ready(Resume(pc, Err(e)))
  {
    var ask, ch := AskOf(pc), Choice(0, 0, true, true, [[1]]);
    var x := TurnsOf(pc, [], ch)[0].x;
    var miso: seq<byte> := if e == Nina then [0xEF] else [0xE0, 0, 0, 0];
    var y := Recv(ask.cmd, ask.how, miso, Err(e));
    assert miso[1..] == if e == Nina then [] else [0, 0, 0];
    assert Faithful(y);
    AskUniform(pc);
    SendArrives(s, pc, ch);
    hide Wire, Reply8, React, Moved, Sized, Uniform, Decode;
    var m := Step(s, x, ch).value;
    assert Step(m, y, ch).Some?;
    turns := [Window(x, ch), Window(y, ch)];
    ExecTwo(strict, s, Window(x, ch), Window(y, ch));
  }

  lemma Answered8(strict: bool, s: State, pc: Pc, p: seq<byte>) returns (turns: seq<Turn>)
    requires s.ctl == Ready(pc) && (pc.DnsAsk? || pc.DnsPoll?) && Sized(AskOf(pc).params)
    requires |p| <= if pc.DnsAsk? then 1 else 4
    ensures Exec(strict, s, turns).Some? && Exec(strict, s, turns).value.ctl == Ready(Resume(pc, Ok([p])))
  {
    var ch := Choice(0, 0, true, true, [p]);
    PlainReact(s.chip, pc, ch);
    hide React, Exec, Wire, Resume, Sized, Moved, TurnsOf;
    OneExchange(strict, s, pc, [p], ch);
    turns := TurnsOf(pc, [p], ch);
  }

  /** One delay: the lookup polls again. */
  lemma DelayedOnce(strict: bool, s: State, i: nat, d: Delay) returns (turns: seq<Turn>)
    requires s.ctl == Ready(DnsPoll(i, None)) && i < 39 && IsDelay(d)
    ensures Exec(strict, s, turns).Some? && Exec(strict, s, turns).value.ctl == Ready(DnsPoll(i + 1, None))
  {
    hide Exec;
    var pc := DnsPoll(i, None);
    match d {
      case Payload(p) => turns := Answered8(strict, s, pc, p);
      case Garbled => turns := BadExchange(strict, s, pc, Framing);
      case Refused => turns := BadExchange(strict, s, pc, Nina);
    }
  }

  lemma {:induction false} FoundAfter(strict: bool, s: State, i: nat, ds: seq<Delay>, ip: seq<byte>) returns (turns: seq<Turn>)
    requires s.ctl == Ready(DnsPoll(i, None)) && i + |ds| <= 39
    requires (forall j :: 0 <= j < |ds| ==> IsDelay(ds[j])) && |ip| == 4 && ip != [0, 0, 0, 0]
    ensures Exec(strict, s, turns).Some? && Exec(strict, s, turns).value.ctl == Ready(Done(Ok(Addr(ip))))
    decreases |ds|
  {
    hide Exec;
    if ds == [] {
      turns := Answered8(strict, s, DnsPoll(i, None), ip);
    } else {
      var front := DelayedOnce(strict, s, i, ds[0]);
      var rest := FoundAfter(strict, Exec(strict, s, front).value, i + 1, ds[1..], ip);
      ExecConcat(strict, s, front, rest);
      turns := front + rest;
    }
  }

  /**
    A lookup of any name a request can carry succeeds with any non-zero address, behind up
    to 39 polls that are not ready in whatever way.
  */
  lemma LookupCanSucceed(host: seq<byte>, ds: seq<Delay>, ip: seq<byte>, chip: Chip) returns (turns: seq<Turn>)
    requires |host| <= 0xFF && |ds| <= 39 && |ip| == 4 && ip != [0, 0, 0, 0]
    requires forall j :: 0 <= j < |ds| ==> IsDelay(ds[j])
    ensures Exec(false, State(Ready(Start(Lookup(host))), chip, []), turns).Some?
    ensures Exec(false, State(Ready(Start(Lookup(host))), chip, []), turns).value.ctl == Ready(Done(Ok(Addr(ip))))
  {
    var s := State(Ready(DnsAsk(host, None)), chip, []);
    assert Sized(AskOf(DnsAsk(host, None)).params);
    hide Exec, Sized, AskOf, IsDelay;
    var front := Answered8(false, s, DnsAsk(host, None), [1]);
    var rest := FoundAfter(false, Exec(false, s, front).value, 0, ds, ip);
    ExecConcat(false, s, front, rest);
    turns := front + rest;
  }
}
