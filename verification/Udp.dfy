/** Datagrams: what begin, writes and commit add up to on the chip. */
module Udp {
  import opened Bytes
  import opened ChipModel
  import opened Machine
  import opened Proto
  import opened Requests
  import opened Session

  /** The part of the chip that datagrams live in. */
  datatype View = View(packet: map<byte, Datagram>, wire: seq<Datagram>)

  function ViewOf(c: Chip): View {
    View(c.packet, c.wire)
  }

  function PacketIn(v: View, k: byte): Datagram {
    if k in v.packet then v.packet[k] else Datagram([], 0, [])
  }

  /** The caller's types: a four-byte address, a 16-bit port, and slices one request can carry. */
  predicate UdpOp(op: Op) {
    match op
    case Begin(_, ip, port) => |ip| == 4 && port <= 0xFFFF
    case Insert(_, data) => |data| <= 247
    case Commit(_) => true
    case _ => false
  }

  /** What an accepted operation does, in the caller's terms. */
  function Applied(op: Op, v: View): View
    requires UdpOp(op)
  {
    match op
    case Begin(k, ip, port) => v.(packet := v.packet[k := Datagram(ip, port, [])])
    case Insert(k, data) =>
      v.(packet := v.packet[k := PacketIn(v, k).(body := PacketIn(v, k).body + data)])
    case Commit(k) => v.(wire := v.wire + [PacketIn(v, k)])
  }

  /** Accepted and acknowledged, or refused and without effect. */
  predicate Answered(op: Op, v: View, c: Chip)
    requires UdpOp(op)
  {
    && c.reply.Some?
    && if ViewOf(c) == v && Byte0(c.reply.value.items) != 1 then true
       else ViewOf(c) == Applied(op, v) && c.reply.value.items == [[1]]
  }

  /** The driver decoded a reply of one parameter, the byte 1. */
  predicate Acked(x: Xfer) {
    x.Recv? && x.got == Ok([[1]])
  }

  /** `last` is the transfer that led to `s`: after Ok it tells whether the chip did anything. */
  ghost predicate UdpInv(op: Op, v: View, s: State, last: Xfer)
    requires UdpOp(op)
  {
    match s.ctl
    case Ready(Done(res)) =>
      && (ViewOf(s.chip) == v || ViewOf(s.chip) == Applied(op, v))
      && (res.Ok? ==> ViewOf(s.chip) == if Acked(last) then Applied(op, v) else v)
      && (res.Ok? && !op.Begin? ==> Acked(last))
    case Ready(pc) => pc == Start(op) && ViewOf(s.chip) == v
    case Await(pc) => pc == Start(op) && Answered(op, v, s.chip)
  }

  lemma RequestOf(op: Op)
    requires UdpOp(op)
    ensures Asks(Start(op))
    ensures var ask := AskOf(Start(op));
            Sized(ask.params) && Uniform(ask.cmd, ask.params) && AsRequest(ask.cmd) == ask.cmd
  {
  }

  lemma BeginReact(c: Chip, k: byte, ip: seq<byte>, port: nat, ch: Choice)
    requires |ip| == 4 && port <= 0xFFFF
    ensures var ask := AskOf(BeginAt(k, ip, port));
            var c' := React(c, Request(ask.cmd, ask.params), ch);
            Answered(Begin(k, ip, port), ViewOf(c), c')
  {
    assert FromBe16(LowByte(port / 0x100), LowByte(port)) == port;
  }

  lemma InsertReact(c: Chip, k: byte, data: seq<byte>, ch: Choice)
    requires |data| <= 247
    ensures var c' := React(c, Request(CMD_INSERT_DATABUF, [Long([k]), Long(data)]), ch);
            Answered(Insert(k, data), ViewOf(c), c')
  {
  }

  lemma CommitReact(c: Chip, k: byte, ch: Choice)
    ensures var c' := React(c, Request(CMD_SEND_UDP_DATA, Shorts([[k]])), ch);
            Answered(Commit(k), ViewOf(c), c')
  {
  }

  lemma UdpReact(c: Chip, op: Op, ch: Choice)
    requires UdpOp(op)
    ensures Asks(Start(op))
    ensures Answered(op, ViewOf(c), React(c, Request(AskOf(Start(op)).cmd, AskOf(Start(op)).params), ch))
  {
    hide React, Answered;
    match op {
      case Begin(k, ip, port) => BeginReact(c, k, ip, port, ch);
      case Insert(k, data) => InsertReact(c, k, data, ch);
      case Commit(k) => CommitReact(c, k, ch);
    }
  }

  /** An answer of either kind leaves one of the two admissible views. */
  lemma AnsweredView(op: Op, v: View, c: Chip)
    requires UdpOp(op) && Answered(op, v, c)
    ensures ViewOf(c) == v || ViewOf(c) == Applied(op, v)
  {
  }

  lemma UdpSends(op: Op, v: View, s: State, last: Xfer, x: Xfer, ch: Choice)
    requires UdpOp(op) && UdpInv(op, v, s, last) && x.Send? && Step(s, x, ch).Some?
    ensures UdpInv(op, v, Step(s, x, ch).value, x)
  {
    hide Faithful, Wire, Frame, ChipDecode, AskOf, Step, React, Resume, Sized, Uniform, Applied, Answered, Start;
    SendStep(s, x, ch);
    assert s.ctl.pc == Start(op) && ViewOf(s.chip) == v by { AskingIsStart(op, v, s, last); }
    SentBytes(x);
    RequestOf(op);
    UdpStart(op);
    ResumeUdp(Start(op));
    RequestArrives(x.cmd, x.params, x.mosi);
    if ChipDecode(x.mosi).Some? {
      UdpReact(s.chip, op, ch);
      AnsweredView(op, v, Absorb(s.chip, x.mosi, ch));
    }
  }

  lemma AskingIsStart(op: Op, v: View, s: State, last: Xfer)
    requires UdpOp(op) && UdpInv(op, v, s, last) && s.ctl.Ready? && Asks(s.ctl.pc)
    ensures s.ctl.pc == Start(op) && ViewOf(s.chip) == v
  {
  }

  lemma UdpStart(op: Op)
    requires UdpOp(op)
    ensures var pc := Start(op); pc.BeginAt? || pc.InsertAt? || pc.CommitAt?
  {
  }

  lemma ResumeUdp(pc: Pc)
    requires pc.BeginAt? || pc.InsertAt? || pc.CommitAt?
    ensures forall e :: Resume(pc, Err(e)) == Done(Err(e))
    ensures forall items :: Resume(pc, Ok(items)) == Done(if pc.BeginAt? then Ok(Unit) else Accepted(items))
  {
  }

  lemma UdpReceives(op: Op, v: View, s: State, last: Xfer, x: Xfer, ch: Choice)
    requires UdpOp(op) && UdpInv(op, v, s, last) && x.Recv? && Step(s, x, ch).Some?
    ensures UdpInv(op, v, Step(s, x, ch).value, x)
  {
    RecvStep(s, x, ch);
    ResumeUdp(Start(op));
    hide Faithful, AskOf, Step, Resume, Applied;
  }

  lemma {:induction false} UdpKeeps(op: Op, c: Chip, turns: seq<Turn>)
    requires UdpOp(op) && Exec(false, State(Ready(Start(op)), c, []), turns).Some?
    ensures UdpInv(op, ViewOf(c), Exec(false, State(Ready(Start(op)), c, []), turns).value, Last(LogOf(turns)))
  {
    var s, v := State(Ready(Start(op)), c, []), ViewOf(c);
    if turns == [] {
      UdpStart(op);
    } else {
      var front := turns[..|turns| - 1];
      UdpKeeps(op, c, front);
      var m, last := Exec(false, s, front).value, Last(LogOf(front));
      hide UdpInv, Step, Exec;
      match turns[|turns| - 1] {
        case Window(x, ch) =>
          assert LogOf(turns) == LogOf(front) + [x];
          UdpWindow(op, v, m, last, x, ch);
        case Arrive(k, bytes) =>
          assert LogOf(turns) == LogOf(front);
          UdpArrives(op, v, m, last, k, bytes);
        case Net(k, now) =>
          assert LogOf(turns) == LogOf(front);
          UdpChanges(op, v, m, last, k, now);
      }
    }
  }

  lemma UdpWindow(op: Op, v: View, m: State, last: Xfer, x: Xfer, ch: Choice)
    requires UdpOp(op) && UdpInv(op, v, m, last) && Step(m, x, ch).Some?
    ensures UdpInv(op, v, Step(m, x, ch).value, x)
  {
    if x.Send? {
      UdpSends(op, v, m, last, x, ch);
    } else if x.Recv? {
      UdpReceives(op, v, m, last, x, ch);
    } else {
      UdpStart(op);
    }
  }

  lemma UdpArrives(op: Op, v: View, m: State, last: Xfer, k: byte, bytes: seq<byte>)
    requires UdpOp(op) && UdpInv(op, v, m, last)
    ensures UdpInv(op, v, m.(chip := Deliver(m.chip, k, bytes)), last)
  {
  }

  lemma UdpChanges(op: Op, v: View, m: State, last: Xfer, k: byte, now: Option<byte>)
    requires UdpOp(op) && UdpInv(op, v, m, last)
    ensures UdpInv(op, v, m.(chip := Change(m.chip, k, now)), last)
  {
  }

  // ---- assembly ----

  /** A run of `op` that returns Ok takes the chip from `c` to `c'`. */
  ghost predicate Completes(op: Op, c: Chip, c': Chip) {
    exists turns :: ReturnsOk(op, c, turns, c')
  }

  predicate ReturnsOk(op: Op, c: Chip, turns: seq<Turn>, c': Chip) {
    && Exec(false, State(Ready(Start(op)), c, []), turns).Some?
    && var s' := Exec(false, State(Ready(Start(op)), c, []), turns).value;
       s'.ctl == Ready(Done(Ok(Unit))) && s'.chip == c'
  }

  /** A run that returned Ok took effect exactly if its last reply says so, and only a begin's may not. */
  lemma CompletedEffect(op: Op, c: Chip, turns: seq<Turn>, c': Chip)
    requires UdpOp(op) && ReturnsOk(op, c, turns, c')
    ensures ViewOf(c') == if Acked(Last(LogOf(turns))) then Applied(op, ViewOf(c)) else ViewOf(c)
    ensures !op.Begin? ==> Acked(Last(LogOf(turns)))
  {
    UdpKeeps(op, c, turns);
  }

  lemma CompletedApplies(op: Op, c: Chip, c': Chip)
    requires UdpOp(op) && !op.Begin? && Completes(op, c, c')
    ensures ViewOf(c') == Applied(op, ViewOf(c))
  {
    var turns :| ReturnsOk(op, c, turns, c');
    CompletedEffect(op, c, turns, c');
  }

  /** A sequence of writes to slot `k`, each returning Ok; `chips` are the chip before, between and after them. */
  ghost predicate WritesComplete(k: byte, slices: seq<seq<byte>>, chips: seq<Chip>) {
    && |chips| == |slices| + 1
    && forall i :: 0 <= i < |slices| ==>
         |slices[i]| <= 247 && Completes(Insert(k, slices[i]), chips[i], chips[i + 1])
  }

  function Flatten(slices: seq<seq<byte>>): seq<byte> {
    if slices == [] then [] else Flatten(slices[..|slices| - 1]) + slices[|slices| - 1]
  }

  lemma {:induction false} WritesAppend(k: byte, slices: seq<seq<byte>>, chips: seq<Chip>)
    requires WritesComplete(k, slices, chips)
    ensures var p, p' := PacketIn(ViewOf(chips[0]), k), PacketIn(ViewOf(chips[|slices|]), k);
            p' == p.(body := p.body + Flatten(slices))
    ensures chips[|slices|].wire == chips[0].wire
  {
    var n := |slices|;
    if n == 0 {
      var p := PacketIn(ViewOf(chips[0]), k);
      assert p.body + [] == p.body;
    } else {
      WritesAppend(k, slices[..n - 1], chips[..n]);
      assert Completes(Insert(k, slices[n - 1]), chips[n - 1], chips[n]);
      CompletedApplies(Insert(k, slices[n - 1]), chips[n - 1], chips[n]);
      Regroup(PacketIn(ViewOf(chips[0]), k).body, Flatten(slices[..n - 1]), slices[n - 1]);
    }
  }

  /**
    Begin, writes and commit that all return Ok send one datagram.  Its body is the
    concatenation of the slices and it goes to the address given, if and only if the reply
    to the begin was the byte 1, which the driver does not look at, or the packet left over
    from before the begin happened to be empty and so addressed.
  */
  lemma DatagramAssembly(k: byte, ip: seq<byte>, port: nat, slices: seq<seq<byte>>,
                         c0: Chip, begun: seq<Turn>, chips: seq<Chip>, c3: Chip)
    requires |ip| == 4 && port <= 0xFFFF
    requires WritesComplete(k, slices, chips)
    requires ReturnsOk(Begin(k, ip, port), c0, begun, chips[0])
    requires Completes(Commit(k), chips[|slices|], c3)
    ensures |c3.wire| == |c0.wire| + 1 && c3.wire[..|c0.wire|] == c0.wire
    ensures c3.wire[|c0.wire|] == Datagram(ip, port, Flatten(slices))
            <==> Acked(Last(LogOf(begun))) || PacketIn(ViewOf(c0), k) == Datagram(ip, port, [])
  {
    hide Exec, Completes, ReturnsOk, LogOf;
    CompletedEffect(Begin(k, ip, port), c0, begun, chips[0]);
    WritesAppend(k, slices, chips);
    CompletedApplies(Commit(k), chips[|slices|], c3);
    var p := PacketIn(ViewOf(chips[0]), k);
    assert c3.wire == c0.wire + [p.(body := p.body + Flatten(slices))];
    if p.body + Flatten(slices) == Flatten(slices) {
      assert |p.body| == 0;
    }
    assert [] + Flatten(slices) == Flatten(slices);
  }

  /** A log whose run ends Ok, played on the bus, is a completed operation. */
  lemma PlayedReturns(op: Op, c: Chip, turns: seq<Turn>)
    requires After(Ready(Start(op)), LogOf(turns)) == Some(Ready(Done(Ok(Unit))))
    requires Played(false, c, turns)
    ensures ReturnsOk(op, c, turns, ChipAfter(c, turns))
  {
    hide After, Exec, Played, ChipAfter;
    PlayedLogRuns(false, State(Ready(Start(op)), c, []), turns);
  }

  /**
    The one-call send, from its log to the wire: Ok means that exactly one more datagram
    left the chip, and it is `data` for the given address if and only if the last reply in
    the begin's log was the byte 1, or the leftover packet was empty and so addressed.
  */
  lemma LoggedDatagram(k: byte, ip: seq<byte>, port: nat, data: seq<byte>, c0: Chip,
                       begun: seq<Turn>, written: seq<Turn>, sent: seq<Turn>)
    requires |ip| == 4 && port <= 0xFFFF && |data| <= 247
    requires After(Ready(Start(Begin(k, ip, port))), LogOf(begun)) == Some(Ready(Done(Ok(Unit))))
    requires After(Ready(Start(Insert(k, data))), LogOf(written)) == Some(Ready(Done(Ok(Unit))))
    requires After(Ready(Start(Commit(k))), LogOf(sent)) == Some(Ready(Done(Ok(Unit))))
    requires Played(false, c0, begun)
    requires Played(false, ChipAfter(c0, begun), written)
    requires Played(false, ChipAfter(ChipAfter(c0, begun), written), sent)
    ensures var c3 := ChipAfter(ChipAfter(ChipAfter(c0, begun), written), sent);
            && |c3.wire| == |c0.wire| + 1 && c3.wire[..|c0.wire|] == c0.wire
            && (c3.wire[|c0.wire|] == Datagram(ip, port, data)
                <==> Acked(Last(LogOf(begun))) || PacketIn(ViewOf(c0), k) == Datagram(ip, port, []))
  {
    hide After, Exec, Completes, ReturnsOk, Played, ChipAfter, LogOf, Start, Acked;
    var c1 := ChipAfter(c0, begun);
    var c2 := ChipAfter(c1, written);
    var c3 := ChipAfter(c2, sent);
    PlayedReturns(Begin(k, ip, port), c0, begun);
    PlayedReturns(Insert(k, data), c1, written);
    PlayedReturns(Commit(k), c2, sent);
    TurnsComplete(Insert(k, data), c1, written, c2);
    TurnsComplete(Commit(k), c2, sent, c3);
    FlattenOne(data);
    hide Flatten;
    DatagramAssembly(k, ip, port, [data], c0, begun, [c1, c2], c3);
  }

  lemma FlattenOne(data: seq<byte>)
    ensures Flatten([data]) == data
  {
  }

  lemma TurnsComplete(op: Op, c: Chip, turns: seq<Turn>, c': Chip)
    requires ReturnsOk(op, c, turns, c')
    ensures Completes(op, c, c')
  {
  }
}
