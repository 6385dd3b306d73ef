/**
  The chip as the host can observe it: per-slot streams, the datagram being
  assembled, and one pending reply.  How much it takes, how much it delivers and
  what it answers to other commands are free choices of the environment.
*/
module ChipModel {
  import opened Machine
  import opened Proto
  import opened Replies
  import opened Requests

  /** A reply and the request it answers. */
  datatype Answer = Answer(to: Request, items: seq<seq<byte>>)

  /** Only the answer to a pull has a 16-bit length, and it has one parameter. */
  predicate IsWide(a: Answer) {
    AsRequest(a.to.cmd) == CMD_GET_DATABUF_TCP && |a.items| == 1
  }

  /** The counts and lengths of an answer fit the bytes the reply format has for them. */
  predicate Sendable(a: Answer) {
    if IsWide(a) then |a.items[0]| <= 0xFFFF else ShortItems(a.items)
  }

  type Reply = a: Answer | Sendable(a) witness Answer(Request(0, []), [])

  type Items = i: seq<seq<byte>> | ShortItems(i)

  function ReplyBytes(r: Reply): seq<byte> {
    if IsWide(r) then Reply16(r.to.cmd, r.items[0]) else Reply8(r.to.cmd, r.items)
  }

  function MessageOf(reply: Option<Reply>): Option<seq<byte>> {
    match reply
    case None => None
    case Some(r) => Some(ReplyBytes(r))
  }

  datatype Datagram = Datagram(ip: seq<byte>, port: nat, body: seq<byte>)

  /**
    `tx`: all bytes taken for each slot; `rx`: bytes received from its peer and not yet
    pulled; `late`: the part of `rx` that arrived after the last pull; `state`: the TCP
    state byte of each slot that has one; `told`: what the last query about a slot was
    answered; `packet`: the datagram under assembly; `wire`: datagrams sent.
  */
  datatype Chip = Chip(
    tx: map<byte, seq<byte>>,
    rx: map<byte, seq<byte>>,
    late: map<byte, seq<byte>>,
    state: map<byte, byte>,
    told: map<byte, seq<byte>>,
    packet: map<byte, Datagram>,
    wire: seq<Datagram>,
    reply: Option<Reply>)

  /** The environment's decisions for one request. */
  datatype Choice = Choice(take: nat, give: nat, narrow: bool, accept: bool, items: Items)

  function Get(m: map<byte, seq<byte>>, k: byte): seq<byte> {
    if k in m then m[k] else []
  }

  function PacketOf(c: Chip, k: byte): Datagram {
    if k in c.packet then c.packet[k] else Datagram([], 0, [])
  }

  /** A data request names its slot in a one-byte first parameter and carries one more. */
  predicate DataShape(req: Request) {
    |req.params| == 2 && |req.params[0].data| == 1
  }

  predicate IsSend(req: Request) {
    req.cmd == CMD_SEND_DATA_TCP && DataShape(req)
  }

  predicate IsPull(req: Request) {
    req.cmd == CMD_GET_DATABUF_TCP && DataShape(req) && |req.params[1].data| == 2
  }

  predicate IsInsert(req: Request) {
    req.cmd == CMD_INSERT_DATABUF && DataShape(req)
  }

  predicate IsCommit(req: Request) {
    req.cmd == CMD_SEND_UDP_DATA && |req.params| == 1 && |req.params[0].data| == 1
  }

  predicate IsBegin(req: Request) {
    && req.cmd == CMD_START_CLIENT_TCP && |req.params| == 4
    && |req.params[1].data| == 2 && |req.params[2].data| == 1 && req.params[3].data == [UDP_MODE]
  }

  predicate IsQuery(req: Request) {
    req.cmd == CMD_GET_CLIENT_STATE_TCP && |req.params| == 1 && |req.params[0].data| == 1
  }

  /** What a query about slot `k` is answered: its state byte, or nothing for a slot without one. */
  function Status(c: Chip, k: byte): seq<byte> {
    if k in c.state then [c.state[k]] else []
  }

  function SlotOf(req: Request): byte
    requires IsSend(req) || IsPull(req) || IsInsert(req) || IsCommit(req) || IsQuery(req)
  {
    req.params[0].data[0]
  }

  /** The chunk bytes taken by a send, or the queued bytes handed over by a pull. */
  function Moved(c: Chip, req: Request, ch: Choice): seq<byte> {
    if IsSend(req) then
      var chunk := req.params[1].data;
      chunk[..Min(ch.take, |chunk|)]
    else if IsPull(req) then
      var queued := Get(c.rx, SlotOf(req));
      var want := FromLe16(req.params[1].data[0], req.params[1].data[1]);
      queued[..Min(1 + ch.give, Min(want, |queued|))]
    else []
  }

  function AckItem(w: nat, narrow: bool): seq<byte> {
    if w <= 0xFF && narrow then [w] else Le16(w)
  }

  function React(c: Chip, req: Request, ch: Choice): Chip {
    if IsSend(req) then
      var k, moved := SlotOf(req), Moved(c, req, ch);
      c.(tx := c.tx[k := Get(c.tx, k) + moved],
         reply := Some(Answer(req, [AckItem(|moved|, ch.narrow)])))
    else if IsPull(req) then
      var k, moved := SlotOf(req), Moved(c, req, ch);
      c.(rx := c.rx[k := Get(c.rx, k)[|moved|..]], late := c.late[k := []],
         reply := Some(Answer(req, [moved])))
    else Serve(c, req, ch)
  }

  /** The chip with an answer pending, all streams as they were. */
  function Served(c: Chip, packet: map<byte, Datagram>, wire: seq<Datagram>, told: map<byte, seq<byte>>, r: Reply): (after: Chip)
    ensures after.tx == c.tx && after.rx == c.rx && after.late == c.late && after.state == c.state
    ensures after.packet == packet && after.wire == wire && after.told == told && after.reply == Some(r)
  {
    c.(packet := packet, wire := wire, told := told, reply := Some(r))
  }

  /** Everything that moves no stream bytes: datagrams, state queries, and the rest. */
  function Serve(c: Chip, req: Request, ch: Choice): Chip {
    if IsBegin(req) then
      if ch.accept then
        var ps := req.params;
        var p := Datagram(ps[0].data, FromBe16(ps[1].data[0], ps[1].data[1]), []);
        Served(c, c.packet[ps[2].data[0] := p], c.wire, c.told, Answer(req, [[1]]))
      else Served(c, c.packet, c.wire, c.told, Answer(req, []))
    else if IsInsert(req) then
      if ch.accept then
        var k := SlotOf(req);
        var p := PacketOf(c, k);
        Served(c, c.packet[k := p.(body := p.body + req.params[1].data)], c.wire, c.told, Answer(req, [[1]]))
      else Served(c, c.packet, c.wire, c.told, Answer(req, [[0]]))
    else if IsCommit(req) then
      if ch.accept then Served(c, c.packet, c.wire + [PacketOf(c, SlotOf(req))], c.told, Answer(req, [[1]]))
      else Served(c, c.packet, c.wire, c.told, Answer(req, [[0]]))
    else if IsQuery(req) then
      // one parameter with the slot's state, or an answer of some other shape
      var k := SlotOf(req);
      Served(c, c.packet, c.wire, c.told[k := Status(c, k)],
             Answer(req, if |ch.items| == 1 then [Status(c, k)] else ch.items))
    else Served(c, c.packet, c.wire, c.told, Answer(req, ch.items))
  }

  /** What a window's bytes do: a complete frame replaces the pending reply, anything less does nothing. */
  function Absorb(c: Chip, mosi: seq<byte>, ch: Choice): Chip {
    match ChipDecode(mosi)
    case None => if mosi == [] then c else c.(reply := None)
    case Some((req, _)) => React(c, req, ch)
  }

  function MovedBy(c: Chip, mosi: seq<byte>, ch: Choice): seq<byte> {
    match ChipDecode(mosi)
    case None => []
    case Some((req, _)) => Moved(c, req, ch)
  }

  /** Bytes arriving from slot `k`'s peer. */
  function Deliver(c: Chip, k: byte, bytes: seq<byte>): Chip {
    c.(rx := c.rx[k := Get(c.rx, k) + bytes], late := c.late[k := Get(c.late, k) + bytes])
  }

  /** The network moves slot `k` to another state, or the chip forgets the slot. */
  function Change(c: Chip, k: byte, now: Option<byte>): Chip {
    match now
    case Some(b) => c.(state := c.state[k := b])
    case None => c.(state := c.state - {k})
  }

  /** The last query about slot `k` was answered with its state byte, 4 for established. */
  predicate ToldUp(c: Chip, k: byte) {
    k in c.told && c.told[k] == [4]
  }

  /** ... with one of the closed-side bytes, or with nothing. */
  predicate ToldClosed(c: Chip, k: byte) {
    k in c.told && (c.told[k] == [] || c.told[k][0] in {0, 7, 8, 9, 10})
  }

  lemma Le16Inverse(n: nat)
    requires n <= 0xFFFF
    ensures FromLe16(LowByte(n), LowByte(n / 0x100)) == n
  {
  }

  lemma AckItemValue(w: nat, narrow: bool)
    requires w <= 0xFFFF
    ensures AckValue(AckItem(w, narrow)) == Some(w)
  {
    Le16Inverse(w);
  }
}
