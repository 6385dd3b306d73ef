/**
  One operation running against the chip: the driver's machine on one side, the
  chip's reactions on the other, byte frames in between.
*/
module Session {
  import opened Acks
  import opened Bytes
  import opened ChipModel
  import opened Machine
  import opened Proto
  import opened Replies
  import opened Requests

  /** `took` is what the chip has moved for this operation so far. */
  datatype State = State(ctl: Ctl, chip: Chip, took: seq<byte>)

  /**
    What the bus may do while the host receives: offer idle bytes and the chip's pending
    reply, or as much of them as it gets across, or an error marker; or carry a stream so
    damaged that the decoder refuses it.
  */
  predicate Heard(reply: Option<Reply>, miso: seq<byte>, got: Result<seq<seq<byte>>>) {
    Offers(miso, MessageOf(reply)) || got.Err?
  }

  /** The host has been told what the chip said, or nothing. */
  predicate Truthful(reply: Option<Reply>, got: Result<seq<seq<byte>>>) {
    got.Ok? ==> reply.Some? && reply.value.items == got.value
  }

  /** The decoder's length width is the one the chip uses for the command. */
  predicate Matched(cmd: byte, how: How) {
    how.One16? <==> AsRequest(cmd) == CMD_GET_DATABUF_TCP
  }

  /**
    No decoder makes anything else of the chip's reply, whatever idle bytes precede it,
    wherever it is cut, however many parameters it has and whether or not they fit.
  */
  lemma OfferedIsTruthful(reply: Option<Reply>, cmd: byte, how: How, miso: seq<byte>)
    requires Matched(cmd, how) && Offers(miso, MessageOf(reply))
    ensures Truthful(reply, Decode(cmd, how, miso).res)
  {
    hide Decode, Tail8, Tail16, SkipIdle, AsReply;
    if Decode(cmd, how, miso).res.Ok? {
      var items := Decode(cmd, how, miso).res.value;
      DecodedBehindIdle(cmd, how, miso);
      var t, decoded := SkipIdle(miso), Message(cmd, how, items);
      assert decoded[0] == START_CMD == t[0];
      var r := reply.value;
      var u := if t <= ReplyBytes(r) then ReplyBytes(r) else t;
      PrefixBoth(decoded, t, u);
      SameReply(r, cmd, how, items, u);
    }
  }

  lemma PrefixBoth(a: seq<byte>, b: seq<byte>, c: seq<byte>)
    requires a <= b <= c
    ensures a <= c
  {
  }

  lemma SameReply(r: Reply, cmd: byte, how: How, items: seq<seq<byte>>, u: seq<byte>)
    requires Matched(cmd, how) && Deliverable(how, items)
    requires Message(cmd, how, items) <= u && ReplyBytes(r) <= u
    ensures r.items == items
  {
    hide Tlv;
    var decoded := Message(cmd, how, items);
    assert decoded[1] == u[1] == ReplyBytes(r)[1];
    assert decoded[2] == u[2] == ReplyBytes(r)[2];
    assert AsRequest(cmd) == AsRequest(r.to.cmd);
    if how.One16? {
      Reply16Unique(cmd, items[0], r.to.cmd, r.items[0], u);
      assert items == [items[0]] && r.items == [r.items[0]];
    } else {
      Reply8Unique(cmd, items, r.to.cmd, r.items, u);
    }
  }

  function Step(s: State, x: Xfer, ch: Choice): Option<State> {
    match Advance(s.ctl, x)
    case None => None
    case Some(ctl) =>
      match x
      case Send(_, _, mosi, _) =>
        Some(State(ctl, Absorb(s.chip, mosi, ch), s.took + MovedBy(s.chip, mosi, ch)))
      case Recv(_, _, miso, got) =>
        if !Heard(s.chip.reply, miso, got) then None
        else Some(State(ctl, if got == Err(Pin) then s.chip else s.chip.(reply := None), s.took))
      case Nap => Some(s.(ctl := ctl))
  }

  /** With `strict`, the chip takes all of a chunk or none of it. */
  predicate Lawful(strict: bool, ch: Choice) {
    strict ==> ch.take == 0 || ch.take >= 0xFFFF
  }

  // ---- what a send leaves on the chip ----

  /** `acks` are truthful for the first chunks of `data`; in strict mode they are full. */
  predicate AcksSo(strict: bool, data: seq<byte>, acks: seq<nat>) {
    AcksFit(data, acks) && (strict ==> AllFull(data, acks))
  }

  predicate TookAll(strict: bool, data: seq<byte>, took: seq<byte>, n: nat, acks: seq<nat>) {
    && AcksSo(strict, data, acks) && |acks| == ChunkCount(|data|)
    && took == Kept(data, acks) && n == Total(acks)
  }

  /** `w` bytes of the chunk after the acked ones were taken, but the host does not know. */
  predicate TookSome(strict: bool, data: seq<byte>, took: seq<byte>, acks: seq<nat>, w: nat) {
    var chunk := ChunkAt(data, |acks|);
    && AcksSo(strict, data, acks) && w <= |chunk| && (strict ==> w == 0 || w == |chunk|)
    && took == Kept(data, acks) + chunk[..w]
  }

  ghost predicate Sent(strict: bool, data: seq<byte>, took: seq<byte>, res: Result<Val>) {
    if res.Ok? then
      res.value.Count? && exists acks :: TookAll(strict, data, took, res.value.n, acks)
    else exists acks, w :: TookSome(strict, data, took, acks, w)
  }

  predicate AckPending(strict: bool, data: seq<byte>, took: seq<byte>, acks: seq<nat>, reply: Option<Reply>) {
    var chunk := ChunkAt(data, |acks|);
    && reply.Some? && |reply.value.items| == 1
    && AckValue(reply.value.items[0]).Some?
    && TookSome(strict, data, took, acks, AckValue(reply.value.items[0]).value)
  }

  ghost predicate WriteInv(strict: bool, s: State, sock: byte, data: seq<byte>) {
    match s.ctl.pc
    case Chunk(k, d, acks, tries) =>
      && k == sock && d == data && 64 * |acks| < |data| && AcksSo(strict, data, acks) && tries < SEND_ATTEMPTS
      && if s.ctl.Ready? then s.took == Kept(data, acks)
         else AckPending(strict, data, s.took, acks, s.chip.reply)
    case Drain(k, d, acks, polls) =>
      && k == sock && d == data && 0 < |acks| <= ChunkCount(|data|) && AcksSo(strict, data, acks) && polls < DRAIN_POLLS
      && s.took == Kept(data, acks)
    case Done(res) => s.ctl.Ready? && Sent(strict, data, s.took, res)
    case _ => false
  }

  // ---- what a read leaves on the chip ----

  /** Nothing is queued for `sock` but what arrived after the last pull. */
  predicate OnlyLate(c: Chip, sock: byte) {
    Get(c.rx, sock) == Get(c.late, sock)
  }

  /** If the pending reply has one parameter, it is what the chip was last asked about `k`. */
  predicate StatusPending(c: Chip, k: byte) {
    c.reply.Some? && |c.reply.value.items| == 1 ==> k in c.told && c.reply.value.items == [c.told[k]]
  }

  predicate ReadInv(s: State, sock: byte, room: nat) {
    match s.ctl.pc
    case Pull(k, r) =>
      && k == sock && r == room
      && (s.ctl.Ready? ==> s.took == [])
      && (s.ctl.Await? ==>
            && s.chip.reply.Some? && s.chip.reply.value.items == [s.took]
            && |s.took| <= Want(room)
            && (s.took == [] ==> OnlyLate(s.chip, sock)))
    case Probe(k, r) =>
      && k == sock && r == room && s.took == [] && OnlyLate(s.chip, sock)
      && (s.ctl.Await? ==> StatusPending(s.chip, sock))
    case Doze(k, r) => k == sock && r == room && s.took == [] && s.ctl.Ready?
    case Done(res) =>
      && s.ctl.Ready?
      && (res.Ok? ==>
            && res.value == Data(s.took) && |s.took| <= Want(room)
            && (s.took == [] ==> OnlyLate(s.chip, sock) && ToldClosed(s.chip, sock)))
    case _ => false
  }

  // ---- every operation ----

  /** Control points whose requests never move stream bytes. */
  predicate Quiet(pc: Pc) {
    !pc.Chunk? && !pc.Drain? && !pc.Pull? && !pc.Probe? && !pc.Doze?
  }

  /** A connect that polls waits for its own slot's state, and returns a slot that was reported established. */
  predicate DialInv(s: State) {
    match s.ctl
    case Await(Poll(_, k, _)) => StatusPending(s.chip, k)
    case Ready(Done(Ok(Slot(k)))) => ToldUp(s.chip, k)
    case _ => true
  }

  /** The pending reply answers the request as the chip read it off the wire. */
  predicate Answers(reply: Option<Reply>, ask: Ask) {
    match ChipDecode(Wire(ask.cmd, ask.params))
    case None => reply.None?
    case Some((req, _)) => reply.Some? && reply.value.to == req
  }

  ghost predicate Inv(strict: bool, op: Op, s: State) {
    && (s.ctl.Await? ==> Asks(s.ctl.pc) && Answers(s.chip.reply, AskOf(s.ctl.pc)))
    && match op
       case Write(sock, data) => WriteInv(strict, s, sock, data)
       case Read(sock, room) => room > 0 && ReadInv(s, sock, room)
       case _ => Quiet(s.ctl.pc) && s.took == [] && DialInv(s)
  }

  lemma StartInv(strict: bool, op: Op, chip: Chip)
    requires op.Read? ==> op.room > 0
    ensures Inv(strict, op, State(Ready(Start(op)), chip, []))
  {
    if op.Write? {
      assert ChunkCount(0) == 0;
      if op.data == [] {
        assert TookAll(strict, op.data, [], 0, []);
      }
    }
  }

  /** Whatever its parameters did to the length bytes, a command keeps its opcode. */
  lemma OpcodeArrives(cmd: byte, ps: seq<Param>, mosi: seq<byte>)
    requires mosi <= Wire(cmd, ps) && ChipDecode(mosi).Some?
    ensures ChipDecode(mosi).value.0.cmd == AsRequest(cmd)
  {
    assert Wire(cmd, ps)[1] == AsRequest(cmd);
    assert mosi[1] == Wire(cmd, ps)[1];
  }

  lemma ServeIsQuiet(c: Chip, req: Request, ch: Choice)
    ensures var c' := Serve(c, req, ch);
            c'.tx == c.tx && c'.rx == c.rx && c'.late == c.late && c'.state == c.state
  {
    hide Served, PacketOf, Status, SlotOf;
  }

  lemma QuietReact(c: Chip, req: Request, ch: Choice)
    requires req.cmd != CMD_SEND_DATA_TCP && req.cmd != CMD_GET_DATABUF_TCP
    ensures Moved(c, req, ch) == []
    ensures var c' := React(c, req, ch);
            c'.tx == c.tx && c'.rx == c.rx && c'.late == c.late
  {
    hide Serve;
    ServeIsQuiet(c, req, ch);
  }

  lemma WireOpens(cmd: byte, ps: seq<Param>)
    ensures Wire(cmd, ps) != []
  {
  }

  lemma OpcodeOnly(x: Xfer)
    requires x.Send? && Faithful(x) && x.cmd < REPLY_FLAG
    ensures ChipDecode(x.mosi).Some? ==> ChipDecode(x.mosi).value.0.cmd == x.cmd
    ensures x.sent.Ok? ==> x.mosi != []
  {
    hide Faithful, Wire, Frame, ChipDecode;
    SentBytes(x);
    WireOpens(x.cmd, x.params);
    if ChipDecode(x.mosi).Some? {
      OpcodeArrives(x.cmd, x.params, x.mosi);
    }
  }

  /** What a request outside the two stream commands does to the streams: nothing. */
  lemma QuietRequest(c: Chip, x: Xfer, ch: Choice)
    requires x.Send? && Faithful(x) && x.cmd < REPLY_FLAG
    requires x.cmd != CMD_SEND_DATA_TCP && x.cmd != CMD_GET_DATABUF_TCP
    ensures MovedBy(c, x.mosi, ch) == []
    ensures var c' := Absorb(c, x.mosi, ch);
            c'.tx == c.tx && c'.rx == c.rx && c'.late == c.late
  {
    hide Faithful, Wire, Frame, React, Moved, ChipDecode;
    OpcodeOnly(x);
    if ChipDecode(x.mosi).Some? {
      QuietReact(c, ChipDecode(x.mosi).value.0, ch);
    }
  }

  /** The two stream requests reach the chip as asked, or not at all. */
  lemma StreamRequestArrives(x: Xfer, pc: Pc)
    requires x.Send? && Faithful(x) && (pc.Chunk? || pc.Pull?)
    requires x.cmd == AskOf(pc).cmd && x.params == AskOf(pc).params
    ensures ChipDecode(x.mosi).Some? ==> ChipDecode(x.mosi).value.0 == Request(x.cmd, x.params)
    ensures x.sent.Ok? ==> ChipDecode(x.mosi).Some?
  {
    SentBytes(x);
    SmallRequests(pc);
    hide Faithful, Wire, Frame, ChipDecode, Sized, Uniform, ChunkAt;
    RequestArrives(x.cmd, x.params, x.mosi);
  }

  lemma QueryReact(c: Chip, k: byte, ch: Choice)
    ensures var c' := React(c, Request(CMD_GET_CLIENT_STATE_TCP, [Short([k])]), ch);
            StatusPending(c', k) && c'.tx == c.tx && c'.rx == c.rx && c'.late == c.late
  {
  }

  /** A state query that gets across is answered for the slot it names. */
  lemma QueryRequest(c: Chip, x: Xfer, ch: Choice, k: byte)
    requires x.Send? && Faithful(x) && x.sent.Ok?
    requires x.cmd == CMD_GET_CLIENT_STATE_TCP && x.params == Shorts([[k]])
    ensures StatusPending(Absorb(c, x.mosi, ch), k)
  {
    SentBytes(x);
    assert Shorts([[k]]) == [Short([k])];
    hide Faithful, Wire, Frame, ChipDecode, React;
    RequestArrives(x.cmd, x.params, x.mosi);
    QueryReact(c, k, ch);
  }

  lemma SendReact(c: Chip, sock: byte, chunk: seq<byte>, ch: Choice)
    requires |chunk| <= 64
    ensures var req, w := Request(CMD_SEND_DATA_TCP, [Long([sock]), Long(chunk)]), Min(ch.take, |chunk|);
            && Moved(c, req, ch) == chunk[..w]
            && React(c, req, ch) ==
               c.(tx := c.tx[sock := Get(c.tx, sock) + chunk[..w]],
                  reply := Some(Answer(req, [AckItem(w, ch.narrow)])))
            && AckValue(AckItem(w, ch.narrow)) == Some(w)
  {
    AckItemValue(Min(ch.take, |chunk|), ch.narrow);
  }

  /** What a chunk does: the chip takes a front of it, and if the window completed it acks that much. */
  lemma ChunkRequest(strict: bool, c: Chip, x: Xfer, ch: Choice, pc: Pc) returns (w: nat)
    requires x.Send? && Faithful(x) && pc.Chunk? && x.cmd == AskOf(pc).cmd && x.params == AskOf(pc).params
    requires Lawful(strict, ch)
    ensures var chunk, c' := ChunkAt(pc.data, |pc.acks|), Absorb(c, x.mosi, ch);
            && w <= |chunk| && (strict ==> w == 0 || w == |chunk|)
            && MovedBy(c, x.mosi, ch) == chunk[..w]
            && c'.rx == c.rx && c'.late == c.late
            && Get(c'.tx, pc.sock) == Get(c.tx, pc.sock) + chunk[..w]
            && (forall k :: k != pc.sock ==> Get(c'.tx, k) == Get(c.tx, k))
            && (x.sent.Ok? ==>
                  && c'.reply.Some? && |c'.reply.value.items| == 1
                  && AckValue(c'.reply.value.items[0]) == Some(w))
  {
    hide ChipDecode, Faithful, Wire, Frame, ChunkAt, React, Moved, AckItem, AckValue;
    StreamRequestArrives(x, pc);
    var chunk := ChunkAt(pc.data, |pc.acks|);
    w := if ChipDecode(x.mosi).Some? then Min(ch.take, |chunk|) else 0;
    SendReact(c, pc.sock, chunk, ch);
    assert chunk[..0] == [] && Get(c.tx, pc.sock) + [] == Get(c.tx, pc.sock);
  }

  lemma PullReact(c: Chip, sock: byte, room: nat, ch: Choice)
    requires room > 0
    ensures var req := Request(CMD_GET_DATABUF_TCP, [Long([sock]), Long(Le16(Want(room)))]);
            var queued, moved := Get(c.rx, sock), Moved(c, req, ch);
            && |moved| <= Want(room) && queued == moved + queued[|moved|..]
            && (moved == [] ==> queued == [])
            && React(c, req, ch) ==
               c.(rx := c.rx[sock := queued[|moved|..]], late := c.late[sock := []],
                  reply := Some(Answer(req, [moved])))
  {
    WantArrives(room);
  }

  /** What a pull does: a front of the queue moves into the reply; if that is empty, the queue was. */
  lemma PullRequest(c: Chip, x: Xfer, ch: Choice, pc: Pc)
    requires x.Send? && Faithful(x) && pc.Pull? && pc.room > 0
    requires x.cmd == AskOf(pc).cmd && x.params == AskOf(pc).params
    ensures var moved, c' := MovedBy(c, x.mosi, ch), Absorb(c, x.mosi, ch);
            && c'.tx == c.tx
            && |moved| <= Want(pc.room)
            && Get(c.rx, pc.sock) == moved + Get(c'.rx, pc.sock)
            && (forall k :: k != pc.sock ==> Get(c'.rx, k) == Get(c.rx, k))
            && (x.sent.Ok? ==>
                  && c'.reply == Some(Answer(Request(x.cmd, x.params), [moved]))
                  && (moved == [] ==> OnlyLate(c', pc.sock)))
  {
    hide ChipDecode, Faithful, Wire, Frame, React, Moved;
    StreamRequestArrives(x, pc);
    PullReact(c, pc.sock, pc.room, ch);
    assert [] + Get(c.rx, pc.sock) == Get(c.rx, pc.sock);
  }

  lemma WantArrives(room: nat)
    ensures FromLe16(Le16(Want(room))[0], Le16(Want(room))[1]) == Want(room)
  {
    Le16Inverse(Want(room));
  }

  // ---- one step keeps the invariant ----

  lemma NextChunkKeeps(strict: bool, chip: Chip, took: seq<byte>, sock: byte, data: seq<byte>, acks: seq<nat>)
    requires AcksSo(strict, data, acks) && |acks| <= ChunkCount(|data|) && took == Kept(data, acks)
    ensures WriteInv(strict, State(Ready(NextChunk(sock, data, acks)), chip, took), sock, data)
  {
    if 64 * |acks| >= |data| {
      assert TookAll(strict, data, took, Total(acks), acks);
    }
  }

  lemma WriteFails(strict: bool, data: seq<byte>, took: seq<byte>, e: Error, acks: seq<nat>, w: nat)
    requires TookSome(strict, data, took, acks, w)
    ensures Sent(strict, data, took, Err(e))
  {
  }

  lemma TookNone(strict: bool, data: seq<byte>, acks: seq<nat>)
    requires AcksSo(strict, data, acks)
    ensures TookSome(strict, data, Kept(data, acks), acks, 0)
  {
    assert ChunkAt(data, |acks|)[..0] == [];
  }

  /** A send window, taken apart. */
  lemma SendStep(s: State, x: Xfer, ch: Choice)
    requires x.Send? && Step(s, x, ch).Some?
    ensures s.ctl.Ready? && Asks(s.ctl.pc) && Faithful(x)
    ensures x.cmd == AskOf(s.ctl.pc).cmd && x.params == AskOf(s.ctl.pc).params
    ensures Step(s, x, ch).value ==
            State(
              if x.sent.Ok? then Await(s.ctl.pc) else Ready(Resume(s.ctl.pc, Err(x.sent.error))),
              Absorb(s.chip, x.mosi, ch),
              s.took + MovedBy(s.chip, x.mosi, ch))
  {
    hide Faithful, AskOf, Resume, Absorb, MovedBy;
  }

  /** A receive window, taken apart. */
  lemma RecvStep(s: State, x: Xfer, ch: Choice)
    requires x.Recv? && Step(s, x, ch).Some?
    ensures s.ctl.Await? && Asks(s.ctl.pc) && Faithful(x) && Truthful(s.chip.reply, x.got)
    ensures x.cmd == AskOf(s.ctl.pc).cmd && x.how == AskOf(s.ctl.pc).how
    ensures Step(s, x, ch).value ==
            State(
              Ready(Resume(s.ctl.pc, x.got)),
              if x.got == Err(Pin) then s.chip else s.chip.(reply := None),
              s.took)
  {
    hide Faithful, AskOf, Resume, Decode, Offers;
    AskMatches(s.ctl.pc);
    if x.got.Ok? {
      RecvDecodes(x);
      OfferedIsTruthful(s.chip.reply, x.cmd, x.how, x.miso);
    }
  }

  lemma RecvDecodes(x: Xfer)
    requires x.Recv? && Faithful(x) && x.got.Ok?
    ensures x.got == Decode(x.cmd, x.how, x.miso).res
  {
  }

  lemma AskMatches(pc: Pc)
    requires Asks(pc)
    ensures Matched(AskOf(pc).cmd, AskOf(pc).how)
  {
  }

  lemma ResumeError(pc: Pc, e: Error)
    requires Asks(pc) && !pc.DnsPoll? && !pc.GiveUp?
    ensures Resume(pc, Err(e)) == Done(Err(e))
  {
  }

  lemma ChunkSends(strict: bool, s: State, x: Xfer, ch: Choice, sock: byte, data: seq<byte>)
    requires WriteInv(strict, s, sock, data) && s.ctl.pc.Chunk? && x.Send?
    requires Lawful(strict, ch) && Step(s, x, ch).Some?
    ensures WriteInv(strict, Step(s, x, ch).value, sock, data)
  {
    hide Faithful, Kept, AcksSo, Absorb, MovedBy, Step, AskOf, Resume, ChunkAt;
    SendStep(s, x, ch);
    var acks := s.ctl.pc.acks;
    var w := ChunkRequest(strict, s.chip, x, ch, s.ctl.pc);
    var s' := Step(s, x, ch).value;
    assert TookSome(strict, data, s'.took, acks, w);
    if x.sent.Err? {
      ResumeError(s.ctl.pc, x.sent.error);
      WriteFails(strict, data, s'.took, x.sent.error, acks, w);
    }
  }

  lemma AckExtends(strict: bool, data: seq<byte>, took: seq<byte>, acks: seq<nat>, w: nat)
    requires TookSome(strict, data, took, acks, w) && w > 0
    ensures AcksSo(strict, data, acks + [w]) && took == Kept(data, acks + [w])
    ensures |acks + [w]| <= ChunkCount(|data|)
  {
    hide Kept, ChunkAt;
    KeptSnoc(data, acks, w);
    assert 64 * |acks| < |data|;
  }

  lemma ResumeChunk(pc: Pc, items: seq<seq<byte>>)
    requires pc.Chunk? && |items| == 1 && AckValue(items[0]).Some?
    ensures var w := AckValue(items[0]).value;
            Resume(pc, Ok(items)) ==
            if w > 0 then Drain(pc.sock, pc.data, pc.acks + [w], 0)
            else if pc.attempt + 1 < SEND_ATTEMPTS then pc.(attempt := pc.attempt + 1)
            else Done(Err(Nina))
  {
  }

  lemma ChunkReceives(strict: bool, s: State, x: Xfer, ch: Choice, sock: byte, data: seq<byte>)
    requires WriteInv(strict, s, sock, data) && s.ctl.pc.Chunk? && x.Recv? && Step(s, x, ch).Some?
    ensures WriteInv(strict, Step(s, x, ch).value, sock, data)
  {
    hide Faithful, Kept, AcksSo, TookSome, Step, AskOf, Resume, ChunkAt, AckValue;
    RecvStep(s, x, ch);
    var acks := s.ctl.pc.acks;
    var w := AckValue(s.chip.reply.value.items[0]).value;
    if x.got.Err? {
      ResumeError(s.ctl.pc, x.got.error);
      WriteFails(strict, data, s.took, x.got.error, acks, w);
    } else {
      ResumeChunk(s.ctl.pc, x.got.value);
      if w > 0 {
        AckExtends(strict, data, s.took, acks, w);
      } else {
        NothingTaken(strict, data, s.took, acks);
        WriteFails(strict, data, s.took, Nina, acks, 0);
      }
    }
  }

  lemma NothingTaken(strict: bool, data: seq<byte>, took: seq<byte>, acks: seq<nat>)
    requires TookSome(strict, data, took, acks, 0)
    ensures took == Kept(data, acks) && AcksSo(strict, data, acks)
  {
    assert ChunkAt(data, |acks|)[..0] == [];
  }

  lemma ResumeDrain(pc: Pc, r: Result<seq<seq<byte>>>)
    requires pc.Drain?
    ensures var next := Resume(pc, r);
            || next == NextChunk(pc.sock, pc.data, pc.acks)
            || (next.Drain? && next.(poll := pc.poll) == pc && next.poll < DRAIN_POLLS)
            || (next.Done? && next.res.Err?)
  {
  }

  lemma DrainLeads(strict: bool, chip: Chip, took: seq<byte>, pc: Pc, r: Result<seq<seq<byte>>>)
    requires pc.Drain? && 0 < |pc.acks| <= ChunkCount(|pc.data|)
    requires AcksSo(strict, pc.data, pc.acks) && took == Kept(pc.data, pc.acks)
    ensures WriteInv(strict, State(Ready(Resume(pc, r)), chip, took), pc.sock, pc.data)
  {
    hide Resume, Kept, AcksSo, NextChunk;
    ResumeDrain(pc, r);
    NextChunkKeeps(strict, chip, took, pc.sock, pc.data, pc.acks);
    TookNone(strict, pc.data, pc.acks);
    if Resume(pc, r).Done? && Resume(pc, r).res.Err? {
      WriteFails(strict, pc.data, took, Resume(pc, r).res.error, pc.acks, 0);
    }
  }

  lemma DrainSteps(strict: bool, s: State, x: Xfer, ch: Choice, sock: byte, data: seq<byte>)
    requires WriteInv(strict, s, sock, data) && s.ctl.pc.Drain? && Step(s, x, ch).Some?
    ensures WriteInv(strict, Step(s, x, ch).value, sock, data)
  {
    hide Faithful, Kept, AcksSo, Absorb, MovedBy, Resume;
    var s' := Step(s, x, ch).value;
    if x.Send? {
      QuietRequest(s.chip, x, ch);
      assert s'.took == s.took;
      if x.sent.Err? {
        DrainLeads(strict, s'.chip, s.took, s.ctl.pc, Err(x.sent.error));
      }
    } else {
      DrainLeads(strict, s'.chip, s.took, s.ctl.pc, x.got);
    }
  }

  lemma ReadSends(s: State, x: Xfer, ch: Choice, sock: byte, room: nat)
    requires ReadInv(s, sock, room) && room > 0 && x.Send? && Step(s, x, ch).Some?
    ensures ReadInv(Step(s, x, ch).value, sock, room)
  {
    SendStep(s, x, ch);
    QuietCommand(s.ctl.pc);
    hide Faithful, Absorb, MovedBy, Step, AskOf, Resume, OnlyLate;
    if s.ctl.pc.Pull? {
      PullRequest(s.chip, x, ch, s.ctl.pc);
      assert [] + MovedBy(s.chip, x.mosi, ch) == MovedBy(s.chip, x.mosi, ch);
    } else {
      QuietRequest(s.chip, x, ch);
      SameLate(s.chip, Absorb(s.chip, x.mosi, ch), sock);
      ProbeAsk(s.ctl.pc);
      if x.sent.Ok? {
        QueryRequest(s.chip, x, ch, sock);
      }
    }
    if x.sent.Err? {
      ResumeError(s.ctl.pc, x.sent.error);
    }
  }

  lemma ProbeAsk(pc: Pc)
    requires pc.Probe? || pc.Poll?
    ensures AskOf(pc) == Ask(CMD_GET_CLIENT_STATE_TCP, Shorts([[pc.sock]]), One8(1))
  {
  }

  lemma SameLate(c: Chip, c': Chip, sock: byte)
    requires c'.rx == c.rx && c'.late == c.late
    ensures OnlyLate(c, sock) == OnlyLate(c', sock)
  {
  }

  lemma ResumePull(pc: Pc, p: seq<byte>)
    requires pc.Pull?
    ensures Resume(pc, Ok([p])) == if p != [] then Done(Ok(Data(p))) else Probe(pc.sock, pc.room)
  {
  }

  lemma ResumeProbe(pc: Pc, p: seq<byte>)
    requires pc.Probe?
    ensures Resume(pc, Ok([p])) == if p == [] || p[0] in {0, 7, 8, 9, 10} then Done(Ok(Data([]))) else Doze(pc.sock, pc.room)
  {
  }

  lemma ResumePoll(pc: Pc, p: seq<byte>)
    requires pc.Poll? && |p| <= 1
    ensures (exists k :: Resume(pc, Ok([p])) == Done(Ok(Slot(k)))) ==> p == [4]
  {
  }

  /** Only a poll returns a slot, its own. */
  lemma ResumeSlot(pc: Pc, r: Result<seq<seq<byte>>>, k: byte)
    requires Asks(pc) && !pc.Chunk? && !pc.Drain? && Resume(pc, r) == Done(Ok(Slot(k)))
    ensures pc.Poll? && pc.sock == k && r.Ok?
  {
  }

  /** The payload of a state reply, as the chip meant it. */
  lemma StatusHeard(s: State, x: Xfer, k: byte)
    requires x.Recv? && Faithful(x) && x.got.Ok? && x.how == One8(1)
    requires Truthful(s.chip.reply, x.got) && StatusPending(s.chip, k)
    ensures k in s.chip.told && x.got == Ok([s.chip.told[k]]) && |s.chip.told[k]| <= 1
  {
    hide Decode;
    RecvDecodes(x);
    DecodeStores(x.cmd, x.how, x.miso);
  }

  lemma ReadReceives(s: State, x: Xfer, ch: Choice, sock: byte, room: nat)
    requires ReadInv(s, sock, room) && x.Recv? && Step(s, x, ch).Some?
    ensures ReadInv(Step(s, x, ch).value, sock, room)
  {
    hide Faithful, Step, AskOf, Resume;
    RecvStep(s, x, ch);
    if x.got.Err? {
      ResumeError(s.ctl.pc, x.got.error);
    } else if s.ctl.pc.Pull? {
      ResumePull(s.ctl.pc, s.took);
    } else {
      ProbeAsk(s.ctl.pc);
      StatusHeard(s, x, sock);
      ResumeProbe(s.ctl.pc, s.chip.told[sock]);
    }
  }

  lemma ResumeQuiet(pc: Pc, r: Result<seq<seq<byte>>>)
    requires Quiet(pc) && Asks(pc)
    ensures Quiet(Resume(pc, r))
  {
  }

  lemma QuietCommand(pc: Pc)
    requires Asks(pc)
    ensures var cmd := AskOf(pc).cmd;
            && cmd < REPLY_FLAG
            && (Quiet(pc) || pc.Drain? || pc.Probe? ==> cmd != CMD_SEND_DATA_TCP && cmd != CMD_GET_DATABUF_TCP)
  {
  }

  lemma QuietSteps(s: State, x: Xfer, ch: Choice)
    requires Quiet(s.ctl.pc) && s.took == [] && Step(s, x, ch).Some?
    ensures Quiet(Step(s, x, ch).value.ctl.pc) && Step(s, x, ch).value.took == []
  {
    if x.Send? {
      SendStep(s, x, ch);
      QuietCommand(s.ctl.pc);
      hide Faithful, Absorb, MovedBy, AskOf, Resume, Step;
      QuietRequest(s.chip, x, ch);
      if x.sent.Err? {
        ResumeQuiet(s.ctl.pc, Err(x.sent.error));
      }
    } else if x.Recv? {
      RecvStep(s, x, ch);
      hide Faithful, AskOf, Resume, Step;
      ResumeQuiet(s.ctl.pc, x.got);
    }
  }

  lemma DialSteps(s: State, x: Xfer, ch: Choice)
    requires Quiet(s.ctl.pc) && DialInv(s) && Step(s, x, ch).Some?
    ensures DialInv(Step(s, x, ch).value)
  {
    hide Faithful, Absorb, MovedBy, AskOf, Resume, Truthful;
    if x.Send? {
      SendStep(s, x, ch);
      if s.ctl.pc.Poll? {
        ProbeAsk(s.ctl.pc);
        if x.sent.Ok? { QueryRequest(s.chip, x, ch, s.ctl.pc.sock); }
      }
      if x.sent.Err? { NoSlotFromError(s.ctl.pc, x.sent.error); }
    } else if x.Recv? {
      RecvStep(s, x, ch);
      DialReceives(s, x, ch);
    }
  }

  lemma NoSlotFromError(pc: Pc, e: Error)
    requires Asks(pc)
    ensures forall k :: Resume(pc, Err(e)) != Done(Ok(Slot(k)))
  {
  }

  lemma DialReceives(s: State, x: Xfer, ch: Choice)
    requires Quiet(s.ctl.pc) && DialInv(s) && x.Recv? && Step(s, x, ch).Some?
    ensures DialInv(Step(s, x, ch).value)
  {
    RecvStep(s, x, ch);
    hide Faithful, AskOf, Resume, Step, Truthful, StatusPending;
    var pc := s.ctl.pc;
    if Resume(pc, x.got).Done? && Resume(pc, x.got).res.Ok? && Resume(pc, x.got).res.value.Slot? {
      var k := Resume(pc, x.got).res.value.sock;
      ResumeSlot(pc, x.got, k);
      ProbeAsk(pc);
      StatusHeard(s, x, k);
      ResumePoll(pc, s.chip.told[k]);
    }
  }

  lemma ServeAnswers(c: Chip, req: Request, ch: Choice)
    ensures Serve(c, req, ch).reply.Some? && Serve(c, req, ch).reply.value.to == req
  {
    hide Served, PacketOf, Status, SlotOf;
  }

  lemma ReactAnswers(c: Chip, req: Request, ch: Choice)
    ensures React(c, req, ch).reply.Some? && React(c, req, ch).reply.value.to == req
  {
    ServeAnswers(c, req, ch);
    hide Serve, Get, SlotOf, Moved, AckItem;
  }

  /** After a completed request the pending reply is the chip's answer to those very bytes. */
  lemma AwaitsOwnReply(s: State, x: Xfer, ch: Choice)
    requires s.ctl.Ready? && x.Send? && x.sent.Ok? && Step(s, x, ch).Some?
    ensures var s' := Step(s, x, ch).value;
            s'.ctl == Await(s.ctl.pc) && Asks(s.ctl.pc) && Answers(s'.chip.reply, AskOf(s.ctl.pc))
  {
    SendStep(s, x, ch);
    QuietCommand(s.ctl.pc);
    hide Faithful, Wire, Frame, Moved, ChipDecode, AskOf, Step, React;
    SentBytes(x);
    OpcodeOnly(x);
    if ChipDecode(x.mosi).Some? {
      ReactAnswers(s.chip, ChipDecode(x.mosi).value.0, ch);
    }
  }

  lemma StepKeeps(strict: bool, op: Op, s: State, x: Xfer, ch: Choice)
    requires Inv(strict, op, s) && Lawful(strict, ch) && Step(s, x, ch).Some?
    ensures Inv(strict, op, Step(s, x, ch).value)
  {
    if x.Send? {
      SendStep(s, x, ch);
      if x.sent.Ok? { AwaitsOwnReply(s, x, ch); }
    } else if x.Recv? {
      RecvStep(s, x, ch);
    }
    hide Faithful, Absorb, MovedBy, AskOf, Resume, WriteInv, ReadInv, Truthful;
    match op {
      case Write(sock, data) =>
        WriteSteps(strict, s, x, ch, sock, data);
      case Read(sock, room) =>
        ReadSteps(s, x, ch, sock, room);
      case _ =>
        QuietSteps(s, x, ch);
        DialSteps(s, x, ch);
    }
  }

  lemma WriteSteps(strict: bool, s: State, x: Xfer, ch: Choice, sock: byte, data: seq<byte>)
    requires WriteInv(strict, s, sock, data) && Lawful(strict, ch) && Step(s, x, ch).Some?
    ensures WriteInv(strict, Step(s, x, ch).value, sock, data)
  {
    hide Faithful, Absorb, MovedBy, AskOf, Resume, AcksSo, Kept;
    if s.ctl.pc.Drain? {
      DrainSteps(strict, s, x, ch, sock, data);
    } else if x.Send? {
      ChunkSends(strict, s, x, ch, sock, data);
    } else {
      ChunkReceives(strict, s, x, ch, sock, data);
    }
  }

  lemma ReadSteps(s: State, x: Xfer, ch: Choice, sock: byte, room: nat)
    requires ReadInv(s, sock, room) && room > 0 && Step(s, x, ch).Some?
    ensures ReadInv(Step(s, x, ch).value, sock, room)
  {
    hide Faithful, Absorb, MovedBy, AskOf, Resume;
    if x.Send? {
      ReadSends(s, x, ch, sock, room);
    } else if x.Recv? {
      ReadReceives(s, x, ch, sock, room);
    }
  }

  // ---- conservation ----

  /** Bytes moved by one step. */
  function Delta(s: State, x: Xfer, ch: Choice): seq<byte> {
    if x.Send? then MovedBy(s.chip, x.mosi, ch) else []
  }

  function OnSlot(p: bool, bytes: seq<byte>): seq<byte> {
    if p then bytes else []
  }

  /**
    A step appends what it moved to the operation's own slot, on the side the
    operation works on, and touches no other slot.
  */
  lemma StepMoves(strict: bool, op: Op, s: State, x: Xfer, ch: Choice, k: byte)
    requires Inv(strict, op, s) && Lawful(strict, ch) && Step(s, x, ch).Some?
    ensures var s', d := Step(s, x, ch).value, Delta(s, x, ch);
            && s'.took == s.took + d
            && Get(s'.chip.tx, k) == Get(s.chip.tx, k) + OnSlot(op.Write? && op.sock == k, d)
            && Get(s.chip.rx, k) == OnSlot(op.Read? && op.sock == k, d) + Get(s'.chip.rx, k)
  {
    hide Faithful, AskOf, Resume, Inv, Heard;
    if x.Send? {
      hide Absorb, MovedBy, Step, Get;
      SendStep(s, x, ch);
      QuietCommand(s.ctl.pc);
      OpOfPc(strict, op, s);
      if s.ctl.pc.Chunk? {
        var w := ChunkRequest(strict, s.chip, x, ch, s.ctl.pc);
      } else if s.ctl.pc.Pull? {
        PullRequest(s.chip, x, ch, s.ctl.pc);
      } else {
        QuietRequest(s.chip, x, ch);
      }
    }
  }

  /** Only a write is ever at a chunk, only a read with room at a pull, each on its own slot. */
  lemma OpOfPc(strict: bool, op: Op, s: State)
    requires Inv(strict, op, s)
    ensures s.ctl.pc.Chunk? ==> op.Write? && op.sock == s.ctl.pc.sock
    ensures s.ctl.pc.Pull? ==> op.Read? && op.sock == s.ctl.pc.sock && s.ctl.pc.room > 0
    ensures Asks(s.ctl.pc) ==> s.ctl.pc.Chunk? || s.ctl.pc.Pull? || s.ctl.pc.Drain? || s.ctl.pc.Probe? || Quiet(s.ctl.pc)
  {
  }

  /** Arrivals from a peer disturb no operation. */
  lemma DeliverKeeps(strict: bool, op: Op, s: State, k: byte, bytes: seq<byte>)
    requires Inv(strict, op, s)
    ensures Inv(strict, op, s.(chip := Deliver(s.chip, k, bytes)))
  {
  }

  /** Neither does a change of a slot's state: what the chip was told to answer stands. */
  lemma ChangeKeeps(strict: bool, op: Op, s: State, k: byte, now: Option<byte>)
    requires Inv(strict, op, s)
    ensures Inv(strict, op, s.(chip := Change(s.chip, k, now)))
  {
  }

  // ---- whole runs on an exclusively held chip ----

  datatype Turn = Window(x: Xfer, ch: Choice) | Arrive(k: byte, bytes: seq<byte>) | Net(k: byte, now: Option<byte>)

  function TurnStep(strict: bool, s: State, turn: Turn): Option<State> {
    match turn
    case Window(x, ch) => if Lawful(strict, ch) then Step(s, x, ch) else None
    case Arrive(k, bytes) => Some(s.(chip := Deliver(s.chip, k, bytes)))
    case Net(k, now) => Some(s.(chip := Change(s.chip, k, now)))
  }

  function Exec(strict: bool, s: State, turns: seq<Turn>): Option<State> {
    if turns == [] then Some(s)
    else
      match Exec(strict, s, turns[..|turns| - 1])
      case None => None
      case Some(m) => TurnStep(strict, m, turns[|turns| - 1])
  }

  /** From `s` to `s'` the operation has moved more bytes, and slot `k` has gained just those if they are its own. */
  predicate Gained(op: Op, s: State, s': State, k: byte) {
    && s.took <= s'.took
    && Get(s'.chip.tx, k) == Get(s.chip.tx, k) + OnSlot(op.Write? && op.sock == k, s'.took[|s.took|..])
  }

  lemma GainedMore(op: Op, a: State, b: State, c: State, d: seq<byte>, k: byte)
    requires Gained(op, a, b, k) && c.took == b.took + d
    requires Get(c.chip.tx, k) == Get(b.chip.tx, k) + OnSlot(op.Write? && op.sock == k, d)
    ensures Gained(op, a, c, k)
  {
    assert c.took[|a.took|..] == b.took[|a.took|..] + d;
    if op.Write? && op.sock == k {
      Regroup(Get(a.chip.tx, k), b.took[|a.took|..], d);
    }
  }

  lemma TurnKeeps(strict: bool, op: Op, s: State, m: State, turn: Turn, k: byte)
    requires Inv(strict, op, m) && Gained(op, s, m, k) && TurnStep(strict, m, turn).Some?
    ensures Inv(strict, op, TurnStep(strict, m, turn).value)
    ensures Gained(op, s, TurnStep(strict, m, turn).value, k)
  {
    hide Inv, Step, Delta, Lawful, Gained;
    match turn {
      case Window(x, ch) =>
        StepKeeps(strict, op, m, x, ch);
        StepMoves(strict, op, m, x, ch, k);
        GainedMore(op, s, m, TurnStep(strict, m, turn).value, Delta(m, x, ch), k);
      case Arrive(j, bytes) =>
        DeliverKeeps(strict, op, m, j, bytes);
        GainedMore(op, s, m, TurnStep(strict, m, turn).value, [], k);
      case Net(j, now) =>
        ChangeKeeps(strict, op, m, j, now);
        GainedMore(op, s, m, TurnStep(strict, m, turn).value, [], k);
    }
  }

  lemma {:induction false} ExecKeeps(strict: bool, op: Op, s: State, turns: seq<Turn>, k: byte)
    requires Inv(strict, op, s) && Exec(strict, s, turns).Some?
    ensures Inv(strict, op, Exec(strict, s, turns).value)
    ensures Gained(op, s, Exec(strict, s, turns).value, k)
  {
    hide Inv, TurnStep;
    if turns != [] {
      ExecKeeps(strict, op, s, turns[..|turns| - 1], k);
      TurnKeeps(strict, op, s, Exec(strict, s, turns[..|turns| - 1]).value, turns[|turns| - 1], k);
    } else {
      assert s.took[|s.took|..] == [] && Get(s.chip.tx, k) + [] == Get(s.chip.tx, k);
    }
  }

  predicate AtChunkEnd(data: seq<byte>, took: seq<byte>) {
    && |took| <= |data| && took == data[..|took|]
    && (|took| % 64 == 0 || |took| == |data|)
  }

  /** With all-or-nothing acks: everything on success, whole chunks on failure. */
  lemma StrictlySent(data: seq<byte>, took: seq<byte>, res: Result<Val>)
    requires Sent(true, data, took, res)
    ensures res.Ok? ==> took == data && res.value == Count(Min(|data|, 0xFFFF))
    ensures res.Err? ==> AtChunkEnd(data, took)
  {
    if res.Ok? {
      var acks :| TookAll(true, data, took, res.value.n, acks);
      FullAcksKeepPrefix(data, acks);
      TotalIsCappedSum(acks);
      assert data[..|data|] == data;
    } else {
      var acks, w :| TookSome(true, data, took, acks, w);
      FullAcksKeepPrefix(data, acks);
      WholeChunks(data, acks, w);
    }
  }

  /** So has a send that is still going on: whole chunks from the front of the data. */
  lemma StrictProgress(s: State, sock: byte, data: seq<byte>)
    requires WriteInv(true, s, sock, data)
    ensures s.ctl.pc.Done? || AtChunkEnd(data, s.took)
  {
    if !s.ctl.pc.Done? {
      var acks := s.ctl.pc.acks;
      TookNone(true, data, acks);
      if s.ctl.pc.Chunk? && s.ctl.Await? {
        WriteFails(true, data, s.took, Nina, acks, AckValue(s.chip.reply.value.items[0]).value);
      } else {
        WriteFails(true, data, s.took, Nina, acks, 0);
      }
      StrictlySent(data, s.took, Err(Nina));
    }
  }

  lemma WholeChunks(data: seq<byte>, acks: seq<nat>, w: nat)
    requires AcksFit(data, acks) && AllFull(data, acks)
    requires var chunk := ChunkAt(data, |acks|); w == 0 || w == |chunk|
    ensures AtChunkEnd(data, data[..Min(64 * |acks|, |data|)] + ChunkAt(data, |acks|)[..w])
  {
    var n := |acks|;
    var chunk := ChunkAt(data, n);
    if 64 * n <= |data| {
      ChunkExtends(data, n);
      if w == 0 {
        assert chunk[..w] == [];
        assert data[..64 * n] + [] == data[..64 * n];
      } else {
        assert chunk[..w] == chunk;
      }
    } else {
      assert data[..|data|] + [] == data;
    }
  }

  /**
    One send from the caller's buffer to the chip, through frames, chip-side decoding,
    retries and lost replies: its slot has gained exactly `s'.took`, no other slot has
    changed, and with all-or-nothing acks Ok means all of `data`, Err means whole chunks.
  */
  lemma SendEndToEnd(sock: byte, data: seq<byte>, chip: Chip, turns: seq<Turn>, k: byte)
    requires Exec(true, State(Ready(Start(Write(sock, data))), chip, []), turns).Some?
    requires Exec(true, State(Ready(Start(Write(sock, data))), chip, []), turns).value.ctl.pc.Done?
    ensures var s' := Exec(true, State(Ready(Start(Write(sock, data))), chip, []), turns).value;
            var res := s'.ctl.pc.res;
            && Get(s'.chip.tx, k) == Get(chip.tx, k) + OnSlot(k == sock, s'.took)
            && (res.Ok? ==> s'.took == data && res.value == Count(Min(|data|, 0xFFFF)))
            && (res.Err? ==> AtChunkEnd(data, s'.took))
  {
    var op := Write(sock, data);
    var s := State(Ready(Start(op)), chip, []);
    StartInv(true, op, chip);
    ExecKeeps(true, op, s, turns, k);
    var s' := Exec(true, s, turns).value;
    hide Exec;
    assert s'.took[0..] == s'.took;
    StrictlySent(data, s'.took, s'.ctl.pc.res);
  }

  /**
    The same when the chip may take part of a chunk: a successful run has truthful
    acks, what was accepted is what they kept, and the result is their capped sum.
  */
  lemma PartialSend(sock: byte, data: seq<byte>, chip: Chip, turns: seq<Turn>) returns (acks: seq<nat>)
    requires Exec(false, State(Ready(Start(Write(sock, data))), chip, []), turns).Some?
    requires var ctl := Exec(false, State(Ready(Start(Write(sock, data))), chip, []), turns).value.ctl;
             ctl.pc.Done? && ctl.pc.res.Ok?
    ensures AcksFit(data, acks) && |acks| == ChunkCount(|data|)
    ensures var s' := Exec(false, State(Ready(Start(Write(sock, data))), chip, []), turns).value;
            && Get(s'.chip.tx, sock) == Get(chip.tx, sock) + Kept(data, acks)
            && s'.ctl.pc.res.value == Count(Min(Sum(acks), 0xFFFF))
  {
    var op := Write(sock, data);
    var s := State(Ready(Start(op)), chip, []);
    StartInv(false, op, chip);
    ExecKeeps(false, op, s, turns, sock);
    var s' := Exec(false, s, turns).value;
    hide Exec;
    assert s'.took[0..] == s'.took;
    acks :| TookAll(false, data, s'.took, s'.ctl.pc.res.value.n, acks);
    TotalIsCappedSum(acks);
  }

  /** Exactly when a successful send reports the length of its data, over all runs. */
  lemma SendReportsLength(sock: byte, data: seq<byte>, chip: Chip, turns: seq<Turn>)
    requires Exec(false, State(Ready(Start(Write(sock, data))), chip, []), turns).Some?
    requires var ctl := Exec(false, State(Ready(Start(Write(sock, data))), chip, []), turns).value.ctl;
             ctl.pc.Done? && ctl.pc.res.Ok?
    ensures var s' := Exec(false, State(Ready(Start(Write(sock, data))), chip, []), turns).value;
            s'.ctl.pc.res.value == Count(|data|)
            <==> Get(s'.chip.tx, sock) == Get(chip.tx, sock) + data && |data| <= 0xFFFF
  {
    var acks := PartialSend(sock, data, chip, turns);
    TotalIsCappedSum(acks);
    KeptIsData(data, acks);
    CountIsLength(data, acks);
    hide Exec, Kept, Sum, Total, Get;
    SameTail(Get(chip.tx, sock), Kept(data, acks), data);
  }

  lemma SameTail(a: seq<byte>, b: seq<byte>, c: seq<byte>)
    ensures a + b == a + c <==> b == c
  {
    if a + b == a + c {
      assert (a + b)[|a|..] == b && (a + c)[|a|..] == c;
    }
  }

  // ---- from the driver's log to the chip ----

  /** The transfers of a run, without the arrivals between them. */
  function LogOf(turns: seq<Turn>): seq<Xfer> {
    if turns == [] then []
    else LogOf(turns[..|turns| - 1]) + match turns[|turns| - 1] case Window(x, _) => [x] case _ => []
  }

  /** What a turn does to the chip, whatever the host makes of it. */
  function ChipTurn(c: Chip, turn: Turn): Chip {
    match turn
    case Arrive(k, bytes) => Deliver(c, k, bytes)
    case Net(k, now) => Change(c, k, now)
    case Window(x, ch) =>
      match x
      case Send(_, _, mosi, _) => Absorb(c, mosi, ch)
      case Recv(_, _, _, got) => if got == Err(Pin) then c else c.(reply := None)
      case Nap => c
  }

  function ChipAfter(c: Chip, turns: seq<Turn>): Chip {
    if turns == [] then c else ChipTurn(ChipAfter(c, turns[..|turns| - 1]), turns[|turns| - 1])
  }

  /** Each window's stream is one the chip, as its past windows left it, may have offered. */
  predicate Played(strict: bool, c: Chip, turns: seq<Turn>) {
    turns == [] ||
    var front := turns[..|turns| - 1];
    && Played(strict, c, front)
    && match turns[|turns| - 1]
       case Arrive(_, _) => true
       case Net(_, _) => true
       case Window(x, ch) => Lawful(strict, ch) && (x.Recv? ==> Heard(ChipAfter(c, front).reply, x.miso, x.got))
  }

  lemma PlayedStep(strict: bool, m: State, x: Xfer, ch: Choice)
    requires Lawful(strict, ch) && (x.Recv? ==> Heard(m.chip.reply, x.miso, x.got))
    requires Advance(m.ctl, x).Some?
    ensures Step(m, x, ch).Some?
    ensures Step(m, x, ch).value.ctl == Advance(m.ctl, x).value
    ensures Step(m, x, ch).value.chip == ChipTurn(m.chip, Window(x, ch))
  {
    hide Advance, Heard, Absorb, MovedBy;
  }

  /** A log the machine would have made, played on the bus, is a run against the chip. */
  lemma {:induction false} PlayedLogRuns(strict: bool, s: State, turns: seq<Turn>)
    requires Played(strict, s.chip, turns) && After(s.ctl, LogOf(turns)).Some?
    ensures Exec(strict, s, turns).Some?
    ensures var s' := Exec(strict, s, turns).value;
            s'.ctl == After(s.ctl, LogOf(turns)).value && s'.chip == ChipAfter(s.chip, turns)
  {
    if turns != [] {
      var front, turn := turns[..|turns| - 1], turns[|turns| - 1];
      hide Advance, Step, Heard, Lawful, ChipTurn;
      match turn {
        case Window(x, ch) =>
          AfterSnoc(s.ctl, LogOf(front), x);
          PlayedLogRuns(strict, s, front);
          PlayedStep(strict, Exec(strict, s, front).value, x, ch);
        case Arrive(k, bytes) =>
          assert LogOf(turns) == LogOf(front);
          PlayedLogRuns(strict, s, front);
          ArriveTurn(ChipAfter(s.chip, front), k, bytes);
        case Net(k, now) =>
          assert LogOf(turns) == LogOf(front);
          PlayedLogRuns(strict, s, front);
          NetTurn(ChipAfter(s.chip, front), k, now);
      }
    }
  }

  lemma NetTurn(c: Chip, k: byte, now: Option<byte>)
    ensures ChipTurn(c, Net(k, now)) == Change(c, k, now)
  {
  }

  lemma ArriveTurn(c: Chip, k: byte, bytes: seq<byte>)
    ensures ChipTurn(c, Arrive(k, bytes)) == Deliver(c, k, bytes)
  {
  }

  /**
    What the send method promises about its log, read on the chip: if the bus carried
    what the chip had to say and the chip takes chunks whole or not at all, its slot gains
    all of `data` on Ok and whole chunks on Err while that log is made, and no other slot
    gains anything.
  */
  lemma LoggedSend(sock: byte, data: seq<byte>, chip: Chip, turns: seq<Turn>, res: Result<Val>)
    returns (took: seq<byte>)
    requires After(Ready(Start(Write(sock, data))), LogOf(turns)) == Some(Ready(Done(res)))
    requires Played(true, chip, turns)
    ensures forall k :: Get(ChipAfter(chip, turns).tx, k) == Get(chip.tx, k) + OnSlot(k == sock, took)
    ensures res.Ok? ==> took == data && res.value == Count(Min(|data|, 0xFFFF))
    ensures res.Err? ==> AtChunkEnd(data, took)
  {
    hide Exec, After, Played, ChipAfter, OnSlot, Get;
    var s := State(Ready(Start(Write(sock, data))), chip, []);
    PlayedLogRuns(true, s, turns);
    took := Exec(true, s, turns).value.took;
    forall k ensures Get(ChipAfter(chip, turns).tx, k) == Get(chip.tx, k) + OnSlot(k == sock, took) {
      SendEndToEnd(sock, data, chip, turns, k);
    }
    SendEndToEnd(sock, data, chip, turns, sock);
  }

  // ---- reads ----

  /** What slot `k`'s peer sent during a run. */
  function Arrived(turns: seq<Turn>, k: byte): seq<byte> {
    if turns == [] then []
    else
      match turns[|turns| - 1]
      case Window(_, _) => Arrived(turns[..|turns| - 1], k)
      case Net(_, _) => Arrived(turns[..|turns| - 1], k)
      case Arrive(j, bytes) => Arrived(turns[..|turns| - 1], k) + OnSlot(j == k, bytes)
  }

  /** All that was queued or arrived for slot `k` has been moved by its own read or is still queued. */
  predicate Conserved(op: Op, c: Chip, arrived: seq<byte>, s: State, k: byte) {
    Get(c.rx, k) + arrived == OnSlot(op.Read? && op.sock == k, s.took) + Get(s.chip.rx, k)
  }

  lemma MovedOn(total: seq<byte>, p: bool, took: seq<byte>, d: seq<byte>, rest: seq<byte>)
    requires total == OnSlot(p, took) + (OnSlot(p, d) + rest)
    ensures total == OnSlot(p, took + d) + rest
  {
  }

  lemma ArrivedMore(a: seq<byte>, b: seq<byte>, c: seq<byte>, d: seq<byte>, e: seq<byte>)
    requires a + b == c + d
    ensures a + (b + e) == c + (d + e)
  {
    Regroup(a, b, e);
    Regroup(c, d, e);
  }

  lemma DeliverRx(c: Chip, j: byte, bytes: seq<byte>, k: byte)
    ensures Get(Deliver(c, j, bytes).rx, k) == Get(c.rx, k) + OnSlot(j == k, bytes)
  {
  }

  lemma {:induction false} ExecConserves(strict: bool, op: Op, chip: Chip, turns: seq<Turn>, k: byte)
    requires op.Read? ==> op.room > 0
    requires Exec(strict, State(Ready(Start(op)), chip, []), turns).Some?
    ensures Conserved(op, chip, Arrived(turns, k), Exec(strict, State(Ready(Start(op)), chip, []), turns).value, k)
  {
    var s := State(Ready(Start(op)), chip, []);
    hide Step, Inv, Get, Lawful, Delta, Deliver;
    if turns == [] {
      assert Get(chip.rx, k) + [] == [] + Get(chip.rx, k);
    } else {
      var front := turns[..|turns| - 1];
      ExecConserves(strict, op, chip, front, k);
      StartInv(strict, op, chip);
      ExecKeeps(strict, op, s, front, k);
      var m, s' := Exec(strict, s, front).value, Exec(strict, s, turns).value;
      hide Exec, OnSlot;
      match turns[|turns| - 1] {
        case Window(x, ch) =>
          StepMoves(strict, op, m, x, ch, k);
          MovedOn(Get(chip.rx, k) + Arrived(turns, k), op.Read? && op.sock == k, m.took, Delta(m, x, ch), Get(s'.chip.rx, k));
        case Arrive(j, bytes) =>
          DeliverRx(m.chip, j, bytes, k);
          ArrivedMore(Get(chip.rx, k), Arrived(front, k), OnSlot(op.Read? && op.sock == k, m.took), Get(m.chip.rx, k),
                      OnSlot(j == k, bytes));
        case Net(j, now) =>
      }
    }
  }

  /**
    What a read promises about its log, read on the chip: the bytes it returns are the
    front of what was queued and what arrived meanwhile, the rest is still queued, other
    slots keep theirs, and at end of file only what came after the empty pull is left.
  */
  lemma LoggedRead(sock: byte, room: nat, chip: Chip, turns: seq<Turn>, res: Result<Val>) returns (took: seq<byte>)
    requires room > 0 && Played(false, chip, turns)
    requires After(Ready(Start(Read(sock, room))), LogOf(turns)) == Some(Ready(Done(res)))
    ensures forall k :: Get(chip.rx, k) + Arrived(turns, k)
                        == OnSlot(k == sock, took) + Get(ChipAfter(chip, turns).rx, k)
    ensures res.Ok? ==> res.value == Data(took) && |took| <= room
    ensures res.Ok? && took == [] ==> OnlyLate(ChipAfter(chip, turns), sock) && ToldClosed(ChipAfter(chip, turns), sock)
  {
    hide Exec, After, Played, ChipAfter, OnSlot, Get, Arrived, OnlyLate, ToldClosed;
    var op := Read(sock, room);
    var s := State(Ready(Start(op)), chip, []);
    PlayedLogRuns(false, s, turns);
    StartInv(false, op, chip);
    ExecKeeps(false, op, s, turns, sock);
    took := Exec(false, s, turns).value.took;
    forall k ensures Get(chip.rx, k) + Arrived(turns, k) == OnSlot(k == sock, took) + Get(ChipAfter(chip, turns).rx, k) {
      ExecConserves(false, op, chip, turns, k);
    }
  }

  /**
    A connect that returns a slot has heard the chip say of that very slot, and last of
    all, that it is established.
  */
  lemma LoggedConnect(op: Op, chip: Chip, turns: seq<Turn>, k: byte)
    requires op.Connect? || op.ConnectHost?
    requires After(Ready(Start(op)), LogOf(turns)) == Some(Ready(Done(Ok(Slot(k))))) && Played(false, chip, turns)
    ensures ToldUp(ChipAfter(chip, turns), k)
  {
    hide Exec, After, Played, ChipAfter;
    var s := State(Ready(Start(op)), chip, []);
    PlayedLogRuns(false, s, turns);
    StartInv(false, op, chip);
    ExecKeeps(false, op, s, turns, k);
  }

  // ---- replies on the wire ----

  /** The chip's own reply after any amount of idle noise, cut off anywhere, is truthful to every decoder. */
  lemma CarriedIsTruthful(reply: Reply, how: How, noise: seq<byte>, k: nat)
    requires Matched(reply.to.cmd, how) && Clean(noise)
    requires k <= |noise + ReplyBytes(reply)|
    ensures Truthful(Some(reply), Decode(reply.to.cmd, how, (noise + ReplyBytes(reply))[..k]).res)
  {
    hide Decode, ReplyBytes;
    var message := ReplyBytes(reply);
    var s := (noise + message)[..k];
    StartsReply(reply);
    var n := Min(k, |noise|);
    assert s == noise[..n] + message[..k - n];
    SkipIdleIs(noise[..n], message[..k - n]);
    OfferedIsTruthful(Some(reply), reply.to.cmd, how, s);
  }

  lemma StartsReply(reply: Reply)
    ensures ReplyBytes(reply) != [] && ReplyBytes(reply)[0] == START_CMD
  {
  }

  /** Nothing the chip can put on the bus is ruled out: the host receives it, and truthfully. */
  lemma EveryOfferIsHeard(s: State, miso: seq<byte>, ch: Choice)
    requires s.ctl.Await? && Asks(s.ctl.pc) && Offers(miso, MessageOf(s.chip.reply))
    ensures var ask := AskOf(s.ctl.pc);
            var x := Recv(ask.cmd, ask.how, miso, Decode(ask.cmd, ask.how, miso).res);
            && Step(s, x, ch).Some?
            && Truthful(s.chip.reply, x.got)
            && Step(s, x, ch).value.ctl == Ready(Resume(s.ctl.pc, x.got))
  {
    hide Decode, AskOf, Resume, Offers;
    AskMatches(s.ctl.pc);
    OfferedIsTruthful(s.chip.reply, AskOf(s.ctl.pc).cmd, AskOf(s.ctl.pc).how, miso);
  }

  /** A read whose reply is on its way gets it, or a bus error, or a timeout: never BufferTooSmall. */
  lemma PullNeverTooSmall(s: State, sock: byte, room: nat, noise: seq<byte>, k: nat)
    requires ReadInv(s, sock, room) && s.ctl == Await(Pull(sock, room)) && Clean(noise)
    requires k <= |noise + Reply16(CMD_GET_DATABUF_TCP, s.took)|
    ensures var got := Decode(CMD_GET_DATABUF_TCP, One16(room), (noise + Reply16(CMD_GET_DATABUF_TCP, s.took))[..k]).res;
            got == Ok([s.took]) || got == Err(Spi) || got == Err(Timeout)
  {
    hide Decode;
    assert Message(CMD_GET_DATABUF_TCP, One16(room), [s.took]) == Reply16(CMD_GET_DATABUF_TCP, s.took);
    CutReply(CMD_GET_DATABUF_TCP, One16(room), [s.took], noise, k);
  }
}
