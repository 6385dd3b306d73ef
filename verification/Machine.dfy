/**
  The driver's multi-exchange operations as a machine that asks for one exchange
  at a time.  A control point `Pc` names the next request and the loop counters;
  `Resume` says where its outcome leads.  The methods of `Driver` are proved to
  run this machine, and the shared-chip system interleaves it.
*/
module Machine {
  import opened Acks
  import opened Bytes
  import opened Proto
  import opened Replies
  import opened Requests

  /** Where to connect; `host` is sent along for SNI, `polls` bounds the state polling. */
  datatype Dial = Dial(host: Option<seq<byte>>, ip: seq<byte>, port: nat, mode: byte, polls: nat)

  datatype Val =
    | Count(n: nat) | Data(bytes: seq<byte>) | Slot(sock: byte) | Addr(ip: seq<byte>) | Unit

  datatype Op =
    | Write(sock: byte, data: seq<byte>)
    | Read(sock: byte, room: nat)
    | Close(sock: byte)
    | Connect(dial: Dial)
    | ConnectHost(host: seq<byte>, dial: Dial)
    | Lookup(host: seq<byte>)
    | Begin(sock: byte, ip: seq<byte>, port: nat)
    | Insert(sock: byte, data: seq<byte>)
    | Commit(sock: byte)

  datatype Pc =
    // tcp_send: `acks` are the non-zero acks so far
    | Chunk(sock: byte, data: seq<byte>, acks: seq<nat>, attempt: nat)
    | Drain(sock: byte, data: seq<byte>, acks: seq<nat>, poll: nat)
    // read
    | Pull(sock: byte, room: nat)
    | Probe(sock: byte, room: nat)
    | Doze(sock: byte, room: nat)
    // dns_lookup, alone or in front of a connect
    | DnsAsk(host: seq<byte>, dial: Option<Dial>)
    | DnsPoll(i: nat, dial: Option<Dial>)
    // connect
    | Open(d: Dial)
    | StartClient(d: Dial, sock: byte)
    | Poll(d: Dial, sock: byte, i: nat)
    | GiveUp(sock: byte)
    // single exchanges
    | Stop(sock: byte)
    | BeginAt(sock: byte, ip: seq<byte>, port: nat)
    | InsertAt(sock: byte, data: seq<byte>)
    | CommitAt(sock: byte)
    | Done(res: Result<Val>)

  /** What one exchange sends and how its reply is read. */
  datatype Ask = Ask(cmd: byte, params: seq<Param>, how: How)

  const SEND_ATTEMPTS: nat := 5
  const DRAIN_POLLS: nat := 20
  const DNS_POLLS: nat := 40

  function Start(op: Op): Pc {
    match op
    case Write(sock, data) => NextChunk(sock, data, [])
    case Read(sock, room) => Pull(sock, room)
    case Close(sock) => Stop(sock)
    case Connect(dial) => Open(dial)
    case ConnectHost(host, dial) => DnsAsk(host, Some(dial))
    case Lookup(host) => DnsAsk(host, None)
    case Begin(sock, ip, port) => BeginAt(sock, ip, port)
    case Insert(sock, data) => InsertAt(sock, data)
    case Commit(sock) => CommitAt(sock)
  }

  predicate Asks(pc: Pc) {
    !pc.Done? && !pc.Doze?
  }

  function ClientItems(host: Option<seq<byte>>, ip: seq<byte>, port: nat, sock: byte, mode: byte): seq<seq<byte>> {
    match host
    case None => [ip, Be16(port), [sock], [mode]]
    case Some(h) => [h, ip, Be16(port), [sock], [mode]]
  }

  function Want(room: nat): nat {
    Min(room, 0xFFFF)
  }

  function AskOf(pc: Pc): Ask
    requires Asks(pc)
  {
    match pc
    case Chunk(sock, data, acks, _) =>
      Ask(CMD_SEND_DATA_TCP, [Long([sock]), Long(ChunkAt(data, |acks|))], One8(4))
    case Drain(sock, _, _, _) => Ask(CMD_DATA_SENT_TCP, Shorts([[sock]]), One8(1))
    case Pull(sock, room) => Ask(CMD_GET_DATABUF_TCP, [Long([sock]), Long(Le16(Want(room)))], One16(room))
    case Probe(sock, _) => Ask(CMD_GET_CLIENT_STATE_TCP, Shorts([[sock]]), One8(1))
    case DnsAsk(host, _) => Ask(CMD_REQ_HOST_BY_NAME, Shorts([host]), One8(1))
    case DnsPoll(_, _) => Ask(CMD_GET_HOST_BY_NAME, [], One8(4))
    case Open(_) => Ask(CMD_GET_SOCKET, [], One8(1))
    case StartClient(d, sock) =>
      Ask(CMD_START_CLIENT_TCP, Shorts(ClientItems(d.host, d.ip, d.port, sock, d.mode)), Into(4))
    case Poll(_, sock, _) => Ask(CMD_GET_CLIENT_STATE_TCP, Shorts([[sock]]), One8(1))
    case GiveUp(sock) => Ask(CMD_STOP_CLIENT_TCP, Shorts([[sock]]), One8(1))
    case Stop(sock) => Ask(CMD_STOP_CLIENT_TCP, Shorts([[sock]]), One8(1))
    case BeginAt(sock, ip, port) =>
      Ask(CMD_START_CLIENT_TCP, Shorts(ClientItems(None, ip, port, sock, UDP_MODE)), Into(4))
    case InsertAt(sock, data) => Ask(CMD_INSERT_DATABUF, [Long([sock]), Long(data)], One8(1))
    case CommitAt(sock) => Ask(CMD_SEND_UDP_DATA, Shorts([[sock]]), One8(1))
  }

  /** The next chunk, or the end of the send with the saturated total. */
  function NextChunk(sock: byte, data: seq<byte>, acks: seq<nat>): Pc {
    if 64 * |acks| < |data| then Chunk(sock, data, acks, 0) else Done(Ok(Count(Total(acks))))
  }

  /** A zeroed one-byte buffer after the payload was copied over it. */
  function Byte0(items: seq<seq<byte>>): byte {
    if items == [] || items[0] == [] then 0 else items[0][0]
  }

  function First(items: seq<seq<byte>>): seq<byte> {
    if items == [] then [] else items[0]
  }

  /** The count in a send ack of one byte, or of two little-endian bytes. */
  function AckValue(p: seq<byte>): Option<nat> {
    if |p| == 1 then Some(p[0]) else if |p| == 2 then Some(FromLe16(p[0], p[1])) else None
  }

  function Accepted(items: seq<seq<byte>>): Result<Val> {
    if Byte0(items) == 1 then Ok(Unit) else Err(Nina)
  }

  function Failed<T>(r: Result<T>): Pc
    requires r.Err?
  {
    Done(Err(r.error))
  }

  function Resolved(ip: seq<byte>, dial: Option<Dial>): Pc {
    match dial
    case None => Done(Ok(Addr(ip)))
    case Some(d) => Open(d.(ip := ip))
  }

  function NextDnsPoll(i: nat, dial: Option<Dial>): Pc {
    if i < DNS_POLLS then DnsPoll(i, dial) else Done(Err(Timeout))
  }

  function NextPoll(d: Dial, sock: byte, i: nat): Pc {
    if i < d.polls then Poll(d, sock, i) else GiveUp(sock)
  }

  const STILL_RESOLVING: seq<byte> := [0, 0, 0, 0]

  function Resume(pc: Pc, r: Result<seq<seq<byte>>>): Pc
    requires Asks(pc)
  {
    match pc
    case Chunk(sock, data, acks, attempt) =>
      if r.Err? then Failed(r)
      else (
        match AckValue(First(r.value))
        case None => Done(Err(Framing))
        case Some(w) =>
          if w > 0 then Drain(sock, data, acks + [w], 0)
          else if attempt + 1 < SEND_ATTEMPTS then Chunk(sock, data, acks, attempt + 1)
          else Done(Err(Nina)))
    case Drain(sock, data, acks, poll) =>
      if r.Err? then Failed(r)
      else if Byte0(r.value) != 0 then NextChunk(sock, data, acks)
      else if poll + 1 < DRAIN_POLLS then Drain(sock, data, acks, poll + 1)
      else Done(Err(Timeout))
    case Pull(sock, room) =>
      if r.Err? then Failed(r)
      else if First(r.value) != [] then Done(Ok(Data(First(r.value))))
      else Probe(sock, room)
    case Probe(sock, room) =>
      if r.Err? then Failed(r)
      else if IsClosed(SockStateFromU8(Byte0(r.value))) then Done(Ok(Data([])))
      else Doze(sock, room)
    case DnsAsk(_, dial) =>
      if r.Err? then Failed(r)
      else if Byte0(r.value) == 1 then NextDnsPoll(0, dial)
      else Done(Err(Nina))
    case DnsPoll(i, dial) =>
      if r.Ok? && |First(r.value)| == 4 && First(r.value) != STILL_RESOLVING
      then Resolved(First(r.value), dial)
      else if r.Ok? || r.error == Framing || r.error == Nina then NextDnsPoll(i + 1, dial)
      else Failed(r)
    case Open(d) =>
      if r.Err? then Failed(r)
      else if Byte0(r.value) == NO_SOCKET then Done(Err(Nina))
      else StartClient(d, Byte0(r.value))
    case StartClient(d, sock) =>
      if r.Err? then Failed(r) else NextPoll(d, sock, 0)
    case Poll(d, sock, i) =>
      if r.Err? then Failed(r)
      else if SockStateFromU8(Byte0(r.value)) == Established then Done(Ok(Slot(sock)))
      else NextPoll(d, sock, i + 1)
    case GiveUp(_) => Done(Err(Timeout))
    case Stop(_) => if r.Err? then Failed(r) else Done(Ok(Unit))
    case BeginAt(_, _, _) => if r.Err? then Failed(r) else Done(Ok(Unit))
    case InsertAt(_, _) => if r.Err? then Failed(r) else Done(Accepted(r.value))
    case CommitAt(_) => if r.Err? then Failed(r) else Done(Accepted(r.value))
  }

  // ---- transfers and runs ----

  /** Between the two halves of an exchange the host waits for the reply to what it sent. */
  datatype Ctl = Ready(pc: Pc) | Await(pc: Pc)

  /**
    One chip-select window, or a sleep at which a shared chip is unlocked.  `mosi`
    is what was clocked out, `miso` the stream the bus offered until it failed.
  */
  datatype Xfer =
    | Send(cmd: byte, params: seq<Param>, mosi: seq<byte>, sent: Result<()>)
    | Recv(cmd: byte, how: How, miso: seq<byte>, got: Result<seq<seq<byte>>>)
    | Nap

  /** What the framing layer guarantees of every transfer it performs. */
  predicate Faithful(x: Xfer) {
    match x
    case Send(cmd, params, mosi, sent) => (
      match sent
      case Ok(_) => mosi == Wire(cmd, params)
      case Err(Spi) => mosi <= Wire(cmd, params)
      case Err(Pin) => mosi == []
      case Err(BufferTooSmall) => mosi == [] && |Frame(cmd, params)| > 256
      case Err(_) => false)
    case Recv(cmd, how, miso, got) =>
      got == Decode(cmd, how, miso).res || (got == Err(Pin) && miso == [])
    case Nap => true
  }

  function Advance(c: Ctl, x: Xfer): Option<Ctl> {
    if !Faithful(x) then None
    else
      match x
      case Send(cmd, params, _, sent) =>
        if c.Ready? && Asks(c.pc) && cmd == AskOf(c.pc).cmd && params == AskOf(c.pc).params then
          if sent.Ok? then Some(Await(c.pc)) else Some(Ready(Resume(c.pc, Err(sent.error))))
        else None
      case Recv(cmd, how, _, got) =>
        if c.Await? && Asks(c.pc) && cmd == AskOf(c.pc).cmd && how == AskOf(c.pc).how
        then Some(Ready(Resume(c.pc, got)))
        else None
      case Nap =>
        if c.Ready? && c.pc.Doze? then Some(Ready(Pull(c.pc.sock, c.pc.room))) else None
  }

  /** Where a log of transfers takes the machine, if the machine would have made them. */
  function After(c: Ctl, log: seq<Xfer>): Option<Ctl> {
    if log == [] then Some(c)
    else
      match After(c, log[..|log| - 1])
      case None => None
      case Some(m) => Advance(m, log[|log| - 1])
  }

  function Last(log: seq<Xfer>): Xfer {
    if log == [] then Nap else log[|log| - 1]
  }

  lemma AfterSnoc(c: Ctl, log: seq<Xfer>, x: Xfer)
    ensures After(c, log + [x]) == (match After(c, log) case None => None case Some(m) => Advance(m, x))
  {
    Snoc(log, x);
  }

  // ---- work bounds ----

  function Sends(log: seq<Xfer>): nat {
    if log == [] then 0
    else Sends(log[..|log| - 1]) + if log[|log| - 1].Send? then 1 else 0
  }

  /** Exchanges still to come, at most. */
  function Budget(pc: Pc): nat
    requires Bounded(pc)
  {
    match pc
    case Chunk(_, data, acks, attempt) =>
      25 * (ChunkCount(|data|) - |acks|) - attempt
    case Drain(_, data, acks, poll) =>
      25 * (ChunkCount(|data|) - |acks|) + 20 - poll
    case DnsAsk(_, dial) => 41 + DialBudget(dial)
    case DnsPoll(i, dial) => 40 - i + DialBudget(dial)
    case Open(d) => d.polls + 3
    case StartClient(d, _) => d.polls + 2
    case Poll(d, _, i) => d.polls - i + 1
    case Done(_) => 0
    case _ => 1
  }

  function DialBudget(dial: Option<Dial>): nat {
    match dial case None => 0 case Some(d) => d.polls + 3
  }

  /** Loop counters within their loops; a blocking read has no bound. */
  predicate Bounded(pc: Pc) {
    match pc
    case Chunk(_, data, acks, attempt) => 64 * |acks| < |data| && attempt < SEND_ATTEMPTS
    case Drain(_, data, acks, poll) => 0 < |acks| <= ChunkCount(|data|) && poll < DRAIN_POLLS
    case DnsPoll(i, _) => i < DNS_POLLS
    case Poll(d, _, i) => i < d.polls
    case Pull(_, _) => false
    case Probe(_, _) => false
    case Doze(_, _) => false
    case _ => true
  }

  lemma StartBounded(op: Op)
    requires !op.Read?
    ensures Bounded(Start(op))
  {
  }

  lemma ResumeSpends(pc: Pc, r: Result<seq<seq<byte>>>)
    requires Asks(pc) && Bounded(pc)
    ensures Bounded(Resume(pc, r)) && Budget(Resume(pc, r)) < Budget(pc)
  {
  }

  /** Every exchange is paid for out of the initial budget. */
  lemma {:induction false} WorkSpends(pc: Pc, log: seq<Xfer>)
    requires Bounded(pc) && After(Ready(pc), log).Some?
    ensures var c := After(Ready(pc), log).value;
            && Bounded(c.pc)
            && (c.Await? ==> Asks(c.pc))
            && Sends(log) + Budget(c.pc) <= Budget(pc) + (if c.Await? then 1 else 0)
            && Sends(log) <= Budget(pc)
  {
    if log != [] {
      var front, x := log[..|log| - 1], log[|log| - 1];
      WorkSpends(pc, front);
      var m := After(Ready(pc), front).value;
      hide Budget, Resume, AskOf, Faithful;
      match x {
        case Send(_, _, _, sent) =>
          if sent.Err? {
            ResumeSpends(m.pc, Err(sent.error));
          } else {
            ResumeSpends(m.pc, Err(Spi));
          }
        case Recv(_, _, _, got) =>
          ResumeSpends(m.pc, got);
        case Nap =>
      }
    }
  }

  /**
    The most exchanges any run of an operation makes: 25 for each chunk of a send, three
    on top of the state polls for a connect (43 with 40 polls), 41 for a lookup and both for
    a connect that resolves first (124 with 80 polls), one for the others.
  */
  lemma WorkBound(op: Op, log: seq<Xfer>)
    requires !op.Read? && After(Ready(Start(op)), log).Some?
    ensures Sends(log) <=
            match op
            case Write(_, data) => 25 * ChunkCount(|data|)
            case Connect(dial) => dial.polls + 3
            case ConnectHost(_, dial) => 41 + (dial.polls + 3)
            case Lookup(_) => 41
            case _ => 1
  {
    StartBounded(op);
    hide After, Sends;
    WorkSpends(Start(op), log);
  }

  lemma EncodeTwo(p: Param, q: Param)
    ensures EncodeParams([p, q]) == EncodeParam(p) + EncodeParam(q)
  {
    assert [p, q][1..] == [q] && [q][1..] == [];
    assert EncodeParams([q]) == EncodeParam(q) + [];
  }

  /** Requests for chunks and reads always fit: they cannot fail in framing, and a chunk takes at most 76 bytes. */
  lemma SmallRequests(pc: Pc)
    requires pc.Chunk? || pc.Pull?
    ensures var ask := AskOf(pc);
            && Sized(ask.params) && Uniform(ask.cmd, ask.params)
            && |Wire(ask.cmd, ask.params)| <= 76
            && forall x: Xfer :: x.Send? && x.cmd == ask.cmd && x.params == ask.params && Faithful(x)
                                 ==> x.sent != Err(BufferTooSmall)
  {
    var ps := AskOf(pc).params;
    assert ps == [ps[0], ps[1]];
    EncodeTwo(ps[0], ps[1]);
    WireAligned(AskOf(pc).cmd, ps);
    assert |Frame(AskOf(pc).cmd, ps)| <= 73;
  }

  // ---- the shape of the transaction log ----

  datatype Phase = Resting | Waiting(cmd: byte) | Broken

  function PhaseAfter(p: Phase, x: Xfer): Phase {
    match (p, x)
    case (Resting, Send(cmd, _, _, sent)) => if sent.Ok? then Waiting(cmd) else Resting
    case (Waiting(c), Recv(cmd, _, _, _)) => if c == cmd then Resting else Broken
    case (Resting, Nap) => Resting
    case _ => Broken
  }

  function PhaseOf(log: seq<Xfer>): Phase {
    if log == [] then Resting else PhaseAfter(PhaseOf(log[..|log| - 1]), log[|log| - 1])
  }

  lemma PhaseSnoc(log: seq<Xfer>, x: Xfer)
    ensures PhaseOf(log + [x]) == PhaseAfter(PhaseOf(log), x)
  {
    Snoc(log, x);
  }

  /** Every run has the shape (failed Send c | Send c, Recv c)*, the last pair possibly half done. */
  lemma {:induction false} RunsArePaired(pc: Pc, log: seq<Xfer>)
    requires After(Ready(pc), log).Some?
    ensures var c := After(Ready(pc), log).value;
            if c.Ready? then PhaseOf(log) == Resting else Asks(c.pc) && PhaseOf(log) == Waiting(AskOf(c.pc).cmd)
  {
    if log != [] {
      RunsArePaired(pc, log[..|log| - 1]);
    }
  }

  // ---- requests ----

  lemma SentBytes(x: Xfer)
    requires x.Send? && Faithful(x)
    ensures x.mosi <= Wire(x.cmd, x.params)
    ensures x.sent.Ok? ==> x.mosi == Wire(x.cmd, x.params)
  {
  }

  lemma AskUniform(pc: Pc)
    requires Asks(pc)
    ensures Uniform(AskOf(pc).cmd, AskOf(pc).params) && AsRequest(AskOf(pc).cmd) == AskOf(pc).cmd
  {
  }
}
