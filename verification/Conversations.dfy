/**
  What was said on the bus and what it decided.  Requests appear here as the chip reads
  them off the wire and replies as their payload bytes, opcodes and codes as numbers, so
  that every law about an operation can be held against a bus trace.
*/
module Conversations {
  import opened Bytes
  import opened Machine
  import opened Proto
  import opened Replies
  import opened Requests

  /** One exchange: what the driver asked, what the chip read of it, and what came back. */
  datatype Exchange = Exchange(asked: Request, read: Option<Request>, got: Result<seq<seq<byte>>>)

  function AsRead(mosi: seq<byte>): Option<Request> {
    match ChipDecode(mosi)
    case None => None
    case Some((req, _)) => Some(req)
  }

  function Asked(x: Xfer): Request {
    if x.Send? then Request(x.cmd, x.params) else Request(0, [])
  }

  function ReadOf(x: Xfer): Option<Request> {
    if x.Send? then AsRead(x.mosi) else None
  }

  /** What transfer `x` adds to the conversation, `last` being the one before it. */
  function Said(talk: seq<Exchange>, last: Xfer, x: Xfer): seq<Exchange> {
    if x.Send? && x.sent.Err? then talk + [Exchange(Asked(x), ReadOf(x), Err(x.sent.error))]
    else if x.Recv? then talk + [Exchange(Asked(last), ReadOf(last), x.got)]
    else talk
  }

  /** The exchanges of a log; a send that fails is one by itself. */
  function Talk(log: seq<Xfer>): seq<Exchange> {
    if log == [] then []
    else
      var front := log[..|log| - 1];
      Said(Talk(front), Last(front), log[|log| - 1])
  }

  /**
    The driver asked for just this, and the chip has read just this, unless the exchange
    failed and the chip has read nothing at all.
  */
  predicate About(e: Exchange, req: Request) {
    && e.asked == req
    && (Sized(req.params) ==> e.read == Some(req) || (e.read.None? && e.got.Err?))
  }

  /** The first byte of a reply, an empty payload leaving the caller's zero. */
  function Told(items: seq<seq<byte>>): byte {
    if items == [] || items[0] == [] then 0 else items[0][0]
  }

  // ---- from logs to conversations ----

  function Awake(pc: Pc): Pc {
    if pc.Doze? then Pull(pc.sock, pc.room) else pc
  }

  function RequestAt(pc: Pc): Request
    requires Asks(pc)
  {
    Request(AskOf(pc).cmd, AskOf(pc).params)
  }

  predicate Held(pc: Pc, e: Exchange) {
    Asks(pc) && About(e, RequestAt(pc)) && (e.got.Ok? ==> Deliverable(AskOf(pc).how, e.got.value))
  }

  /** Where a conversation takes the machine, if the machine would have held it. */
  function Follow(pc: Pc, talk: seq<Exchange>): Option<Pc> {
    if talk == [] then Some(pc)
    else
      match Follow(pc, talk[..|talk| - 1])
      case None => None
      case Some(p) =>
        var e := talk[|talk| - 1];
        if Held(Awake(p), e) then Some(Resume(Awake(p), e.got)) else None
  }

  lemma FollowSnoc(pc: Pc, talk: seq<Exchange>, e: Exchange)
    ensures Follow(pc, talk + [e]) ==
            match Follow(pc, talk)
            case None => None
            case Some(p) => if Held(Awake(p), e) then Some(Resume(Awake(p), e.got)) else None
  {
    Snoc(talk, e);
  }

  lemma FollowFront(pc: Pc, talk: seq<Exchange>) returns (front: seq<Exchange>, p: Pc, e: Exchange)
    requires talk != [] && Follow(pc, talk).Some?
    ensures talk == front + [e] && Follow(pc, front) == Some(p)
    ensures Held(Awake(p), e) && Follow(pc, talk) == Some(Resume(Awake(p), e.got))
  {
    hide Held, Resume;
    front, e := talk[..|talk| - 1], talk[|talk| - 1];
    p := Follow(pc, front).value;
  }

  lemma SentIsRead(pc: Pc, x: Xfer)
    requires Asks(pc) && x.Send? && Faithful(x) && x.cmd == AskOf(pc).cmd && x.params == AskOf(pc).params
    ensures Sized(x.params) && ReadOf(x).Some? ==> ReadOf(x) == Some(RequestAt(pc))
    ensures Sized(x.params) && x.sent.Ok? ==> ReadOf(x).Some?
  {
    SentBytes(x);
    AskUniform(pc);
    hide Faithful, AskOf, Wire, Frame, ChipDecode, Sized, Uniform;
    if Sized(x.params) {
      RequestArrives(x.cmd, x.params, x.mosi);
    }
  }

  lemma ReceivedFits(pc: Pc, x: Xfer)
    requires Asks(pc) && x.Recv? && Faithful(x) && x.how == AskOf(pc).how && x.got.Ok?
    ensures Deliverable(AskOf(pc).how, x.got.value)
  {
    hide Deliverable, AskOf, Decode;
    DecodeStores(x.cmd, x.how, x.miso);
  }

  /** A machine at `c`, and the same machine told only what was said. */
  predicate Tracks(c: Ctl, p: Pc, last: Xfer) {
    if c.Ready? then Awake(c.pc) == Awake(p)
    else
      && Asks(c.pc) && c.pc == Awake(p)
      && Asked(last) == RequestAt(c.pc)
      && (Sized(RequestAt(c.pc).params) ==> ReadOf(last) == Some(RequestAt(c.pc)))
  }

  lemma TalkStep(m: Ctl, p: Pc, last: Xfer, x: Xfer, talk: seq<Exchange>, pc: Pc)
    requires Tracks(m, p, last) && Advance(m, x).Some? && Follow(pc, talk) == Some(p)
    ensures var talk' := Said(talk, last, x);
            Follow(pc, talk').Some? && Tracks(Advance(m, x).value, Follow(pc, talk').value, x)
  {
    match x {
      case Send(_, _, _, sent) =>
        SentIsRead(m.pc, x);
        if sent.Err? {
          FollowSnoc(pc, talk, Exchange(Asked(x), ReadOf(x), Err(sent.error)));
        }
        hide Follow, Resume, AskOf, Faithful, ChipDecode, Sized;
      case Recv(_, _, _, got) =>
        if got.Ok? { ReceivedFits(m.pc, x); }
        FollowSnoc(pc, talk, Exchange(Asked(last), ReadOf(last), got));
        hide Follow, Resume, AskOf, Faithful, ChipDecode, Sized, Deliverable;
      case Nap =>
    }
  }

  /** Every run of the machine is a conversation of it. */
  lemma {:induction false} TalkFollows(pc: Pc, log: seq<Xfer>)
    requires After(Ready(pc), log).Some?
    ensures Follow(pc, Talk(log)).Some?
    ensures Tracks(After(Ready(pc), log).value, Follow(pc, Talk(log)).value, Last(log))
  {
    if log != [] {
      var front, x := log[..|log| - 1], log[|log| - 1];
      TalkFollows(pc, front);
      hide Tracks, Advance, Follow;
      TalkStep(After(Ready(pc), front).value, Follow(pc, Talk(front)).value, Last(front), x, Talk(front), pc);
    }
  }

  lemma FinishedTalk(pc: Pc, log: seq<Xfer>, res: Result<Val>)
    requires After(Ready(pc), log) == Some(Ready(Done(res)))
    ensures Follow(pc, Talk(log)) == Some(Done(res))
  {
    hide After, Talk, Follow;
    TalkFollows(pc, log);
  }

  // ---- operations of one exchange ----

  function AskStop(k: byte): Request {
    Request(0x2E, [Short([k])])
  }

  /** The request of an operation that makes just one. */
  function OnlyRequest(op: Op): Request {
    match op
    case Close(k) => AskStop(k)
    case Begin(k, ip, port) =>
      Request(0x2D, [Short(ip), Short([LowByte(port / 256), LowByte(port)]), Short([k]), Short([1])])
    case Insert(k, data) => Request(0x46, [Long([k]), Long(data)])
    case Commit(k) => Request(0x39, [Short([k])])
    case _ => Request(0, [])
  }

  /**
    Close, begin, write and commit ask one thing and return what the reply says: a close
    and a begin take any reply for a yes, the others only the byte 1.
  */
  lemma SingleTalk(op: Op, log: seq<Xfer>, res: Result<Val>)
    requires op.Close? || op.Begin? || op.Insert? || op.Commit?
    requires After(Ready(Start(op)), log) == Some(Ready(Done(res)))
    ensures |Talk(log)| == 1 && About(Talk(log)[0], OnlyRequest(op)) && res == OnlyResult(op, Talk(log)[0].got)
  {
    FinishedTalk(Start(op), log, res);
    hide After, Talk;
    OneHeld(op, Talk(log), res);
  }

  function OnlyResult(op: Op, got: Result<seq<seq<byte>>>): Result<Val> {
    match got
    case Err(e) => Err(e)
    case Ok(items) => if op.Close? || op.Begin? || (items != [] && items[0] == [1]) then Ok(Unit) else Err(Nina)
  }

  lemma OneOutcome(op: Op, e: Exchange)
    requires op.Close? || op.Begin? || op.Insert? || op.Commit?
    requires Held(Start(op), e)
    ensures About(e, OnlyRequest(op)) && Resume(Start(op), e.got) == Done(OnlyResult(op, e.got))
    ensures Awake(Start(op)) == Start(op) && !Start(op).Done?
  {
    OnlyAsk(op);
    hide About, AskOf, OnlyRequest;
    OneByteReply(e.got);
  }

  lemma {:induction false} OneHeld(op: Op, talk: seq<Exchange>, res: Result<Val>)
    requires op.Close? || op.Begin? || op.Insert? || op.Commit?
    requires Follow(Start(op), talk) == Some(Done(res))
    ensures |talk| == 1 && About(talk[0], OnlyRequest(op)) && res == OnlyResult(op, talk[0].got)
  {
    OnlyAsk(op);
    hide About, Held, AskOf, Follow, OnlyRequest, OnlyResult, Resume, Start;
    FollowNothing(Start(op));
    var front, p, e := FollowFront(Start(op), talk);
    if front != [] {
      SingleEnds(op, front);
    }
    DoneHoldsNothing(p, e);
    OneOutcome(op, e);
  }

  lemma OneByteReply(got: Result<seq<seq<byte>>>)
    ensures got.Ok? && Deliverable(One8(1), got.value) ==>
              && Byte0(got.value) == Told(got.value) && got == Ok([got.value[0]])
              && (Told(got.value) == 1 <==> got.value[0] == [1]) && (Told(got.value) == 4 <==> got.value[0] == [4])
  {
    if got.Ok? && |got.value| == 1 {
      assert got.value == [got.value[0]];
    }
  }

  lemma OnlyAsk(op: Op)
    requires op.Close? || op.Begin? || op.Insert? || op.Commit?
    ensures Asks(Start(op)) && RequestAt(Start(op)) == OnlyRequest(op) && Awake(Start(op)) == Start(op)
    ensures op.Close? || op.Insert? || op.Commit? ==> AskOf(Start(op)).how == One8(1)
  {
  }

  lemma SingleEnds(op: Op, talk: seq<Exchange>)
    requires op.Close? || op.Begin? || op.Insert? || op.Commit?
    requires talk != [] && Follow(Start(op), talk).Some?
    ensures Follow(Start(op), talk).value.Done?
  {
    var front := talk[..|talk| - 1];
    if front != [] {
      SingleEnds(op, front);
    }
  }

  // ---- lookup ----

  /** The poll replies that a lookup takes for "not ready": no address, the zero address, or a refusal. */
  predicate NotReady(got: Result<seq<seq<byte>>>) {
    match got
    case Err(e) => e == Framing || e == Nina
    case Ok(items) => items != [] && (|items[0]| != 4 || items[0] == [0, 0, 0, 0])
  }

  function AskHost(host: seq<byte>): Request {
    Request(0x34, [Short(host)])
  }

  const ASK_ADDRESS: Request := Request(0x35, [])

  /** The first exchange named the host and was answered with the byte 1; `polls` polls since found nothing. */
  predicate Looking(host: seq<byte>, talk: seq<Exchange>, polls: nat) {
    && |talk| == 1 + polls
    && About(talk[0], AskHost(host)) && talk[0].got == Ok([[1]])
    && forall i :: 1 <= i < |talk| ==> About(talk[i], ASK_ADDRESS) && NotReady(talk[i].got)
  }

  /** A whole lookup: what was asked, how often, and what it comes to. */
  predicate LookupTalk(host: seq<byte>, talk: seq<Exchange>, res: Result<seq<byte>>) {
    var n := |talk| - 1;
    && n >= 0
    && var last := talk[n];
       if n == 0 then
         && About(last, AskHost(host)) && last.got != Ok([[1]])
         && res == Err(if last.got.Err? then last.got.error else Nina)
       else
         && Looking(host, talk[..n], n - 1) && n <= 40
         && About(last, ASK_ADDRESS)
         && (NotReady(last.got) ==> n == 40 && res == Err(Timeout))
         && (!NotReady(last.got) ==>
               match last.got
               case Err(e) => res == Err(e)
               case Ok(items) => |items| == 1 && |items[0]| == 4 && res == Ok(items[0]))
  }

  /** The part of a conversation that looks up; what follows, if the lookup succeeds, is the dialling. */
  predicate LookedUp(host: seq<byte>, dial: Option<Dial>, talk: seq<Exchange>, pc: Pc, n: nat, res: Result<seq<byte>>) {
    && 1 <= n <= |talk| && LookupTalk(host, talk[..n], res)
    && match res
       case Err(e) => n == |talk| && pc == Done(Err(e))
       case Ok(ip) => Follow(Resolved(ip, dial), talk[n..]) == Some(pc)
  }

  ghost predicate LookupSoFar(host: seq<byte>, dial: Option<Dial>, talk: seq<Exchange>, pc: Pc) {
    match pc
    case DnsAsk(h, d) => h == host && d == dial && talk == []
    case DnsPoll(i, d) => d == dial && Looking(host, talk, i) && i < 40
    case _ => exists n: nat, res: Result<seq<byte>> :: LookedUp(host, dial, talk, pc, n, res)
  }

  lemma LookupAsks(host: seq<byte>, dial: Option<Dial>, i: nat)
    ensures RequestAt(DnsAsk(host, dial)) == AskHost(host) && RequestAt(DnsPoll(i, dial)) == ASK_ADDRESS
    ensures AskOf(DnsAsk(host, dial)).how == One8(1) && AskOf(DnsPoll(i, dial)).how == One8(4)
  {
  }

  lemma AskedHost(host: seq<byte>, dial: Option<Dial>, e: Exchange)
    requires Held(DnsAsk(host, dial), e)
    ensures LookupSoFar(host, dial, [e], Resume(DnsAsk(host, dial), e.got))
  {
    LookupAsks(host, dial, 0);
    OneByteReply(e.got);
    hide Sized;
    var talk := [e];
    if e.got == Ok([[1]]) {
      assert Looking(host, talk, 0);
    } else {
      var res: Result<seq<byte>> := match e.got case Err(x) => Err(x) case Ok(_) => Err(Nina);
      assert talk[..1] == talk;
      assert LookupTalk(host, talk, res);
      assert Resume(DnsAsk(host, dial), e.got) == Done(Err(res.error));
      assert LookedUp(host, dial, [e], Resume(DnsAsk(host, dial), e.got), 1, res);
    }
  }

  lemma AskedAddress(host: seq<byte>, dial: Option<Dial>, front: seq<Exchange>, i: nat, e: Exchange)
    requires Looking(host, front, i) && i < 40 && Held(DnsPoll(i, dial), e)
    ensures LookupSoFar(host, dial, front + [e], Resume(DnsPoll(i, dial), e.got))
  {
    LookupAsks(host, dial, i);
    hide Sized, AskOf;
    var talk := front + [e];
    var n := |front|;
    assert talk[..n] == front && talk[..n + 1] == talk && talk[n] == e;
    if NotReady(e.got) && i + 1 < 40 {
      assert Looking(host, talk, i + 1);
    } else {
      var res: Result<seq<byte>> :=
        if NotReady(e.got) then Err(Timeout) else match e.got case Err(x) => Err(x) case Ok(items) => Ok(items[0]);
      if e.got.Ok? { assert e.got.value == [e.got.value[0]]; }
      assert LookupTalk(host, talk, res);
      assert talk[n + 1..] == [];
      assert LookedUp(host, dial, talk, Resume(DnsPoll(i, dial), e.got), n + 1, res);
    }
  }

  lemma LookedUpMore(host: seq<byte>, dial: Option<Dial>, front: seq<Exchange>, e: Exchange, pc: Pc, n: nat,
                     res: Result<seq<byte>>)
    requires LookedUp(host, dial, front, pc, n, res) && Held(Awake(pc), e)
    ensures LookedUp(host, dial, front + [e], Resume(Awake(pc), e.got), n, res)
  {
    hide Held, LookupTalk, Resume, Resolved;
    var talk := front + [e];
    assert res.Ok? by { DoneHoldsNothing(pc, e); }
    assert talk[..n] == front[..n] && talk[n..] == front[n..] + [e];
    FollowSnoc(Resolved(res.value, dial), front[n..], e);
  }

  lemma DoneHoldsNothing(pc: Pc, e: Exchange)
    requires Held(Awake(pc), e)
    ensures !pc.Done?
  {
  }

  lemma LookupStep(host: seq<byte>, dial: Option<Dial>, front: seq<Exchange>, pc: Pc, e: Exchange)
    requires LookupSoFar(host, dial, front, pc) && Held(Awake(pc), e)
    ensures LookupSoFar(host, dial, front + [e], Resume(Awake(pc), e.got))
  {
    hide Held, LookupTalk, Looking, Resume, Follow, LookedUp;
    match pc {
      case DnsAsk(_, _) =>
        assert front + [e] == [e];
        AskedHost(host, dial, e);
      case DnsPoll(i, _) =>
        AskedAddress(host, dial, front, i, e);
      case _ =>
        var n: nat, res: Result<seq<byte>> :| LookedUp(host, dial, front, pc, n, res);
        LookedUpMore(host, dial, front, e, pc, n, res);
        NeverBack(Awake(pc), e);
    }
  }

  lemma {:induction false} LookupFollows(host: seq<byte>, dial: Option<Dial>, talk: seq<Exchange>)
    requires Follow(DnsAsk(host, dial), talk).Some?
    ensures LookupSoFar(host, dial, talk, Follow(DnsAsk(host, dial), talk).value)
  {
    if talk != [] {
      hide LookupSoFar, Follow;
      var front, pc, e := FollowFront(DnsAsk(host, dial), talk);
      LookupFollows(host, dial, front);
      LookupStep(host, dial, front, pc, e);
    }
  }

  /** Past the lookup, the conversation does not return to it. */
  lemma NeverBack(pc: Pc, e: Exchange)
    requires !pc.DnsAsk? && !pc.DnsPoll? && Held(pc, e)
    ensures !Resume(pc, e.got).DnsAsk? && !Resume(pc, e.got).DnsPoll?
  {
  }

  function AddrResult(res: Result<seq<byte>>): Result<Val> {
    match res case Ok(ip) => Ok(Addr(ip)) case Err(e) => Err(e)
  }

  /**
    A whole lookup is an exchange about the host that is answered with the byte 1, and then
    at most 40 polls: the first that is neither "not ready" nor a failure gives the address,
    and any other ending gives the error that goes with it.
  */
  lemma LookupConversation(host: seq<byte>, log: seq<Xfer>, res: Result<Val>) returns (r: Result<seq<byte>>)
    requires After(Ready(Start(Lookup(host))), log) == Some(Ready(Done(res)))
    ensures LookupTalk(host, Talk(log), r)
    ensures res == AddrResult(r)
    ensures res == Err(Nina)
            <==> var got := Talk(log)[0].got; got == Err(Nina) || (got.Ok? && got != Ok([[1]]))
  {
    hide After, Talk, Follow, LookupTalk;
    FinishedTalk(DnsAsk(host, None), log, res);
    r := LookupEnds(host, Talk(log), res);
    LookupRefused(host, Talk(log), r);
  }

  /** Only the first exchange can end a lookup with Nina. */
  lemma LookupRefused(host: seq<byte>, talk: seq<Exchange>, r: Result<seq<byte>>)
    requires LookupTalk(host, talk, r)
    ensures talk != []
    ensures r == Err(Nina) <==> talk[0].got == Err(Nina) || (talk[0].got.Ok? && talk[0].got != Ok([[1]]))
  {
    hide About;
    if |talk| > 1 {
      assert talk[..|talk| - 1][0] == talk[0];
    }
  }

  lemma LookupEnds(host: seq<byte>, talk: seq<Exchange>, res: Result<Val>) returns (r: Result<seq<byte>>)
    requires Follow(DnsAsk(host, None), talk) == Some(Done(res))
    ensures LookupTalk(host, talk, r)
    ensures res == AddrResult(r)
  {
    LookupFollows(host, None, talk);
    hide Follow, LookupTalk, Looking;
    var n: nat, r': Result<seq<byte>> :| LookedUp(host, None, talk, Done(res), n, r');
    r := r';
    if r.Ok? {
      FollowFromDone(Ok(Addr(r.value)), talk[n..]);
      FollowNothing(Done(Ok(Addr(r.value))));
    }
    assert n == |talk| && talk[..n] == talk;
  }

  lemma FollowNothing(pc: Pc)
    ensures Follow(pc, []) == Some(pc)
  {
  }

  lemma FollowFromDone(res: Result<Val>, talk: seq<Exchange>)
    requires Follow(Done(res), talk).Some?
    ensures talk == []
  {
    if talk != [] {
      FollowFromDone(res, talk[..|talk| - 1]);
    }
  }

  // ---- connects ----

  const ASK_SLOT: Request := Request(0x3F, [])

  function AskState(k: byte): Request {
    Request(0x2F, [Short([k])])
  }

  /** The request that starts a client on slot `k`, with the host name in front if there is one. */
  function AskStart(d: Dial, k: byte): Request {
    var rest := [Short(d.ip), Short([LowByte(d.port / 256), LowByte(d.port)]), Short([k]), Short([d.mode])];
    Request(0x2D, match d.host case None => rest case Some(h) => [Short(h)] + rest)
  }

  /** The chip handed out slot `k`, a client was started on it, and `polls` polls of it found it not established. */
  predicate Dialling(d: Dial, k: byte, talk: seq<Exchange>, polls: nat) {
    && |talk| == 2 + polls
    && About(talk[0], ASK_SLOT) && talk[0].got.Ok? && Told(talk[0].got.value) == k != 0xFF
    && About(talk[1], AskStart(d, k)) && talk[1].got.Ok?
    && forall i :: 2 <= i < |talk| ==>
         About(talk[i], AskState(k)) && talk[i].got.Ok? && Told(talk[i].got.value) != 4
  }

  /** A whole connect after any lookup: what was asked of which slot, and what it comes to. */
  predicate ConnectTalk(d: Dial, talk: seq<Exchange>, res: Result<byte>) {
    var n := |talk| - 1;
    && n >= 0
    && var got := talk[n].got;
       if n == 0 then
         && About(talk[0], ASK_SLOT)
         && (got.Err? ==> res == Err(got.error))
         && (got.Ok? ==> Told(got.value) == 0xFF && res == Err(Nina))
       else if n == 1 then
         && About(talk[0], ASK_SLOT) && talk[0].got.Ok? && Told(talk[0].got.value) != 0xFF
         && About(talk[1], AskStart(d, Told(talk[0].got.value)))
         && got.Err? && res == Err(got.error)
       else
         talk[0].got.Ok?
         && var k := Told(talk[0].got.value);
            && Dialling(d, k, talk[..n], n - 2)
            && if n - 2 == d.polls then About(talk[n], AskStop(k)) && res == Err(Timeout)
               else
                 && n - 2 < d.polls && About(talk[n], AskState(k))
                 && (got.Err? ==> res == Err(got.error))
                 && (got.Ok? ==> got == Ok([[4]]) && res == Ok(k))
  }

  function SlotResult(res: Result<byte>): Result<Val> {
    match res case Ok(k) => Ok(Slot(k)) case Err(e) => Err(e)
  }

  ghost predicate ConnectSoFar(d: Dial, talk: seq<Exchange>, pc: Pc) {
    match pc
    case Open(d') => d' == d && talk == []
    case StartClient(d', k) =>
      && d' == d && |talk| == 1 && About(talk[0], ASK_SLOT) && talk[0].got.Ok? && Told(talk[0].got.value) == k != 0xFF
    case Poll(d', k, i) => d' == d && i < d.polls && Dialling(d, k, talk, i)
    case GiveUp(k) => Dialling(d, k, talk, d.polls)
    case Done(_) => exists r :: pc == Done(SlotResult(r)) && ConnectTalk(d, talk, r)
    case _ => false
  }

  lemma ConnectAsks(d: Dial, k: byte, i: nat)
    ensures RequestAt(Open(d)) == ASK_SLOT && RequestAt(StartClient(d, k)) == AskStart(d, k)
    ensures RequestAt(Poll(d, k, i)) == AskState(k) && RequestAt(GiveUp(k)) == AskStop(k)
    ensures AskOf(Open(d)).how == One8(1) && AskOf(Poll(d, k, i)).how == One8(1)
  {
    assert AskOf(StartClient(d, k)).params == AskStart(d, k).params;
  }

  lemma StateByte(b: byte)
    ensures SockStateFromU8(b) == Established <==> b == 4
    ensures IsClosed(SockStateFromU8(b)) <==> b in {0, 7, 8, 9, 10}
  {
  }

  lemma SlotAsked(d: Dial, e: Exchange)
    requires Held(Open(d), e)
    ensures ConnectSoFar(d, [e], Resume(Open(d), e.got))
  {
    ConnectAsks(d, 0, 0);
    OneByteReply(e.got);
    hide Sized, AskOf;
    if Resume(Open(d), e.got).Done? {
      var r: Result<byte> := match e.got case Err(x) => Err(x) case Ok(_) => Err(Nina);
      assert ConnectTalk(d, [e], r);
    }
  }

  lemma StartAsked(d: Dial, k: byte, front: seq<Exchange>, e: Exchange)
    requires ConnectSoFar(d, front, StartClient(d, k)) && Held(StartClient(d, k), e)
    ensures ConnectSoFar(d, front + [e], Resume(StartClient(d, k), e.got))
  {
    ConnectAsks(d, k, 0);
    hide Sized, AskOf, AskStart;
    var talk := front + [e];
    if e.got.Err? {
      var r: Result<byte> := Err(e.got.error);
      assert ConnectTalk(d, talk, r);
    } else {
      assert Dialling(d, k, talk, 0);
    }
  }

  lemma StateAsked(d: Dial, k: byte, i: nat, front: seq<Exchange>, e: Exchange)
    requires Dialling(d, k, front, i) && i < d.polls && Held(Poll(d, k, i), e)
    ensures ConnectSoFar(d, front + [e], Resume(Poll(d, k, i), e.got))
  {
    ConnectAsks(d, k, i);
    OneByteReply(e.got);
    hide Sized, AskOf, AskStart;
    var talk := front + [e];
    var n := |front|;
    assert talk[..n] == front && talk[n] == e;
    if e.got.Ok? { StateByte(Told(e.got.value)); }
    if e.got.Ok? && Told(e.got.value) != 4 {
      assert Dialling(d, k, talk, i + 1);
    } else {
      var r: Result<byte> := match e.got case Err(x) => Err(x) case Ok(_) => Ok(k);
      assert ConnectTalk(d, talk, r);
    }
  }

  lemma StopAsked(d: Dial, k: byte, front: seq<Exchange>, e: Exchange)
    requires Dialling(d, k, front, d.polls) && Held(GiveUp(k), e)
    ensures ConnectSoFar(d, front + [e], Resume(GiveUp(k), e.got))
  {
    ConnectAsks(d, k, 0);
    hide Sized, AskOf, AskStart;
    var talk := front + [e];
    var n := |front|;
    assert talk[..n] == front && talk[n] == e;
    var r: Result<byte> := Err(Timeout);
    assert ConnectTalk(d, talk, r);
  }

  lemma ConnectStep(d: Dial, front: seq<Exchange>, pc: Pc, e: Exchange)
    requires ConnectSoFar(d, front, pc) && Held(Awake(pc), e)
    ensures ConnectSoFar(d, front + [e], Resume(Awake(pc), e.got))
  {
    DoneHoldsNothing(pc, e);
    match pc {
      case Open(_) =>
        assert front + [e] == [e];
        SlotAsked(d, e);
      case StartClient(_, k) =>
        StartAsked(d, k, front, e);
      case Poll(_, k, i) =>
        hide ConnectTalk, Dialling, Held;
        StateAsked(d, k, i, front, e);
      case GiveUp(k) =>
        hide ConnectTalk, Dialling, Held;
        StopAsked(d, k, front, e);
    }
  }

  lemma {:induction false} ConnectFollows(d: Dial, talk: seq<Exchange>)
    requires Follow(Open(d), talk).Some?
    ensures ConnectSoFar(d, talk, Follow(Open(d), talk).value)
  {
    if talk != [] {
      hide ConnectSoFar, Follow;
      var front, pc, e := FollowFront(Open(d), talk);
      ConnectFollows(d, front);
      ConnectStep(d, front, pc, e);
    }
  }

  /** A connect by address: one slot asked for, a client started on it for this very address, and that slot polled. */
  lemma ConnectConversation(d: Dial, log: seq<Xfer>, res: Result<Val>) returns (r: Result<byte>)
    requires After(Ready(Start(Connect(d))), log) == Some(Ready(Done(res)))
    ensures ConnectTalk(d, Talk(log), r) && res == SlotResult(r)
  {
    FinishedTalk(Start(Connect(d)), log, res);
    hide After, Talk, Follow, ConnectTalk;
    ConnectFollows(d, Talk(log));
    r :| Done(res) == Done(SlotResult(r)) && ConnectTalk(d, Talk(log), r);
  }

  /** A connect by name is a lookup of the name, and then a connect to the address it gave. */
  predicate HostTalk(host: seq<byte>, d: Dial, talk: seq<Exchange>, n: nat, ip: Result<seq<byte>>, res: Result<byte>) {
    && 1 <= n <= |talk| && LookupTalk(host, talk[..n], ip)
    && match ip
       case Err(e) => n == |talk| && res == Err(e)
       case Ok(a) => ConnectTalk(d.(ip := a), talk[n..], res)
  }

  lemma ConnectHostConversation(host: seq<byte>, d: Dial, log: seq<Xfer>, res: Result<Val>)
    returns (n: nat, ip: Result<seq<byte>>, r: Result<byte>)
    requires After(Ready(Start(ConnectHost(host, d))), log) == Some(Ready(Done(res)))
    ensures HostTalk(host, d, Talk(log), n, ip, r) && res == SlotResult(r)
  {
    hide After, Talk, Follow, HostTalk;
    FinishedTalk(DnsAsk(host, Some(d)), log, res);
    n, ip, r := HostEnds(host, d, Talk(log), res);
  }

  lemma HostEnds(host: seq<byte>, d: Dial, talk: seq<Exchange>, res: Result<Val>)
    returns (n: nat, ip: Result<seq<byte>>, r: Result<byte>)
    requires Follow(DnsAsk(host, Some(d)), talk) == Some(Done(res))
    ensures HostTalk(host, d, talk, n, ip, r) && res == SlotResult(r)
  {
    LookupFollows(host, Some(d), talk);
    hide Follow, ConnectTalk, LookupTalk;
    n, ip :| LookedUp(host, Some(d), talk, Done(res), n, ip);
    if ip.Err? {
      r := Err(ip.error);
    } else {
      ConnectFollows(d.(ip := ip.value), talk[n..]);
      r :| Done(res) == Done(SlotResult(r)) && ConnectTalk(d.(ip := ip.value), talk[n..], r);
    }
  }

  // ---- starts on the bus ----

  /** A send in a run is the request of the point the conversation before it has reached. */
  lemma SendInRun(pc: Pc, log: seq<Xfer>, i: nat) returns (p: Pc)
    requires After(Ready(pc), log).Some? && i < |log| && log[i].Send?
    ensures Follow(pc, Talk(log[..i])).Some? && p == Awake(Follow(pc, Talk(log[..i])).value)
    ensures Asks(p) && Asked(log[i]) == RequestAt(p) && Faithful(log[i])
  {
    hide After, Advance, Talk, Follow, AskOf, Faithful, Asked, ReadOf, Tracks;
    RunFront(pc, log, i + 1);
    RunFront(pc, log, i);
    TalkFollows(pc, log[..i]);
    var q := Follow(pc, Talk(log[..i])).value;
    p := Awake(q);
    assert log[..i + 1] == log[..i] + [log[i]];
    AfterSnoc(Ready(pc), log[..i], log[i]);
    SendsWhenReady(After(Ready(pc), log[..i]).value, log[i]);
    ReadyTracks(After(Ready(pc), log[..i]).value, q, Last(log[..i]));
  }

  lemma ReadyTracks(c: Ctl, p: Pc, last: Xfer)
    requires Tracks(c, p, last) && c.Ready?
    ensures Awake(c.pc) == Awake(p)
  {
  }

  lemma SendsWhenReady(c: Ctl, x: Xfer)
    requires Advance(c, x).Some? && x.Send?
    ensures c.Ready? && Asks(c.pc) && Awake(c.pc) == c.pc && Asked(x) == RequestAt(c.pc) && Faithful(x)
  {
    hide Faithful, AskOf, Resume;
  }

  /** What a start sends: this request, read by the chip just so or not at all, and surely read if the send completed. */
  predicate Sends(x: Xfer, req: Request) {
    && x.Send? && Asked(x) == req
    && (Sized(req.params) ==> (ReadOf(x).Some? ==> ReadOf(x) == Some(req)) && (x.sent.Ok? ==> ReadOf(x).Some?))
  }

  /** In any run of a connect by address, finished or not, a start is for that address on the slot just handed out. */
  lemma StartNamesSlot(d: Dial, log: seq<Xfer>, i: nat)
    requires After(Ready(Start(Connect(d))), log).Some?
    requires i < |log| && log[i].Send? && log[i].cmd == 0x2D
    ensures var talk := Talk(log[..i]);
            && |talk| == 1 && About(talk[0], ASK_SLOT) && talk[0].got.Ok?
            && Sends(log[i], AskStart(d, Told(talk[0].got.value)))
  {
    hide After, Talk, Sends, Follow, AskOf, Faithful, ConnectSoFar, Asked, RequestAt, About, AskStart, Advance;
    var p := SendInRun(Open(d), log, i);
    ConnectFollows(d, Talk(log[..i]));
    StartIsStart(p, log[i]);
    StartFollows(d, Talk(log[..i]), Follow(Open(d), Talk(log[..i])).value);
  }

  lemma StartIsStart(p: Pc, x: Xfer)
    requires Asks(p) && Asked(x) == RequestAt(p) && Faithful(x) && x.Send? && x.cmd == 0x2D
    ensures p.StartClient? || p.BeginAt?
    ensures p.StartClient? ==> Sends(x, AskStart(p.d, p.sock))
  {
    SentIsRead(p, x);
    hide Faithful, Sized, ChipDecode;
    if p.StartClient? {
      ConnectAsks(p.d, p.sock, 0);
    }
  }

  lemma StartFollows(d: Dial, talk: seq<Exchange>, pc: Pc)
    requires ConnectSoFar(d, talk, pc) && (Awake(pc).StartClient? || Awake(pc).BeginAt?)
    ensures pc.StartClient? && pc.d == d
    ensures |talk| == 1 && About(talk[0], ASK_SLOT) && talk[0].got.Ok? && Told(talk[0].got.value) == pc.sock
  {
  }

  /**
    In any run of a connect by name, finished or not, a start carries the name, the address
    in the reply to the last address poll, the port, the slot just handed out and the mode.
  */
  lemma StartNamesAddress(host: seq<byte>, d: Dial, log: seq<Xfer>, i: nat) returns (ip: seq<byte>)
    requires After(Ready(Start(ConnectHost(host, d))), log).Some?
    requires i < |log| && log[i].Send? && log[i].cmd == 0x2D
    ensures var talk := Talk(log[..i]);
            var n := |talk|;
            && n >= 3 && |ip| == 4 && ip != [0, 0, 0, 0]
            && About(talk[n - 2], ASK_ADDRESS) && talk[n - 2].got == Ok([ip])
            && About(talk[n - 1], ASK_SLOT) && talk[n - 1].got.Ok?
            && Sends(log[i], AskStart(d.(ip := ip), Told(talk[n - 1].got.value)))
  {
    hide After, Talk, Sends, Follow, AskOf, Faithful, LookupSoFar, Asked, RequestAt, About, AskStart, Advance;
    var p := SendInRun(DnsAsk(host, Some(d)), log, i);
    var talk := Talk(log[..i]);
    StartIsStart(p, log[i]);
    LookupFollows(host, Some(d), talk);
    ip := StartAfterLookup(host, d, talk, Follow(DnsAsk(host, Some(d)), talk).value);
  }

  lemma StartAfterLookup(host: seq<byte>, d: Dial, talk: seq<Exchange>, pc: Pc) returns (ip: seq<byte>)
    requires LookupSoFar(host, Some(d), talk, pc) && (Awake(pc).StartClient? || Awake(pc).BeginAt?)
    ensures pc.StartClient? && pc.d == d.(ip := ip)
    ensures |talk| >= 3 && |ip| == 4 && ip != [0, 0, 0, 0]
    ensures About(talk[|talk| - 2], ASK_ADDRESS) && talk[|talk| - 2].got == Ok([ip])
    ensures About(talk[|talk| - 1], ASK_SLOT) && talk[|talk| - 1].got.Ok? && Told(talk[|talk| - 1].got.value) == pc.sock
  {
    var n: nat, res: Result<seq<byte>> :| LookedUp(host, Some(d), talk, pc, n, res);
    ip := res.value;
    var tail := talk[n..];
    ConnectFollows(d.(ip := ip), tail);
    StartFollows(d.(ip := ip), tail, pc);
    AddressBefore(host, talk[..n], res);
    hide LookupTalk, Follow, About;
    assert talk[n - 1] == talk[..n][n - 1] && talk[n] == tail[0] && |talk| == n + 1;
  }

  /** What a successful lookup ends with. */
  lemma AddressBefore(host: seq<byte>, talk: seq<Exchange>, ip: Result<seq<byte>>)
    requires LookupTalk(host, talk, ip) && ip.Ok?
    ensures |talk| >= 2 && About(talk[|talk| - 1], ASK_ADDRESS) && talk[|talk| - 1].got == Ok([ip.value])
    ensures |ip.value| == 4 && ip.value != [0, 0, 0, 0]
  {
    var items := talk[|talk| - 1].got.value;
    assert items == [items[0]];
  }

  // ---- reads ----

  /** The pull of at most `room` bytes, the number as two little-endian bytes. */
  function AskPull(k: byte, room: nat): Request {
    var want := if room < 65535 then room else 65535;
    Request(0x45, [Long([k]), Long([want % 256, want / 256])])
  }

  predicate FoundEmpty(sock: byte, room: nat, e: Exchange) {
    About(e, AskPull(sock, room)) && e.got == Ok([[]])
  }

  predicate FoundOpen(sock: byte, e: Exchange) {
    About(e, AskState(sock)) && e.got.Ok? && Told(e.got.value) !in {0, 7, 8, 9, 10}
  }

  /** Rounds of an empty pull and a query of the same slot that found it open. */
  predicate Rounds(sock: byte, room: nat, talk: seq<Exchange>) {
    && |talk| % 2 == 0
    && forall i :: 0 <= i < |talk| ==> if i % 2 == 0 then FoundEmpty(sock, room, talk[i]) else FoundOpen(sock, talk[i])
  }

  /** A whole read: rounds, and then bytes, a closed-side state of its own slot behind an empty pull, or an error. */
  predicate ReadTalk(sock: byte, room: nat, talk: seq<Exchange>, res: Result<seq<byte>>) {
    var n := |talk| - 1;
    && n >= 0
    && var got := talk[n].got;
       if n % 2 == 0 then
         && Rounds(sock, room, talk[..n]) && About(talk[n], AskPull(sock, room))
         && match got
            case Err(e) => res == Err(e)
            case Ok(items) => |items| == 1 && items[0] != [] && res == Ok(items[0])
       else
         && Rounds(sock, room, talk[..n - 1]) && FoundEmpty(sock, room, talk[n - 1])
         && About(talk[n], AskState(sock))
         && match got
            case Err(e) => res == Err(e)
            case Ok(items) => Told(items) in {0, 7, 8, 9, 10} && res == Ok([])
  }

  function DataResult(res: Result<seq<byte>>): Result<Val> {
    match res case Ok(bytes) => Ok(Data(bytes)) case Err(e) => Err(e)
  }

  ghost predicate ReadSoFar(sock: byte, room: nat, talk: seq<Exchange>, pc: Pc) {
    match pc
    case Pull(k, r) => k == sock && r == room && Rounds(sock, room, talk)
    case Doze(k, r) => k == sock && r == room && Rounds(sock, room, talk)
    case Probe(k, r) =>
      && k == sock && r == room && |talk| % 2 == 1
      && Rounds(sock, room, talk[..|talk| - 1]) && FoundEmpty(sock, room, talk[|talk| - 1])
    case Done(_) => exists r :: pc == Done(DataResult(r)) && ReadTalk(sock, room, talk, r)
    case _ => false
  }

  lemma ReadAsks(sock: byte, room: nat)
    ensures RequestAt(Pull(sock, room)) == AskPull(sock, room) && RequestAt(Probe(sock, room)) == AskState(sock)
    ensures AskOf(Pull(sock, room)).how == One16(room) && AskOf(Probe(sock, room)).how == One8(1)
  {
  }

  lemma OnePayload(got: Result<seq<seq<byte>>>, room: nat)
    ensures got.Ok? && Deliverable(One16(room), got.value) ==> got == Ok([got.value[0]])
  {
    if got.Ok? && |got.value| == 1 {
      assert got.value == [got.value[0]];
    }
  }

  lemma PullAsked(sock: byte, room: nat, front: seq<Exchange>, e: Exchange)
    requires Rounds(sock, room, front) && Held(Pull(sock, room), e)
    ensures ReadSoFar(sock, room, front + [e], Resume(Pull(sock, room), e.got))
  {
    ReadAsks(sock, room);
    OnePayload(e.got, room);
    hide Sized, AskOf, AskPull, Rounds;
    var talk := front + [e];
    var n := |front|;
    assert n % 2 == 0 by { RoundsEven(sock, room, front); }
    assert talk[..n] == front && talk[n] == e;
    if !Resume(Pull(sock, room), e.got).Probe? {
      var r: Result<seq<byte>> := match e.got case Err(x) => Err(x) case Ok(items) => Ok(items[0]);
      assert ReadTalk(sock, room, talk, r);
    }
  }

  lemma RoundsEven(sock: byte, room: nat, talk: seq<Exchange>)
    requires Rounds(sock, room, talk)
    ensures |talk| % 2 == 0
  {
  }

  lemma ProbeAsked(sock: byte, room: nat, front: seq<Exchange>, e: Exchange)
    requires ReadSoFar(sock, room, front, Probe(sock, room)) && Held(Probe(sock, room), e)
    ensures ReadSoFar(sock, room, front + [e], Resume(Probe(sock, room), e.got))
  {
    ReadAsks(sock, room);
    OneByteReply(e.got);
    hide Sized, AskOf, AskPull;
    var talk := front + [e];
    var n := |front|;
    assert talk[..n - 1] == front[..n - 1] && talk[n - 1] == front[n - 1] && talk[n] == e;
    if e.got.Ok? { StateByte(Told(e.got.value)); }
    if Resume(Probe(sock, room), e.got).Done? {
      var r: Result<seq<byte>> := match e.got case Err(x) => Err(x) case Ok(_) => Ok([]);
      assert ReadTalk(sock, room, talk, r);
    } else {
      assert FoundOpen(sock, e);
      assert Rounds(sock, room, talk);
    }
  }

  lemma ReadStep(sock: byte, room: nat, front: seq<Exchange>, pc: Pc, e: Exchange)
    requires ReadSoFar(sock, room, front, pc) && Held(Awake(pc), e)
    ensures ReadSoFar(sock, room, front + [e], Resume(Awake(pc), e.got))
  {
    DoneHoldsNothing(pc, e);
    hide Rounds, ReadTalk, Held, FoundEmpty;
    match pc {
      case Pull(_, _) => PullAsked(sock, room, front, e);
      case Doze(_, _) => PullAsked(sock, room, front, e);
      case Probe(_, _) => ProbeAsked(sock, room, front, e);
    }
  }

  lemma {:induction false} ReadFollows(sock: byte, room: nat, talk: seq<Exchange>)
    requires Follow(Pull(sock, room), talk).Some?
    ensures ReadSoFar(sock, room, talk, Follow(Pull(sock, room), talk).value)
  {
    if talk != [] {
      hide ReadSoFar, Follow;
      var front, pc, e := FollowFront(Pull(sock, room), talk);
      ReadFollows(sock, room, front);
      ReadStep(sock, room, front, pc, e);
    }
  }

  /**
    A read pulls from its own slot and asks about its own slot only.  An empty pull followed
    by one of the bytes 0, 7, 8, 9, 10 (or an empty payload) ends it with no bytes, any other
    state byte sends it round again, and nothing else ends it with no bytes.
  */
  lemma ReadConversation(sock: byte, room: nat, log: seq<Xfer>, res: Result<Val>) returns (r: Result<seq<byte>>)
    requires After(Ready(Start(Machine.Read(sock, room))), log) == Some(Ready(Done(res)))
    ensures ReadTalk(sock, room, Talk(log), r) && res == DataResult(r)
  {
    FinishedTalk(Pull(sock, room), log, res);
    hide After, Talk, Follow, ReadTalk;
    ReadFollows(sock, room, Talk(log));
    r :| Done(res) == Done(DataResult(r)) && ReadTalk(sock, room, Talk(log), r);
  }

  // ---- writes ----

  /** The j-th 64 bytes of the data, or what is left of it. */
  function AskChunk(sock: byte, data: seq<byte>, j: nat): Request
    requires 64 * j < |data|
  {
    Request(0x44, [Long([sock]), Long(data[64 * j..if 64 * j + 64 < |data| then 64 * j + 64 else |data|])])
  }

  function AskSent(sock: byte): Request {
    Request(0x2A, [Short([sock])])
  }

  /** The number in a send ack: one byte, or two with the low one first. */
  function AckIn(items: seq<seq<byte>>): Option<nat> {
    if items == [] then None
    else
      var p: seq<nat> := items[0];
      if |p| == 1 then Some(p[0]) else if |p| == 2 then Some(p[1] * 256 + p[0]) else None
  }

  predicate IsChunk(sock: byte, data: seq<byte>, e: Exchange, j: nat) {
    64 * j < |data| && About(e, AskChunk(sock, data, j))
  }

  predicate TookNothing(sock: byte, data: seq<byte>, e: Exchange, j: nat) {
    IsChunk(sock, data, e, j) && e.got.Ok? && AckIn(e.got.value) == Some(0)
  }

  predicate TookBytes(sock: byte, data: seq<byte>, e: Exchange, j: nat) {
    IsChunk(sock, data, e, j) && e.got.Ok? && AckIn(e.got.value).Some? && AckIn(e.got.value).value > 0
  }

  predicate NotSentYet(sock: byte, e: Exchange) {
    About(e, AskSent(sock)) && e.got.Ok? && Told(e.got.value) == 0
  }

  predicate AllSent(sock: byte, e: Exchange) {
    About(e, AskSent(sock)) && e.got.Ok? && Told(e.got.value) != 0
  }

  /** What a send says next: chunk `j`, offered `tries` times already, or whether that chunk is out. */
  datatype Turnstile = AtChunk(j: nat, tries: nat) | AtDrain(j: nat, polls: nat)

  /** An exchange of a send that goes on: an empty ack repeats the chunk, a count leads to its drain, that to the next chunk. */
  function Turned(sock: byte, data: seq<byte>, a: Turnstile, e: Exchange): Option<Turnstile> {
    match a
    case AtChunk(j, tries) =>
      if TookBytes(sock, data, e, j) then Some(AtDrain(j, 0))
      else if TookNothing(sock, data, e, j) && tries < 4 then Some(AtChunk(j, tries + 1))
      else None
    case AtDrain(j, polls) =>
      if AllSent(sock, e) then Some(AtChunk(j + 1, 0))
      else if NotSentYet(sock, e) && polls < 19 then Some(AtDrain(j, polls + 1))
      else None
  }

  function Sending(sock: byte, data: seq<byte>, talk: seq<Exchange>): Option<Turnstile> {
    if talk == [] then Some(AtChunk(0, 0))
    else
      match Sending(sock, data, talk[..|talk| - 1])
      case None => None
      case Some(a) => Turned(sock, data, a, talk[|talk| - 1])
  }

  /**
    How a send ends: past its last chunk; or in an error of the bus; or, with an error of
    its own, at the fifth empty ack for one chunk, at an ack of no known form, or at the
    twentieth answer that a chunk is not out yet.
  */
  predicate SendEnds(sock: byte, data: seq<byte>, at: Turnstile, e: Exchange, res: Error) {
    match at
    case AtChunk(j, tries) =>
      && IsChunk(sock, data, e, j)
      && (e.got.Err? ==> res == e.got.error)
      && (e.got.Ok? ==>
            if AckIn(e.got.value).None? then res == Framing
            else AckIn(e.got.value) == Some(0) && tries == 4 && res == Nina)
    case AtDrain(_, polls) =>
      && About(e, AskSent(sock))
      && (e.got.Err? ==> res == e.got.error)
      && (e.got.Ok? ==> Told(e.got.value) == 0 && polls == 19 && res == Timeout)
  }

  predicate WriteTalk(sock: byte, data: seq<byte>, talk: seq<Exchange>, res: Result<Val>) {
    match res
    case Ok(v) =>
      v.Count? && Sending(sock, data, talk) == Some(AtChunk((|data| + 63) / 64, 0))
    case Err(x) =>
      && talk != []
      && var at := Sending(sock, data, talk[..|talk| - 1]);
         at.Some? && SendEnds(sock, data, at.value, talk[|talk| - 1], x)
  }

  predicate WriteSoFar(sock: byte, data: seq<byte>, talk: seq<Exchange>, pc: Pc) {
    match pc
    case Chunk(k, d, acks, tries) =>
      k == sock && d == data && 64 * |acks| < |data| && tries < 5 && Sending(sock, data, talk) == Some(AtChunk(|acks|, tries))
    case Drain(k, d, acks, polls) =>
      && k == sock && d == data && acks != [] && 64 * (|acks| - 1) < |data| && polls < 20
      && Sending(sock, data, talk) == Some(AtDrain(|acks| - 1, polls))
    case Done(res) => WriteTalk(sock, data, talk, res)
    case _ => false
  }

  lemma SendingMore(sock: byte, data: seq<byte>, front: seq<Exchange>, e: Exchange)
    requires Sending(sock, data, front).Some?
    ensures Sending(sock, data, front + [e]) == Turned(sock, data, Sending(sock, data, front).value, e)
  {
    Snoc(front, e);
  }

  lemma SendFailed(sock: byte, data: seq<byte>, front: seq<Exchange>, at: Turnstile, e: Exchange, x: Error)
    requires Sending(sock, data, front) == Some(at) && SendEnds(sock, data, at, e, x)
    ensures WriteTalk(sock, data, front + [e], Err(x))
  {
    hide Sending, SendEnds;
    Snoc(front, e);
  }

  lemma WriteAsks(sock: byte, data: seq<byte>, acks: seq<nat>, tries: nat)
    requires 64 * |acks| < |data|
    ensures RequestAt(Chunk(sock, data, acks, tries)) == AskChunk(sock, data, |acks|)
    ensures AskOf(Chunk(sock, data, acks, tries)).how == One8(4)
  {
  }

  lemma DrainAsks(sock: byte, data: seq<byte>, acks: seq<nat>, polls: nat)
    ensures RequestAt(Drain(sock, data, acks, polls)) == AskSent(sock)
    ensures AskOf(Drain(sock, data, acks, polls)).how == One8(1)
  {
  }

  lemma ChunkAsked(sock: byte, data: seq<byte>, acks: seq<nat>, tries: nat, front: seq<Exchange>, e: Exchange)
    requires WriteSoFar(sock, data, front, Chunk(sock, data, acks, tries)) && Held(Chunk(sock, data, acks, tries), e)
    ensures WriteSoFar(sock, data, front + [e], Resume(Chunk(sock, data, acks, tries), e.got))
  {
    WriteAsks(sock, data, acks, tries);
    hide Sized, AskOf, AskChunk, Sending, WriteTalk;
    SendingMore(sock, data, front, e);
    if e.got.Err? {
      SendFailed(sock, data, front, AtChunk(|acks|, tries), e, e.got.error);
    } else if AckIn(e.got.value).None? {
      SendFailed(sock, data, front, AtChunk(|acks|, tries), e, Framing);
    } else if AckIn(e.got.value) == Some(0) && tries == 4 {
      SendFailed(sock, data, front, AtChunk(|acks|, tries), e, Nina);
    }
  }

  lemma DrainAsked(sock: byte, data: seq<byte>, acks: seq<nat>, polls: nat, front: seq<Exchange>, e: Exchange)
    requires WriteSoFar(sock, data, front, Drain(sock, data, acks, polls)) && Held(Drain(sock, data, acks, polls), e)
    ensures WriteSoFar(sock, data, front + [e], Resume(Drain(sock, data, acks, polls), e.got))
  {
    DrainAsks(sock, data, acks, polls);
    hide Sized, AskOf, Sending;
    SendingMore(sock, data, front, e);
    OneByteReply(e.got);
    if e.got.Err? {
      SendFailed(sock, data, front, AtDrain(|acks| - 1, polls), e, e.got.error);
    } else if Told(e.got.value) == 0 && polls == 19 {
      SendFailed(sock, data, front, AtDrain(|acks| - 1, polls), e, Timeout);
    }
  }

  lemma {:induction false} WriteFollows(sock: byte, data: seq<byte>, talk: seq<Exchange>)
    requires Follow(Start(Machine.Write(sock, data)), talk).Some?
    ensures WriteSoFar(sock, data, talk, Follow(Start(Machine.Write(sock, data)), talk).value)
  {
    if talk != [] {
      hide WriteSoFar, Follow;
      var front, pc, e := FollowFront(Start(Machine.Write(sock, data)), talk);
      WriteFollows(sock, data, front);
      WriteStep(sock, data, front, pc, e);
    }
  }

  lemma WriteStep(sock: byte, data: seq<byte>, front: seq<Exchange>, pc: Pc, e: Exchange)
    requires WriteSoFar(sock, data, front, pc) && Held(Awake(pc), e)
    ensures WriteSoFar(sock, data, front + [e], Resume(Awake(pc), e.got))
  {
    DoneHoldsNothing(pc, e);
    hide Sending, WriteTalk, Held;
    match pc {
      case Chunk(_, _, acks, tries) => ChunkAsked(sock, data, acks, tries, front, e);
      case Drain(_, _, acks, polls) => DrainAsked(sock, data, acks, polls, front, e);
    }
  }

  /**
    A send offers its chunks in order, each up to five times until the chip takes something,
    and then asks up to twenty times about its own slot whether that is out; it ends only
    past the last chunk, or in one of the ways `SendEnds` names.
  */
  lemma WriteConversation(sock: byte, data: seq<byte>, log: seq<Xfer>, res: Result<Val>)
    requires After(Ready(Start(Machine.Write(sock, data))), log) == Some(Ready(Done(res)))
    ensures WriteTalk(sock, data, Talk(log), res)
  {
    FinishedTalk(Start(Machine.Write(sock, data)), log, res);
    hide After, Talk, Follow, WriteTalk;
    WriteFollows(sock, data, Talk(log));
  }

  // ---- conversations and the transfers they are made of ----

  lemma TalkSnoc(log: seq<Xfer>, x: Xfer)
    ensures Talk(log + [x]) == Said(Talk(log), Last(log), x)
  {
    hide Said;
    Snoc(log, x);
  }

  lemma AdvanceMeaning(c: Ctl, x: Xfer)
    requires Advance(c, x).Some?
    ensures x.Recv? <==> c.Await?
    ensures Advance(c, x).value.Await? <==> x.Send? && x.sent.Ok?
  {
  }

  lemma RunLast(pc: Pc, log: seq<Xfer>) returns (front: seq<Xfer>)
    requires log != [] && After(Ready(pc), log).Some?
    ensures log == front + [Last(log)] && |front| == |log| - 1 && front == log[..|log| - 1]
    ensures After(Ready(pc), front).Some?
    ensures Last(log).Recv? <==> After(Ready(pc), front).value.Await?
    ensures After(Ready(pc), log).value.Await? <==> Last(log).Send? && Last(log).sent.Ok?
  {
    hide Advance;
    front := log[..|log| - 1];
    AdvanceMeaning(After(Ready(pc), front).value, Last(log));
  }

  /** A receive closes the exchange that the transfer before it opened. */
  lemma LastExchange(pc: Pc, log: seq<Xfer>)
    requires log != [] && After(Ready(pc), log).Some? && Last(log).Recv?
    ensures var n := |log|;
            && n >= 2 && log[n - 2].Send? && log[n - 2].sent.Ok?
            && After(Ready(pc), log[..n - 2]).Some?
            && Talk(log) == Talk(log[..n - 2]) + [Exchange(Asked(log[n - 2]), ReadOf(log[n - 2]), log[n - 1].got)]
  {
    hide After, Talk, Asked, ReadOf, Last;
    var front := RunLast(pc, log);
    StartsReady(pc, front);
    var rest := RunLast(pc, front);
    var y, x := Last(front), Last(log);
    TalkOfPair(rest, y, x);
    PairEnds(rest, y, x);
    hide Said;
    assert log == rest + [y] + [x];
  }

  lemma TalkOfPair(rest: seq<Xfer>, y: Xfer, x: Xfer)
    requires y.Send? && y.sent.Ok? && x.Recv?
    ensures Talk(rest + [y] + [x]) == Talk(rest) + [Exchange(Asked(y), ReadOf(y), x.got)]
  {
    hide Talk, Asked, ReadOf;
    TalkSnoc(rest + [y], x);
    TalkSnoc(rest, y);
    assert Last(rest + [y]) == y;
  }

  lemma PairEnds(rest: seq<Xfer>, y: Xfer, x: Xfer)
    ensures var log := rest + [y] + [x]; log[..|log| - 2] == rest && log[|log| - 2] == y && log[|log| - 1] == x
  {
  }

  lemma StartsReady(pc: Pc, log: seq<Xfer>)
    requires After(Ready(pc), log).Some? && After(Ready(pc), log).value.Await?
    ensures log != []
  {
  }

  lemma {:induction false} RunFront(pc: Pc, log: seq<Xfer>, k: nat)
    requires k <= |log| && After(Ready(pc), log).Some?
    ensures After(Ready(pc), log[..k]).Some? && Talk(log[..k]) <= Talk(log)
  {
    if k < |log| {
      hide Advance, ChipDecode;
      RunFront(pc, log[..|log| - 1], k);
      assert log[..|log| - 1][..k] == log[..k];
    } else {
      assert log[..k] == log;
    }
  }

  lemma AfterOne(pc: Pc, x: Xfer)
    ensures After(Ready(pc), [x]) == Advance(Ready(pc), x)
  {
    assert [x][..0] == [];
  }

  lemma StartsWithSend(pc: Pc, log: seq<Xfer>)
    requires log != [] && After(Ready(pc), log).Some?
    ensures !log[0].Recv?
  {
    RunFront(pc, log, 1);
    assert log[..1] == [log[0]];
    AfterOne(pc, log[0]);
  }

  // ---- end of file ----

  predicate EmptyPull(x: Xfer) {
    x.Recv? && x.cmd == CMD_GET_DATABUF_TCP && x.got.Ok? && First(x.got.value) == []
  }

  predicate ClosedProbe(x: Xfer) {
    x.Recv? && x.cmd == CMD_GET_CLIENT_STATE_TCP && x.got.Ok? && IsClosed(SockStateFromU8(Byte0(x.got.value)))
  }

  predicate ReadTrail(log: seq<Xfer>, c: Ctl) {
    var n := |log|;
    match c.pc
    case Pull(_, _) => true
    case Probe(_, _) => if c.Ready? then n >= 1 && EmptyPull(log[n - 1]) else n >= 2 && EmptyPull(log[n - 2])
    case Doze(_, _) => c.Ready?
    case Done(res) =>
      && c.Ready?
      && (res.Ok? ==>
            && res.value.Data? && n >= 1
            && if res.value.bytes == [] then n >= 3 && ClosedProbe(log[n - 1]) && EmptyPull(log[n - 3])
               else log[n - 1].Recv? && log[n - 1].got == Ok([res.value.bytes]))
    case _ => false
  }

  lemma {:induction false} ReadKeepsTrail(sock: byte, room: nat, log: seq<Xfer>)
    requires After(Ready(Pull(sock, room)), log).Some?
    ensures ReadTrail(log, After(Ready(Pull(sock, room)), log).value)
  {
    if log != [] {
      var front, x := log[..|log| - 1], log[|log| - 1];
      ReadKeepsTrail(sock, room, front);
      var m := After(Ready(Pull(sock, room)), front).value;
      if m.pc.Pull? && x.Recv? && x.got.Ok? {
        OneItem(x);
      }
    }
  }

  lemma OneItem(x: Xfer)
    requires Faithful(x) && x.Recv? && x.got.Ok? && !x.how.Into?
    ensures x.got == Ok([First(x.got.value)])
  {
    DecodeStores(x.cmd, x.how, x.miso);
  }

  /**
    A read reports end of file only on an empty pull from its own slot, followed directly
    by a query of that slot, read so by the chip, whose answer is empty or one of the bytes
    0, 7, 8, 9, 10: Unknown, FinWait1 and FinWait2 never end a read.
  */
  lemma EofNeedsClosed(sock: byte, room: nat, log: seq<Xfer>)
    requires After(Ready(Pull(sock, room)), log) == Some(Ready(Done(Ok(Data([])))))
    ensures |log| >= 4 && log[|log| - 4].Send? && log[|log| - 3].Recv? && log[|log| - 2].Send? && log[|log| - 1].Recv?
    ensures AsRead(log[|log| - 4].mosi) == Some(AskPull(sock, room)) && log[|log| - 3].got == Ok([[]])
    ensures AsRead(log[|log| - 2].mosi) == Some(Request(0x2F, [Short([sock])]))
    ensures var got := log[|log| - 1].got; got.Ok? && |got.value| == 1 && (got.value[0] == [] || got.value[0][0] in {0, 7, 8, 9, 10})
  {
    ReadKeepsTrail(sock, room, log);
    var r := ReadConversation(sock, room, log, Ok(Data([])));
    hide After, Talk, ReadTalk, AskPull, AsRead;
    EofTransfers(log);
    LastTwoExchanges(Pull(sock, room), log);
    EofTalk(sock, room, Talk(log), r);
    OneState(sock, room, log);
  }

  lemma EofTransfers(log: seq<Xfer>)
    requires ReadTrail(log, Ready(Done(Ok(Data([])))))
    ensures |log| >= 3 && log[|log| - 1].Recv? && log[|log| - 3].Recv? && log[|log| - 1].got.Ok?
  {
  }

  lemma LastTwoExchanges(pc: Pc, log: seq<Xfer>)
    requires |log| >= 3 && log[|log| - 1].Recv? && log[|log| - 3].Recv? && After(Ready(pc), log).Some?
    ensures |log| >= 4 && log[|log| - 4].Send? && log[|log| - 2].Send?
    ensures var n, talk := |log|, Talk(log);
            && |talk| >= 2
            && talk[|talk| - 2] == Exchange(Asked(log[n - 4]), ReadOf(log[n - 4]), log[n - 3].got)
            && talk[|talk| - 1] == Exchange(Asked(log[n - 2]), ReadOf(log[n - 2]), log[n - 1].got)
  {
    hide After, Talk, Asked, ReadOf;
    var n := |log|;
    LastExchange(pc, log);
    var front := log[..n - 2];
    assert |front| == n - 2 && Last(front) == log[n - 3];
    LastExchange(pc, front);
    assert front[..n - 4] == log[..n - 4] && front[n - 4] == log[n - 4];
    TwoLast(Talk(log[..n - 4]), Exchange(Asked(log[n - 4]), ReadOf(log[n - 4]), log[n - 3].got),
            Exchange(Asked(log[n - 2]), ReadOf(log[n - 2]), log[n - 1].got));
  }

  lemma TwoLast(talk: seq<Exchange>, a: Exchange, b: Exchange)
    ensures var all := talk + [a] + [b]; all[|all| - 2] == a && all[|all| - 1] == b
  {
  }

  lemma OneState(sock: byte, room: nat, log: seq<Xfer>)
    requires ReadTrail(log, Ready(Done(Ok(Data([]))))) && Faithful(Last(log)) && Last(log).Recv? && !Last(log).how.Into?
    ensures |Last(log).got.value| == 1
  {
    OneItem(Last(log));
  }

  lemma EofTalk(sock: byte, room: nat, talk: seq<Exchange>, r: Result<seq<byte>>)
    requires ReadTalk(sock, room, talk, r) && r == Ok([])
    ensures |talk| >= 2
    ensures talk[|talk| - 2].read == Some(AskPull(sock, room)) && talk[|talk| - 2].got == Ok([[]])
    ensures talk[|talk| - 1].read == Some(AskState(sock)) && talk[|talk| - 1].got.Ok?
    ensures Told(talk[|talk| - 1].got.value) in {0, 7, 8, 9, 10}
  {
    hide Rounds;
    assert Sized(AskState(sock).params) && Sized(AskPull(sock, room).params);
  }

  // ---- addresses ----

  predicate ResolvedBy(x: Xfer, ip: seq<byte>) {
    x.Recv? && x.cmd == CMD_GET_HOST_BY_NAME && x.how == One8(4) && x.got == Ok([ip])
  }

  lemma {:induction false} LookupTrail(host: seq<byte>, log: seq<Xfer>)
    requires After(Ready(DnsAsk(host, None)), log).Some?
    ensures var c := After(Ready(DnsAsk(host, None)), log).value;
            match c.pc
            case DnsAsk(_, dial) => dial.None?
            case DnsPoll(_, dial) => dial.None?
            case Done(res) =>
              res.Ok? ==> res.value.Addr? && |res.value.ip| == 4 && res.value.ip != STILL_RESOLVING
                          && Faithful(Last(log)) && ResolvedBy(Last(log), res.value.ip)
            case _ => false
  {
    if log != [] {
      var x := log[|log| - 1];
      LookupTrail(host, log[..|log| - 1]);
      if x.Recv? && x.got.Ok? && !x.how.Into? && Faithful(x) {
        OneItem(x);
      }
    }
  }

  /**
    A lookup succeeds only if the chip has read the name and answered it with the byte 1,
    and then with the non-zero four bytes of a well-formed reply to its last poll.
  */
  lemma LookupMeaning(host: seq<byte>, log: seq<Xfer>, v: Val) returns (noise: seq<byte>)
    requires After(Ready(DnsAsk(host, None)), log) == Some(Ready(Done(Ok(v))))
    ensures v.Addr? && |v.ip| == 4 && v.ip != [0, 0, 0, 0]
    ensures |log| >= 4 && log[0].Send? && log[1].Recv? && log[1].got == Ok([[1]])
    ensures |host| <= 0xFF ==> AsRead(log[0].mosi) == Some(Request(0x34, [Short(host)]))
    ensures log[|log| - 2].Send? && AsRead(log[|log| - 2].mosi) == Some(Request(0x35, []))
    ensures Last(log).Recv? && Last(log).got == Ok([v.ip])
    ensures Carries(Last(log).miso, noise, Reply8(CMD_GET_HOST_BY_NAME, [v.ip]))
  {
    hide After, Talk, Carries, ReadOf, LookupTalk;
    noise := LookupReply(host, log, v);
    LookupSends(host, log, v);
  }

  /** The bytes a successful lookup ends with. */
  lemma LookupReply(host: seq<byte>, log: seq<Xfer>, v: Val) returns (noise: seq<byte>)
    requires After(Ready(DnsAsk(host, None)), log) == Some(Ready(Done(Ok(v))))
    ensures v.Addr? && |v.ip| == 4 && v.ip != [0, 0, 0, 0]
    ensures Last(log).Recv? && Last(log).got == Ok([v.ip])
    ensures Carries(Last(log).miso, noise, Reply8(CMD_GET_HOST_BY_NAME, [v.ip]))
  {
    LookupTrail(host, log);
    hide After, Faithful, Decode, Carries, Reply8;
    noise := ResolvedMessage(Last(log), v.ip);
  }

  /** The requests a successful lookup opens and ends with. */
  lemma LookupSends(host: seq<byte>, log: seq<Xfer>, v: Val)
    requires After(Ready(DnsAsk(host, None)), log) == Some(Ready(Done(Ok(v)))) && Last(log).Recv?
    ensures |log| >= 4 && log[0].Send? && log[1].Recv? && log[1].got == Ok([[1]])
    ensures |host| <= 0xFF ==> AsRead(log[0].mosi) == Some(AskHost(host))
    ensures log[|log| - 2].Send? && AsRead(log[|log| - 2].mosi) == Some(ASK_ADDRESS)
  {
    hide After, Talk, LookupTalk, AskHost, AsRead, Asked;
    var r := LookupConversation(host, log, Ok(v));
    LastExchange(DnsAsk(host, None), log);
    LookupOpens(host, Talk(log), r);
    FirstExchange(DnsAsk(host, None), log);
    SilentStart();
  }

  lemma SilentStart()
    ensures Talk([]) == []
  {
  }

  lemma LookupOpens(host: seq<byte>, talk: seq<Exchange>, r: Result<seq<byte>>)
    requires LookupTalk(host, talk, r) && r.Ok?
    ensures |talk| >= 2 && talk[0].got == Ok([[1]])
    ensures |host| <= 0xFF ==> talk[0].read == Some(AskHost(host))
    ensures talk[|talk| - 1].read == Some(ASK_ADDRESS)
  {
    assert talk[..|talk| - 1][0] == talk[0];
    assert Sized(ASK_ADDRESS.params) && (|host| <= 0xFF ==> Sized(AskHost(host).params));
  }

  /** The first exchange, if a reply came, is the first two transfers. */
  lemma FirstExchange(pc: Pc, log: seq<Xfer>)
    requires Asks(pc) && After(Ready(pc), log).Some? && Talk(log) != [] && Talk(log)[0].got.Ok?
    ensures |log| >= 2 && log[0].Send? && log[1].Recv?
    ensures Talk(log)[0] == Exchange(Asked(log[0]), ReadOf(log[0]), log[1].got)
  {
    RunFront(pc, log, 1);
    assert log[..1] == [log[0]];
    FirstTransfer(pc, log[0]);
    if |log| > 1 {
      RunFront(pc, log, 2);
      hide After, Talk;
      var front := RunLast(pc, log[..2]);
      assert front == [log[0]];
      assert log[..2] == [log[0]] + [log[1]];
      TalkSnoc([log[0]], log[1]);
    }
  }

  lemma FirstTransfer(pc: Pc, x: Xfer)
    requires Asks(pc) && After(Ready(pc), [x]).Some?
    ensures x.Send? && (After(Ready(pc), [x]).value.Await? <==> x.sent.Ok?)
    ensures Talk([x]) == if x.sent.Ok? then [] else [Exchange(Asked(x), ReadOf(x), Err(x.sent.error))]
  {
    hide Faithful, ChipDecode, Resume, AskOf;
    AfterOne(pc, x);
    assert [x][..0] == [];
  }

  lemma ResolvedMessage(x: Xfer, ip: seq<byte>) returns (noise: seq<byte>)
    requires ResolvedBy(x, ip) && Faithful(x)
    ensures Carries(x.miso, noise, Reply8(CMD_GET_HOST_BY_NAME, [ip]))
  {
    DecodeExact(x.cmd, x.how, x.miso, [ip]);
    noise :| Carries(x.miso, noise, Message(x.cmd, x.how, [ip]));
  }
}
