/**
  Any number of tasks sharing one chip through a mutex.  A task holds the lock for
  a whole operation, except that a read lets go of it between polls; every other
  event may fall between any two of its transfers.
*/
module Shared {
  import opened Bytes
  import opened ChipModel
  import opened Machine
  import opened Proto
  import opened Requests
  import opened Session

  type Tid = nat

  datatype Task = Idle | Wanting(op: Op) | Busy(op: Op, ctl: Ctl, took: seq<byte>)

  /** A completed operation: what the chip moved for it, and what its caller was told. */
  datatype Rec = Rec(task: Tid, op: Op, took: seq<byte>, res: Result<Val>)

  /** What a task clocked out in one window. */
  datatype Clocked = Clocked(task: Tid, mosi: seq<byte>)

  /**
    `fed`: everything peers have sent, per slot; `window`: the last window that put bytes
    on the bus; `done`: operations in the order they gave up the lock.
  */
  datatype Sys = Sys(
    lock: Option<Tid>,
    tasks: map<Tid, Task>,
    chip: Chip,
    fed: map<byte, seq<byte>>,
    window: Option<Clocked>,
    done: seq<Rec>)

  datatype Event =
    | Call(t: Tid, op: Op)
    | Acquire(t: Tid)
    | Transfer(t: Tid, x: Xfer, ch: Choice)
    | Release(t: Tid)
    | Finish(t: Tid)
    | Peer(k: byte, bytes: seq<byte>)
    | Network(k: byte, now: Option<byte>)

  function TaskOf(s: Sys, t: Tid): Task {
    if t in s.tasks then s.tasks[t] else Idle
  }

  function Put(s: Sys, t: Tid, task: Task): Sys {
    s.(tasks := s.tasks[t := task])
  }

  /** The operation holding the lock, as a session with the chip. */
  function SessionOf(s: Sys, t: Tid): State
    requires TaskOf(s, t).Busy?
  {
    State(TaskOf(s, t).ctl, s.chip, TaskOf(s, t).took)
  }

  function WindowAfter(s: Sys, t: Tid, x: Xfer): Option<Clocked> {
    if x.Send? && x.mosi != [] then Some(Clocked(t, x.mosi)) else s.window
  }

  function Next(strict: bool, s: Sys, e: Event): Option<Sys> {
    match e
    case Call(t, op) =>
      if TaskOf(s, t).Idle? && (op.Read? ==> op.room > 0) then Some(Put(s, t, Wanting(op))) else None
    case Acquire(t) =>
      if s.lock.None? && TaskOf(s, t).Wanting? then
        var op := TaskOf(s, t).op;
        Some(Put(s, t, Busy(op, Ready(Start(op)), [])).(lock := Some(t)))
      else None
    case Transfer(t, x, ch) =>
      if s.lock == Some(t) && TaskOf(s, t).Busy? && !x.Nap? && Lawful(strict, ch) then
        match Step(SessionOf(s, t), x, ch)
        case None => None
        case Some(st) =>
          Some(Put(s, t, Busy(TaskOf(s, t).op, st.ctl, st.took)).(chip := st.chip, window := WindowAfter(s, t, x)))
      else None
    case Release(t) =>
      // the sleep between two polls of a read
      if s.lock == Some(t) && TaskOf(s, t).Busy? && TaskOf(s, t).ctl.pc.Doze? then
        Some(Put(s, t, Wanting(TaskOf(s, t).op)).(lock := None))
      else None
    case Finish(t) =>
      if s.lock == Some(t) && TaskOf(s, t).Busy? && TaskOf(s, t).ctl.pc.Done? then
        var b := TaskOf(s, t);
        Some(Put(s, t, Idle).(lock := None, done := s.done + [Rec(t, b.op, b.took, b.ctl.pc.res)]))
      else None
    case Peer(k, bytes) =>
      Some(s.(chip := Deliver(s.chip, k, bytes), fed := s.fed[k := Get(s.fed, k) + bytes]))
    case Network(k, now) => Some(s.(chip := Change(s.chip, k, now)))
  }

  function SysAfter(strict: bool, s: Sys, events: seq<Event>): Option<Sys> {
    if events == [] then Some(s)
    else
      match SysAfter(strict, s, events[..|events| - 1])
      case None => None
      case Some(m) => Next(strict, m, events[|events| - 1])
  }

  const INITIAL: Sys := Sys(None, map[], Chip(map[], map[], map[], map[], map[], map[], [], None), map[], None, [])

  // ---- the streams, as the history tells them ----

  function Wrote(done: seq<Rec>, k: byte): seq<byte> {
    if done == [] then []
    else
      var rec := done[|done| - 1];
      Wrote(done[..|done| - 1], k) + OnSlot(rec.op.Write? && rec.op.sock == k, rec.took)
  }

  function Pulled(done: seq<Rec>, k: byte): seq<byte> {
    if done == [] then []
    else
      var rec := done[|done| - 1];
      Pulled(done[..|done| - 1], k) + OnSlot(rec.op.Read? && rec.op.sock == k, rec.took)
  }

  /** What the lock holder has moved so far on slot `k`. */
  function Writing(s: Sys, k: byte): seq<byte> {
    if s.lock.Some? && TaskOf(s, s.lock.value).Busy? then
      var b := TaskOf(s, s.lock.value);
      OnSlot(b.op.Write? && b.op.sock == k, b.took)
    else []
  }

  function Pulling(s: Sys, k: byte): seq<byte> {
    if s.lock.Some? && TaskOf(s, s.lock.value).Busy? then
      var b := TaskOf(s, s.lock.value);
      OnSlot(b.op.Read? && b.op.sock == k, b.took)
    else []
  }

  ghost predicate RecOk(strict: bool, rec: Rec) {
    match rec.op
    case Write(_, data) => Sent(strict, data, rec.took, rec.res)
    case Read(_, _) => rec.res.Ok? ==> rec.res.value == Data(rec.took)
    case _ => rec.took == []
  }

  // ---- the invariant ----

  /** Exactly the lock holder is inside an operation, and its session is sound. */
  ghost predicate HolderOk(strict: bool, s: Sys) {
    && (forall t: Tid :: TaskOf(s, t).Busy? <==> s.lock == Some(t))
    && (forall t: Tid :: TaskOf(s, t).Wanting? && TaskOf(s, t).op.Read? ==> TaskOf(s, t).op.room > 0)
    && (s.lock.Some? ==> Inv(strict, TaskOf(s, s.lock.value).op, SessionOf(s, s.lock.value)))
  }

  ghost predicate StreamsOk(s: Sys) {
    forall k: byte ::
      && Get(s.chip.tx, k) == Wrote(s.done, k) + Writing(s, k)
      && Get(s.fed, k) == Pulled(s.done, k) + (Pulling(s, k) + Get(s.chip.rx, k))
  }

  ghost predicate HistoryOk(strict: bool, s: Sys) {
    forall i :: 0 <= i < |s.done| ==> RecOk(strict, s.done[i])
  }

  predicate HolderAwaits(s: Sys) {
    s.lock.Some? && TaskOf(s, s.lock.value).Busy? && TaskOf(s, s.lock.value).ctl.Await?
  }

  predicate HolderFailed(s: Sys) {
    && s.lock.Some? && TaskOf(s, s.lock.value).Busy?
    && TaskOf(s, s.lock.value).ctl.pc.Done? && TaskOf(s, s.lock.value).ctl.pc.res.Err?
  }

  predicate SomeFailed(done: seq<Rec>) {
    exists i :: 0 <= i < |done| && done[i].res.Err?
  }

  /** The request the lock holder is waiting to hear about. */
  function HolderAsk(s: Sys): Ask
    requires HolderAwaits(s) && Asks(TaskOf(s, s.lock.value).ctl.pc)
  {
    AskOf(TaskOf(s, s.lock.value).ctl.pc)
  }

  /** The last bytes on the bus were the lock holder's, and they were its request. */
  predicate OwnWindow(s: Sys)
    requires HolderAwaits(s) && Asks(TaskOf(s, s.lock.value).ctl.pc)
  {
    s.window == Some(Clocked(s.lock.value, Wire(HolderAsk(s).cmd, HolderAsk(s).params)))
  }

  /** A pending reply is for the lock holder, unless some operation has failed. */
  predicate ReplyOk(s: Sys) {
    && (HolderAwaits(s) ==> Asks(TaskOf(s, s.lock.value).ctl.pc) && OwnWindow(s))
    && (s.chip.reply.Some? ==> HolderAwaits(s) || HolderFailed(s) || SomeFailed(s.done))
  }

  ghost predicate SysInv(strict: bool, s: Sys) {
    HolderOk(strict, s) && StreamsOk(s) && HistoryOk(strict, s) && ReplyOk(s)
  }

  // ---- every event keeps it ----

  lemma CallKeeps(strict: bool, s: Sys, t: Tid, op: Op)
    requires SysInv(strict, s) && Next(strict, s, Call(t, op)).Some?
    ensures SysInv(strict, Next(strict, s, Call(t, op)).value)
  {
    hide Inv, Get, Wrote, Pulled, RecOk, OnSlot;
    var s' := Next(strict, s, Call(t, op)).value;
    assert forall u: Tid :: TaskOf(s', u) == if u == t then Wanting(op) else TaskOf(s, u);
    forall k: byte ensures Writing(s', k) == Writing(s, k) && Pulling(s', k) == Pulling(s, k) {}
  }

  lemma AcquireKeeps(strict: bool, s: Sys, t: Tid)
    requires SysInv(strict, s) && Next(strict, s, Acquire(t)).Some?
    ensures SysInv(strict, Next(strict, s, Acquire(t)).value)
  {
    hide Inv, Get, Wrote, Pulled, RecOk;
    var s' := Next(strict, s, Acquire(t)).value;
    var op := TaskOf(s, t).op;
    assert forall u: Tid :: TaskOf(s', u) == if u == t then Busy(op, Ready(Start(op)), []) else TaskOf(s, u);
    StartInv(strict, op, s.chip);
    forall k: byte ensures Writing(s', k) == Writing(s, k) && Pulling(s', k) == Pulling(s, k) {}
  }

  lemma FedGrows(a: seq<byte>, b: seq<byte>, c: seq<byte>, d: seq<byte>)
    ensures (a + (b + c)) + d == a + (b + (c + d))
  {
  }

  lemma GetAppended(m: map<byte, seq<byte>>, k: byte, bytes: seq<byte>, j: byte)
    ensures Get(m[k := Get(m, k) + bytes], j) == if j == k then Get(m, k) + bytes else Get(m, j)
  {
  }

  lemma PeerStreams(s: Sys, s': Sys, k: byte, bytes: seq<byte>)
    requires StreamsOk(s)
    requires s' == s.(chip := Deliver(s.chip, k, bytes), fed := s.fed[k := Get(s.fed, k) + bytes])
    ensures StreamsOk(s')
  {
    hide Wrote, Pulled, Get, OnSlot;
    forall j: byte
      ensures Get(s'.chip.tx, j) == Wrote(s'.done, j) + Writing(s', j)
      ensures Get(s'.fed, j) == Pulled(s'.done, j) + (Pulling(s', j) + Get(s'.chip.rx, j))
    {
      assert Pulling(s', j) == Pulling(s, j) && Writing(s', j) == Writing(s, j);
      GetAppended(s.chip.rx, k, bytes, j);
      GetAppended(s.fed, k, bytes, j);
      if j == k {
        FedGrows(Pulled(s.done, j), Pulling(s, j), Get(s.chip.rx, j), bytes);
      }
    }
  }

  lemma PeerKeeps(strict: bool, s: Sys, k: byte, bytes: seq<byte>)
    requires SysInv(strict, s)
    ensures SysInv(strict, Next(strict, s, Peer(k, bytes)).value)
  {
    var s' := Next(strict, s, Peer(k, bytes)).value;
    PeerStreams(s, s', k, bytes);
    hide Inv, Wrote, Pulled, RecOk, Get, StreamsOk;
    if s.lock.Some? {
      DeliverKeeps(strict, TaskOf(s, s.lock.value).op, SessionOf(s, s.lock.value), k, bytes);
    }
    assert forall t: Tid :: TaskOf(s', t) == TaskOf(s, t);
  }

  lemma NetworkKeeps(strict: bool, s: Sys, k: byte, now: Option<byte>)
    requires SysInv(strict, s)
    ensures SysInv(strict, Next(strict, s, Network(k, now)).value)
  {
    var s' := Next(strict, s, Network(k, now)).value;
    hide Inv, Wrote, Pulled, RecOk, Get, OnSlot;
    if s.lock.Some? {
      ChangeKeeps(strict, TaskOf(s, s.lock.value).op, SessionOf(s, s.lock.value), k, now);
    }
    assert forall t: Tid :: TaskOf(s', t) == TaskOf(s, t);
    forall j: byte ensures Writing(s', j) == Writing(s, j) && Pulling(s', j) == Pulling(s, j) {}
  }

  lemma ReleaseKeeps(strict: bool, s: Sys, t: Tid)
    requires SysInv(strict, s) && Next(strict, s, Release(t)).Some?
    ensures SysInv(strict, Next(strict, s, Release(t)).value)
  {
    var s' := Next(strict, s, Release(t)).value;
    DozeIsRead(strict, TaskOf(s, t).op, SessionOf(s, t));
    hide Inv, Get, Wrote, Pulled, RecOk;
    assert forall u: Tid :: TaskOf(s', u) == if u == t then Wanting(TaskOf(s, t).op) else TaskOf(s, u);
    forall k: byte ensures Writing(s', k) == Writing(s, k) && Pulling(s', k) == Pulling(s, k) {}
  }

  lemma DozeIsRead(strict: bool, op: Op, s: State)
    requires Inv(strict, op, s) && s.ctl.pc.Doze?
    ensures op.Read? && op.room > 0 && s.took == [] && s.ctl.Ready?
  {
  }

  lemma DoneIsOk(strict: bool, t: Tid, op: Op, s: State)
    requires Inv(strict, op, s) && s.ctl.pc.Done?
    ensures RecOk(strict, Rec(t, op, s.took, s.ctl.pc.res)) && s.ctl.Ready?
  {
  }

  lemma HistorySnoc(done: seq<Rec>, rec: Rec, k: byte)
    ensures Wrote(done + [rec], k) == Wrote(done, k) + OnSlot(rec.op.Write? && rec.op.sock == k, rec.took)
    ensures Pulled(done + [rec], k) == Pulled(done, k) + OnSlot(rec.op.Read? && rec.op.sock == k, rec.took)
  {
    Snoc(done, rec);
  }

  lemma FailedSnoc(done: seq<Rec>, rec: Rec)
    ensures SomeFailed(done + [rec]) <==> SomeFailed(done) || rec.res.Err?
  {
    var more := done + [rec];
    assert more[|done|] == rec;
    if SomeFailed(done) {
      var i :| 0 <= i < |done| && done[i].res.Err?;
      assert more[i].res.Err?;
    }
  }

  lemma FinishKeeps(strict: bool, s: Sys, t: Tid)
    requires SysInv(strict, s) && Next(strict, s, Finish(t)).Some?
    ensures SysInv(strict, Next(strict, s, Finish(t)).value)
  {
    var s' := Next(strict, s, Finish(t)).value;
    var b := TaskOf(s, t);
    var rec := Rec(t, b.op, b.took, b.ctl.pc.res);
    DoneIsOk(strict, t, b.op, SessionOf(s, t));
    FailedSnoc(s.done, rec);
    FinishStreams(strict, s, t, rec);
    hide Inv, RecOk, SomeFailed, StreamsOk;
    assert forall u: Tid :: TaskOf(s', u) == if u == t then Idle else TaskOf(s, u);
    assert forall i :: 0 <= i < |s.done| ==> s'.done[i] == s.done[i];
  }

  lemma FinishStreams(strict: bool, s: Sys, t: Tid, rec: Rec)
    requires SysInv(strict, s) && Next(strict, s, Finish(t)).Some?
    requires var b := TaskOf(s, t); rec == Rec(t, b.op, b.took, b.ctl.pc.res)
    ensures StreamsOk(Next(strict, s, Finish(t)).value)
  {
    hide Inv, Get, Wrote, Pulled, HistoryOk, ReplyOk, OnSlot;
    var s' := Next(strict, s, Finish(t)).value;
    forall k: byte
      ensures Get(s'.chip.tx, k) == Wrote(s'.done, k) + Writing(s', k)
      ensures Get(s'.fed, k) == Pulled(s'.done, k) + (Pulling(s', k) + Get(s'.chip.rx, k))
    {
      HistorySnoc(s.done, rec, k);
      Regroup(Pulled(s.done, k), Pulling(s, k), Get(s.chip.rx, k));
      Regroup(Pulled(s'.done, k), [], Get(s'.chip.rx, k));
      NothingMore(Wrote(s'.done, k));
      NothingMore(Pulled(s'.done, k));
    }
  }

  lemma NothingMore(a: seq<byte>)
    ensures a + [] == a
  {
  }

  /** A send window that fails ends the operation, and so does a pin error while receiving. */
  lemma FailureEnds(s: State, x: Xfer, ch: Choice)
    requires Step(s, x, ch).Some?
    ensures x.Send? && x.sent.Err? ==>
              var c := Step(s, x, ch).value.ctl; c.pc.Done? && c.pc.res.Err?
    ensures x.Recv? && x.got == Err(Pin) ==>
              var c := Step(s, x, ch).value.ctl; c.pc.Done? && c.pc.res.Err?
    ensures x.Recv? && x.got != Err(Pin) ==> Step(s, x, ch).value.chip.reply.None?
    ensures x.Send? && x.sent.Ok? ==>
              && x.mosi != [] && Asks(s.ctl.pc) && Step(s, x, ch).value.ctl == Await(s.ctl.pc)
              && x.mosi == Wire(AskOf(s.ctl.pc).cmd, AskOf(s.ctl.pc).params)
    ensures !x.Send? ==> !Step(s, x, ch).value.ctl.Await?
  {
    if x.Send? {
      SendStep(s, x, ch);
      if x.sent.Err? {
        SendErrorEnds(s.ctl.pc, x);
      } else {
        SentBytes(x);
        WireAligned(x.cmd, x.params);
      }
    } else if x.Recv? {
      RecvStep(s, x, ch);
      if x.got == Err(Pin) {
        PinErrorEnds(s.ctl.pc);
      }
    }
  }

  lemma SendErrorEnds(pc: Pc, x: Xfer)
    requires Asks(pc) && x.Send? && Faithful(x) && x.sent.Err?
    ensures Resume(pc, Err(x.sent.error)).Done? && Resume(pc, Err(x.sent.error)).res.Err?
  {
    assert x.sent.error != Framing && x.sent.error != Nina;
  }

  lemma PinErrorEnds(pc: Pc)
    requires Asks(pc)
    ensures Resume(pc, Err(Pin)).Done? && Resume(pc, Err(Pin)).res.Err?
  {
  }

  lemma TransferReply(strict: bool, s: Sys, t: Tid, x: Xfer, ch: Choice)
    requires SysInv(strict, s) && Next(strict, s, Transfer(t, x, ch)).Some?
    ensures ReplyOk(Next(strict, s, Transfer(t, x, ch)).value)
  {
    FailureEnds(SessionOf(s, t), x, ch);
    hide Inv, Get, Wrote, Pulled, RecOk, SomeFailed, Step, Lawful, StreamsOk, HistoryOk;
  }

  lemma TransferKeeps(strict: bool, s: Sys, t: Tid, x: Xfer, ch: Choice)
    requires SysInv(strict, s) && Next(strict, s, Transfer(t, x, ch)).Some?
    ensures SysInv(strict, Next(strict, s, Transfer(t, x, ch)).value)
  {
    TransferHolder(strict, s, t, x, ch);
    TransferStreams(strict, s, t, x, ch);
    TransferReply(strict, s, t, x, ch);
    hide HolderOk, Inv, RecOk, Step, Lawful, StreamsOk, ReplyOk;
  }

  lemma TransferHolder(strict: bool, s: Sys, t: Tid, x: Xfer, ch: Choice)
    requires SysInv(strict, s) && Next(strict, s, Transfer(t, x, ch)).Some?
    ensures HolderOk(strict, Next(strict, s, Transfer(t, x, ch)).value)
  {
    hide Inv, Step, Lawful, StreamsOk, HistoryOk, ReplyOk;
    var s' := Next(strict, s, Transfer(t, x, ch)).value;
    var op, m := TaskOf(s, t).op, SessionOf(s, t);
    var st := Step(m, x, ch).value;
    StepKeeps(strict, op, m, x, ch);
    assert forall u: Tid :: TaskOf(s', u) == if u == t then Busy(op, st.ctl, st.took) else TaskOf(s, u);
  }

  /** A transfer, taken apart: a step of the holder's session, which nothing else changes. */
  lemma TransferShape(strict: bool, s: Sys, t: Tid, x: Xfer, ch: Choice, k: byte)
    requires SysInv(strict, s) && Next(strict, s, Transfer(t, x, ch)).Some?
    ensures TaskOf(s, t).Busy? && Lawful(strict, ch) && Step(SessionOf(s, t), x, ch).Some?
    ensures var s', op, m := Next(strict, s, Transfer(t, x, ch)).value, TaskOf(s, t).op, SessionOf(s, t);
            var m' := Step(m, x, ch).value;
            && Inv(strict, op, m) && StreamsOk(s)
            && s'.chip == m'.chip && s'.done == s.done && s'.fed == s.fed
            && Writing(s, k) == OnSlot(op.Write? && op.sock == k, m.took)
            && Writing(s', k) == OnSlot(op.Write? && op.sock == k, m'.took)
            && Pulling(s, k) == OnSlot(op.Read? && op.sock == k, m.took)
            && Pulling(s', k) == OnSlot(op.Read? && op.sock == k, m'.took)
  {
    hide Inv, Get, Wrote, Pulled, RecOk, SomeFailed, Step, Lawful, OnSlot, StreamsOk;
  }

  lemma TransferStreams(strict: bool, s: Sys, t: Tid, x: Xfer, ch: Choice)
    requires SysInv(strict, s) && Next(strict, s, Transfer(t, x, ch)).Some?
    ensures StreamsOk(Next(strict, s, Transfer(t, x, ch)).value)
  {
    hide SysInv, Next, Inv, Get, Wrote, Pulled, Writing, Pulling, Step, Lawful, Delta, OnSlot;
    var s' := Next(strict, s, Transfer(t, x, ch)).value;
    forall k: byte
      ensures Get(s'.chip.tx, k) == Wrote(s'.done, k) + Writing(s', k)
      ensures Get(s'.fed, k) == Pulled(s'.done, k) + (Pulling(s', k) + Get(s'.chip.rx, k))
    {
      TransferShape(strict, s, t, x, ch, k);
      var op, m := TaskOf(s, t).op, SessionOf(s, t);
      var d := Delta(m, x, ch);
      StepMoves(strict, op, m, x, ch, k);
      SlotGrows(op.Write? && op.sock == k, m.took, d);
      SlotGrows(op.Read? && op.sock == k, m.took, d);
      Regroup(Wrote(s.done, k), Writing(s, k), OnSlot(op.Write? && op.sock == k, d));
      Regroup(Pulling(s, k), OnSlot(op.Read? && op.sock == k, d), Get(s'.chip.rx, k));
    }
  }

  lemma SlotGrows(p: bool, took: seq<byte>, d: seq<byte>)
    ensures OnSlot(p, took + d) == OnSlot(p, took) + OnSlot(p, d)
  {
  }

  lemma NextKeeps(strict: bool, s: Sys, e: Event)
    requires SysInv(strict, s) && Next(strict, s, e).Some?
    ensures SysInv(strict, Next(strict, s, e).value)
  {
    hide SysInv, Next;
    match e {
      case Call(t, op) => CallKeeps(strict, s, t, op);
      case Acquire(t) => AcquireKeeps(strict, s, t);
      case Transfer(t, x, ch) => TransferKeeps(strict, s, t, x, ch);
      case Release(t) => ReleaseKeeps(strict, s, t);
      case Finish(t) => FinishKeeps(strict, s, t);
      case Peer(k, bytes) => PeerKeeps(strict, s, k, bytes);
      case Network(k, now) => NetworkKeeps(strict, s, k, now);
    }
  }

  lemma {:induction false} ReachableOk(strict: bool, events: seq<Event>)
    requires SysAfter(strict, INITIAL, events).Some?
    ensures SysInv(strict, SysAfter(strict, INITIAL, events).value)
  {
    if events == [] {
      assert forall t: Tid :: TaskOf(INITIAL, t) == Idle;
    } else {
      ReachableOk(strict, events[..|events| - 1]);
      hide SysInv, Next;
      NextKeeps(strict, SysAfter(strict, INITIAL, events[..|events| - 1]).value, events[|events| - 1]);
    }
  }

  // ---- what every reachable state guarantees ----

  /** The data of the writes on slot `k`, in the order they ran. */
  function Written(done: seq<Rec>, k: byte): seq<byte> {
    if done == [] then []
    else
      var rec := done[|done| - 1];
      Written(done[..|done| - 1], k) + if rec.op.Write? && rec.op.sock == k then rec.op.data else []
  }

  /** The outputs of the reads on slot `k`, in the order they ran. */
  function Returned(done: seq<Rec>, k: byte): seq<byte> {
    if done == [] then []
    else
      var rec := done[|done| - 1];
      Returned(done[..|done| - 1], k)
      + if rec.op.Read? && rec.op.sock == k && rec.res.Ok? && rec.res.value.Data? then rec.res.value.bytes else []
  }

  predicate NoFailedWrite(done: seq<Rec>, k: byte) {
    forall i :: 0 <= i < |done| && done[i].op.Write? && done[i].op.sock == k ==> done[i].res.Ok?
  }

  predicate NoFailedRead(done: seq<Rec>, k: byte) {
    forall i :: 0 <= i < |done| && done[i].op.Read? && done[i].op.sock == k ==> done[i].res.Ok?
  }

  lemma {:induction false} WroteIsWritten(done: seq<Rec>, k: byte)
    requires forall i :: 0 <= i < |done| ==> RecOk(true, done[i])
    requires NoFailedWrite(done, k)
    ensures Wrote(done, k) == Written(done, k)
  {
    if done != [] {
      var front, rec := done[..|done| - 1], done[|done| - 1];
      assert forall i :: 0 <= i < |front| ==> front[i] == done[i];
      WroteIsWritten(front, k);
      if rec.op.Write? && rec.op.sock == k {
        StrictlySent(rec.op.data, rec.took, rec.res);
      }
    }
  }

  lemma {:induction false} PulledIsReturned(strict: bool, done: seq<Rec>, k: byte)
    requires forall i :: 0 <= i < |done| ==> RecOk(strict, done[i])
    requires NoFailedRead(done, k)
    ensures Pulled(done, k) == Returned(done, k)
  {
    if done != [] {
      var front, rec := done[..|done| - 1], done[|done| - 1];
      hide RecOk;
      assert forall i :: 0 <= i < |front| ==> front[i] == done[i];
      PulledIsReturned(strict, front, k);
      if rec.op.Read? && rec.op.sock == k {
        ReadRec(strict, rec);
      }
    }
  }

  lemma ReadRec(strict: bool, rec: Rec)
    requires RecOk(strict, rec) && rec.op.Read? && rec.res.Ok?
    ensures rec.res.value == Data(rec.took)
  {
  }

  /**
    Over every interleaving, with all-or-nothing acks: until a write on slot `k`
    fails, the chip has accepted for it the buffers written to it, in order and each
    in one piece, followed by the whole chunks that a write now holding the lock has
    got across so far.
  */
  lemma WriteStreamIntegrity(events: seq<Event>, k: byte)
    requires SysAfter(true, INITIAL, events).Some?
    requires NoFailedWrite(SysAfter(true, INITIAL, events).value.done, k)
    ensures var s := SysAfter(true, INITIAL, events).value;
            && Get(s.chip.tx, k) == Written(s.done, k) + Writing(s, k)
            && (s.lock.None? ==> Get(s.chip.tx, k) == Written(s.done, k))
            && (s.lock.Some? && TaskOf(s, s.lock.value).Busy? && TaskOf(s, s.lock.value).op.Write? ==>
                  AtChunkEnd(TaskOf(s, s.lock.value).op.data, TaskOf(s, s.lock.value).took))
  {
    ReachableOk(true, events);
    hide SysAfter;
    var s := SysAfter(true, INITIAL, events).value;
    WroteIsWritten(s.done, k);
    NothingMore(Wrote(s.done, k));
    if s.lock.Some? && TaskOf(s, s.lock.value).op.Write? {
      HolderProgress(TaskOf(s, s.lock.value).op, SessionOf(s, s.lock.value));
    }
  }

  lemma HolderProgress(op: Op, s: State)
    requires op.Write? && Inv(true, op, s)
    ensures AtChunkEnd(op.data, s.took)
  {
    StrictProgress(s, op.sock, op.data);
    if s.ctl.pc.Done? {
      StrictlySent(op.data, s.took, s.ctl.pc.res);
      assert op.data[..|op.data|] == op.data;
    }
  }

  /** A failed write, too, has left whole chunks from the front of its buffer, none of them twice. */
  lemma FailedWriteLeavesChunks(events: seq<Event>, i: nat)
    requires SysAfter(true, INITIAL, events).Some?
    requires i < |SysAfter(true, INITIAL, events).value.done|
    requires var rec := SysAfter(true, INITIAL, events).value.done[i]; rec.op.Write? && rec.res.Err?
    ensures var rec := SysAfter(true, INITIAL, events).value.done[i]; AtChunkEnd(rec.op.data, rec.took)
  {
    ReachableOk(true, events);
    var rec := SysAfter(true, INITIAL, events).value.done[i];
    hide SysAfter;
    StrictlySent(rec.op.data, rec.took, rec.res);
  }

  /**
    Until a read on slot `k` fails, everything its peer sent is accounted for, in
    order: returned by reads, on its way in the lock holder's reply, or still queued.
  */
  lemma ReadStreamIntegrity(strict: bool, events: seq<Event>, k: byte)
    requires SysAfter(strict, INITIAL, events).Some?
    requires NoFailedRead(SysAfter(strict, INITIAL, events).value.done, k)
    ensures var s := SysAfter(strict, INITIAL, events).value;
            Get(s.fed, k) == Returned(s.done, k) + (Pulling(s, k) + Get(s.chip.rx, k))
  {
    ReachableOk(strict, events);
    hide SysAfter;
    var s := SysAfter(strict, INITIAL, events).value;
    PulledIsReturned(strict, s.done, k);
  }

  /**
    In every reachable state in which the lock holder waits, the last bytes on the bus
    were its own request, byte for byte, and the pending reply is the chip's answer to
    what those bytes decode to: to that very request, if its lengths fit their prefixes,
    and to nothing at all if the chip could make nothing of it.
  */
  lemma ExchangeAtomicity(strict: bool, events: seq<Event>)
    requires SysAfter(strict, INITIAL, events).Some?
    requires HolderAwaits(SysAfter(strict, INITIAL, events).value)
    ensures var s := SysAfter(strict, INITIAL, events).value;
            && Asks(TaskOf(s, s.lock.value).ctl.pc)
            && OwnWindow(s) && Answers(s.chip.reply, HolderAsk(s))
            && (Sized(HolderAsk(s).params) ==>
                  s.chip.reply.Some? && s.chip.reply.value.to == Request(HolderAsk(s).cmd, HolderAsk(s).params))
  {
    ReachableOk(strict, events);
    hide SysAfter, Inv, StreamsOk, HistoryOk, SomeFailed, Answers, AskOf, Wire, Sized;
    var s := SysAfter(strict, INITIAL, events).value;
    AwaitFacts(strict, TaskOf(s, s.lock.value).op, SessionOf(s, s.lock.value));
    AnswersRequest(s.chip.reply, TaskOf(s, s.lock.value).ctl.pc);
  }

  lemma AwaitFacts(strict: bool, op: Op, s: State)
    requires Inv(strict, op, s) && s.ctl.Await?
    ensures Asks(s.ctl.pc) && Answers(s.chip.reply, AskOf(s.ctl.pc))
  {
  }

  lemma AnswersRequest(reply: Option<Reply>, pc: Pc)
    requires Asks(pc) && Answers(reply, AskOf(pc))
    ensures Sized(AskOf(pc).params) ==>
              reply.Some? && reply.value.to == Request(AskOf(pc).cmd, AskOf(pc).params)
  {
    AskUniform(pc);
    hide Wire, ChipDecode, Uniform, Sized, AskOf;
    if Sized(AskOf(pc).params) {
      RequestArrives(AskOf(pc).cmd, AskOf(pc).params, Wire(AskOf(pc).cmd, AskOf(pc).params));
    }
  }

  /**
    So whatever a task receives is the chip's answer to the bytes that this task itself
    clocked out last, with nothing of any other task in between.
  */
  lemma ReceivesOwnReply(strict: bool, events: seq<Event>, t: Tid, x: Xfer, ch: Choice)
    requires SysAfter(strict, INITIAL, events).Some?
    requires Next(strict, SysAfter(strict, INITIAL, events).value, Transfer(t, x, ch)).Some? && x.Recv? && x.got.Ok?
    ensures var s := SysAfter(strict, INITIAL, events).value;
            && s.lock == Some(t) && HolderAwaits(s) && Asks(TaskOf(s, t).ctl.pc)
            && s.window.Some? && s.window.value.task == t
            && ChipDecode(s.window.value.mosi).Some?
            && s.chip.reply == Some(Answer(ChipDecode(s.window.value.mosi).value.0, x.got.value))
            && (Sized(HolderAsk(s).params) ==>
                  ChipDecode(s.window.value.mosi).value.0 == Request(HolderAsk(s).cmd, HolderAsk(s).params))
  {
    var s := SysAfter(strict, INITIAL, events).value;
    hide SysAfter, Step, Sized, Wire, ChipDecode, AskOf, Resume, Faithful, Lawful;
    RecvStep(SessionOf(s, t), x, ch);
    ExchangeAtomicity(strict, events);
  }

  // ---- orphaned replies ----

  /**
    Read off the events alone: the last transfer that put bytes on the bus or drained a
    reply was a send whose bytes the chip could parse.
  */
  function Left(events: seq<Event>): bool {
    if events == [] then false
    else
      var front := events[..|events| - 1];
      match events[|events| - 1]
      case Transfer(_, Send(_, _, mosi, _), _) => if mosi == [] then Left(front) else ChipDecode(mosi).Some?
      case Transfer(_, Recv(_, _, _, got), _) => got == Err(Pin) && Left(front)
      case _ => Left(front)
  }

  /** The last transfer was a send that the host believes complete. */
  function Awaiting(events: seq<Event>): bool {
    if events == [] then false
    else
      match events[|events| - 1]
      case Transfer(_, x, _) => x.Send? && x.sent.Ok?
      case _ => Awaiting(events[..|events| - 1])
  }

  lemma ReplyAfterTransfer(strict: bool, s: Sys, t: Tid, x: Xfer, ch: Choice)
    requires SysInv(strict, s) && Next(strict, s, Transfer(t, x, ch)).Some?
    ensures var s' := Next(strict, s, Transfer(t, x, ch)).value;
            && (HolderAwaits(s') <==> x.Send? && x.sent.Ok?)
            && (s'.chip.reply.Some? <==>
                  if x.Send? then (if x.mosi == [] then s.chip.reply.Some? else ChipDecode(x.mosi).Some?)
                  else x.got == Err(Pin) && s.chip.reply.Some?)
  {
    FailureEnds(SessionOf(s, t), x, ch);
    ChipReplies(SessionOf(s, t), x, ch);
    hide SysInv, Step, Lawful, ChipDecode;
  }

  lemma ChipReplies(s: State, x: Xfer, ch: Choice)
    requires Step(s, x, ch).Some? && !x.Nap?
    ensures Step(s, x, ch).value.chip.reply.Some? <==>
            if x.Send? then (if x.mosi == [] then s.chip.reply.Some? else ChipDecode(x.mosi).Some?)
            else x.got == Err(Pin) && s.chip.reply.Some?
  {
    hide Advance, Heard, MovedBy, React, ChipDecode;
    if x.Send? {
      NoBytesNoRequest();
      if ChipDecode(x.mosi).Some? {
        ReactAnswers(s.chip, ChipDecode(x.mosi).value.0, ch);
      }
    }
  }

  lemma NoBytesNoRequest()
    ensures ChipDecode([]).None?
  {
  }

  /** Events without a transfer leave the reply alone, and who waits for it. */
  lemma ReplyOtherwise(strict: bool, s: Sys, e: Event)
    requires SysInv(strict, s) && Next(strict, s, e).Some? && !e.Transfer?
    ensures var s' := Next(strict, s, e).value;
            (HolderAwaits(s') <==> HolderAwaits(s)) && s'.chip.reply == s.chip.reply
  {
    if e.Release? {
      DozeIsRead(strict, TaskOf(s, e.t).op, SessionOf(s, e.t));
    } else if e.Finish? {
      DoneIsOk(strict, e.t, TaskOf(s, e.t).op, SessionOf(s, e.t));
    }
    hide Inv, StreamsOk, HistoryOk, ReplyOk, RecOk;
  }

  lemma {:induction false} RepliesTraced(strict: bool, events: seq<Event>)
    requires SysAfter(strict, INITIAL, events).Some?
    ensures var s := SysAfter(strict, INITIAL, events).value;
            (s.chip.reply.Some? <==> Left(events)) && (HolderAwaits(s) <==> Awaiting(events))
  {
    if events != [] {
      var front, e := events[..|events| - 1], events[|events| - 1];
      RepliesTraced(strict, front);
      ReachableOk(strict, front);
      hide SysInv, Next, ChipDecode, HolderAwaits;
      var s := SysAfter(strict, INITIAL, front).value;
      match e {
        case Transfer(t, x, ch) =>
          NoNap(strict, s, t, x, ch);
          ReplyAfterTransfer(strict, s, t, x, ch);
        case _ =>
          ReplyOtherwise(strict, s, e);
      }
    }
  }

  lemma NoNap(strict: bool, s: Sys, t: Tid, x: Xfer, ch: Choice)
    requires Next(strict, s, Transfer(t, x, ch)).Some?
    ensures !x.Nap?
  {
  }

  /**
    Exactly when a pending reply belongs to a waiting lock holder, in every reachable
    state: unless the last bytes on the bus were a request the chip parsed and the host has
    given up on that exchange, in its send or in a receive that never reached the bus.
    Nothing earlier matters, so the property is back with the next completed send or receive.  While no operation has failed it always holds.
  */
  lemma PendingBelongsToHolder(strict: bool, events: seq<Event>)
    requires SysAfter(strict, INITIAL, events).Some?
    ensures var s := SysAfter(strict, INITIAL, events).value;
            && (s.chip.reply.Some? <==> Left(events))
            && (HolderAwaits(s) <==> Awaiting(events))
            && ((s.chip.reply.Some? ==> HolderAwaits(s)) <==> (Left(events) ==> Awaiting(events)))
            && (s.chip.reply.Some? && !SomeFailed(s.done) && !HolderFailed(s) ==> HolderAwaits(s))
  {
    RepliesTraced(strict, events);
    ReachableOk(strict, events);
    hide SysAfter, Left, Awaiting, HolderOk, StreamsOk, HistoryOk;
  }

  /**
    The exception is real: a send that fails in its padding leaves the chip with a whole
    frame, so its reply outlives the operation and the lock.
  */
  lemma OrphanedReply(t: Tid, k: byte) returns (events: seq<Event>)
    ensures SysAfter(true, INITIAL, events).Some?
    ensures var s := SysAfter(true, INITIAL, events).value;
            && s.lock.None? && s.chip.reply.Some? && SomeFailed(s.done)
            && Left(events) && !Awaiting(events)
  {
    var ps := Shorts([[k]]);
    var x := Send(CMD_STOP_CLIENT_TCP, ps, Frame(CMD_STOP_CLIENT_TCP, ps), Err(Spi));
    var ch := Choice(0, 0, false, false, []);
    var e1, e2, e3, e4 := Call(t, Close(k)), Acquire(t), Transfer(t, x, ch), Finish(t);
    events := [e1] + [e2] + [e3] + [e4];
    TornStop(ps);
    assert ChipDecode(x.mosi).Some?;
    hide ChipDecode, Wire, Frame, SysAfter;
    var s1 := Next(true, INITIAL, e1).value;
    var s2 := Next(true, s1, e2).value;
    assert Step(SessionOf(s2, t), x, ch).Some?;
    ReactAnswers(s2.chip, ChipDecode(x.mosi).value.0, ch);
    hide Step;
    var s3 := Next(true, s2, e3).value;
    var s4 := Next(true, s3, e4).value;
    SysAfterNone(true, INITIAL);
    SysAfterSnoc(true, INITIAL, [], e1);
    assert [] + [e1] == [e1];
    SysAfterSnoc(true, INITIAL, [e1], e2);
    SysAfterSnoc(true, INITIAL, [e1] + [e2], e3);
    SysAfterSnoc(true, INITIAL, [e1] + [e2] + [e3], e4);
    assert s4.done[0].res.Err?;
    RepliesTraced(true, events);
  }

  lemma TornStop(ps: seq<Param>)
    requires |ps| == 1 && ps[0].Short? && |ps[0].data| == 1
    ensures var frame := Frame(CMD_STOP_CLIENT_TCP, ps);
            frame <= Wire(CMD_STOP_CLIENT_TCP, ps) && ChipDecode(frame).Some?
  {
    ChipRoundTrip(CMD_STOP_CLIENT_TCP, ps, []);
    assert Frame(CMD_STOP_CLIENT_TCP, ps) + [] == Frame(CMD_STOP_CLIENT_TCP, ps);
  }

  lemma SysAfterNone(strict: bool, s: Sys)
    ensures SysAfter(strict, s, []) == Some(s)
  {
  }

  lemma SysAfterSnoc(strict: bool, s: Sys, events: seq<Event>, e: Event)
    requires SysAfter(strict, s, events).Some?
    ensures SysAfter(strict, s, events + [e]) == Next(strict, SysAfter(strict, s, events).value, e)
  {
    Snoc(events, e);
  }

  /** Nothing another task or a peer does reaches into the lock holder's exchange. */
  lemma HolderUndisturbed(strict: bool, s: Sys, e: Event, t: Tid)
    requires SysInv(strict, s) && s.lock == Some(t) && Next(strict, s, e).Some?
    requires !(e.Transfer? && e.t == t) && !(e.Release? && e.t == t) && !(e.Finish? && e.t == t)
    ensures var s' := Next(strict, s, e).value;
            && s'.lock == s.lock && s'.window == s.window && s'.chip.reply == s.chip.reply
            && TaskOf(s', t) == TaskOf(s, t) && s'.chip.tx == s.chip.tx && s'.done == s.done
  {
    hide Inv, StreamsOk, HistoryOk, ReplyOk;
  }

  /**
    At end of file the only unread bytes are those that arrived after the empty pull, and
    the chip has said of this very slot that it is closed on the peer's side.
  */
  lemma EofLeavesOnlyLate(strict: bool, events: seq<Event>)
    requires SysAfter(strict, INITIAL, events).Some?
    requires var s := SysAfter(strict, INITIAL, events).value;
             && s.lock.Some? && TaskOf(s, s.lock.value).Busy? && TaskOf(s, s.lock.value).op.Read?
             && TaskOf(s, s.lock.value).ctl.pc == Done(Ok(Data([])))
    ensures var s := SysAfter(strict, INITIAL, events).value;
            var k := TaskOf(s, s.lock.value).op.sock;
            OnlyLate(s.chip, k) && ToldClosed(s.chip, k)
  {
    ReachableOk(strict, events);
    hide SysAfter, StreamsOk, HistoryOk, ReplyOk, OnlyLate, ToldClosed;
  }

  /** A task that gets a slot from a connect has been told that this very slot is established. */
  lemma ConnectedIsUp(strict: bool, events: seq<Event>, k: byte)
    requires SysAfter(strict, INITIAL, events).Some?
    requires var s := SysAfter(strict, INITIAL, events).value;
             && s.lock.Some? && TaskOf(s, s.lock.value).Busy?
             && (TaskOf(s, s.lock.value).op.Connect? || TaskOf(s, s.lock.value).op.ConnectHost?)
             && TaskOf(s, s.lock.value).ctl.pc == Done(Ok(Slot(k)))
    ensures ToldUp(SysAfter(strict, INITIAL, events).value.chip, k)
  {
    ReachableOk(strict, events);
    hide SysAfter, StreamsOk, HistoryOk, ReplyOk, ToldUp;
    var s := SysAfter(strict, INITIAL, events).value;
    DoneIsUp(strict, TaskOf(s, s.lock.value).op, SessionOf(s, s.lock.value), k);
  }

  lemma DoneIsUp(strict: bool, op: Op, s: State, k: byte)
    requires (op.Connect? || op.ConnectHost?) && Inv(strict, op, s)
    requires s.ctl.pc == Done(Ok(Slot(k)))
    ensures ToldUp(s.chip, k)
  {
  }
}
