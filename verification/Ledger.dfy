/**
  What connects leave behind: every slot the chip hands out is accounted for, over one
  connect and over any number of them.
*/
module Ledger {
  import opened Bytes
  import opened Conversations
  import opened Machine
  import opened Proto
  import opened Requests

  /**
    Slot bookkeeping read off a conversation: slots handed out, parameters of the stop
    requests, and completed polls that did not answer 4.
  */
  datatype Tally = Tally(slots: seq<byte>, stops: seq<Param>, waited: nat)

  function Tallied(t: Tally, e: Exchange): Tally {
    if e.asked.cmd == 0x2E then t.(stops := t.stops + e.asked.params)
    else if e.asked.cmd == 0x3F && e.got.Ok? && Told(e.got.value) != 0xFF then t.(slots := t.slots + [Told(e.got.value)])
    else if e.asked.cmd == 0x2F && e.got.Ok? && Told(e.got.value) != 4 then t.(waited := t.waited + 1)
    else t
  }

  const NOTHING: Tally := Tally([], [], 0)

  function TallyOf(talk: seq<Exchange>): Tally {
    if talk == [] then NOTHING else Tallied(TallyOf(talk[..|talk| - 1]), talk[|talk| - 1])
  }

  lemma TallySnoc(talk: seq<Exchange>, e: Exchange)
    ensures TallyOf(talk + [e]) == Tallied(TallyOf(talk), e)
  {
    Snoc(talk, e);
  }

  /** What became of the slot, if any, that a connect obtained. */
  datatype Fate = NoSlot | Returned(sock: byte) | TimedOut(sock: byte) | LeftOpen(sock: byte)

  /** From the i-th exchange on: the chip handed out slot `k`, and a client was started on it. */
  predicate StartedAt(d: Dial, talk: seq<Exchange>, k: byte, i: nat) {
    && i + 1 < |talk|
    && About(talk[i], ASK_SLOT) && talk[i].got.Ok? && Told(talk[i].got.value) == k
    && About(talk[i + 1], AskStart(d, k))
  }

  /** The same for the operation: a connect by name goes to the address in the reply just before. */
  predicate Started(op: Op, talk: seq<Exchange>, k: byte, i: nat) {
    match op
    case Connect(d) => i == 0 && StartedAt(d, talk, k, 0)
    case ConnectHost(_, d) =>
      && 1 <= i < |talk|
      && About(talk[i - 1], ASK_ADDRESS) && talk[i - 1].got.Ok? && |talk[i - 1].got.value| == 1
      && StartedAt(d.(ip := talk[i - 1].got.value[0]), talk, k, i)
    case _ => false
  }

  /** The last exchange polled slot `k`, the chip read just that, and the answer was the byte 4. */
  predicate ReportedUp(k: byte, talk: seq<Exchange>) {
    talk != [] && About(talk[|talk| - 1], AskState(k)) && talk[|talk| - 1].got == Ok([[4]])
  }

  /** The last exchange stopped slot `k`, and the `polls` before it polled `k` and never heard 4. */
  predicate PolledOut(k: byte, talk: seq<Exchange>, polls: nat) {
    var n := |talk| - 1;
    && n >= polls && About(talk[n], AskStop(k))
    && forall i :: n - polls <= i < n ==> About(talk[i], AskState(k)) && talk[i].got.Ok? && Told(talk[i].got.value) != 4
  }

  /** The last exchange failed with `e`, and it was the start of the client or a poll of slot `k`. */
  predicate FailedDialling(k: byte, talk: seq<Exchange>, e: Error) {
    && talk != [] && talk[|talk| - 1].got == Err(e)
    && (talk[|talk| - 1].asked == AskState(k) || talk[|talk| - 1].asked.cmd == 0x2D)
  }

  ghost predicate HasFate(op: Op, talk: seq<Exchange>, res: Result<Val>, fate: Fate)
    requires op.Connect? || op.ConnectHost?
  {
    var t := TallyOf(talk);
    match fate
    case NoSlot => res.Err? && t == NOTHING
    case Returned(k) =>
      && res == Ok(Slot(k)) && t.slots == [k] && t.stops == []
      && ReportedUp(k, talk) && exists i :: Started(op, talk, k, i)
    case TimedOut(k) =>
      && res == Err(Timeout) && t == Tally([k], [Short([k])], op.dial.polls)
      && PolledOut(k, talk, op.dial.polls) && exists i :: Started(op, talk, k, i)
    case LeftOpen(k) =>
      && res.Err? && t.slots == [k] && t.stops == []
      && FailedDialling(k, talk, res.error) && exists i :: Started(op, talk, k, i)
  }

  lemma {:induction false} DiallingTally(d: Dial, k: byte, talk: seq<Exchange>, polls: nat)
    requires Dialling(d, k, talk, polls)
    ensures TallyOf(talk) == Tally([k], [], polls)
  {
    var n := |talk| - 1;
    var front, e := talk[..n], talk[n];
    assert talk == front + [e];
    TallySnoc(front, e);
    if polls > 0 {
      assert Dialling(d, k, front, polls - 1);
      hide Dialling;
      DiallingTally(d, k, front, polls - 1);
    } else {
      SlotTally(talk[0], k);
      assert front == [talk[0]];
    }
  }

  lemma SlotTally(e: Exchange, k: byte)
    requires About(e, ASK_SLOT) && e.got.Ok? && Told(e.got.value) == k != 0xFF
    ensures TallyOf([e]) == Tally([k], [], 0)
  {
    TallySnoc([], e);
    assert [] + [e] == [e] && [] + [k] == [k];
  }

  /** The fate of a finished connect, told without the lookup in front. */
  predicate TailFate(d: Dial, talk: seq<Exchange>, res: Result<byte>, fate: Fate) {
    match fate
    case NoSlot => res.Err? && TallyOf(talk) == NOTHING
    case Returned(k) => res == Ok(k) && TallyOf(talk).slots == [k] && TallyOf(talk).stops == [] && ReportedUp(k, talk)
    case TimedOut(k) =>
      res == Err(Timeout) && TallyOf(talk) == Tally([k], [Short([k])], d.polls) && PolledOut(k, talk, d.polls)
    case LeftOpen(k) =>
      && res.Err? && TallyOf(talk).slots == [k] && TallyOf(talk).stops == []
      && FailedDialling(k, talk, res.error)
  }

  lemma ConnectTally(d: Dial, talk: seq<Exchange>, res: Result<byte>) returns (fate: Fate)
    requires ConnectTalk(d, talk, res)
    ensures TailFate(d, talk, res, fate)
    ensures !fate.NoSlot? ==> StartedAt(d, talk, fate.sock, 0)
  {
    var n := |talk| - 1;
    var front, e := talk[..n], talk[n];
    assert talk == front + [e];
    TallySnoc(front, e);
    if n == 0 {
      assert front == [];
      fate := NoSlot;
    } else if n == 1 {
      assert front == [talk[0]];
      SlotTally(talk[0], Told(talk[0].got.value));
      fate := LeftOpen(Told(talk[0].got.value));
    } else {
      var k := Told(talk[0].got.value);
      DiallingTally(d, k, front, n - 2);
      assert forall i :: 0 <= i < n ==> front[i] == talk[i];
      assert [] + AskStop(k).params == AskStop(k).params;
      hide AskStart, TallyOf;
      fate := if n - 2 == d.polls then TimedOut(k) else if res.Ok? then Returned(k) else LeftOpen(k);
    }
  }

  /** A lookup touches no slot. */
  lemma {:induction false} QuietTally(talk: seq<Exchange>, more: seq<Exchange>)
    requires forall i :: 0 <= i < |talk| ==> talk[i].asked.cmd == 0x34 || talk[i].asked.cmd == 0x35
    ensures TallyOf(talk + more) == TallyOf(more)
  {
    if more == [] {
      assert talk + more == talk;
      if talk != [] {
        var n := |talk| - 1;
        assert talk[..n] + [] == talk[..n];
        QuietTally(talk[..n], []);
      }
    } else {
      var m := |more| - 1;
      hide Tallied;
      assert (talk + more)[..|talk + more| - 1] == talk + more[..m];
      QuietTally(talk, more[..m]);
    }
  }

  lemma LookupQuiet(host: seq<byte>, talk: seq<Exchange>, res: Result<seq<byte>>)
    requires LookupTalk(host, talk, res)
    ensures forall i :: 0 <= i < |talk| ==> talk[i].asked.cmd == 0x34 || talk[i].asked.cmd == 0x35
  {
    var n := |talk| - 1;
    hide NotReady, Sized;
    assert forall i :: 0 <= i < n ==> talk[..n][i] == talk[i];
  }

  lemma OneFate(op: Op, talk: seq<Exchange>, res: Result<Val>, f: Fate, g: Fate)
    requires op.Connect? || op.ConnectHost?
    requires HasFate(op, talk, res, f) && HasFate(op, talk, res, g)
    ensures f == g
  {
    hide TallyOf, ReportedUp, PolledOut, FailedDialling, Started;
    var t := TallyOf(talk);
    assert !f.NoSlot? ==> t.slots == [f.sock] && t.slots[0] == f.sock;
    assert !g.NoSlot? ==> t.slots == [g.sock] && t.slots[0] == g.sock;
    assert f.TimedOut? || g.TimedOut? ==> |t.stops| == 1;
  }

  lemma FateOfHost(host: seq<byte>, d: Dial, talk: seq<Exchange>, n: nat, ip: Result<seq<byte>>, r: Result<byte>)
    returns (fate: Fate)
    requires HostTalk(host, d, talk, n, ip, r)
    ensures HasFate(ConnectHost(host, d), talk, SlotResult(r), fate)
  {
    var head, tail := talk[..n], talk[n..];
    assert talk == head + tail;
    LookupQuiet(host, head, ip);
    QuietTally(head, tail);
    if ip.Err? {
      assert tail == [];
      fate := NoSlot;
    } else {
      fate := ConnectTally(d.(ip := ip.value), tail, r);
      if !fate.NoSlot? {
        AddressBefore(host, head, ip);
        assert talk[n - 1] == head[n - 1] && talk[n] == tail[0] && talk[n + 1] == tail[1];
        hide TallyOf, LookupTalk, ConnectTalk, About, AskStart;
        assert Started(ConnectHost(host, d), talk, fate.sock, n);
        TailEnds(head, tail, fate.sock, d.polls);
      }
    }
  }

  /** What the end of a conversation shows does not depend on what came before. */
  lemma TailEnds(head: seq<Exchange>, tail: seq<Exchange>, k: byte, polls: nat)
    requires tail != []
    ensures ReportedUp(k, tail) ==> ReportedUp(k, head + tail)
    ensures PolledOut(k, tail, polls) ==> PolledOut(k, head + tail, polls)
    ensures forall e :: FailedDialling(k, tail, e) ==> FailedDialling(k, head + tail, e)
  {
    hide About;
    var talk, m := head + tail, |head|;
    assert talk[|talk| - 1] == tail[|tail| - 1];
    if PolledOut(k, tail, polls) {
      var n := |talk| - 1;
      forall i | n - polls <= i < n
        ensures About(talk[i], AskState(k)) && talk[i].got.Ok? && Told(talk[i].got.value) != 4
      {
        assert talk[i] == tail[i - m];
      }
    }
  }

  lemma FateOfConnect(d: Dial, talk: seq<Exchange>, r: Result<byte>) returns (fate: Fate)
    requires ConnectTalk(d, talk, r)
    ensures HasFate(Connect(d), talk, SlotResult(r), fate)
  {
    fate := ConnectTally(d, talk, r);
    hide TallyOf, ConnectTalk;
    if !fate.NoSlot? {
      assert Started(Connect(d), talk, fate.sock, 0);
    }
  }

  /**
    A finished connect, by address or by name, has put the slot it obtained into exactly
    one class: returned after a poll of that slot, read so by the chip, was answered 4;
    stopped once after all polls of that slot were not; or left open because the start of
    its client or a poll of it failed.  The client was started on that slot, for the address
    given or the one looked up.
  */
  lemma SlotLedger(op: Op, log: seq<Xfer>, res: Result<Val>) returns (fate: Fate)
    requires op.Connect? || op.ConnectHost?
    requires After(Ready(Start(op)), log) == Some(Ready(Done(res)))
    ensures forall f :: HasFate(op, Talk(log), res, f) <==> f == fate
  {
    hide After, Talk, HasFate, ConnectTalk, HostTalk, Start;
    match op {
      case Connect(d) =>
        var r := ConnectConversation(d, log, res);
        fate := FateOfConnect(d, Talk(log), r);
      case ConnectHost(host, d) =>
        var n, ip, r := ConnectHostConversation(host, d, log, res);
        fate := FateOfHost(host, d, Talk(log), n, ip, r);
    }
    forall f | HasFate(op, Talk(log), res, f) ensures f == fate {
      OneFate(op, Talk(log), res, fate, f);
    }
  }

  // ---- the ledger of many connects ----

  /** One finished connect: what was called, what it did on the bus, what it returned. */
  datatype Dialled = Dialled(op: Op, log: seq<Xfer>, res: Result<Val>)

  predicate Finished(d: Dialled) {
    (d.op.Connect? || d.op.ConnectHost?) && After(Ready(Start(d.op)), d.log) == Some(Ready(Done(d.res)))
  }

  function LogsOf(ds: seq<Dialled>): seq<Xfer> {
    if ds == [] then [] else LogsOf(ds[..|ds| - 1]) + ds[|ds| - 1].log
  }

  /** The slots that `fates` account for, and the stops they include, in order. */
  function SlotsOf(fates: seq<Fate>): seq<byte> {
    if fates == [] then []
    else
      var f := fates[|fates| - 1];
      SlotsOf(fates[..|fates| - 1]) + if f.NoSlot? then [] else [f.sock]
  }

  function StopsOf(fates: seq<Fate>): seq<Param> {
    if fates == [] then []
    else
      var f := fates[|fates| - 1];
      StopsOf(fates[..|fates| - 1]) + if f.TimedOut? then [Short([f.sock])] else []
  }

  function AddTally(a: Tally, b: Tally): Tally {
    Tally(a.slots + b.slots, a.stops + b.stops, a.waited + b.waited)
  }

  lemma AddTallied(a: Tally, b: Tally, e: Exchange)
    ensures Tallied(AddTally(a, b), e) == AddTally(a, Tallied(b, e))
  {
    if e.asked.cmd == 0x2E {
      Regroup(a.stops, b.stops, e.asked.params);
    } else if e.asked.cmd == 0x3F && e.got.Ok? {
      Regroup(a.slots, b.slots, [Told(e.got.value)]);
    }
  }

  lemma {:induction false} TallyConcat(a: seq<Exchange>, b: seq<Exchange>)
    ensures TallyOf(a + b) == AddTally(TallyOf(a), TallyOf(b))
  {
    if b == [] {
      assert a + b == a;
      NothingTallied(TallyOf(a));
    } else {
      hide Tallied, TallyOf, AddTally;
      var front, e := b[..|b| - 1], b[|b| - 1];
      assert b == front + [e];
      Regroup(a, front, [e]);
      TallyConcat(a, front);
      TallySnoc(a + front, e);
      TallySnoc(front, e);
      AddTallied(TallyOf(a), TallyOf(front), e);
    }
  }

  lemma NothingTallied(t: Tally)
    ensures AddTally(t, NOTHING) == t
  {
  }

  /** Conversations of logs that follow one another follow one another. */
  lemma {:induction false} TalkConcat(a: seq<Xfer>, b: seq<Xfer>)
    requires b == [] || !b[0].Recv?
    ensures Talk(a + b) == Talk(a) + Talk(b)
  {
    hide Talk, Said, Last;
    if b == [] {
      assert a + b == a;
      NoTalk(Talk(a));
    } else {
      var front, x := b[..|b| - 1], b[|b| - 1];
      assert b == front + [x];
      Regroup(a, front, [x]);
      TalkConcat(a, front);
      TalkSnoc(a + front, x);
      TalkSnoc(front, x);
      SaidBehind(Talk(a), Talk(front), a, front, x);
    }
  }

  lemma NoTalk(talk: seq<Exchange>)
    ensures talk + Talk([]) == talk
  {
  }

  lemma SaidBehind(a: seq<Exchange>, b: seq<Exchange>, before: seq<Xfer>, front: seq<Xfer>, x: Xfer)
    requires front != [] || !x.Recv?
    ensures Said(a + b, Last(before + front), x) == a + Said(b, Last(front), x)
  {
    if front != [] {
      assert (before + front)[|before + front| - 1] == front[|front| - 1];
    }
  }

  ghost predicate FateOf(d: Dialled, f: Fate) {
    (d.op.Connect? || d.op.ConnectHost?) && HasFate(d.op, Talk(d.log), d.res, f)
  }

  lemma OneLedger(d: Dialled) returns (fate: Fate)
    requires Finished(d)
    ensures forall f :: FateOf(d, f) <==> f == fate
    ensures TallyOf(Talk(d.log)).slots == SlotsOf([fate]) && TallyOf(Talk(d.log)).stops == StopsOf([fate])
  {
    hide TallyOf, After, Talk, ReportedUp, PolledOut, FailedDialling, Started;
    fate := SlotLedger(d.op, d.log, d.res);
    assert HasFate(d.op, Talk(d.log), d.res, fate);
    assert [fate][..0] == [];
  }

  /**
    Over any sequence of finished connects: each has exactly one fate, the slots handed
    out on the bus are the fates' slots in order, and the stops issued are those for the
    slots that timed out, one each.
  */
  lemma {:induction false} LedgerOfMany(ds: seq<Dialled>) returns (fates: seq<Fate>)
    requires forall i :: 0 <= i < |ds| ==> Finished(ds[i])
    ensures |fates| == |ds|
    ensures forall i, f :: 0 <= i < |ds| ==> (FateOf(ds[i], f) <==> f == fates[i])
    ensures TallyOf(Talk(LogsOf(ds))).slots == SlotsOf(fates) && TallyOf(Talk(LogsOf(ds))).stops == StopsOf(fates)
  {
    hide TallyOf, Talk, Finished, FateOf;
    if ds == [] {
      fates := [];
      NothingDialled();
    } else {
      var front, d := ds[..|ds| - 1], ds[|ds| - 1];
      var before := LedgerOfMany(front);
      var f := OneLedger(d);
      FinishedStarts(d);
      TalkConcat(LogsOf(front), d.log);
      TallyConcat(Talk(LogsOf(front)), Talk(d.log));
      fates := before + [f];
      CountsSnoc(before, f);
    }
  }

  lemma FinishedStarts(d: Dialled)
    requires Finished(d)
    ensures d.log == [] || !d.log[0].Recv?
  {
    hide After;
    if d.log != [] {
      StartsWithSend(Start(d.op), d.log);
    }
  }

  lemma NothingDialled()
    ensures TallyOf(Talk(LogsOf([]))) == NOTHING
  {
  }

  lemma CountsSnoc(fates: seq<Fate>, f: Fate)
    ensures SlotsOf(fates + [f]) == SlotsOf(fates) + SlotsOf([f])
    ensures StopsOf(fates + [f]) == StopsOf(fates) + StopsOf([f])
  {
    Snoc(fates, f);
    assert [f][..0] == [];
  }
}
