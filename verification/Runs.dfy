/** Relating a growing transfer log to runs of the machine. */
module Runs {
  import opened Bytes
  import opened Machine
  import opened Proto

  /** The transfers logged since `before` take the machine from `c` to `c'`. */
  predicate Ran(before: seq<Xfer>, now: seq<Xfer>, c: Ctl, c': Ctl) {
    before <= now && After(c, now[|before|..]) == Some(c')
  }

  /** The log has grown by one exchange, or by the failed attempt at sending its request. */
  predicate Exchanged(before: seq<Xfer>, now: seq<Xfer>, ask: Ask) {
    var n := |before|;
    && before <= now && n < |now| <= n + 2
    && now[n].Send? && now[n].cmd == ask.cmd && now[n].params == ask.params && Faithful(now[n])
    && (now[n].sent.Err? <==> |now| == n + 1)
    && (|now| == n + 2 ==>
          now[n + 1].Recv? && now[n + 1].cmd == ask.cmd && now[n + 1].how == ask.how && Faithful(now[n + 1]))
  }

  /** What the last logged transfer came to. */
  function Outcome(log: seq<Xfer>): Result<seq<seq<byte>>> {
    match Last(log)
    case Send(_, _, _, sent) => if sent.Err? then Err(sent.error) else Ok([])
    case Recv(_, _, _, got) => got
    case Nap => Ok([])
  }

  lemma RanNothing(log: seq<Xfer>, c: Ctl)
    ensures Ran(log, log, c, c)
  {
  }

  lemma RanStep(before: seq<Xfer>, mid: seq<Xfer>, x: Xfer, c: Ctl, m: Ctl)
    requires Ran(before, mid, c, m) && Advance(m, x).Some?
    ensures Ran(before, mid + [x], c, Advance(m, x).value)
  {
    hide Advance;
    assert (mid + [x])[|before|..] == mid[|before|..] + [x];
    AfterSnoc(c, mid[|before|..], x);
  }

  /** An exchange for the request at `pc` moves the run on to where its outcome leads. */
  lemma RanExchange(before: seq<Xfer>, mid: seq<Xfer>, now: seq<Xfer>, c: Ctl, pc: Pc)
    requires Ran(before, mid, c, Ready(pc)) && Asks(pc) && Exchanged(mid, now, AskOf(pc))
    ensures Ran(before, now, c, Ready(Resume(pc, Outcome(now))))
  {
    hide AskOf, Faithful, Resume, After;
    var n := |mid|;
    var x := now[n];
    RanStep(before, mid, x, c, Ready(pc));
    if x.sent.Err? {
      assert now == mid + [x];
    } else {
      var y := now[n + 1];
      assert now == mid + [x] + [y];
      RanStep(before, mid + [x], y, c, Await(pc));
    }
  }

  lemma RanNap(before: seq<Xfer>, mid: seq<Xfer>, c: Ctl, sock: byte, room: nat)
    requires Ran(before, mid, c, Ready(Doze(sock, room)))
    ensures Ran(before, mid + [Nap], c, Ready(Pull(sock, room)))
  {
    RanStep(before, mid, Nap, c, Ready(Doze(sock, room)));
  }

  lemma {:induction false} AfterConcat(c: Ctl, a: seq<Xfer>, b: seq<Xfer>)
    requires After(c, a).Some?
    ensures After(c, a + b) == After(After(c, a).value, b)
  {
    hide Advance;
    if b == [] {
      assert a + b == a;
    } else {
      hide After;
      var front, x := b[..|b| - 1], b[|b| - 1];
      assert b == front + [x];
      Regroup(a, front, [x]);
      AfterConcat(c, a, front);
      AfterSnoc(c, a + front, x);
      AfterSnoc(After(c, a).value, front, x);
    }
  }

  lemma RanThen(a: seq<Xfer>, b: seq<Xfer>, now: seq<Xfer>, c: Ctl, m: Ctl, c': Ctl)
    requires Ran(a, b, c, m) && Ran(b, now, m, c')
    ensures Ran(a, now, c, c')
  {
    assert now[|a|..] == b[|a|..] + now[|b|..];
    AfterConcat(c, b[|a|..], now[|b|..]);
  }
}
