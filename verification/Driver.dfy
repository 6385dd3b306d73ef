/** The driver: SPI framing on a bus with chip select and ACK, and the operations built on it. */
module Driver {
  import opened Acks
  import opened Bytes
  import opened Machine
  import opened Proto
  import opened Replies
  import opened Requests
  import opened Runs
  import opened ScanList

  // ---- bus discipline ----

  /** What happens on the pins; `Clock` is one bus operation, `Raise` says whether the pin obeyed. */
  datatype Signal = AckLow | CsLow | Clock | Raise(ok: bool)

  predicate Legal(prev: Option<Signal>, next: Signal) {
    match next
    case AckLow => prev.None? || prev.value.AckLow? || prev.value.Raise?
    case CsLow => prev == Some(AckLow)
    case Clock => prev == Some(CsLow) || prev == Some(Clock)
    case Raise(_) => prev == Some(CsLow) || prev == Some(Clock)
  }

  function Before(line: seq<Signal>, i: nat): Option<Signal>
    requires i <= |line|
  {
    if i == 0 then None else Some(line[i - 1])
  }

  /**
    Bus operations happen only inside a chip-select window, every window directly
    follows an ACK-low wait, and it ends with an attempt to raise CS.
  */
  predicate Disciplined(line: seq<Signal>) {
    forall i :: 0 <= i < |line| ==> Legal(Before(line, i), line[i])
  }

  predicate AtRest(line: seq<Signal>) {
    var last := Before(line, |line|);
    last.None? || last.value.AckLow? || last.value.Raise?
  }

  predicate InWindow(line: seq<Signal>) {
    var last := Before(line, |line|);
    last == Some(CsLow) || last == Some(Clock)
  }

  /** Every attempt to raise CS succeeded. */
  predicate PinsObey(line: seq<Signal>) {
    forall i :: 0 <= i < |line| && line[i].Raise? ==> line[i].ok
  }

  lemma LineGrows(line: seq<Signal>, next: Signal)
    requires Disciplined(line) && Legal(Before(line, |line|), next)
    ensures Disciplined(line + [next])
    ensures PinsObey(line + [next]) <==> PinsObey(line) && (next.Raise? ==> next.ok)
  {
    var more := line + [next];
    hide Legal;
    Snoc(line, next);
    assert more[|line|] == next && Before(more, |line|) == Before(line, |line|);
    forall i | 0 <= i < |line| ensures more[i] == line[i] && Before(more, i) == Before(line, i) {}
    hide Before;
  }

  /** Read back from a disciplined trace: what must stand before a bus operation, and before a window. */
  lemma {:induction false} ClockedInWindow(line: seq<Signal>, i: nat) returns (w: nat)
    requires Disciplined(line) && i < |line| && line[i].Clock?
    ensures 1 <= w < i && line[w].CsLow? && line[w - 1].AckLow?
    ensures forall j :: w < j <= i ==> line[j].Clock?
  {
    assert Legal(Before(line, i), line[i]);
    if line[i - 1].CsLow? {
      w := i - 1;
      assert Legal(Before(line, w), line[w]);
    } else {
      w := ClockedInWindow(line, i - 1);
    }
  }

  function LenOf(res: Result<seq<seq<byte>>>): Result<nat> {
    match res
    case Ok(items) => Ok(|First(items)|)
    case Err(e) => Err(e)
  }

  /** A buffer in which `piece` was written at `at`. */
  function Splice(buf: seq<byte>, at: nat, piece: seq<byte>): (r: seq<byte>)
    requires at + |piece| <= |buf|
    ensures |r| == |buf|
  {
    buf[..at] + piece + buf[at + |piece|..]
  }

  lemma SpliceSnoc(buf: seq<byte>, at: nat, piece: seq<byte>, b: byte)
    requires at + |piece| < |buf|
    ensures Splice(buf, at, piece)[at + |piece| := b] == Splice(buf, at, piece + [b])
  {
  }

  lemma SpliceMore(buf: seq<byte>, at: nat, p: seq<byte>, q: seq<byte>)
    requires at + |p| + |q| <= |buf|
    ensures Splice(Splice(buf, at, p), at + |p|, q) == Splice(buf, at, p + q)
  {
  }

  lemma SpliceNone(buf: seq<byte>, at: nat)
    requires at <= |buf|
    ensures Splice(buf, at, []) == buf
  {
  }

  /** The caller's buffer after its first bytes were overwritten. */
  function Overlay(buf: seq<byte>, wrote: seq<byte>): seq<byte>
    requires |wrote| <= |buf|
  {
    Splice(buf, 0, wrote)
  }

  lemma {:induction false} ListRoom(s: seq<byte>, n: nat, room: nat)
    ensures |List(s, n, room).wrote| <= room
  {
    if n > 0 && |s| >= 1 {
      var len: nat := s[0];
      if 1 + len <= room && |s| >= 1 + len {
        ListRoom(s[1 + len..], n - 1, room - 1 - len);
      }
    }
  }

  /** No decoder writes past the room it was given, also when it fails. */
  lemma WroteFits(cmd: byte, how: How, s: seq<byte>)
    ensures |Decode(cmd, how, s).wrote| <= how.room
  {
    if how.Into? && Hunt(s, START_TIMEOUT_ITERS).Ok? && |Hunt(s, START_TIMEOUT_ITERS).value| >= 2 {
      var t := Hunt(s, START_TIMEOUT_ITERS).value;
      ListRoom(t[2..], t[1], how.room);
    }
  }

  class Nina {
    var csHigh: bool
    /** The bytes the bus will still deliver in this window; a read past them is a bus error. */
    var miso: seq<byte>
    /** How many more write calls will succeed, and how many bytes the failing one still clocks out. */
    var writesLeft: nat
    var torn: nat
    ghost var mosi: seq<byte>
    ghost var line: seq<Signal>
    ghost var log: seq<Xfer>

    /** Outside any window, with CS high unless raising it has failed. */
    ghost predicate Deselected()
      reads this`line, this`csHigh
    {
      Disciplined(line) && AtRest(line) && (PinsObey(line) ==> csHigh)
    }

    /** Between exchanges: everything sent so far has been answered for. */
    ghost predicate Valid()
      reads this
    {
      Deselected() && PhaseOf(log) == Resting
    }

    /** Between the two halves of an exchange for `cmd`. */
    ghost predicate Asked(cmd: byte)
      reads this
    {
      Deselected() && PhaseOf(log) == Waiting(cmd)
    }

    /** Inside a window opened for one command. */
    ghost predicate Selected()
      reads this`line, this`csHigh
    {
      Disciplined(line) && InWindow(line) && !csHigh
    }

    constructor ()
      ensures Valid() && log == [] && line == [] && csHigh
    {
      csHigh := true;
      miso := [];
      writesLeft, torn := 0, 0;
      mosi, line, log := [], [], [];
    }

    /** Writes a transfer into the log. */
    ghost method Record(x: Xfer)
      modifies this`log
      ensures log == old(log) + [x] && PhaseOf(log) == PhaseAfter(PhaseOf(old(log)), x)
    {
      PhaseSnoc(log, x);
      log := log + [x];
    }

    // ---- pins and bus ----

    method WaitAckLow() returns (r: Result<()>)
      requires Deselected()
      modifies this`line
      ensures Deselected()
      ensures r.Ok? ==> Before(line, |line|) == Some(AckLow)
      ensures r.Err? ==> r.error == Pin
      ensures line == old(line) || line == old(line) + [AckLow]
    {
      var ok: bool := *;
      if !ok {
        return Err(Pin);
      }
      LineGrows(line, AckLow);
      line := line + [AckLow];
      return Ok(());
    }

    /** Pulls CS low; what the bus will do in the window is the environment's choice. */
    method SelectChip() returns (r: Result<()>)
      requires Deselected() && Before(line, |line|) == Some(AckLow)
      modifies this`line, this`csHigh, this`miso, this`mosi, this`writesLeft, this`torn
      ensures r.Ok? ==> Selected() && mosi == []
      ensures r.Err? ==> r.error == Pin && Deselected()
    {
      var ok: bool := *;
      if !ok {
        return Err(Pin);
      }
      LineGrows(line, CsLow);
      line, csHigh := line + [CsLow], false;
      miso := *;
      writesLeft := *;
      torn := *;
      mosi := [];
      return Ok(());
    }

    /** A failing pin leaves CS low; the driver ignores that. */
    method DeselectChip()
      requires Selected()
      modifies this`line, this`csHigh
      ensures Deselected()
    {
      var ok: bool := *;
      LineGrows(line, Raise(ok));
      line := line + [Raise(ok)];
      if ok {
        csHigh := true;
      }
    }

    method BusWrite(bytes: seq<byte>) returns (r: Result<()>)
      requires Selected()
      modifies this`line, this`mosi, this`writesLeft
      ensures Selected()
      ensures r.Ok? ==> mosi == old(mosi) + bytes
      ensures r.Err? ==> r.error == Spi && old(mosi) <= mosi <= old(mosi) + bytes
    {
      LineGrows(line, Clock);
      line := line + [Clock];
      if writesLeft == 0 {
        mosi := mosi + bytes[..Min(torn, |bytes|)];
        return Err(Spi);
      }
      writesLeft := writesLeft - 1;
      mosi := mosi + bytes;
      return Ok(());
    }

    /** Clocks `n` DUMMY bytes out and as many reply bytes in. */
    method BusTransfer(n: nat) returns (r: Result<seq<byte>>)
      requires Selected()
      modifies this`line, this`miso
      ensures Selected()
      ensures |old(miso)| < n ==> r == Err(Spi) && miso == []
      ensures n <= |old(miso)| ==> r == Ok(old(miso)[..n]) && miso == old(miso)[n..]
    {
      LineGrows(line, Clock);
      line := line + [Clock];
      if |miso| < n {
        miso := [];
        return Err(Spi);
      }
      r := Ok(miso[..n]);
      miso := miso[n..];
    }

    // ---- sending ----

    method PadTo4(total: nat) returns (r: Result<()>)
      requires Selected()
      modifies this`line, this`mosi, this`writesLeft
      ensures Selected()
      ensures r.Ok? ==> mosi == old(mosi) + Padding(total)
      ensures r.Err? ==> r.error == Spi && old(mosi) <= mosi <= old(mosi) + Padding(total)
    {
      hide Selected;
      var n := total;
      while n % 4 != 0
        invariant Selected()
        invariant total <= n <= total + |Padding(total)|
        invariant mosi == old(mosi) + Padding(total)[..n - total]
        decreases total + |Padding(total)| - n
      {
        assert n - total < |Padding(total)|;
        ghost var before := mosi;
        var w := BusWrite([DUMMY]);
        assert Padding(total)[..n - total] + [DUMMY] == Padding(total)[..n - total + 1];
        Regroup(old(mosi), Padding(total)[..n - total], [DUMMY]);
        if w.Err? {
          PrefixOfWhole(old(mosi), Padding(total), n - total + 1);
          return w;
        }
        n := n + 1;
      }
      assert Padding(total)[..n - total] == Padding(total);
      return Ok(());
    }

    /** One parameter as its length byte and its bytes, in two writes. */
    method WriteParam(p: seq<byte>) returns (r: Result<()>)
      requires Selected()
      modifies this`line, this`mosi, this`writesLeft
      ensures Selected()
      ensures r.Ok? ==> mosi == old(mosi) + EncodeParam(Short(p))
      ensures r.Err? ==> r.error == Spi && old(mosi) <= mosi <= old(mosi) + EncodeParam(Short(p))
    {
      ghost var before := mosi;
      r := BusWrite([LowByte(|p|)]);
      TwoPieces(before, [LowByte(|p|)], p);
      if r.Err? {
        PrefixTrans(mosi, before + [LowByte(|p|)], before + EncodeParam(Short(p)));
        return;
      }
      r := BusWrite(p);
      if r.Err? {
        PrefixTrans(before, before + [LowByte(|p|)], mosi);
      }
    }

    /** The bytes of a short-parameter command, written piece by piece. */
    method WriteFrame(cmd: byte, items: seq<seq<byte>>) returns (r: Result<()>)
      requires Selected() && mosi == []
      modifies this`line, this`mosi, this`writesLeft
      ensures Selected()
      ensures r.Ok? ==> mosi == Wire(cmd, Shorts(items))
      ensures r.Err? ==> r.error == Spi && mosi <= Wire(cmd, Shorts(items))
    {
      hide EncodeParams, EncodeParam, Wire, Frame, Padding, AsRequest, LowByte, Selected;
      ghost var ps := Shorts(items);
      ghost var header := [START_CMD, AsRequest(cmd), LowByte(|ps|)];
      WireFront(cmd, ps, 0);
      r := BusWrite([START_CMD, AsRequest(cmd), LowByte(|items|)]);
      assert [] + header == header && EncodeParams(ps[..0]) == [] by { NoParams(ps); }
      if r.Err? {
        PrefixTrans(mosi, header, Wire(cmd, ps));
        return;
      }
      var total := 3;
      var i := 0;
      while i < |items|
        invariant Selected() && 0 <= i <= |items|
        invariant mosi == header + EncodeParams(ps[..i]) && total == |mosi|
      {
        var p := items[i];
        EncodeSnoc(ps, i);
        WireFront(cmd, ps, i + 1);
        Regroup(header, EncodeParams(ps[..i]), EncodeParam(ps[i]));
        ghost var before := mosi;
        r := WriteParam(p);
        if r.Err? {
          PrefixTrans(mosi, before + EncodeParam(ps[i]), Wire(cmd, ps));
          return;
        }
        ParamLength(p);
        total := total + 1 + |p|;
        i := i + 1;
      }
      assert ps[..i] == ps;
      WireEnd(cmd, ps);
      ghost var body := mosi;
      r := BusWrite([END_CMD]);
      if r.Err? {
        PrefixTrans(mosi, body + [END_CMD], Wire(cmd, ps));
        return;
      }
      total := total + 1;
      r := PadTo4(total);
    }

    method SendCmd(cmd: byte, items: seq<seq<byte>>) returns (r: Result<()>)
      requires Valid()
      modifies this
      ensures if r.Ok? then Asked(cmd) else Valid()
      ensures log == old(log) + [Last(log)]
      ensures var x := Last(log);
              x.Send? && x.cmd == cmd && x.params == Shorts(items) && x.sent == r && Faithful(x)
      ensures r != Err(BufferTooSmall)
    {
      hide Wire, Frame, Selected, Deselected, PhaseOf;
      r := WaitAckLow();
      if r.Err? {
        Record(Send(cmd, Shorts(items), [], r));
        return;
      }
      r := SelectChip();
      if r.Err? {
        Record(Send(cmd, Shorts(items), [], r));
        return;
      }
      r := WriteFrame(cmd, items);
      DeselectChip();
      Record(Send(cmd, Shorts(items), mosi, r));
    }

    method SendCmdMixed(cmd: byte, params: seq<Param>) returns (r: Result<()>)
      requires Valid()
      modifies this
      ensures if r.Ok? then Asked(cmd) else Valid()
      ensures log == old(log) + [Last(log)]
      ensures var x := Last(log);
              x.Send? && x.cmd == cmd && x.params == params && x.sent == r && Faithful(x)
      ensures r == Err(BufferTooSmall) <==> |Frame(cmd, params)| > 256
      ensures r == Err(BufferTooSmall) ==> line == old(line) && csHigh == old(csHigh)
    {
      hide Wire, Frame, Selected, Deselected, PhaseOf;
      var buf := new byte[256](_ => 0);
      var staged := StageFrame(cmd, params, buf);
      if staged.Err? {
        Record(Send(cmd, params, [], Err(BufferTooSmall)));
        return Err(BufferTooSmall);
      }
      r := WaitAckLow();
      if r.Err? {
        Record(Send(cmd, params, [], r));
        return;
      }
      r := SelectChip();
      if r.Err? {
        Record(Send(cmd, params, [], r));
        return;
      }
      r := BusWrite(buf[..staged.value]);
      assert [] + buf[..staged.value] == buf[..staged.value];
      DeselectChip();
      Record(Send(cmd, params, mosi, r));
    }

    // ---- receiving ----

    /** Polls the bus for START, at most 1000 times. */
    method HuntStart() returns (r: Result<()>)
      requires Selected()
      modifies this`line, this`miso
      ensures Selected()
      ensures match Hunt(old(miso), START_TIMEOUT_ITERS)
              case Ok(t) => r == Ok(()) && miso == t
              case Err(e) => r == Err(e)
    {
      var b := DUMMY;
      var i := 0;
      while i < START_TIMEOUT_ITERS
        invariant Selected() && 0 <= i <= START_TIMEOUT_ITERS && b != START_CMD
        invariant Hunt(old(miso), START_TIMEOUT_ITERS) == Hunt(miso, START_TIMEOUT_ITERS - i)
      {
        var t := BusTransfer(1);
        if t.Err? { return Err(Spi); }
        b := t.value[0];
        if b == START_CMD {
          break;
        }
        if b == ERR_CMD {
          return Err(Nina);
        }
        i := i + 1;
      }
      if b != START_CMD {
        return Err(Timeout);
      }
      return Ok(());
    }

    /** `len` bytes into `out` from `at` on, one transfer each. */
    method ReadBytes(out: array<byte>, at: nat, len: nat) returns (r: Result<()>)
      requires Selected() && at + len <= out.Length
      modifies this`line, this`miso, out
      ensures Selected()
      ensures |old(miso)| >= len ==>
                r == Ok(()) && miso == old(miso)[len..] && out[..] == Splice(old(out[..]), at, old(miso)[..len])
      ensures |old(miso)| < len ==>
                r == Err(Spi) && out[..] == Splice(old(out[..]), at, old(miso))
    {
      hide Splice;
      ghost var s, before := miso, out[..];
      SpliceNone(before, at);
      assert s[..0] == [];
      var k := 0;
      while k < len
        invariant Selected() && 0 <= k <= len && k <= |s|
        invariant miso == s[k..]
        invariant out[..] == Splice(before, at, s[..k])
      {
        var b := BusTransfer(1);
        if b.Err? {
          assert s[..k] == s;
          return Err(Spi);
        }
        ghost var now := out[..];
        out[at + k] := b.value[0];
        assert out[..] == now[at + k := b.value[0]];
        SpliceSnoc(before, at, s[..k], b.value[0]);
        assert s[..k] + [b.value[0]] == s[..k + 1];
        k := k + 1;
      }
      return Ok(());
    }

    /** The trailing END byte. */
    method ReadEnd() returns (r: Result<()>)
      requires Selected()
      modifies this`line, this`miso
      ensures Selected()
      ensures r == if old(miso) == [] then Err(Spi) else if old(miso)[0] != END_CMD then Err(Framing) else Ok(())
    {
      var b := BusTransfer(1);
      if b.Err? { return Err(Spi); }
      if b.value[0] != END_CMD { return Err(Framing); }
      return Ok(());
    }

    /** A payload of known length and its END byte. */
    method ReadPayload(out: array<byte>, len: nat) returns (r: Result<nat>)
      requires Selected() && len <= out.Length
      modifies this`line, this`miso, out
      ensures Selected()
      ensures var p := Payload(old(miso), len);
              && r == LenOf(p.res) && |p.wrote| <= out.Length && out[..] == Overlay(old(out[..]), p.wrote)
    {
      hide Splice;
      ghost var s := miso;
      assert |s| == len ==> s[..len] == s;
      var b := ReadBytes(out, 0, len);
      if b.Err? { return Err(b.error); }
      b := ReadEnd();
      if b.Err? { return Err(b.error); }
      return Ok(len);
    }

    method RecvCmdOneParamInner(cmd: byte, out: array<byte>) returns (r: Result<nat>)
      requires Selected()
      modifies this`line, this`miso, out
      ensures Selected()
      ensures var p := Decode(cmd, One8(out.Length), old(miso));
              && r == LenOf(p.res) && |p.wrote| <= out.Length && out[..] == Overlay(old(out[..]), p.wrote)
    {
      hide Hunt, Payload, Splice;
      SpliceNone(out[..], 0);
      var s := HuntStart();
      if s.Err? { return Err(s.error); }
      var hdr := BusTransfer(3);
      if hdr.Err? { return Err(Spi); }
      if hdr.value[0] != AsReply(cmd) { return Err(Framing); }
      if hdr.value[1] != 1 { return Err(Framing); }
      var len: nat := hdr.value[2];
      if len > out.Length { return Err(BufferTooSmall); }
      r := ReadPayload(out, len);
    }

    method RecvCmdOneParam16Inner(cmd: byte, out: array<byte>) returns (r: Result<nat>)
      requires Selected()
      modifies this`line, this`miso, out
      ensures Selected()
      ensures var p := Decode(cmd, One16(out.Length), old(miso));
              && r == LenOf(p.res) && |p.wrote| <= out.Length && out[..] == Overlay(old(out[..]), p.wrote)
    {
      hide Hunt, Payload, Splice;
      SpliceNone(out[..], 0);
      var s := HuntStart();
      if s.Err? { return Err(s.error); }
      ghost var t := miso;
      var hdr := BusTransfer(2);
      if hdr.Err? { return Err(Spi); }
      if hdr.value[0] != AsReply(cmd) { return Err(Framing); }
      if hdr.value[1] != 1 { return Err(Framing); }
      var lenBuf := BusTransfer(2);
      if lenBuf.Err? { return Err(Spi); }
      assert lenBuf.value == [t[2], t[3]] && miso == t[4..];
      var len := FromBe16(lenBuf.value[0], lenBuf.value[1]);
      if len > out.Length { return Err(BufferTooSmall); }
      r := ReadPayload(out, len);
    }

    /** One length byte and its bytes, stored from `written` on. */
    method ReadItem(scratch: array<byte>, written: nat) returns (r: Result<nat>)
      requires Selected() && written <= scratch.Length
      modifies this`line, this`miso, scratch
      ensures Selected()
      ensures var s, before := old(miso), old(scratch[..]);
              if |s| < 1 then r == Err(Spi) && scratch[..] == before
              else
                var end: nat := 1 + s[0] as int;
                if written + end > scratch.Length then r == Err(BufferTooSmall) && scratch[..] == before
                else if |s| < end then r == Err(Spi) && scratch[..] == Splice(before, written, s)
                else r == Ok(written + end) && miso == s[end..] && scratch[..] == Splice(before, written, s[..end])
    {
      hide Splice;
      ghost var s, before := miso, scratch[..];
      var lenBuf := BusTransfer(1);
      if lenBuf.Err? {
        return Err(Spi);
      }
      var len: nat := lenBuf.value[0];
      if written + 1 + len > scratch.Length {
        return Err(BufferTooSmall);
      }
      scratch[written] := lenBuf.value[0];
      SpliceNone(before, written);
      SpliceSnoc(before, written, [], lenBuf.value[0]);
      assert [] + [lenBuf.value[0]] == [lenBuf.value[0]];
      assert scratch[..] == before[written := lenBuf.value[0]];
      var b := ReadBytes(scratch, written + 1, len);
      if b.Err? {
        SpliceMore(before, written, [lenBuf.value[0]], s[1..]);
        assert s == [lenBuf.value[0]] + s[1..];
        return Err(Spi);
      }
      SpliceMore(before, written, [lenBuf.value[0]], s[1..][..len]);
      assert s[..1 + len] == [lenBuf.value[0]] + s[1..][..len];
      return Ok(written + 1 + len);
    }

    /** The parameter loop of the variable-length receive: `[len, bytes]*` into `scratch`. */
    method ReadItems(scratch: array<byte>, numParams: byte) returns (r: Result<nat>)
      requires Selected()
      modifies this`line, this`miso, scratch
      ensures Selected()
      ensures var l := List(old(miso), numParams, scratch.Length);
              && |l.wrote| <= scratch.Length && scratch[..] == Overlay(old(scratch[..]), l.wrote)
              && match l.res
                 case Ok((_, rest)) => r == Ok(|l.wrote|) && miso == rest
                 case Err(e) => r == Err(e)
    {
      hide List, Prepend, Splice;
      var room := scratch.Length;
      ghost var before := scratch[..];
      ghost var all := List(miso, numParams, room);
      ListRoom(miso, numParams, room);
      ghost var items: seq<seq<byte>> := [];
      ghost var stored: seq<byte> := [];
      var written: nat := 0;
      var i := 0;
      PrependNothing(all);
      SpliceNone(before, 0);
      while i < numParams as int
        invariant Selected() && 0 <= i <= numParams as int && written == |stored| <= room
        invariant all == Prepend(items, stored, List(miso, numParams as int - i, room - written))
        invariant scratch[..] == Overlay(before, stored)
      {
        ghost var s, left := miso, numParams as int - i;
        var next := ReadItem(scratch, written);
        if next.Err? {
          ListStops(s, left, room - written);
          PrependStops(items, stored, List(s, left, room - written));
          if next.error == Spi && |s| >= 1 {
            SpliceMore(before, 0, stored, s);
          } else {
            assert stored + [] == stored;
          }
          return next;
        }
        ListGoes(s, left, room - written);
        ghost var end := next.value - written;
        SpliceMore(before, 0, stored, s[..end]);
        PrependMore(items, stored, [s[1..end]], s[..end], List(miso, left - 1, room - next.value));
        items, stored := items + [s[1..end]], stored + s[..end];
        written := next.value;
        i := i + 1;
      }
      ListNone(miso, room - written);
      PrependDone(items, stored, miso);
      return Ok(written);
    }

    method RecvCmdIntoInner(cmd: byte, scratch: array<byte>) returns (r: Result<(byte, nat)>)
      requires Selected()
      modifies this`line, this`miso, scratch
      ensures Selected()
      ensures var p := Decode(cmd, Into(scratch.Length), old(miso));
              && |p.wrote| <= scratch.Length && scratch[..] == Overlay(old(scratch[..]), p.wrote)
              && (p.res.Ok? ==> |p.res.value| <= 0xFF && r == Ok((|p.res.value|, |p.wrote|)))
              && (p.res.Err? ==> r == Err(p.res.error))
    {
      hide Hunt, List, Splice;
      SpliceNone(scratch[..], 0);
      var s := HuntStart();
      if s.Err? { return Err(s.error); }
      ghost var t := miso;
      var hdr := BusTransfer(2);
      if hdr.Err? { return Err(Spi); }
      if hdr.value[0] != AsReply(cmd) { return Err(Framing); }
      var numParams := hdr.value[1];
      assert miso == t[2..] && numParams == t[1];
      var items := ReadItems(scratch, numParams);
      if items.Err? { return Err(items.error); }
      ListCount(t[2..], t[1], scratch.Length);
      var end := ReadEnd();
      if end.Err? { return Err(end.error); }
      return Ok((numParams, items.value));
    }

    /** What a receive wrapper logs and returns for the decoder `how`. */
    ghost predicate Received(before: seq<Xfer>, cmd: byte, how: How)
      reads this
    {
      && log == before + [Last(log)]
      && Last(log).Recv? && Last(log).cmd == cmd && Last(log).how == how && Faithful(Last(log))
      && Last(log).got == if Last(log).got == Err(Pin) then Err(Pin) else Decode(cmd, how, Last(log).miso).res
    }

    method RecvCmdOneParam(cmd: byte, out: array<byte>) returns (r: Result<nat>)
      requires Asked(cmd)
      modifies this, out
      ensures Valid() && Received(old(log), cmd, One8(out.Length))
      ensures r == LenOf(Last(log).got)
      ensures var wrote := Decode(cmd, One8(out.Length), Last(log).miso).wrote;
              |wrote| <= out.Length && out[..] == Overlay(old(out[..]), wrote)
    {
      hide Decode, Tlv, Wire, Frame, Splice, Selected, Deselected, PhaseOf;
      SpliceNone(out[..], 0);
      NothingSent(cmd, One8(out.Length));
      var a := WaitAckLow();
      if a.Err? {
        Record(Recv(cmd, One8(out.Length), [], Err(Pin)));
        return Err(Pin);
      }
      a := SelectChip();
      if a.Err? {
        Record(Recv(cmd, One8(out.Length), [], Err(Pin)));
        return Err(Pin);
      }
      ghost var s := miso;
      r := RecvCmdOneParamInner(cmd, out);
      DeselectChip();
      Record(Recv(cmd, One8(out.Length), s, Decode(cmd, One8(out.Length), s).res));
    }

    method RecvCmdOneParam16(cmd: byte, out: array<byte>) returns (r: Result<nat>)
      requires Asked(cmd)
      modifies this, out
      ensures Valid() && Received(old(log), cmd, One16(out.Length))
      ensures r == LenOf(Last(log).got)
      ensures var wrote := Decode(cmd, One16(out.Length), Last(log).miso).wrote;
              |wrote| <= out.Length && out[..] == Overlay(old(out[..]), wrote)
    {
      hide Decode, Tlv, Wire, Frame, Splice, Selected, Deselected, PhaseOf;
      SpliceNone(out[..], 0);
      NothingSent(cmd, One16(out.Length));
      var a := WaitAckLow();
      if a.Err? {
        Record(Recv(cmd, One16(out.Length), [], Err(Pin)));
        return Err(Pin);
      }
      a := SelectChip();
      if a.Err? {
        Record(Recv(cmd, One16(out.Length), [], Err(Pin)));
        return Err(Pin);
      }
      ghost var s := miso;
      r := RecvCmdOneParam16Inner(cmd, out);
      DeselectChip();
      Record(Recv(cmd, One16(out.Length), s, Decode(cmd, One16(out.Length), s).res));
    }

    method RecvCmdInto(cmd: byte, scratch: array<byte>) returns (r: Result<(byte, nat)>)
      requires Asked(cmd)
      modifies this, scratch
      ensures Valid() && Received(old(log), cmd, Into(scratch.Length))
      ensures match Last(log).got
              case Ok(items) => |items| <= 0xFF && r == Ok((|items|, |Tlv(items)|))
              case Err(e) => r == Err(e)
      ensures var wrote := Decode(cmd, Into(scratch.Length), Last(log).miso).wrote;
              |wrote| <= scratch.Length && scratch[..] == Overlay(old(scratch[..]), wrote)
    {
      hide Decode, Tlv, Wire, Frame, Splice, Selected, Deselected, PhaseOf;
      SpliceNone(scratch[..], 0);
      NothingSent(cmd, Into(scratch.Length));
      var a := WaitAckLow();
      if a.Err? {
        Record(Recv(cmd, Into(scratch.Length), [], Err(Pin)));
        return Err(Pin);
      }
      a := SelectChip();
      if a.Err? {
        Record(Recv(cmd, Into(scratch.Length), [], Err(Pin)));
        return Err(Pin);
      }
      ghost var s := miso;
      r := RecvCmdIntoInner(cmd, scratch);
      if r.Ok? {
        DecodeStores(cmd, Into(scratch.Length), s);
      }
      DeselectChip();
      Record(Recv(cmd, Into(scratch.Length), s, Decode(cmd, Into(scratch.Length), s).res));
    }

    // ---- replies of known shape ----

    /** A reply into a zeroed one-byte buffer, of which the byte is returned. */
    method RecvByte(cmd: byte) returns (r: Result<byte>)
      requires Asked(cmd)
      modifies this
      ensures Valid() && Received(old(log), cmd, One8(1))
      ensures match Last(log).got case Ok(items) => r == Ok(Byte0(items)) case Err(e) => r == Err(e)
    {
      hide Decode, Faithful;
      var buf := new byte[1](_ => 0);
      var n := RecvCmdOneParam(cmd, buf);
      if n.Err? {
        return Err(n.error);
      }
      DecodeStores(cmd, One8(1), Last(log).miso);
      return Ok(buf[0]);
    }

    /** A reply into a zeroed four-byte buffer: its length and the buffer. */
    method RecvUpTo4(cmd: byte) returns (r: Result<(nat, seq<byte>)>)
      requires Asked(cmd)
      modifies this
      ensures Valid() && Received(old(log), cmd, One8(4))
      ensures match Last(log).got
              case Ok(items) => r.Ok? && |r.value.1| == 4 && r.value.0 <= 4 && r.value.1[..r.value.0] == First(items)
              case Err(e) => r == Err(e)
    {
      hide Decode, Faithful;
      var buf := new byte[4](_ => 0);
      var n := RecvCmdOneParam(cmd, buf);
      if n.Err? {
        return Err(n.error);
      }
      DecodeStores(cmd, One8(4), Last(log).miso);
      return Ok((n.value, buf[..]));
    }

    // ---- single exchanges ----

    method TcpOpenSocket() returns (r: Result<byte>)
      requires Valid()
      modifies this
      ensures Valid() && Exchanged(old(log), log, Ask(CMD_GET_SOCKET, [], One8(1)))
      ensures match Outcome(log)
              case Ok(items) => r == if Byte0(items) == NO_SOCKET then Err(Nina) else Ok(Byte0(items))
              case Err(e) => r == Err(e)
    {
      hide Faithful, Decode;
      assert Shorts([]) == [];
      var s := SendCmd(CMD_GET_SOCKET, []);
      if s.Err? { return Err(s.error); }
      var b := RecvByte(CMD_GET_SOCKET);
      if b.Err? { return Err(b.error); }
      if b.value == NO_SOCKET {
        return Err(Nina);
      }
      return Ok(b.value);
    }

    /** Starts a client, with the host name prepended if there is one; what the chip answers is not looked at. */
    method TcpStartClient(host: Option<seq<byte>>, ip: seq<byte>, port: nat, sock: byte, mode: byte)
      returns (r: Result<()>)
      requires Valid()
      modifies this
      ensures Valid()
      ensures Exchanged(old(log), log, Ask(CMD_START_CLIENT_TCP, Shorts(ClientItems(host, ip, port, sock, mode)), Into(4)))
      ensures match Outcome(log) case Ok(_) => r == Ok(()) case Err(e) => r == Err(e)
    {
      hide Faithful, Decode;
      r := SendCmd(CMD_START_CLIENT_TCP, ClientItems(host, ip, port, sock, mode));
      if r.Err? { return; }
      var scratch := new byte[4](_ => 0);
      var n := RecvCmdInto(CMD_START_CLIENT_TCP, scratch);
      if n.Err? { return Err(n.error); }
      return Ok(());
    }

    method TcpState(sock: byte) returns (r: Result<SockState>)
      requires Valid()
      modifies this
      ensures Valid() && Exchanged(old(log), log, Ask(CMD_GET_CLIENT_STATE_TCP, Shorts([[sock]]), One8(1)))
      ensures match Outcome(log)
              case Ok(items) => r == Ok(SockStateFromU8(Byte0(items)))
              case Err(e) => r == Err(e)
    {
      hide Faithful, Decode, SockStateFromU8;
      var s := SendCmd(CMD_GET_CLIENT_STATE_TCP, [[sock]]);
      if s.Err? { return Err(s.error); }
      var b := RecvByte(CMD_GET_CLIENT_STATE_TCP);
      if b.Err? { return Err(b.error); }
      return Ok(SockStateFromU8(b.value));
    }

    method TcpClose(sock: byte) returns (r: Result<()>)
      requires Valid()
      modifies this
      ensures Valid() && Exchanged(old(log), log, Ask(CMD_STOP_CLIENT_TCP, Shorts([[sock]]), One8(1)))
      ensures match Outcome(log) case Ok(_) => r == Ok(()) case Err(e) => r == Err(e)
    {
      hide Faithful, Decode;
      r := SendCmd(CMD_STOP_CLIENT_TCP, [[sock]]);
      if r.Err? { return; }
      var b := RecvByte(CMD_STOP_CLIENT_TCP);
      if b.Err? { return Err(b.error); }
      return Ok(());
    }

    method TcpRecv(sock: byte, out: array<byte>) returns (r: Result<nat>)
      requires Valid()
      modifies this, out
      ensures Valid() && Exchanged(old(log), log, AskOf(Pull(sock, out.Length)))
      ensures r == LenOf(Outcome(log))
      ensures r.Ok? ==>
                r.value <= out.Length && out[..r.value] == First(Outcome(log).value)
                && out[r.value..] == old(out[..])[r.value..]
    {
      hide Faithful, Decode;
      var want := Min(out.Length, 0xFFFF);
      var s := SendCmdMixed(CMD_GET_DATABUF_TCP, [Long([sock]), Long(Le16(want))]);
      if s.Err? { return Err(s.error); }
      r := RecvCmdOneParam16(CMD_GET_DATABUF_TCP, out);
      if r.Ok? {
        DecodeStores(CMD_GET_DATABUF_TCP, One16(out.Length), Last(log).miso);
      }
    }

    // ---- sending on a connection ----

    /** Polls until the chip reports the last payload transmitted, at most 20 times. */
    method CheckDataSent(sock: byte, ghost data: seq<byte>, ghost acks: seq<nat>) returns (r: Result<()>)
      requires Valid()
      modifies this
      ensures Valid()
      ensures Ran(old(log), log, Ready(Drain(sock, data, acks, 0)),
                  Ready(if r.Ok? then NextChunk(sock, data, acks) else Done(Err(r.error))))
    {
      hide Faithful, Decode, Exchanged, NextChunk, After;
      ghost var c := Ready(Drain(sock, data, acks, 0));
      RanNothing(log, c);
      var i := 0;
      while i < DRAIN_POLLS
        invariant Valid() && 0 <= i <= DRAIN_POLLS
        invariant Ran(old(log), log, c, Ready(if i < DRAIN_POLLS then Drain(sock, data, acks, i) else Done(Err(Timeout))))
      {
        ghost var before := log;
        var b := DataSent(sock);
        RanExchange(old(log), before, log, c, Drain(sock, data, acks, i));
        if b.Err? { return Err(b.error); }
        if b.value != 0 {
          return Ok(());
        }
        i := i + 1;
      }
      return Err(Timeout);
    }

    method DataSent(sock: byte) returns (r: Result<byte>)
      requires Valid()
      modifies this
      ensures Valid() && Exchanged(old(log), log, Ask(CMD_DATA_SENT_TCP, Shorts([[sock]]), One8(1)))
      ensures match Outcome(log) case Ok(items) => r == Ok(Byte0(items)) case Err(e) => r == Err(e)
    {
      hide Faithful, Decode;
      var s := SendCmd(CMD_DATA_SENT_TCP, [[sock]]);
      if s.Err? { return Err(s.error); }
      r := RecvByte(CMD_DATA_SENT_TCP);
    }

    /** One attempt at one chunk: the count in the chip's ack. */
    method SendChunk(sock: byte, chunk: seq<byte>) returns (r: Result<nat>)
      requires Valid()
      modifies this
      ensures Valid()
      ensures Exchanged(old(log), log, Ask(CMD_SEND_DATA_TCP, [Long([sock]), Long(chunk)], One8(4)))
      ensures match Outcome(log)
              case Ok(items) => (
                match AckValue(First(items)) case Some(w) => r == Ok(w) case None => r == Err(Framing))
              case Err(e) => r == Err(e)
    {
      hide Faithful, Decode;
      var s := SendCmdMixed(CMD_SEND_DATA_TCP, [Long([sock]), Long(chunk)]);
      if s.Err? { return Err(s.error); }
      var ack := RecvUpTo4(CMD_SEND_DATA_TCP);
      if ack.Err? { return Err(ack.error); }
      var (n, buf) := ack.value;
      if n == 1 {
        return Ok(buf[0]);
      } else if n == 2 {
        return Ok(FromLe16(buf[0], buf[1]));
      }
      return Err(Framing);
    }

    /** Sends all of `data` in chunks of 64, each tried up to five times while the ack is 0. */
    method TcpSend(sock: byte, data: seq<byte>) returns (r: Result<nat>)
      requires Valid()
      modifies this
      ensures Valid()
      ensures Ran(old(log), log, Ready(Start(Write(sock, data))),
                  Ready(Done(if r.Ok? then Ok(Count(r.value)) else Err(r.error))))
    {
      hide Faithful, Decode, Exchanged, Total, ChunkAt, After;
      ghost var c := Ready(Start(Write(sock, data)));
      ghost var acks: seq<nat> := [];
      RanNothing(log, c);
      TotalNone();
      var total := 0;
      var off := 0;
      while off < |data|
        invariant Valid() && off == Min(64 * |acks|, |data|) && total == Total(acks)
        invariant Ran(old(log), log, c, Ready(NextChunk(sock, data, acks)))
        decreases |data| - off
      {
        var chunk := data[off..Min(off + 64, |data|)];
        ChunkIs(data, |acks|);
        var written := 0;
        var attempt := 0;
        while attempt < SEND_ATTEMPTS && written == 0
          invariant Valid() && 0 <= attempt <= SEND_ATTEMPTS
          invariant Ran(old(log), log, c, Ready(
                        if written > 0 then Drain(sock, data, acks + [written], 0)
                        else if attempt < SEND_ATTEMPTS then Chunk(sock, data, acks, attempt)
                        else Done(Err(Nina))))
          decreases SEND_ATTEMPTS - attempt
        {
          ghost var before := log;
          var w := SendChunk(sock, chunk);
          RanExchange(old(log), before, log, c, Chunk(sock, data, acks, attempt));
          if w.Err? { return Err(w.error); }
          written := w.value;
          attempt := attempt + 1;
        }
        if written == 0 {
          return Err(Nina);
        }
        ghost var before := log;
        acks := acks + [written];
        var drained := CheckDataSent(sock, data, acks);
        RanThen(old(log), before, log, c, Ready(Drain(sock, data, acks, 0)),
                Ready(if drained.Ok? then NextChunk(sock, data, acks) else Done(Err(drained.error))));
        if drained.Err? { return Err(drained.error); }
        SumSnoc(acks[..|acks| - 1], written);
        assert acks == acks[..|acks| - 1] + [written];
        total := SaturatingAdd(total, written);
        off := Min(off + 64, |data|);
      }
      return Ok(total);
    }

    // ---- connecting ----

    /** Resolves a name: one request, then at most 40 polls, through replies that are not ready yet. */
    method DnsLookup(host: seq<byte>, ghost dial: Option<Dial>) returns (r: Result<seq<byte>>)
      requires Valid()
      modifies this
      ensures Valid()
      ensures r.Ok? ==> |r.value| == 4 && r.value != STILL_RESOLVING
      ensures Ran(old(log), log, Ready(DnsAsk(host, dial)),
                  Ready(if r.Ok? then Resolved(r.value, dial) else Done(Err(r.error))))
    {
      hide Faithful, Decode, Exchanged, Resolved, After;
      ghost var c := Ready(DnsAsk(host, dial));
      RanNothing(log, c);
      ghost var before := log;
      var ack := HostRequest(host);
      RanExchange(old(log), before, log, c, DnsAsk(host, dial));
      if ack.Err? { return Err(ack.error); }
      if ack.value != 1 {
        return Err(Nina);
      }
      var i := 0;
      while i < DNS_POLLS
        invariant Valid() && 0 <= i <= DNS_POLLS
        invariant Ran(old(log), log, c, Ready(NextDnsPoll(i, dial)))
      {
        before := log;
        var ip := HostResult();
        RanExchange(old(log), before, log, c, DnsPoll(i, dial));
        if ip.Ok? {
          if |ip.value| == 4 && ip.value != STILL_RESOLVING {
            return ip;
          }
        } else if ip.error != Framing && ip.error != Nina {
          return Err(ip.error);
        }
        i := i + 1;
      }
      return Err(Timeout);
    }

    method HostRequest(host: seq<byte>) returns (r: Result<byte>)
      requires Valid()
      modifies this
      ensures Valid() && Exchanged(old(log), log, Ask(CMD_REQ_HOST_BY_NAME, Shorts([host]), One8(1)))
      ensures match Outcome(log) case Ok(items) => r == Ok(Byte0(items)) case Err(e) => r == Err(e)
    {
      hide Faithful, Decode;
      var s := SendCmd(CMD_REQ_HOST_BY_NAME, [host]);
      if s.Err? { return Err(s.error); }
      r := RecvByte(CMD_REQ_HOST_BY_NAME);
    }

    method HostResult() returns (r: Result<seq<byte>>)
      requires Valid()
      modifies this
      ensures Valid() && Exchanged(old(log), log, Ask(CMD_GET_HOST_BY_NAME, [], One8(4)))
      ensures match Outcome(log) case Ok(items) => r == Ok(First(items)) case Err(e) => r == Err(e)
    {
      hide Faithful, Decode;
      assert Shorts([]) == [];
      var s := SendCmd(CMD_GET_HOST_BY_NAME, []);
      if s.Err? { return Err(s.error); }
      var ip := RecvUpTo4(CMD_GET_HOST_BY_NAME);
      if ip.Err? { return Err(ip.error); }
      return Ok(ip.value.1[..ip.value.0]);
    }

    /** Opens a slot, starts the client, polls until established; closes the slot when the polls run out. */
    method Establish(d: Dial) returns (r: Result<byte>)
      requires Valid()
      modifies this
      ensures Valid()
      ensures Ran(old(log), log, Ready(Open(d)), Ready(Done(if r.Ok? then Ok(Slot(r.value)) else Err(r.error))))
    {
      hide Valid, Faithful, Decode, Exchanged, After, Ran, SockStateFromU8, ClientItems, Shorts;
      ghost var c := Ready(Open(d));
      RanNothing(log, c);
      ghost var before := log;
      var opening := TcpOpenSocket();
      RanExchange(old(log), before, log, c, Open(d));
      if opening.Err? { return Err(opening.error); }
      var sock := opening.value;
      before := log;
      var started := TcpStartClient(d.host, d.ip, d.port, sock, d.mode);
      RanExchange(old(log), before, log, c, StartClient(d, sock));
      if started.Err? { return Err(started.error); }
      var i := 0;
      while i < d.polls
        invariant Valid() && 0 <= i <= d.polls
        invariant Ran(old(log), log, c, Ready(NextPoll(d, sock, i)))
      {
        before := log;
        var state := TcpState(sock);
        RanExchange(old(log), before, log, c, Poll(d, sock, i));
        if state.Err? { return Err(state.error); }
        if state.value == Established {
          return Ok(sock);
        }
        i := i + 1;
      }
      before := log;
      var closed := TcpClose(sock);
      RanExchange(old(log), before, log, c, GiveUp(sock));
      return Err(Timeout);
    }

    method TcpConnect(ip: seq<byte>, port: nat) returns (r: Result<byte>)
      requires Valid()
      modifies this
      ensures Valid()
      ensures Ran(old(log), log, Ready(Start(Connect(Dial(None, ip, port, TCP_MODE, 40)))),
                  Ready(Done(if r.Ok? then Ok(Slot(r.value)) else Err(r.error))))
    {
      r := Establish(Dial(None, ip, port, TCP_MODE, 40));
    }

    // ---- datagrams ----

    method UdpBeginPacket(sock: byte, ip: seq<byte>, port: nat) returns (r: Result<()>)
      requires Valid()
      modifies this
      ensures Valid()
      ensures Ran(old(log), log, Ready(Start(Begin(sock, ip, port))),
                  Ready(Done(if r.Ok? then Ok(Unit) else Err(r.error))))
    {
      hide Faithful, Decode, Exchanged, After;
      RanNothing(log, Ready(BeginAt(sock, ip, port)));
      r := TcpStartClient(None, ip, port, sock, UDP_MODE);
      RanExchange(old(log), old(log), log, Ready(BeginAt(sock, ip, port)), BeginAt(sock, ip, port));
    }

    /** Appends to the packet; refused before anything is sent if the frame would not fit. */
    method UdpWrite(sock: byte, data: seq<byte>) returns (r: Result<()>)
      requires Valid()
      modifies this
      ensures Valid()
      ensures Ran(old(log), log, Ready(Start(Insert(sock, data))),
                  Ready(Done(if r.Ok? then Ok(Unit) else Err(r.error))))
      ensures |data| > 247 ==> r == Err(BufferTooSmall) && line == old(line)
    {
      hide Faithful, Decode, Exchanged, After;
      RanNothing(log, Ready(InsertAt(sock, data)));
      r := UdpInsert(sock, data);
      RanExchange(old(log), old(log), log, Ready(InsertAt(sock, data)), InsertAt(sock, data));
    }

    method UdpInsert(sock: byte, data: seq<byte>) returns (r: Result<()>)
      requires Valid()
      modifies this
      ensures Valid() && Exchanged(old(log), log, Ask(CMD_INSERT_DATABUF, [Long([sock]), Long(data)], One8(1)))
      ensures match Outcome(log)
              case Ok(items) => r == if Byte0(items) == 1 then Ok(()) else Err(Nina)
              case Err(e) => r == Err(e)
      ensures log[|old(log)|].sent == Err(BufferTooSmall) <==> |data| > 247
      ensures |data| > 247 ==> r == Err(BufferTooSmall) && line == old(line)
    {
      hide Faithful, Decode;
      InsertSize(sock, data);
      r := SendCmdMixed(CMD_INSERT_DATABUF, [Long([sock]), Long(data)]);
      if r.Err? { return; }
      var ack := RecvByte(CMD_INSERT_DATABUF);
      if ack.Err? { return Err(ack.error); }
      return if ack.value == 1 then Ok(()) else Err(Nina);
    }

    method UdpEndPacket(sock: byte) returns (r: Result<()>)
      requires Valid()
      modifies this
      ensures Valid()
      ensures Ran(old(log), log, Ready(Start(Commit(sock))),
                  Ready(Done(if r.Ok? then Ok(Unit) else Err(r.error))))
    {
      hide Faithful, Decode, Exchanged, After;
      RanNothing(log, Ready(CommitAt(sock)));
      r := UdpCommit(sock);
      RanExchange(old(log), old(log), log, Ready(CommitAt(sock)), CommitAt(sock));
    }

    method UdpCommit(sock: byte) returns (r: Result<()>)
      requires Valid()
      modifies this
      ensures Valid() && Exchanged(old(log), log, Ask(CMD_SEND_UDP_DATA, Shorts([[sock]]), One8(1)))
      ensures match Outcome(log)
              case Ok(items) => r == if Byte0(items) == 1 then Ok(()) else Err(Nina)
              case Err(e) => r == Err(e)
    {
      hide Faithful, Decode;
      r := SendCmd(CMD_SEND_UDP_DATA, [[sock]]);
      if r.Err? { return; }
      var ack := RecvByte(CMD_SEND_UDP_DATA);
      if ack.Err? { return Err(ack.error); }
      return if ack.value == 1 then Ok(()) else Err(Nina);
    }

    /**
      One datagram in one call.  `begun` and `written` are the log after the first and the
      second step; an error of either step ends the call there.
    */
    method UdpSend(sock: byte, ip: seq<byte>, port: nat, data: seq<byte>)
      returns (r: Result<()>, ghost begun: seq<Xfer>, ghost written: seq<Xfer>)
      requires Valid()
      modifies this
      ensures Valid()
      ensures r.Ok? ==>
                && |data| <= 247
                && Ran(old(log), begun, Ready(Start(Begin(sock, ip, port))), Ready(Done(Ok(Unit))))
                && Ran(begun, written, Ready(Start(Insert(sock, data))), Ready(Done(Ok(Unit))))
                && Ran(written, log, Ready(Start(Commit(sock))), Ready(Done(Ok(Unit))))
      ensures r.Err? ==>
                || Ran(old(log), log, Ready(Start(Begin(sock, ip, port))), Ready(Done(Err(r.error))))
                || (&& Ran(old(log), begun, Ready(Start(Begin(sock, ip, port))), Ready(Done(Ok(Unit))))
                    && (|| Ran(begun, log, Ready(Start(Insert(sock, data))), Ready(Done(Err(r.error))))
                        || (&& Ran(begun, written, Ready(Start(Insert(sock, data))), Ready(Done(Ok(Unit))))
                            && Ran(written, log, Ready(Start(Commit(sock))), Ready(Done(Err(r.error)))))))
    {
      hide After;
      begun, written := log, log;
      r := UdpBeginPacket(sock, ip, port);
      if r.Err? { return; }
      begun := log;
      r := UdpWrite(sock, data);
      if r.Err? { return; }
      written := log;
      r := UdpEndPacket(sock);
    }

    // ---- typed queries ----

    /** The IP configuration: the chip's first three parameters, if they are four bytes each. */
    method GetIpConfig() returns (r: Result<IpConfig>)
      requires Valid()
      modifies this
      ensures Valid() && Exchanged(old(log), log, Ask(CMD_GET_IPADDR, Shorts([[DUMMY]]), Into(32)))
      ensures match Outcome(log)
              case Err(e) => r == Err(e)
              case Ok(items) =>
                if |items| >= 3 && |items[0]| == 4 && |items[1]| == 4 && |items[2]| == 4 then
                  && r.Ok? && r == IpConfigOf(items)
                  && r.value.ip == items[0] && r.value.subnet == items[1] && r.value.gateway == items[2]
                else r == Err(Framing)
    {
      hide Faithful, Decode, Tlv, Splice;
      var s := SendCmd(CMD_GET_IPADDR, [[DUMMY]]);
      if s.Err? { return Err(s.error); }
      var scratch := new byte[32](_ => 0);
      var reply := RecvCmdInto(CMD_GET_IPADDR, scratch);
      if reply.Err? { return Err(reply.error); }
      ghost var items := Last(log).got.value;
      DecodeStores(CMD_GET_IPADDR, Into(32), Last(log).miso);
      var (nParams, written) := reply.value;
      SpliceFront(scratch[..], Tlv(items), scratch.Length);
      if nParams < 3 {
        return Err(Framing);
      }
      var ip, cur := TakeV4(scratch, 0, written, items);
      if ip.Err? { return Err(Framing); }
      var subnet, cur' := TakeV4(scratch, cur, written, items[1..]);
      if subnet.Err? { return Err(Framing); }
      var gateway, cur'' := TakeV4(scratch, cur', written, items[1..][1..]);
      if gateway.Err? { return Err(Framing); }
      return Ok(IpConfig(ip.value, subnet.value, gateway.value));
    }

    /** The sender of the last datagram: the chip's first two parameters, of lengths 4 and 2. */
    method UdpRemote(sock: byte) returns (r: Result<(seq<byte>, nat)>)
      requires Valid()
      modifies this
      ensures Valid() && Exchanged(old(log), log, Ask(CMD_GET_REMOTE_DATA, Shorts([[sock]]), Into(16)))
      ensures match Outcome(log)
              case Err(e) => r == Err(e)
              case Ok(items) =>
                if |items| >= 2 && |items[0]| == 4 && |items[1]| == 2 then
                  && r.Ok? && r == RemoteOf(items)
                  && r.value.0 == items[0] && r.value.1 == 256 * items[1][0] as int + items[1][1] as int
                else r == Err(Framing)
    {
      hide Faithful, Decode, Tlv, Splice;
      var s := SendCmd(CMD_GET_REMOTE_DATA, [[sock]]);
      if s.Err? { return Err(s.error); }
      var scratch := new byte[16](_ => 0);
      var reply := RecvCmdInto(CMD_GET_REMOTE_DATA, scratch);
      if reply.Err? { return Err(reply.error); }
      ghost var items := Last(log).got.value;
      DecodeStores(CMD_GET_REMOTE_DATA, Into(16), Last(log).miso);
      RemoteTests(items);
      var written := reply.value.1;
      SpliceFront(scratch[..], Tlv(items), scratch.Length);
      assert forall i :: 0 <= i < written ==> scratch[..written][i] == scratch[i];
      if written < 1 + 4 + 1 + 2 {
        return Err(Framing);
      }
      if scratch[0] != 4 {
        return Err(Framing);
      }
      var ip := [scratch[1], scratch[2], scratch[3], scratch[4]];
      if scratch[5] != 2 {
        return Err(Framing);
      }
      var port := FromBe16(scratch[6], scratch[7]);
      assert ip == Tlv(items)[1..5];
      return Ok((ip, port));
    }
  }

  /** The cursor step of the IP query over the stored list `items`. */
  method TakeV4(scratch: array<byte>, cur: nat, written: nat, ghost items: seq<seq<byte>>)
    returns (r: Result<seq<byte>>, next: nat)
    requires cur <= written <= scratch.Length && scratch[cur..written] == Tlv(items)
    requires forall i :: 0 <= i < |items| ==> |items[i]| <= 0xFF
    ensures r.Ok? <==> items != [] && |items[0]| == 4
    ensures r.Ok? ==> r.value == items[0] && next <= written && scratch[next..written] == Tlv(items[1..])
    ensures r.Err? ==> r.error == Framing
  {
    hide Tlv;
    Peel(items);
    next := cur;
    if cur + 1 > written {
      return Err(Framing), next;
    }
    var len: nat := scratch[cur];
    assert scratch[cur..written][0] == scratch[cur];
    next := cur + 1;
    if len != 4 || next + 4 > written {
      return Err(Framing), next;
    }
    assert scratch[cur..written][1..5] == scratch[cur + 1..cur + 5];
    assert scratch[cur..written][5..] == scratch[cur + 5..written];
    var v := [scratch[next], scratch[next + 1], scratch[next + 2], scratch[next + 3]];
    next := next + 4;
    return Ok(v), next;
  }

  lemma SpliceFront(buf: seq<byte>, wrote: seq<byte>, n: nat)
    requires |wrote| <= |buf| == n && exists before: seq<byte> :: |before| == n && buf == Splice(before, 0, wrote)
    ensures buf[..|wrote|] == wrote && buf[0..|wrote|] == wrote
  {
    var before: seq<byte> :| |before| == n && buf == Splice(before, 0, wrote);
    assert buf == wrote + before[|wrote|..];
  }

  lemma TotalNone()
    ensures Total([]) == 0
  {
  }

  lemma ChunkIs(data: seq<byte>, i: nat)
    requires 64 * i < |data|
    ensures ChunkAt(data, i) == data[64 * i..Min(64 * i + 64, |data|)]
  {
  }

  /** A datagram slice fits one request exactly up to 247 bytes. */
  lemma InsertSize(sock: byte, data: seq<byte>)
    ensures |Frame(CMD_INSERT_DATABUF, [Long([sock]), Long(data)])| == 9 + |data|
  {
    EncodeTwo(Long([sock]), Long(data));
  }

  /** Stages one parameter if prefix and bytes fit. */
  method StageParam(buf: array<byte>, n: nat, p: Param) returns (r: Result<nat>)
    requires n <= buf.Length
    modifies buf
    ensures r.Ok? <==> n + |EncodeParam(p)| <= buf.Length
    ensures r.Ok? ==> r.value == n + |EncodeParam(p)| && buf[..r.value] == old(buf[..n]) + EncodeParam(p)
    ensures r.Err? ==> r.error == BufferTooSmall
  {
    var next := n;
    match p {
      case Short(data) =>
        if n + 1 + |data| > buf.Length {
          return Err(BufferTooSmall);
        }
        next := Stage(buf, next, [LowByte(|data|)]);
        next := Stage(buf, next, data);
        TwoPieces(old(buf[..n]), [LowByte(|data|)], data);
      case Long(data) =>
        if n + 2 + |data| > buf.Length {
          return Err(BufferTooSmall);
        }
        next := Stage(buf, next, Be16(|data|));
        next := Stage(buf, next, data);
        TwoPieces(old(buf[..n]), Be16(|data|), data);
    }
    return Ok(next);
  }

  /** Pads the staged frame with DUMMY; its own bounds check can never fire. */
  method StagePadding(buf: array<byte>, whole: nat) returns (n: nat)
    requires buf.Length == 256 && whole <= 256
    modifies buf
    ensures n <= 256 && buf[..n] == old(buf[..whole]) + Padding(whole)
  {
    n := whole;
    ghost var frame := buf[..whole];
    while n % 4 != 0
      invariant whole <= n <= whole + |Padding(whole)| && n <= 256
      invariant buf[..n] == frame + Padding(whole)[..n - whole]
      decreases whole + |Padding(whole)| - n
    {
      if n >= buf.Length {
        // 256 is a multiple of 4
        assert false;
      }
      assert Padding(whole)[..n - whole] + [DUMMY] == Padding(whole)[..n - whole + 1];
      Regroup(frame, Padding(whole)[..n - whole], [DUMMY]);
      n := Stage(buf, n, [DUMMY]);
    }
    assert Padding(whole)[..n - whole] == Padding(whole);
  }

  /** Builds the padded frame in the staging buffer and returns its length, or reports that it does not fit. */
  method StageFrame(cmd: byte, params: seq<Param>, buf: array<byte>) returns (r: Result<nat>)
    requires buf.Length == 256
    modifies buf
    ensures r.Ok? <==> |Frame(cmd, params)| <= 256
    ensures r.Ok? ==> r.value <= 256 && buf[..r.value] == Wire(cmd, params)
    ensures r.Err? ==> r.error == BufferTooSmall
  {
    hide EncodeParams, EncodeParam, Wire, Frame, Padding;
    ghost var header := [START_CMD, AsRequest(cmd), LowByte(|params|)];
    var n: nat := 0;
    buf[n] := START_CMD;
    n := n + 1;
    buf[n] := AsRequest(cmd);
    n := n + 1;
    buf[n] := LowByte(|params|);
    n := n + 1;
    assert buf[..n] == header;
    NoParams(params);
    assert header + [] == header;
    var i := 0;
    while i < |params|
      invariant 0 <= i <= |params| && 0 <= n <= 256
      invariant buf[..n] == header + EncodeParams(params[..i])
    {
      EncodeSnoc(params, i);
      FrameHolds(cmd, params, i + 1);
      Regroup(header, EncodeParams(params[..i]), EncodeParam(params[i]));
      r := StageParam(buf, n, params[i]);
      if r.Err? {
        return;
      }
      n := r.value;
      i := i + 1;
    }
    assert params[..i] == params;
    WireEnd(cmd, params);
    if n + 1 > buf.Length {
      return Err(BufferTooSmall);
    }
    n := Stage(buf, n, [END_CMD]);
    n := StagePadding(buf, n);
    return Ok(n);
  }

  /** `buf[n..n + len].copy_from_slice(data)` */
  method Stage(buf: array<byte>, n: nat, data: seq<byte>) returns (next: nat)
    requires n + |data| <= buf.Length
    modifies buf
    ensures next == n + |data| && buf[..next] == old(buf[..n]) + data
  {
    forall k | 0 <= k < |data| {
      buf[n + k] := data[k];
    }
    next := n + |data|;
  }

  // ---- steps of the parameter loop ----

  lemma NothingSent(cmd: byte, how: How)
    ensures Decode(cmd, how, []).wrote == []
  {
  }

  lemma PrependNothing(l: Listed)
    ensures Prepend([], [], l) == l
  {
    assert [] + l.wrote == l.wrote;
    if l.res.Ok? {
      assert [] + l.res.value.0 == l.res.value.0;
    }
  }

  lemma PrependMore(a: seq<seq<byte>>, u: seq<byte>, b: seq<seq<byte>>, v: seq<byte>, l: Listed)
    ensures Prepend(a, u, Prepend(b, v, l)) == Prepend(a + b, u + v, l)
  {
    Regroup(u, v, l.wrote);
    if l.res.Ok? {
      Regroup(a, b, l.res.value.0);
    }
  }

  lemma ListGoes(s: seq<byte>, n: nat, room: nat)
    requires n > 0 && |s| >= 1 && 1 + s[0] as int <= room && 1 + s[0] as int <= |s|
    ensures var len: nat := s[0];
            List(s, n, room) == Prepend([s[1..1 + len]], s[..1 + len], List(s[1 + len..], n - 1, room - 1 - len))
  {
  }

  lemma ListStops(s: seq<byte>, n: nat, room: nat)
    requires n > 0 && (|s| < 1 || 1 + s[0] as int > room || 1 + s[0] as int > |s|)
    ensures List(s, n, room) ==
            if |s| < 1 then Listed(Err(Spi), [])
            else if 1 + s[0] as int > room then Listed(Err(BufferTooSmall), [])
            else Listed(Err(Spi), s)
  {
  }

  lemma PrependStops(items: seq<seq<byte>>, stored: seq<byte>, l: Listed)
    requires l.res.Err?
    ensures Prepend(items, stored, l) == Listed(l.res, stored + l.wrote)
  {
  }

  lemma PrependDone(items: seq<seq<byte>>, stored: seq<byte>, rest: seq<byte>)
    ensures Prepend(items, stored, Listed(Ok(([], rest)), [])) == Listed(Ok((items, rest)), stored)
  {
    assert items + [] == items && stored + [] == stored;
  }

  lemma ListCount(s: seq<byte>, n: nat, room: nat)
    requires List(s, n, room).res.Ok?
    ensures |List(s, n, room).res.value.0| == n
  {
    ListSound(s, n, room);
  }

  // ---- pieces of a frame ----

  lemma PrefixOfWhole(a: seq<byte>, b: seq<byte>, k: nat)
    requires k <= |b|
    ensures a + b[..k] <= a + b
  {
    assert (a + b)[..|a| + k] == a + b[..k];
  }

  /** The header and the first `i` parameters open the wire image. */
  lemma WireFront(cmd: byte, ps: seq<Param>, i: nat)
    requires i <= |ps|
    ensures [START_CMD, AsRequest(cmd), LowByte(|ps|)] + EncodeParams(ps[..i]) <= Wire(cmd, ps)
    ensures [START_CMD, AsRequest(cmd), LowByte(|ps|)] <= Wire(cmd, ps)
  {
    var header, pad := [START_CMD, AsRequest(cmd), LowByte(|ps|)], Padding(|Frame(cmd, ps)|);
    assert Wire(cmd, ps) == (header + EncodeParams(ps) + [END_CMD]) + pad;
    hide Wire, Frame, EncodeParams, Padding, AsRequest, LowByte;
    var front, rest := ps[..i], ps[i..];
    assert ps == front + rest;
    EncodeAppend(front, rest);
    FrontOf(header, EncodeParams(front), EncodeParams(rest), [END_CMD], pad);
  }

  lemma FrontOf(h: seq<byte>, a: seq<byte>, b: seq<byte>, end: seq<byte>, pad: seq<byte>)
    ensures h + a <= (h + (a + b) + end) + pad
    ensures h <= (h + (a + b) + end) + pad
  {
    assert (h + (a + b) + end) + pad == (h + a) + (b + end + pad);
  }

  /** The end of the wire image, split where the encoders write it. */
  lemma WireEnd(cmd: byte, ps: seq<Param>)
    ensures var body := [START_CMD, AsRequest(cmd), LowByte(|ps|)] + EncodeParams(ps);
            && Frame(cmd, ps) == body + [END_CMD]
            && Wire(cmd, ps) == Frame(cmd, ps) + Padding(|Frame(cmd, ps)|)
            && body + [END_CMD] <= Wire(cmd, ps)
            && |Frame(cmd, ps)| == |body| + 1
  {
  }

  lemma TwoPieces(a: seq<byte>, b: seq<byte>, c: seq<byte>)
    ensures a + (b + c) == (a + b) + c
    ensures a + b <= a + (b + c)
  {
    assert (a + (b + c))[..|a + b|] == a + b;
  }

  lemma PrefixTrans(a: seq<byte>, b: seq<byte>, c: seq<byte>)
    requires a <= b <= c
    ensures a <= c
  {
  }

  lemma NoParams(ps: seq<Param>)
    ensures EncodeParams(ps[..0]) == []
  {
  }

  lemma ParamLength(p: seq<byte>)
    ensures |EncodeParam(Short(p))| == 1 + |p|
  {
  }

  /** A frame is longer than any front of its parameters: too long a front means too long a frame. */
  lemma FrameHolds(cmd: byte, ps: seq<Param>, i: nat)
    requires i <= |ps|
    ensures 3 + |EncodeParams(ps[..i])| + 1 <= |Frame(cmd, ps)|
  {
    EncodePrefix(ps, i);
  }
}
