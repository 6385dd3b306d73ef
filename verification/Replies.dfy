/**
  Replies as they arrive on MISO: the three decoders as total functions of the
  byte stream, and what the chip must have sent for each to succeed.  A stream
  that ends early stands for a bus error at that point.
*/
module Replies {
  import opened Bytes
  import opened Proto

  // ---- what the chip sends ----

  function TlvItem(item: seq<byte>): seq<byte> {
    [LowByte(|item|)] + item
  }

  /** `[len, bytes]*`, both inside a reply and in the caller's scratch buffer. */
  function Tlv(items: seq<seq<byte>>): seq<byte> {
    if items == [] then [] else TlvItem(items[0]) + Tlv(items[1..])
  }

  /** `START | cmd + reply bit | count | (len, bytes)* | END`, from the byte after START on. */
  function Tail8(cmd: byte, items: seq<seq<byte>>): seq<byte> {
    [AsReply(cmd), LowByte(|items|)] + (Tlv(items) + [END_CMD])
  }

  /** The same for the one reply with a 16-bit length. */
  function Tail16(cmd: byte, item: seq<byte>): seq<byte> {
    [AsReply(cmd), 1, LowByte(|item| / 0x100), LowByte(|item|)] + (item + [END_CMD])
  }

  function Reply8(cmd: byte, items: seq<seq<byte>>): seq<byte> {
    [START_CMD] + Tail8(cmd, items)
  }

  function Reply16(cmd: byte, item: seq<byte>): seq<byte> {
    [START_CMD] + Tail16(cmd, item)
  }

  predicate ShortItems(items: seq<seq<byte>>) {
    |items| <= 0xFF && forall i :: 0 <= i < |items| ==> |items[i]| <= 0xFF
  }

  /** No byte that would end the hunt for START. */
  predicate Clean(noise: seq<byte>) {
    forall i :: 0 <= i < |noise| ==> noise[i] != START_CMD && noise[i] != ERR_CMD
  }

  /** `s` opens with idle noise and then `message`; what follows is not looked at. */
  predicate Carries(s: seq<byte>, noise: seq<byte>, message: seq<byte>) {
    |noise| < START_TIMEOUT_ITERS && Clean(noise) && noise + message <= s
  }

  // ---- the decoders ----

  /** Which decoder, and how much room the caller gave it. */
  datatype How = One8(room: nat) | One16(room: nat) | Into(room: nat)

  /** `wrote` is the prefix of the caller's buffer that was overwritten, also on failure. */
  datatype Parsed = Parsed(res: Result<seq<seq<byte>>>, wrote: seq<byte>)

  function Hunt(s: seq<byte>, tries: nat): Result<seq<byte>> {
    if tries == 0 then Err(Timeout)
    else if s == [] then Err(Spi)
    else if s[0] == START_CMD then Ok(s[1..])
    else if s[0] == ERR_CMD then Err(Nina)
    else Hunt(s[1..], tries - 1)
  }

  /** `len` payload bytes and the END byte. */
  function Payload(s: seq<byte>, len: nat): Parsed {
    if |s| <= len then Parsed(Err(Spi), s)
    else if s[len] != END_CMD then Parsed(Err(Framing), s[..len])
    else Parsed(Ok([s[..len]]), s[..len])
  }

  function One8Body(cmd: byte, t: seq<byte>, room: nat): Parsed {
    if |t| < 3 then Parsed(Err(Spi), [])
    else if t[0] != AsReply(cmd) || t[1] != 1 then Parsed(Err(Framing), [])
    else if t[2] as int > room then Parsed(Err(BufferTooSmall), [])
    else Payload(t[3..], t[2])
  }

  function One16Body(cmd: byte, t: seq<byte>, room: nat): Parsed {
    if |t| < 2 then Parsed(Err(Spi), [])
    else if t[0] != AsReply(cmd) || t[1] != 1 then Parsed(Err(Framing), [])
    else if |t| < 4 then Parsed(Err(Spi), [])
    else if FromBe16(t[2], t[3]) > room then Parsed(Err(BufferTooSmall), [])
    else Payload(t[4..], FromBe16(t[2], t[3]))
  }

  datatype Listed = Listed(res: Result<(seq<seq<byte>>, seq<byte>)>, wrote: seq<byte>)

  /** The parameter loop of the variable-length decoder: items read, bytes left, bytes stored. */
  function List(s: seq<byte>, n: nat, room: nat): Listed {
    if n == 0 then Listed(Ok(([], s)), [])
    else if |s| < 1 then Listed(Err(Spi), [])
    else
      var len: nat := s[0];
      if 1 + len > room then Listed(Err(BufferTooSmall), [])
      else if |s| < 1 + len then Listed(Err(Spi), s)
      else Prepend([s[1..1 + len]], s[..1 + len], List(s[1 + len..], n - 1, room - 1 - len))
  }

  function Prepend(items: seq<seq<byte>>, stored: seq<byte>, l: Listed): Listed {
    Listed(
      match l.res
      case Ok((more, rest)) => Ok((items + more, rest))
      case Err(e) => Err(e),
      stored + l.wrote)
  }

  function IntoBody(cmd: byte, t: seq<byte>, room: nat): Parsed {
    if |t| < 2 then Parsed(Err(Spi), [])
    else if t[0] != AsReply(cmd) then Parsed(Err(Framing), [])
    else Closed(List(t[2..], t[1], room))
  }

  function Closed(l: Listed): Parsed {
    Parsed(
      match l.res
      case Err(e) => Err(e)
      case Ok((items, rest)) =>
        if rest == [] then Err(Spi) else if rest[0] != END_CMD then Err(Framing) else Ok(items),
      l.wrote)
  }

  function Body(cmd: byte, how: How, t: seq<byte>): Parsed {
    match how
    case One8(room) => One8Body(cmd, t, room)
    case One16(room) => One16Body(cmd, t, room)
    case Into(room) => IntoBody(cmd, t, room)
  }

  function Decode(cmd: byte, how: How, s: seq<byte>): Parsed {
    match Hunt(s, START_TIMEOUT_ITERS)
    case Err(e) => Parsed(Err(e), [])
    case Ok(t) => Body(cmd, how, t)
  }

  // ---- the hunt ----

  lemma {:induction false} HuntFinds(noise: seq<byte>, t: seq<byte>, tries: nat)
    requires Clean(noise)
    ensures Hunt(noise + [START_CMD] + t, tries) == if |noise| < tries then Ok(t) else Err(Timeout)
  {
    var s := noise + [START_CMD] + t;
    if noise == [] {
      assert s[1..] == t;
    } else if tries > 0 {
      assert s[1..] == noise[1..] + [START_CMD] + t;
      HuntFinds(noise[1..], t, tries - 1);
    }
  }

  lemma {:induction false} HuntFound(s: seq<byte>, tries: nat) returns (noise: seq<byte>)
    requires Hunt(s, tries).Ok?
    ensures |noise| < tries && Clean(noise) && s == noise + [START_CMD] + Hunt(s, tries).value
  {
    if s[0] == START_CMD {
      noise := [];
    } else {
      noise := HuntFound(s[1..], tries - 1);
      noise := [s[0]] + noise;
    }
  }

  /**
    The ways the hunt fails: an error marker among the first `tries` bytes, all of
    them idle, or the bus giving up first.
  */
  lemma {:induction false} HuntFails(s: seq<byte>, tries: nat)
    ensures Hunt(s, tries) == Err(Nina)
            <==> exists k :: 0 <= k < |s| && k < tries && Clean(s[..k]) && s[k] == ERR_CMD
    ensures Hunt(s, tries) == Err(Timeout) <==> tries <= |s| && Clean(s[..tries])
    ensures Hunt(s, tries) == Err(Spi) <==> |s| < tries && Clean(s)
  {
    if tries > 0 && s != [] {
      HuntFails(s[1..], tries - 1);
      if s[0] == START_CMD || s[0] == ERR_CMD {
        assert forall k :: 0 < k <= |s| ==> s[..k][0] == s[0];
        assert Clean(s[..0]);
      } else {
        CleanTail(s, tries);
        if exists k :: 0 <= k < |s| && k < tries && Clean(s[..k]) && s[k] == ERR_CMD {
          var k :| 0 <= k < |s| && k < tries && Clean(s[..k]) && s[k] == ERR_CMD;
          assert k > 0;
          CleanTail(s, k);
          assert s[1..][k - 1] == ERR_CMD && Clean(s[1..][..k - 1]);
        }
        if exists j :: 0 <= j < |s[1..]| && j < tries - 1 && Clean(s[1..][..j]) && s[1..][j] == ERR_CMD {
          var j :| 0 <= j < |s[1..]| && j < tries - 1 && Clean(s[1..][..j]) && s[1..][j] == ERR_CMD;
          CleanTail(s, j + 1);
          assert s[j + 1] == ERR_CMD && Clean(s[..j + 1]);
        }
      }
    }
  }

  lemma CleanCons(b: byte, s: seq<byte>)
    requires b != START_CMD && b != ERR_CMD
    ensures Clean([b] + s) <==> Clean(s)
  {
    if Clean([b] + s) {
      forall i | 0 <= i < |s| ensures s[i] != START_CMD && s[i] != ERR_CMD {
        assert ([b] + s)[i + 1] == s[i];
      }
    }
  }

  lemma CleanTail(s: seq<byte>, k: nat)
    requires s != [] && s[0] != START_CMD && s[0] != ERR_CMD && 0 < k
    ensures Clean(s) <==> Clean(s[1..])
    ensures k <= |s| ==> (Clean(s[..k]) <==> Clean(s[1..][..k - 1]))
  {
    CleanCons(s[0], s[1..]);
    assert s == [s[0]] + s[1..];
    if k <= |s| {
      CleanCons(s[0], s[1..][..k - 1]);
      assert s[..k] == [s[0]] + s[1..][..k - 1];
    }
  }

  // ---- exactness ----

  lemma PayloadExact(s: seq<byte>, len: nat, p: seq<byte>)
    ensures Payload(s, len).res == Ok([p]) <==> |p| == len && p + [END_CMD] <= s
  {
    if Payload(s, len).res == Ok([p]) {
      assert s[..len + 1] == p + [END_CMD];
    }
    if |p| == len && p + [END_CMD] <= s {
      assert s[len] == (p + [END_CMD])[len];
      assert s[..len] == (p + [END_CMD])[..len];
    }
  }

  lemma TlvOne(p: seq<byte>)
    ensures Tlv([p]) == TlvItem(p)
  {
    assert Tlv([p]) == TlvItem(p) + [];
  }

  lemma Tail8One(cmd: byte, p: seq<byte>)
    ensures Tail8(cmd, [p]) == [AsReply(cmd), 1, LowByte(|p|)] + (p + [END_CMD])
  {
    TlvOne(p);
  }

  lemma One8BodyExact(cmd: byte, t: seq<byte>, room: nat, p: seq<byte>)
    ensures One8Body(cmd, t, room).res == Ok([p]) <==> |p| <= Min(room, 0xFF) && Tail8(cmd, [p]) <= t
  {
    Tail8One(cmd, p);
    PrefixSplit([AsReply(cmd), 1, LowByte(|p|)], p + [END_CMD], t);
    if |t| >= 3 {
      PayloadExact(t[3..], t[2], p);
      assert t[..3] == [t[0], t[1], t[2]];
    }
  }

  lemma One16BodyExact(cmd: byte, t: seq<byte>, room: nat, p: seq<byte>)
    ensures One16Body(cmd, t, room).res == Ok([p]) <==> |p| <= Min(room, 0xFFFF) && Tail16(cmd, p) <= t
  {
    PrefixSplit([AsReply(cmd), 1, LowByte(|p| / 0x100), LowByte(|p|)], p + [END_CMD], t);
    if |t| >= 4 {
      PayloadExact(t[4..], FromBe16(t[2], t[3]), p);
      assert t[..4] == [t[0], t[1], t[2], t[3]];
      Be16Inverse(|p|, t[2], t[3]);
    }
  }

  lemma Be16Inverse(n: nat, hi: byte, lo: byte)
    ensures FromBe16(hi, lo) == n ==> LowByte(n / 0x100) == hi && LowByte(n) == lo
    ensures n <= 0xFFFF && LowByte(n / 0x100) == hi && LowByte(n) == lo ==> FromBe16(hi, lo) == n
  {
    if FromBe16(hi, lo) == n {
      assert n / 0x100 == hi && n % 0x100 == lo;
    }
  }

  lemma TlvUnfold(items: seq<seq<byte>>)
    ensures Tlv(items) == if items == [] then [] else TlvItem(items[0]) + Tlv(items[1..])
  {
  }

  lemma TlvCons(item: seq<byte>, items: seq<seq<byte>>)
    ensures Tlv([item] + items) == TlvItem(item) + Tlv(items)
  {
    assert ([item] + items)[1..] == items;
  }

  /** Taking an item off the front, seen from the bytes and from the item. */
  lemma ItemSplit(s: seq<byte>, len: nat)
    requires |s| >= 1 + len && s[0] == len
    ensures s == TlvItem(s[1..1 + len]) + s[1 + len..]
    ensures s[..1 + len] == TlvItem(s[1..1 + len])
  {
  }

  lemma ItemTake(item: seq<byte>, u: seq<byte>)
    ensures var s := TlvItem(item) + u;
            && s[0] == LowByte(|item|) && s[1..1 + |item|] == item
            && s[1 + |item|..] == u && s[..1 + |item|] == TlvItem(item)
  {
  }

  lemma ListStep(s: seq<byte>, len: nat, more: seq<seq<byte>>, rest: seq<byte>)
    requires |s| >= 1 + len && s[0] == len && s[1 + len..] == Tlv(more) + rest
    ensures var items := [s[1..1 + len]] + more;
            && s == Tlv(items) + rest
            && Tlv(items) == s[..1 + len] + Tlv(more)
  {
    var item := s[1..1 + len];
    TlvCons(item, more);
    ItemSplit(s, len);
    Regroup(TlvItem(item), Tlv(more), rest);
  }

  lemma ListUnfold(s: seq<byte>, n: nat, room: nat)
    requires n > 0 && List(s, n, room).res.Ok?
    ensures |s| >= 1 && |s| >= 1 + s[0] as int && 1 + s[0] as int <= room
    ensures var len: nat := s[0];
            List(s, n, room) == Prepend([s[1..1 + len]], s[..1 + len], List(s[1 + len..], n - 1, room - 1 - len))
  {
  }

  /** What the loop read is a TLV list, stored byte for byte. */
  lemma {:induction false} ListSound(s: seq<byte>, n: nat, room: nat)
    requires List(s, n, room).res.Ok?
    ensures var (items, rest) := List(s, n, room).res.value;
            && |items| == n && (forall i :: 0 <= i < |items| ==> |items[i]| <= 0xFF)
            && s == Tlv(items) + rest
            && List(s, n, room).wrote == Tlv(items) && |Tlv(items)| <= room
  {
    hide Tlv, List;
    TlvUnfold([]);
    if n == 0 {
      ListNone(s, room);
    } else {
      ListUnfold(s, n, room);
      var len: nat := s[0];
      var tail := s[1 + len..];
      ListSound(tail, n - 1, room - 1 - len);
      var (more, rest) := List(tail, n - 1, room - 1 - len).res.value;
      ListStep(s, len, more, rest);
    }
  }

  lemma ListTake(item: seq<byte>, u: seq<byte>, n: nat, room: nat)
    requires n > 0 && |item| <= 0xFF && 1 + |item| <= room
    ensures List(TlvItem(item) + u, n, room) ==
            Prepend([item], TlvItem(item), List(u, n - 1, room - 1 - |item|))
  {
    var s := TlvItem(item) + u;
    ItemTake(item, u);
    assert |TlvItem(item)| == 1 + |item| && LowByte(|item|) == |item|;
    hide List, Prepend, TlvItem, LowByte;
    ListFits(s, n, room);
  }

  lemma ListFits(s: seq<byte>, n: nat, room: nat)
    requires n > 0 && |s| > 0 && 1 + s[0] <= Min(room, |s|)
    ensures var len := s[0];
            List(s, n, room) == Prepend([s[1..1 + len]], s[..1 + len], List(s[1 + len..], n - 1, room - 1 - len))
  {
  }

  lemma {:induction false} ListComplete(items: seq<seq<byte>>, rest: seq<byte>, room: nat)
    requires forall i :: 0 <= i < |items| ==> |items[i]| <= 0xFF
    requires |Tlv(items)| <= room
    ensures List(Tlv(items) + rest, |items|, room) == Listed(Ok((items, rest)), Tlv(items))
  {
    hide Tlv, List;
    TlvUnfold(items);
    if items == [] {
      ListNone(Tlv(items) + rest, room);
      assert Tlv(items) + rest == rest;
    } else {
      Regroup(TlvItem(items[0]), Tlv(items[1..]), rest);
      ListTake(items[0], Tlv(items[1..]) + rest, |items|, room);
      ListComplete(items[1..], rest, room - 1 - |items[0]|);
      assert [items[0]] + items[1..] == items;
    }
  }

  lemma ListNone(s: seq<byte>, room: nat)
    ensures List(s, 0, room) == Listed(Ok(([], s)), [])
  {
  }

  /** The list reply behind its START byte, split where the decoder splits it. */
  lemma Tail8Prefix(cmd: byte, items: seq<seq<byte>>, t: seq<byte>)
    ensures Tail8(cmd, items) <= t
            <==> |t| >= 2 && t[0] == AsReply(cmd) && t[1] == LowByte(|items|) && Tlv(items) + [END_CMD] <= t[2..]
  {
    Prefix2(AsReply(cmd), LowByte(|items|), Tlv(items) + [END_CMD], t);
  }

  lemma IntoBodySound(cmd: byte, t: seq<byte>, room: nat)
    requires IntoBody(cmd, t, room).res.Ok?
    ensures var items := IntoBody(cmd, t, room).res.value;
            && ShortItems(items) && |Tlv(items)| <= room && IntoBody(cmd, t, room).wrote == Tlv(items)
            && Tail8(cmd, items) <= t
  {
    hide Tlv, List;
    var u := t[2..];
    ListSound(u, t[1], room);
    var (items, rest) := List(u, t[1], room).res.value;
    Tail8Prefix(cmd, items, t);
    MarkBehind(Tlv(items), rest, END_CMD, u);
  }

  lemma IntoBodyComplete(cmd: byte, t: seq<byte>, room: nat, items: seq<seq<byte>>)
    requires ShortItems(items) && |Tlv(items)| <= room
    requires Tail8(cmd, items) <= t
    ensures IntoBody(cmd, t, room).res == Ok(items)
  {
    hide Tlv, List;
    var u := t[2..];
    Tail8Prefix(cmd, items, t);
    PrefixSplit(Tlv(items), [END_CMD], u);
    var rest := u[|Tlv(items)|..];
    PrefixRest(Tlv(items), u);
    MarkBehind(Tlv(items), rest, END_CMD, u);
    ListComplete(items, rest, room);
  }

  /** The message a decoder is after, and the bounds its length prefix and its room put on it. */
  function Message(cmd: byte, how: How, items: seq<seq<byte>>): seq<byte>
    requires how.One16? ==> |items| == 1
  {
    [START_CMD] + Tail(cmd, how, items)
  }

  function Tail(cmd: byte, how: How, items: seq<seq<byte>>): seq<byte>
    requires how.One16? ==> |items| == 1
  {
    if how.One16? then Tail16(cmd, items[0]) else Tail8(cmd, items)
  }

  predicate Deliverable(how: How, items: seq<seq<byte>>) {
    match how
    case One8(room) => |items| == 1 && |items[0]| <= Min(room, 0xFF)
    case One16(room) => |items| == 1 && |items[0]| <= Min(room, 0xFFFF)
    case Into(room) => ShortItems(items) && |Tlv(items)| <= room
  }

  lemma BodyExact(cmd: byte, how: How, t: seq<byte>, items: seq<seq<byte>>)
    ensures Body(cmd, how, t).res == Ok(items)
            <==> Deliverable(how, items) && Tail(cmd, how, items) <= t
  {
    match how {
      case One8(room) =>
        if |items| == 1 {
          One8BodyExact(cmd, t, room, items[0]);
          assert items == [items[0]];
        }
      case One16(room) =>
        if |items| == 1 {
          One16BodyExact(cmd, t, room, items[0]);
          assert items == [items[0]];
        }
      case Into(room) =>
        if IntoBody(cmd, t, room).res == Ok(items) {
          IntoBodySound(cmd, t, room);
        }
        if Deliverable(how, items) && Tail8(cmd, items) <= t {
          IntoBodyComplete(cmd, t, room, items);
        }
    }
  }

  lemma MessageDecodes(cmd: byte, how: How, items: seq<seq<byte>>, noise: seq<byte>, s: seq<byte>)
    requires Deliverable(how, items) && Carries(s, noise, Message(cmd, how, items))
    ensures Decode(cmd, how, s).res == Ok(items)
  {
    var tail := Tail(cmd, how, items);
    var t := s[|noise| + 1..];
    PrefixAfter(noise, START_CMD, tail, s);
    HuntFinds(noise, t, START_TIMEOUT_ITERS);
    BodyExact(cmd, how, t, items);
  }

  lemma DecodedMessage(cmd: byte, how: How, s: seq<byte>) returns (noise: seq<byte>)
    requires Decode(cmd, how, s).res.Ok?
    ensures var items := Decode(cmd, how, s).res.value;
            Deliverable(how, items) && Carries(s, noise, Message(cmd, how, items))
  {
    var items := Decode(cmd, how, s).res.value;
    noise := HuntFound(s, START_TIMEOUT_ITERS);
    var t := Hunt(s, START_TIMEOUT_ITERS).value;
    BodyExact(cmd, how, t, items);
    assert s[|noise| + 1..] == t;
    PrefixAfter(noise, START_CMD, Tail(cmd, how, items), s);
  }

  /**
    A decoder succeeds with `items` if and only if the stream opens with at most
    999 idle bytes and then exactly the chip's encoding of `items`, and they fit.
    The encoding is unrestricted in its payload, so no payload byte is ever taken
    for a marker.
  */
  lemma DecodeExact(cmd: byte, how: How, s: seq<byte>, items: seq<seq<byte>>)
    ensures Decode(cmd, how, s).res == Ok(items)
            <==> Deliverable(how, items) && exists noise :: Carries(s, noise, Message(cmd, how, items))
  {
    if Decode(cmd, how, s).res == Ok(items) {
      var noise := DecodedMessage(cmd, how, s);
    }
    if Deliverable(how, items) && exists noise :: Carries(s, noise, Message(cmd, how, items)) {
      var noise :| Carries(s, noise, Message(cmd, how, items));
      MessageDecodes(cmd, how, items, noise, s);
    }
  }

  /** A successful decoder stored the payload (or the whole TLV list) and nothing else. */
  lemma DecodeStores(cmd: byte, how: How, s: seq<byte>)
    requires Decode(cmd, how, s).res.Ok?
    ensures var items := Decode(cmd, how, s).res.value;
            && Deliverable(how, items)
            && Decode(cmd, how, s).wrote == if how.Into? then Tlv(items) else items[0]
  {
    var noise := DecodedMessage(cmd, how, s);
    if how.Into? {
      IntoBodySound(cmd, Hunt(s, START_TIMEOUT_ITERS).value, how.room);
    }
  }

  // ---- agreement between decoders ----

  /**
    On one stream, the one-parameter decoder with room k and the list decoder with
    room k + 1 accept the same single payloads; the list decoder also stores its length.
  */
  lemma OneAgreesWithInto(cmd: byte, s: seq<byte>, room: nat, p: seq<byte>)
    ensures Decode(cmd, One8(room), s).res == Ok([p]) <==> Decode(cmd, Into(room + 1), s).res == Ok([p])
    ensures Decode(cmd, One8(room), s).res == Ok([p]) ==>
              && Decode(cmd, One8(room), s).wrote == p
              && Decode(cmd, Into(room + 1), s).wrote == [LowByte(|p|)] + p
  {
    TlvOne(p);
    assert Message(cmd, One8(room), [p]) == Message(cmd, Into(room + 1), [p]);
    DecodeExact(cmd, One8(room), s, [p]);
    DecodeExact(cmd, Into(room + 1), s, [p]);
    if Decode(cmd, One8(room), s).res == Ok([p]) {
      DecodeStores(cmd, One8(room), s);
      DecodeStores(cmd, Into(room + 1), s);
    }
  }

  /** The same reply with a two-byte length prefix delivers the same payload. */
  lemma OneAgreesWith16(cmd: byte, room: nat, noise: seq<byte>, p: seq<byte>, s8: seq<byte>, s16: seq<byte>)
    requires |p| <= 0xFF
    requires Carries(s8, noise, Reply8(cmd, [p])) && Carries(s16, noise, Reply16(cmd, p))
    ensures Decode(cmd, One8(room), s8).res == Ok([p]) <==> Decode(cmd, One16(room), s16).res == Ok([p])
  {
    assert Carries(s8, noise, Message(cmd, One8(room), [p]));
    assert Carries(s16, noise, Message(cmd, One16(room), [p]));
    DecodeExact(cmd, One8(room), s8, [p]);
    DecodeExact(cmd, One16(room), s16, [p]);
  }

  // ---- streams cut short ----

  lemma {:induction false} HuntCut(noise: seq<byte>, t: seq<byte>, tries: nat, k: nat)
    requires Clean(noise) && k <= |noise| + 1 + |t|
    ensures var s := (noise + [START_CMD] + t)[..k];
            Hunt(s, tries) ==
            if tries <= |noise| && tries <= k then Err(Timeout)
            else if k <= |noise| then Err(Spi)
            else Ok(t[..k - |noise| - 1])
  {
    var whole := noise + [START_CMD] + t;
    var s := whole[..k];
    if noise == [] {
      if k > 0 { assert s[1..] == t[..k - 1]; }
    } else if tries > 0 && k > 0 {
      assert whole[1..] == noise[1..] + [START_CMD] + t;
      assert s[1..] == whole[1..][..k - 1];
      HuntCut(noise[1..], t, tries - 1, k - 1);
    }
  }

  lemma One8BodyCut(cmd: byte, p: seq<byte>, room: nat, t: seq<byte>)
    requires |p| <= Min(room, 0xFF) && t <= Tail8(cmd, [p]) && |t| < |Tail8(cmd, [p])|
    ensures One8Body(cmd, t, room).res == Err(Spi)
  {
    hide Tlv;
    Tail8One(cmd, p);
    if |t| >= 3 {
      assert t[0] == Tail8(cmd, [p])[0] && t[1] == Tail8(cmd, [p])[1] && t[2] == Tail8(cmd, [p])[2];
    }
  }

  lemma One16BodyCut(cmd: byte, p: seq<byte>, room: nat, t: seq<byte>)
    requires |p| <= Min(room, 0xFFFF) && t <= Tail16(cmd, p) && |t| < |Tail16(cmd, p)|
    ensures One16Body(cmd, t, room).res == Err(Spi)
  {
    var whole := Tail16(cmd, p);
    Be16Inverse(|p|, LowByte(|p| / 0x100), LowByte(|p|));
    if |t| >= 2 {
      assert t[0] == whole[0] && t[1] == whole[1];
    }
    if |t| >= 4 {
      assert t[2] == whole[2] && t[3] == whole[3];
    }
  }

  /** A list cut short runs out of bytes, in an item or in front of END. */
  lemma {:induction false} ListCut(items: seq<seq<byte>>, room: nat, s: seq<byte>)
    requires forall i :: 0 <= i < |items| ==> |items[i]| <= 0xFF
    requires |Tlv(items)| <= room && s <= Tlv(items)
    ensures List(s, |items|, room).res == if s == Tlv(items) then Ok((items, [])) else Err(Spi)
  {
    hide Tlv, List, TlvItem;
    TlvUnfold(items);
    if items == [] {
      ListNone(s, room);
    } else if s == Tlv(items) {
      ListComplete(items, [], room);
      assert Tlv(items) + [] == s;
    } else {
      var item, more := items[0], items[1..];
      assert |s| < |Tlv(items)|;
      ItemTake(item, Tlv(more));
      ItemSize(item);
      ListFront(s, |items|, room, item, Tlv(more));
      if |s| >= 1 + |item| {
        var t := s[1 + |item|..];
        assert t == Tlv(items)[1 + |item|..|s|] == Tlv(more)[..|t|];
        ListCut(more, room - 1 - |item|, t);
      }
    }
  }

  lemma ItemSize(item: seq<byte>)
    ensures |TlvItem(item)| == 1 + |item|
  {
  }

  lemma ListFront(s: seq<byte>, n: nat, room: nat, item: seq<byte>, u: seq<byte>)
    requires n > 0 && |item| <= 0xFF && 1 + |item| <= room && s <= TlvItem(item) + u
    ensures List(s, n, room).res ==
            if |s| < 1 + |item| then Err(Spi)
            else Prepend([item], TlvItem(item), List(s[1 + |item|..], n - 1, room - 1 - |item|)).res
  {
    var whole := TlvItem(item) + u;
    assert s == whole[..|s|];
    if |s| > 0 {
      assert s[0] == whole[0] == |item|;
    }
    if |s| >= 1 + |item| {
      assert s[1..1 + |item|] == item && s[..1 + |item|] == TlvItem(item);
      hide List, Prepend;
      ListFits(s, n, room);
    }
  }

  lemma IntoBodyCut(cmd: byte, items: seq<seq<byte>>, room: nat, t: seq<byte>)
    requires ShortItems(items) && |Tlv(items)| <= room
    requires t <= Tail8(cmd, items) && |t| < |Tail8(cmd, items)|
    ensures IntoBody(cmd, t, room).res == Err(Spi)
  {
    hide Tlv, List;
    var whole := Tail8(cmd, items);
    if |t| >= 2 {
      assert t[0] == whole[0] && t[1] == whole[1];
      var u := t[2..];
      assert u == (Tlv(items) + [END_CMD])[..|u|] == Tlv(items)[..|u|];
      ListCut(items, room, u);
    }
  }

  lemma BodyCut(cmd: byte, how: How, items: seq<seq<byte>>, t: seq<byte>)
    requires Deliverable(how, items)
    requires t <= Tail(cmd, how, items) && |t| < |Tail(cmd, how, items)|
    ensures Body(cmd, how, t).res == Err(Spi)
  {
    match how {
      case One8(room) =>
        assert items == [items[0]];
        One8BodyCut(cmd, items[0], room, t);
      case One16(room) =>
        One16BodyCut(cmd, items[0], room, t);
      case Into(room) =>
        IntoBodyCut(cmd, items, room, t);
    }
  }

  /**
    While the chip sends a reply that fits the caller's room, the decoders either
    deliver it or report a bus error or a timeout: never BufferTooSmall, a framing
    error, or other bytes.  `k` is where the bus gave up.
  */
  lemma CutReply(cmd: byte, how: How, items: seq<seq<byte>>, noise: seq<byte>, k: nat)
    requires Deliverable(how, items) && Clean(noise)
    requires k <= |noise + Message(cmd, how, items)|
    ensures var res := Decode(cmd, how, (noise + Message(cmd, how, items))[..k]).res;
            if |noise| < START_TIMEOUT_ITERS && k == |noise + Message(cmd, how, items)| then res == Ok(items)
            else res == Err(Spi) || res == Err(Timeout)
  {
    var message := Message(cmd, how, items);
    var t := Tail(cmd, how, items);
    Regroup(noise, [START_CMD], t);
    if |noise| < START_TIMEOUT_ITERS && k == |noise + message| {
      assert (noise + message)[..k] == noise + message;
      MessageDecodes(cmd, how, items, noise, noise + message);
    } else {
      HuntCut(noise, t, START_TIMEOUT_ITERS, k);
      if |noise| < k < |noise + message| {
        BodyCut(cmd, how, items, t[..k - |noise| - 1]);
      }
    }
  }

  /** A payload longer than the caller's room is refused, and none of it is copied. */
  lemma LongPayloadRefused(cmd: byte, room: nat, p: seq<byte>, noise: seq<byte>, s: seq<byte>)
    requires room < |p|
    ensures |p| <= 0xFF && Carries(s, noise, Reply8(cmd, [p])) ==>
              Decode(cmd, One8(room), s) == Parsed(Err(BufferTooSmall), [])
    ensures |p| <= 0xFFFF && Carries(s, noise, Reply16(cmd, p)) ==>
              Decode(cmd, One16(room), s) == Parsed(Err(BufferTooSmall), [])
  {
    if |p| <= 0xFF && Carries(s, noise, Reply8(cmd, [p])) {
      RefusedBehind(cmd, One8(room), [p], noise, s);
      Tail8One(cmd, p);
    }
    if |p| <= 0xFFFF && Carries(s, noise, Reply16(cmd, p)) {
      RefusedBehind(cmd, One16(room), [p], noise, s);
      Be16Inverse(|p|, LowByte(|p| / 0x100), LowByte(|p|));
    }
  }

  lemma RefusedBehind(cmd: byte, how: How, items: seq<seq<byte>>, noise: seq<byte>, s: seq<byte>)
    requires |items| == 1 && Carries(s, noise, Message(cmd, how, items))
    ensures |noise| < |s| && Tail(cmd, how, items) <= s[|noise| + 1..]
    ensures Decode(cmd, how, s) == Body(cmd, how, s[|noise| + 1..])
  {
    PrefixAfter(noise, START_CMD, Tail(cmd, how, items), s);
    HuntFinds(noise, s[|noise| + 1..], START_TIMEOUT_ITERS);
  }

  // ---- what the bus may offer ----

  /** The stream from its first marker on. */
  function SkipIdle(s: seq<byte>): seq<byte> {
    if s == [] || s[0] == START_CMD || s[0] == ERR_CMD then s else SkipIdle(s[1..])
  }

  /**
    A statement about the wire alone: idle bytes, then nothing, an error marker, a front
    of `message`, or all of it and whatever follows.
  */
  predicate Offers(s: seq<byte>, message: Option<seq<byte>>) {
    var t := SkipIdle(s);
    t == [] || t[0] == ERR_CMD || (message.Some? && (t <= message.value || message.value <= t))
  }

  lemma {:induction false} SkipIdleIs(noise: seq<byte>, t: seq<byte>)
    requires Clean(noise) && (t == [] || t[0] == START_CMD || t[0] == ERR_CMD)
    ensures SkipIdle(noise + t) == t
  {
    if noise == [] {
      assert noise + t == t;
    } else {
      assert (noise + t)[1..] == noise[1..] + t;
      SkipIdleIs(noise[1..], t);
    }
  }

  lemma {:induction false} SkipIdleSplits(s: seq<byte>) returns (noise: seq<byte>)
    ensures Clean(noise) && s == noise + SkipIdle(s)
  {
    if s == [] || s[0] == START_CMD || s[0] == ERR_CMD {
      noise := [];
    } else {
      noise := SkipIdleSplits(s[1..]);
      noise := [s[0]] + noise;
    }
  }

  /** Read without the scan: clean noise and then one of the four continuations. */
  lemma OffersMeaning(s: seq<byte>, message: seq<byte>)
    requires message != [] && message[0] == START_CMD
    ensures Offers(s, Some(message))
            <==> exists noise, t :: s == noise + t && Clean(noise)
                   && (t == [] || t[0] == ERR_CMD || t <= message || message <= t)
  {
    var split := SkipIdleSplits(s);
    if exists noise, t :: s == noise + t && Clean(noise)
                          && (t == [] || t[0] == ERR_CMD || t <= message || message <= t) {
      var noise, t :| s == noise + t && Clean(noise)
                      && (t == [] || t[0] == ERR_CMD || t <= message || message <= t);
      SkipIdleIs(noise, t);
    }
  }

  /** A stream that decodes has nothing but idle bytes in front of the message decoded. */
  lemma DecodedBehindIdle(cmd: byte, how: How, s: seq<byte>)
    requires Decode(cmd, how, s).res.Ok?
    ensures var items := Decode(cmd, how, s).res.value;
            Deliverable(how, items) && Message(cmd, how, items) <= SkipIdle(s)
  {
    var noise := DecodedMessage(cmd, how, s);
    var message := Message(cmd, how, Decode(cmd, how, s).res.value);
    var t := s[|noise|..];
    PrefixSplit(noise, message, s);
    assert t[0] == message[0];
    assert s == noise + t;
    SkipIdleIs(noise, t);
  }

  /** Two replies with 8-bit lengths that open one stream are the same. */
  lemma Reply8Unique(c: byte, a: seq<seq<byte>>, d: byte, b: seq<seq<byte>>, u: seq<byte>)
    requires ShortItems(a) && ShortItems(b) && Reply8(c, a) <= u && Reply8(d, b) <= u
    ensures AsReply(c) == AsReply(d) == u[1] && a == b
  {
    assert u[1] == Reply8(c, a)[1] && u[1] == Reply8(d, b)[1];
    var room, t := |Tlv(a)| + |Tlv(b)|, u[1..];
    Behind([START_CMD], Tail8(c, a), u);
    Behind([START_CMD], Tail8(d, b), u);
    assert Tail8(c, a) == Tail8(d, a);
    IntoBodyComplete(d, t, room, a);
    IntoBodyComplete(d, t, room, b);
  }

  lemma Reply16Unique(c: byte, p: seq<byte>, d: byte, q: seq<byte>, u: seq<byte>)
    requires |p| <= 0xFFFF && |q| <= 0xFFFF && Reply16(c, p) <= u && Reply16(d, q) <= u
    ensures AsReply(c) == AsReply(d) == u[1] && p == q
  {
    assert u[1] == Reply16(c, p)[1] && u[1] == Reply16(d, q)[1];
    var room, t := |p| + |q|, u[1..];
    Behind([START_CMD], Tail16(c, p), u);
    Behind([START_CMD], Tail16(d, q), u);
    assert Tail16(c, p) == Tail16(d, p);
    One16BodyExact(d, t, room, p);
    One16BodyExact(d, t, room, q);
    assert [p][0] == [q][0];
  }

  lemma Behind(front: seq<byte>, body: seq<byte>, s: seq<byte>)
    requires front + body <= s
    ensures body <= s[|front|..]
  {
    PrefixSplit(front, body, s);
  }

  // ---- known replies ----

  /** Streams as they stand in the wire format's description, byte for byte. */
  lemma KnownReplies(b: byte, ip: seq<byte>, port: seq<byte>, data: seq<byte>)
    requires |ip| == 4 && |port| == 2 && |data| == 300
    ensures Decode(0x2F, One8(1), [0xFF, 0, 0xE0, 0xAF, 1, 1, b, 0xEE]).res == Ok([[b]])
    ensures Decode(0x3A, Into(16), [0xE0, 0xBA, 2, 4] + ip + [2] + port + [0xEE]).res == Ok([ip, port])
    ensures Decode(0x45, One16(300), [0xE0, 0xC5, 1, 1, 44] + data + [0xEE]).res == Ok([data])
    ensures Decode(0x45, One16(299), [0xE0, 0xC5, 1, 1, 44] + data + [0xEE]).res == Err(BufferTooSmall)
  {
    var s1, s2, s3 := [0xFF, 0, 0xE0, 0xAF, 1, 1, b, 0xEE], [0xE0, 0xBA, 2, 4] + ip + [2] + port + [0xEE],
                      [0xE0, 0xC5, 1, 1, 44] + data + [0xEE];
    TlvOne([b]);
    assert s1 == [0xFF, 0] + Message(0x2F, One8(1), [[b]]);
    MessageDecodes(0x2F, One8(1), [[b]], [0xFF, 0], s1);
    TlvCons(ip, [port]);
    TlvOne(port);
    assert [ip] + [port] == [ip, port];
    assert s2 == [] + Message(0x3A, Into(16), [ip, port]);
    MessageDecodes(0x3A, Into(16), [ip, port], [], s2);
    assert s3 == [] + Message(0x45, One16(300), [data]);
    MessageDecodes(0x45, One16(300), [data], [], s3);
    LongPayloadRefused(0x45, 299, data, [], s3);
  }
}
