/** Reading back the `[len, bytes]*` list that the variable-length decoder stored. */
module ScanList {
  import opened Proto
  import opened Replies

  /** Everything an iteration yields, and where it stops. */
  datatype Drained = Drained(items: seq<seq<byte>>, buf: seq<byte>, rem: nat)

  predicate Exhausted(buf: seq<byte>, rem: nat) {
    rem == 0 || buf == [] || |buf| <= buf[0] as int
  }

  function Drain(buf: seq<byte>, rem: nat): Drained {
    if Exhausted(buf, rem) then Drained([], buf, rem)
    else
      var len: nat := buf[0];
      var d := Drain(buf[1 + len..], rem - 1);
      Drained([buf[1..1 + len]] + d.items, d.buf, d.rem)
  }

  class ScanIter {
    var buf: seq<byte>
    var rem: byte

    constructor (buf: seq<byte>, n: byte)
      ensures this.buf == buf && this.rem == n
    {
      this.buf := buf;
      this.rem := n;
    }

    /**
      Yields the next item, cut off the front of `buf` with its length byte; once it
      has yielded None it leaves the iterator as it is, so it yields None for ever.
    */
    method Next() returns (item: Option<seq<byte>>)
      modifies this
      ensures item.None? <==> Exhausted(old(buf), old(rem))
      ensures item.None? ==> buf == old(buf) && rem == old(rem)
      ensures item.Some? ==> old(buf) == TlvItem(item.value) + buf && rem == old(rem) - 1
      ensures item.Some? ==>
                var before, after := Drain(old(buf), old(rem)), Drain(buf, rem);
                before == after.(items := [item.value] + after.items)
    {
      if rem == 0 || buf == [] {
        return None;
      }
      var len: nat := buf[0];
      if 1 + len > |buf| {
        return None;
      }
      var ssid := buf[1..1 + len];
      ItemSplit(buf, len);
      buf := buf[1 + len..];
      rem := rem - 1;
      return Some(ssid);
    }
  }

  lemma DrainTake(item: seq<byte>, u: seq<byte>, rem: nat)
    requires rem > 0 && |item| <= 0xFF
    ensures var d := Drain(u, rem - 1);
            Drain(TlvItem(item) + u, rem) == d.(items := [item] + d.items)
  {
    ItemTake(item, u);
  }

  /** A stored list is drained completely, bytes and count together, never by truncation. */
  lemma {:induction false} DrainInvertsTlv(items: seq<seq<byte>>)
    requires forall i :: 0 <= i < |items| ==> |items[i]| <= 0xFF
    ensures Drain(Tlv(items), |items|) == Drained(items, [], 0)
  {
    hide Tlv;
    TlvUnfold(items);
    if items != [] {
      DrainTake(items[0], Tlv(items[1..]), |items|);
      DrainInvertsTlv(items[1..]);
      assert [items[0]] + items[1..] == items;
    }
  }

  /** Iterating over what a successful reply stored yields exactly the chip's parameters. */
  lemma ScanInvertsReply(cmd: byte, room: nat, s: seq<byte>)
    requires Decode(cmd, Into(room), s).res.Ok?
    ensures var p := Decode(cmd, Into(room), s);
            Drain(p.wrote, |p.res.value|) == Drained(p.res.value, [], 0)
  {
    DecodeStores(cmd, Into(room), s);
    DrainInvertsTlv(Decode(cmd, Into(room), s).res.value);
  }

  /**
    On any buffer and count, sound or not: the items are consecutive in-bounds
    slices, there are at most `rem` of them, and the iteration has really ended.
  */
  lemma {:induction false} DrainAny(buf: seq<byte>, rem: nat)
    ensures var d := Drain(buf, rem);
            && buf == Tlv(d.items) + d.buf
            && |d.items| + d.rem == rem
            && Exhausted(d.buf, d.rem)
  {
    hide Tlv;
    TlvUnfold([]);
    if !Exhausted(buf, rem) {
      var len: nat := buf[0];
      var tail := buf[1 + len..];
      var d := Drain(tail, rem - 1);
      DrainAny(tail, rem - 1);
      ListStep(buf, len, d.items, d.buf);
      assert Drain(buf, rem) == Drained([buf[1..1 + len]] + d.items, d.buf, d.rem);
    }
  }

  // ---- the two fixed-shape consumers ----

  datatype IpConfig = IpConfig(ip: seq<byte>, subnet: seq<byte>, gateway: seq<byte>)

  /** What the IP query must answer, said of the chip's parameters. */
  function IpConfigOf(items: seq<seq<byte>>): Result<IpConfig> {
    if |items| >= 3 && |items[0]| == 4 && |items[1]| == 4 && |items[2]| == 4
    then Ok(IpConfig(items[0], items[1], items[2]))
    else Err(Framing)
  }

  /** What the datagram-source query must answer: the count of parameters plays no part. */
  function RemoteOf(items: seq<seq<byte>>): Result<(seq<byte>, nat)> {
    if |items| >= 2 && |items[0]| == 4 && |items[1]| == 2
    then Ok((items[0], FromBe16(items[1][0], items[1][1])))
    else Err(Framing)
  }

  /** The head of a stored list, read through its bytes. */
  lemma Peel(items: seq<seq<byte>>)
    requires forall i :: 0 <= i < |items| ==> |items[i]| <= 0xFF
    ensures items == [] <==> Tlv(items) == []
    ensures items != [] ==>
              && |Tlv(items)| == 1 + |items[0]| + |Tlv(items[1..])|
              && Tlv(items)[0] == |items[0]|
              && Tlv(items)[1..1 + |items[0]|] == items[0]
              && Tlv(items)[1 + |items[0]|..] == Tlv(items[1..])
  {
    hide Tlv, TlvItem;
    TlvUnfold(items);
    if items != [] {
      ItemSize(items[0]);
      ItemTake(items[0], Tlv(items[1..]));
    }
  }

  /** The byte tests on a stored list say exactly that its first two items have lengths 4 and 2. */
  lemma RemoteTests(items: seq<seq<byte>>)
    requires forall i :: 0 <= i < |items| ==> |items[i]| <= 0xFF
    ensures var s := Tlv(items);
            && (RemoteOf(items).Ok? <==> |s| >= 8 && s[0] == 4 && s[5] == 2)
            && (RemoteOf(items).Ok? ==>
                  RemoteOf(items).value.0 == s[1..5] && RemoteOf(items).value.1 == 256 * s[6] as int + s[7] as int)
            && (RemoteOf(items).Err? ==> RemoteOf(items) == Err(Framing))
  {
    Peel(items);
    if items != [] && |items[0]| == 4 {
      var s, tail := Tlv(items), Tlv(items[1..]);
      Peel(items[1..]);
      assert s[5..] == tail;
      assert forall i :: 0 <= i < |tail| ==> s[5..][i] == s[5 + i];
      if |items| >= 2 && |items[1]| == 2 {
        assert items[1..][0] == items[1];
        assert tail[1..3][0] == tail[1] && tail[1..3][1] == tail[2];
      }
    }
  }

  /** Two neighbouring four-byte items at the head of a stored list, and what is behind them. */
  lemma PeelFour(items: seq<seq<byte>>)
    requires forall i :: 0 <= i < |items| ==> |items[i]| <= 0xFF
    ensures var s := Tlv(items);
            && (items != [] && |items[0]| == 4 <==> |s| >= 5 && s[0] == 4)
            && (items != [] && |items[0]| == 4 ==> s[1..5] == items[0] && s[5..] == Tlv(items[1..]))
  {
    Peel(items);
  }

  /**
    The byte tests on a stored list of `|items|` parameters: an IP configuration is read
    exactly from three leading items of length 4, address, subnet and gateway in this order.
  */
  lemma IpConfigTests(items: seq<seq<byte>>)
    requires forall i :: 0 <= i < |items| ==> |items[i]| <= 0xFF
    ensures var s := Tlv(items);
            && (IpConfigOf(items).Ok? <==> |items| >= 3 && |s| >= 15 && s[0] == 4 && s[5] == 4 && s[10] == 4)
            && (IpConfigOf(items).Ok? ==>
                  var c := IpConfigOf(items).value;
                  c.ip == s[1..5] && c.subnet == s[6..10] && c.gateway == s[11..15])
            && (IpConfigOf(items).Err? ==> IpConfigOf(items) == Err(Framing))
  {
    var s := Tlv(items);
    PeelFour(items);
    if |items| >= 3 && |items[0]| == 4 {
      var one := items[1..];
      PeelFour(one);
      assert forall i :: 0 <= i < |s| - 5 ==> s[5..][i] == s[5 + i];
      assert one[0] == items[1];
      if |items[1]| == 4 {
        var two := one[1..];
        PeelFour(two);
        assert two[0] == items[2];
        assert s[5..][1..5] == s[6..10] && s[5..][5..] == s[10..];
        assert forall i :: 0 <= i < |s| - 10 ==> s[10..][i] == s[10 + i];
        assert |s| >= 15 ==> s[10..][1..5] == s[11..15];
      }
    }
  }
}
