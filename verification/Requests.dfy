/**
  The request frame `START | cmd | count | (len, bytes)* | END`, padded with
  DUMMY to a multiple of four: what the host emits and how the chip reads it.
*/
module Requests {
  import opened Bytes
  import opened Proto

  datatype Request = Request(cmd: byte, params: seq<Param>)

  function EncodeParam(p: Param): seq<byte> {
    match p
    case Short(data) => [LowByte(|data|)] + data
    case Long(data) => Be16(|data|) + data
  }

  function EncodeParams(ps: seq<Param>): seq<byte> {
    if ps == [] then [] else EncodeParam(ps[0]) + EncodeParams(ps[1..])
  }

  function Frame(cmd: byte, ps: seq<Param>): seq<byte> {
    [START_CMD, AsRequest(cmd), LowByte(|ps|)] + EncodeParams(ps) + [END_CMD]
  }

  /** The DUMMY bytes that bring `n` up to a multiple of four. */
  function Padding(n: nat): seq<byte> {
    seq((4 - n % 4) % 4, _ => DUMMY)
  }

  /** Everything clocked out for one command. */
  function Wire(cmd: byte, ps: seq<Param>): seq<byte> {
    Frame(cmd, ps) + Padding(|Frame(cmd, ps)|)
  }

  function Shorts(items: seq<seq<byte>>): seq<Param> {
    seq(|items|, i requires 0 <= i < |items| => Short(items[i]))
  }

  // ---- the chip's reading of a frame ----

  /** Length-prefix width of each parameter, as the chip's handlers hardcode it. */
  function Shape(ps: seq<Param>): seq<bool> {
    seq(|ps|, i requires 0 <= i < |ps| => ps[i].Long?)
  }

  function TakeParam(s: seq<byte>, wide: bool): Option<(Param, seq<byte>)> {
    if wide then
      if |s| < 2 || |s| < 2 + FromBe16(s[0], s[1]) then None
      else
        var len := FromBe16(s[0], s[1]);
        Some((Long(s[2..2 + len]), s[2 + len..]))
    else
      if |s| < 1 || |s| - 1 < s[0] then None
      else
        var len: nat := s[0];
        Some((Short(s[1..1 + len]), s[1 + len..]))
  }

  function TakeParams(s: seq<byte>, shape: seq<bool>): Option<(seq<Param>, seq<byte>)>
    decreases |shape|
  {
    if shape == [] then Some(([], s))
    else
      match TakeParam(s, shape[0])
      case None => None
      case Some((p, rest)) =>
        match TakeParams(rest, shape[1..])
        case None => None
        case Some((ps, rest')) => Some(([p] + ps, rest'))
  }

  function TakeFrame(s: seq<byte>, shape: seq<bool>): Option<(Request, seq<byte>)> {
    if |s| < 3 || s[0] != START_CMD || s[2] != |shape| then None
    else
      match TakeParams(s[3..], shape)
      case None => None
      case Some((ps, rest)) =>
        if |rest| < 1 || rest[0] != END_CMD then None else Some((Request(s[1], ps), rest[1..]))
  }

  /** The three opcodes whose handlers read 16-bit lengths. */
  predicate UsesLong(cmd: byte) {
    cmd == CMD_SEND_DATA_TCP || cmd == CMD_GET_DATABUF_TCP || cmd == CMD_INSERT_DATABUF
  }

  /** The chip's decoder: the opcode fixes the width, the count byte the number. */
  function ChipDecode(s: seq<byte>): Option<(Request, seq<byte>)> {
    if |s| < 3 then None else TakeFrame(s, seq(s[2], _ => UsesLong(s[1])))
  }

  // ---- which parameter lists survive ----

  predicate Fits(p: Param) {
    match p
    case Short(data) => |data| <= 0xFF
    case Long(data) => |data| <= 0xFFFF
  }

  predicate Sized(ps: seq<Param>) {
    |ps| <= 0xFF && forall i :: 0 <= i < |ps| ==> Fits(ps[i])
  }

  /** All parameters have the width the opcode's handler expects. */
  predicate Uniform(cmd: byte, ps: seq<Param>) {
    forall i :: 0 <= i < |ps| ==> ps[i].Long? == UsesLong(AsRequest(cmd))
  }

  lemma TakeEncoded(p: Param, rest: seq<byte>)
    requires Fits(p)
    ensures TakeParam(EncodeParam(p) + rest, p.Long?) == Some((p, rest))
  {
    var s := EncodeParam(p) + rest;
    match p {
      case Short(data) =>
        assert s[1..1 + |data|] == data && s[1 + |data|..] == rest;
      case Long(data) =>
        assert s[2..2 + |data|] == data && s[2 + |data|..] == rest;
    }
  }

  lemma {:induction false} TakeAllEncoded(ps: seq<Param>, rest: seq<byte>)
    requires forall i :: 0 <= i < |ps| ==> Fits(ps[i])
    ensures TakeParams(EncodeParams(ps) + rest, Shape(ps)) == Some((ps, rest))
  {
    hide TakeParam, EncodeParam, Fits;
    if ps == [] {
      assert EncodeParams(ps) + rest == rest;
    } else {
      var tail := EncodeParams(ps[1..]) + rest;
      Regroup(EncodeParam(ps[0]), EncodeParams(ps[1..]), rest);
      TakeEncoded(ps[0], tail);
      assert Shape(ps)[1..] == Shape(ps[1..]);
      TakeAllEncoded(ps[1..], rest);
      assert [ps[0]] + ps[1..] == ps;
    }
  }

  /** Whatever the bytes, a decoded list has the requested shape and representable lengths. */
  lemma {:induction false} TakenFits(s: seq<byte>, shape: seq<bool>)
    ensures TakeParams(s, shape).Some? ==>
              var ps := TakeParams(s, shape).value.0;
              |ps| == |shape| && forall i :: 0 <= i < |ps| ==> Fits(ps[i]) && ps[i].Long? == shape[i]
    decreases |shape|
  {
    if shape != [] && TakeParam(s, shape[0]).Some? {
      TakenFits(TakeParam(s, shape[0]).value.1, shape[1..]);
    }
  }

  lemma TakenParamReencodes(s: seq<byte>, wide: bool)
    requires TakeParam(s, wide).Some?
    ensures var (p, rest) := TakeParam(s, wide).value; s == EncodeParam(p) + rest
  {
    if wide {
      var len := FromBe16(s[0], s[1]);
      assert Be16(len) == s[..2];
      Slices(s, 2, len);
    } else {
      assert [LowByte(s[0])] == s[..1];
      Slices(s, 1, s[0]);
    }
  }

  lemma Slices(s: seq<byte>, n: nat, len: nat)
    requires n + len <= |s|
    ensures s == s[..n] + s[n..n + len] + s[n + len..]
  {
  }

  /** Nothing the decoder accepts has been reinterpreted: re-encoding gives back the bytes read. */
  lemma {:induction false} TakenReencodes(s: seq<byte>, shape: seq<bool>)
    requires TakeParams(s, shape).Some?
    ensures var (ps, rest) := TakeParams(s, shape).value; s == EncodeParams(ps) + rest
    decreases |shape|
  {
    hide TakeParam, EncodeParam;
    if shape != [] {
      var (p, mid) := TakeParam(s, shape[0]).value;
      TakenParamReencodes(s, shape[0]);
      TakenReencodes(mid, shape[1..]);
      var (ps, rest) := TakeParams(mid, shape[1..]).value;
      assert TakeParams(s, shape).value == ([p] + ps, rest);
      hide EncodeParams, TakeParams;
      EncodeCons(p, ps);
      Regroup(EncodeParam(p), EncodeParams(ps), rest);
    }
  }

  lemma EncodeCons(p: Param, ps: seq<Param>)
    ensures EncodeParams([p] + ps) == EncodeParam(p) + EncodeParams(ps)
  {
    assert ([p] + ps)[1..] == ps;
  }

  lemma FrameLayout(cmd: byte, ps: seq<Param>, rest: seq<byte>)
    requires |ps| <= 0xFF
    ensures var s := Frame(cmd, ps) + rest;
            && |s| >= 3 && s[0] == START_CMD && s[1] == AsRequest(cmd) && s[2] == |ps|
            && s[3..] == EncodeParams(ps) + ([END_CMD] + rest)
  {
    var body := EncodeParams(ps);
    assert Frame(cmd, ps) + rest == [START_CMD, AsRequest(cmd), LowByte(|ps|)] + (body + ([END_CMD] + rest));
  }

  lemma FrameTaken(s: seq<byte>, shape: seq<bool>, ps: seq<Param>, tail: seq<byte>)
    requires |s| >= 3 && s[0] == START_CMD && s[2] == |shape|
    requires TakeParams(s[3..], shape) == Some((ps, tail))
    requires |tail| >= 1 && tail[0] == END_CMD
    ensures TakeFrame(s, shape) == Some((Request(s[1], ps), tail[1..]))
  {
  }

  lemma SizedFrameReadsBack(cmd: byte, ps: seq<Param>, rest: seq<byte>)
    requires Sized(ps)
    ensures TakeFrame(Frame(cmd, ps) + rest, Shape(ps)) == Some((Request(AsRequest(cmd), ps), rest))
  {
    var tail := [END_CMD] + rest;
    FrameLayout(cmd, ps, rest);
    TakeAllEncoded(ps, tail);
    assert tail[1..] == rest;
    FrameTaken(Frame(cmd, ps) + rest, Shape(ps), ps, tail);
  }

  lemma FrameReadsBackOnlySized(s: seq<byte>, shape: seq<bool>)
    requires TakeFrame(s, shape).Some?
    ensures Sized(TakeFrame(s, shape).value.0.params)
  {
    TakenFits(s[3..], shape);
  }

  /**
    A frame, followed by anything, reads back as the very command and parameters
    that went in if and only if the count and every length fit their prefixes.
  */
  lemma FrameRoundTrip(cmd: byte, ps: seq<Param>, rest: seq<byte>)
    ensures TakeFrame(Frame(cmd, ps) + rest, Shape(ps)) == Some((Request(AsRequest(cmd), ps), rest))
            <==> Sized(ps)
  {
    if Sized(ps) {
      SizedFrameReadsBack(cmd, ps, rest);
    } else if TakeFrame(Frame(cmd, ps) + rest, Shape(ps)).Some? {
      FrameReadsBackOnlySized(Frame(cmd, ps) + rest, Shape(ps));
    }
  }

  /** The same for the chip's own decoder, whatever START, END or ERR bytes the payloads hold. */
  lemma ChipRoundTrip(cmd: byte, ps: seq<Param>, rest: seq<byte>)
    requires Uniform(cmd, ps)
    ensures ChipDecode(Frame(cmd, ps) + rest) == Some((Request(AsRequest(cmd), ps), rest)) <==> Sized(ps)
  {
    var s := Frame(cmd, ps) + rest;
    if |ps| <= 0xFF {
      assert seq(s[2], _ => UsesLong(s[1])) == Shape(ps);
      FrameRoundTrip(cmd, ps, rest);
    } else {
      TakenFits(s[3..], seq(s[2], _ => UsesLong(s[1])));
    }
  }

  // ---- torn frames ----

  lemma CutParam(p: Param, k: nat)
    requires Fits(p) && k < |EncodeParam(p)|
    ensures TakeParam(EncodeParam(p)[..k], p.Long?).None?
  {
    var s := EncodeParam(p)[..k];
    match p {
      case Short(data) =>
        assert k >= 1 ==> s[0] == |data|;
      case Long(data) =>
        assert k >= 2 ==> s[0] == LowByte(|data| / 0x100) && s[1] == LowByte(|data|);
        assert FromBe16(LowByte(|data| / 0x100), LowByte(|data|)) == |data|;
    }
  }

  lemma {:induction false} CutParams(ps: seq<Param>, k: nat)
    requires forall i :: 0 <= i < |ps| ==> Fits(ps[i])
    requires k < |EncodeParams(ps)|
    ensures TakeParams(EncodeParams(ps)[..k], Shape(ps)).None?
  {
    var head, tail := EncodeParam(ps[0]), EncodeParams(ps[1..]);
    assert Shape(ps)[1..] == Shape(ps[1..]);
    assert EncodeParams(ps) == head + tail;
    hide EncodeParams, EncodeParam;
    var s := EncodeParams(ps)[..k];
    if k < |head| {
      assert s == head[..k];
      CutParam(ps[0], k);
    } else {
      assert s == head + tail[..k - |head|];
      TakeEncoded(ps[0], tail[..k - |head|]);
      CutParams(ps[1..], k - |head|);
    }
  }

  lemma CutFrame(cmd: byte, ps: seq<Param>, k: nat)
    requires Uniform(cmd, ps) && Sized(ps)
    requires k < |Frame(cmd, ps)|
    ensures ChipDecode(Frame(cmd, ps)[..k]).None?
  {
    if 3 <= k {
      var body := EncodeParams(ps);
      var s := Frame(cmd, ps)[..k];
      FrameLayout(cmd, ps, []);
      assert Frame(cmd, ps) + [] == Frame(cmd, ps);
      assert [END_CMD] + [] == [END_CMD];
      hide Frame, EncodeParams;
      assert s[0] == START_CMD && s[1] == AsRequest(cmd) && s[2] == |ps|;
      assert seq(s[2], _ => UsesLong(s[1])) == Shape(ps);
      assert s[3..] == (body + [END_CMD])[..k - 3];
      if k - 3 < |body| {
        assert s[3..] == body[..k - 3];
        CutParams(ps, k - 3);
      } else {
        assert s[3..] == body + [];
        TakeAllEncoded(ps, []);
      }
    }
  }

  /**
    A transmission cut after `k` bytes is either the whole frame (only padding is
    missing) or no frame at all: the chip never acts on part of a command.
  */
  lemma TornFrame(cmd: byte, ps: seq<Param>, k: nat)
    requires Uniform(cmd, ps) && Sized(ps)
    requires k <= |Wire(cmd, ps)|
    ensures var whole := |Frame(cmd, ps)|;
            ChipDecode(Wire(cmd, ps)[..k]) ==
            if whole <= k then Some((Request(AsRequest(cmd), ps), Wire(cmd, ps)[whole..k])) else None
  {
    var frame, s := Frame(cmd, ps), Wire(cmd, ps)[..k];
    assert Wire(cmd, ps) == frame + Padding(|frame|);
    hide Frame, Wire;
    if |frame| <= k {
      assert s == frame + Wire(cmd, ps)[|frame|..k];
      ChipRoundTrip(cmd, ps, Wire(cmd, ps)[|frame|..k]);
    } else {
      assert s == frame[..k];
      CutFrame(cmd, ps, k);
    }
  }

  // ---- sizes ----

  lemma {:induction false} EncodeAppend(a: seq<Param>, b: seq<Param>)
    ensures EncodeParams(a + b) == EncodeParams(a) + EncodeParams(b)
  {
    if a == [] {
      assert a + b == b;
    } else {
      assert (a + b)[1..] == a[1..] + b;
      EncodeAppend(a[1..], b);
    }
  }

  lemma EncodeSnoc(ps: seq<Param>, i: nat)
    requires i < |ps|
    ensures EncodeParams(ps[..i + 1]) == EncodeParams(ps[..i]) + EncodeParam(ps[i])
  {
    assert ps[..i + 1] == ps[..i] + [ps[i]];
    EncodeAppend(ps[..i], [ps[i]]);
    assert EncodeParams([ps[i]]) == EncodeParam(ps[i]);
  }

  lemma EncodePrefix(ps: seq<Param>, i: nat)
    requires i <= |ps|
    ensures |EncodeParams(ps[..i])| <= |EncodeParams(ps)|
  {
    assert ps == ps[..i] + ps[i..];
    EncodeAppend(ps[..i], ps[i..]);
  }

  /** Each parameter contributes its prefix and its bytes, so it is no longer than the encoding. */
  lemma {:induction false} EncodedSize(ps: seq<Param>)
    ensures |EncodeParams(ps)| >= |ps|
    ensures forall i :: 0 <= i < |ps| ==> |ps[i].data| < |EncodeParams(ps)|
  {
    if ps != [] {
      EncodedSize(ps[1..]);
      forall i | 0 <= i < |ps| ensures |ps[i].data| < |EncodeParams(ps)| {
        if i > 0 { assert ps[i] == ps[1..][i - 1]; }
      }
    }
  }

  /** A frame of at most 256 bytes never truncates its count or a length. */
  lemma SmallFrameIsSized(cmd: byte, ps: seq<Param>)
    requires |Frame(cmd, ps)| <= 256
    ensures Sized(ps)
  {
    EncodedSize(ps);
  }

  /** So what the staging buffer holds always decodes to the command and parameters it was built from. */
  lemma StagedFrameDecodes(cmd: byte, ps: seq<Param>)
    requires |Frame(cmd, ps)| <= 256
    ensures TakeFrame(Wire(cmd, ps), Shape(ps)) == Some((Request(AsRequest(cmd), ps), Padding(|Frame(cmd, ps)|)))
  {
    SmallFrameIsSized(cmd, ps);
    SizedFrameReadsBack(cmd, ps, Padding(|Frame(cmd, ps)|));
  }

  /**
    The wire image is word aligned, fits the 256-byte staging buffer exactly
    when the bare frame does, and its padding is the only run of DUMMY at its end.
  */
  lemma WireAligned(cmd: byte, ps: seq<Param>)
    ensures |Wire(cmd, ps)| % 4 == 0
    ensures 0 <= |Wire(cmd, ps)| - |Frame(cmd, ps)| < 4
    ensures |Wire(cmd, ps)| <= 256 <==> |Frame(cmd, ps)| <= 256
    ensures Wire(cmd, ps)[|Frame(cmd, ps)| - 1] == END_CMD
    ensures forall i :: |Frame(cmd, ps)| <= i < |Wire(cmd, ps)| ==> Wire(cmd, ps)[i] == DUMMY
  {
    var frame := Frame(cmd, ps);
    var pad := Padding(|frame|);
    assert Wire(cmd, ps) == frame + pad;
    assert |pad| == (4 - |frame| % 4) % 4;
  }

  /** A window's bytes carry the request to the chip whole, or carry nothing. */
  lemma RequestArrives(cmd: byte, ps: seq<Param>, mosi: seq<byte>)
    requires Uniform(cmd, ps) && Sized(ps) && AsRequest(cmd) == cmd
    requires mosi <= Wire(cmd, ps)
    ensures ChipDecode(mosi).Some? ==> ChipDecode(mosi).value.0 == Request(cmd, ps)
    ensures mosi == Wire(cmd, ps) ==> ChipDecode(mosi).Some?
  {
    var wire := Wire(cmd, ps);
    assert |Frame(cmd, ps)| <= |wire|;
    hide Wire, Frame, ChipDecode, Uniform, Sized;
    assert mosi == wire[..|mosi|];
    TornFrame(cmd, ps, |mosi|);
  }

  // ---- known frames ----

  /** Frames as they stand in the wire format's description, byte for byte. */
  lemma KnownFrames(k: byte, data: seq<byte>)
    requires |data| == 300
    ensures Wire(0x3F, []) == [0xE0, 0x3F, 0, 0xEE]
    ensures Wire(0x2F, [Short([k])]) == [0xE0, 0x2F, 1, 1, k, 0xEE, 0xFF, 0xFF]
    ensures Wire(0x34, [Short([97, 46, 98])]) == [0xE0, 0x34, 1, 3, 97, 46, 98, 0xEE]
    ensures Wire(0x46, [Long([k]), Long(data)]) == [0xE0, 0x46, 2, 0, 1, k, 1, 44] + data + [0xEE, 0xFF, 0xFF, 0xFF]
  {
    EncodeOne(Short([k]));
    EncodeOne(Short([97, 46, 98]));
    assert [Long([k]), Long(data)][1..] == [Long(data)];
    EncodeOne(Long(data));
    assert EncodeParams([Long([k]), Long(data)]) == [0, 1, k] + ([1, 44] + data);
    assert Padding(4) == [] && Padding(6) == [0xFF, 0xFF] && Padding(8) == [] && Padding(309) == [0xFF, 0xFF, 0xFF];
  }

  lemma EncodeOne(p: Param)
    ensures EncodeParams([p]) == EncodeParam(p)
  {
    assert EncodeParams([p]) == EncodeParam(p) + [];
  }
}
