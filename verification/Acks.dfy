/** Chunking, acks and the saturating byte count of the TCP send path. */
module Acks {
  import opened Bytes
  import opened Proto

  /** `data.chunks(64)`: the i-th slice, empty past the end. */
  function ChunkAt(data: seq<byte>, i: nat): (c: seq<byte>)
    ensures |c| <= 64
    ensures |c| > 0 <==> 64 * i < |data|
    ensures |c| > 0 ==> |c| == Min(64, |data| - 64 * i)
  {
    if 64 * i <= |data| then data[64 * i..Min(64 * i + 64, |data|)] else []
  }

  function ChunkCount(len: nat): nat {
    (len + 63) / 64
  }

  function SaturatingAdd(a: nat, b: nat): nat {
    Min(a + b, 0xFFFF)
  }

  /** The running total as the loop accumulates it. */
  function Total(acks: seq<nat>): nat {
    if acks == [] then 0 else SaturatingAdd(Total(acks[..|acks| - 1]), acks[|acks| - 1])
  }

  function Sum(acks: seq<nat>): nat {
    if acks == [] then 0 else Sum(acks[..|acks| - 1]) + acks[|acks| - 1]
  }

  lemma {:induction false} TotalIsCappedSum(acks: seq<nat>)
    ensures Total(acks) == Min(Sum(acks), 0xFFFF)
  {
    if acks != [] {
      TotalIsCappedSum(acks[..|acks| - 1]);
    }
  }

  // ---- what acks mean for the data ----

  /** What the chip kept when it took `acks[i]` bytes of chunk i. */
  function Kept(data: seq<byte>, acks: seq<nat>): seq<byte> {
    if acks == [] then []
    else
      var last := |acks| - 1;
      var chunk := ChunkAt(data, last);
      Kept(data, acks[..last]) + chunk[..Min(acks[last], |chunk|)]
  }

  /** The positions in `data` of those bytes. */
  function Positions(len: nat, acks: seq<nat>): seq<nat> {
    if acks == [] then []
    else
      var last := |acks| - 1;
      Positions(len, acks[..last]) + seq(acks[last], k => 64 * last + k)
  }

  /** Truthful non-zero acks: at least one byte, and no more than the chunk holds. */
  predicate AcksFit(data: seq<byte>, acks: seq<nat>) {
    forall i :: 0 <= i < |acks| ==> 1 <= acks[i] <= |ChunkAt(data, i)|
  }

  predicate AllFull(data: seq<byte>, acks: seq<nat>) {
    forall i :: 0 <= i < |acks| ==> acks[i] == |ChunkAt(data, i)|
  }

  predicate FullButLast(data: seq<byte>, acks: seq<nat>) {
    forall i :: 0 <= i < |acks| - 1 ==> acks[i] == |ChunkAt(data, i)|
  }

  function Iota(n: nat): seq<nat> {
    seq(n, k => k)
  }

  lemma KeptSnoc(data: seq<byte>, acks: seq<nat>, w: nat)
    requires w <= |ChunkAt(data, |acks|)|
    ensures Kept(data, acks + [w]) == Kept(data, acks) + ChunkAt(data, |acks|)[..w]
  {
    Snoc(acks, w);
  }

  lemma SumSnoc(acks: seq<nat>, w: nat)
    ensures Sum(acks + [w]) == Sum(acks) + w
    ensures Total(acks + [w]) == SaturatingAdd(Total(acks), w)
  {
    Snoc(acks, w);
  }

  lemma ChunkExtends(data: seq<byte>, i: nat)
    requires 64 * i <= |data|
    ensures data[..Min(64 * i + 64, |data|)] == data[..64 * i] + ChunkAt(data, i)
  {
  }

  lemma SumUnfold(acks: seq<nat>)
    requires acks != []
    ensures Sum(acks) == Sum(acks[..|acks| - 1]) + acks[|acks| - 1]
  {
  }

  /** Full acks keep a prefix ending where the acked chunks end. */
  lemma {:induction false} FullAcksKeepPrefix(data: seq<byte>, acks: seq<nat>)
    requires AllFull(data, acks)
    ensures Kept(data, acks) == data[..Min(64 * |acks|, |data|)]
    ensures Sum(acks) == Min(64 * |acks|, |data|)
  {
    if acks != [] {
      var last := |acks| - 1;
      var front, chunk := acks[..last], ChunkAt(data, last);
      FullAcksKeepPrefix(data, front);
      SumUnfold(acks);
      assert Kept(data, acks) == Kept(data, front) + chunk[..|chunk|];
      hide Kept, Sum, ChunkAt;
      assert chunk[..|chunk|] == chunk;
      if 64 * last <= |data| {
        ChunkExtends(data, last);
      }
    }
  }

  lemma KeptUnfold(data: seq<byte>, acks: seq<nat>)
    requires acks != [] && acks[|acks| - 1] <= |ChunkAt(data, |acks| - 1)|
    ensures var last := |acks| - 1;
            && Kept(data, acks) == Kept(data, acks[..last]) + ChunkAt(data, last)[..acks[last]]
            && Positions(|data|, acks) == Positions(|data|, acks[..last]) + seq(acks[last], k => 64 * last + k)
  {
  }

  lemma ChunkByte(data: seq<byte>, i: nat, k: nat)
    requires k < |ChunkAt(data, i)|
    ensures 64 * i + k < |data| && ChunkAt(data, i)[k] == data[64 * i + k]
  {
  }

  /** All acks before the last one. */
  lemma FrontFits(data: seq<byte>, acks: seq<nat>)
    requires acks != [] && AcksFit(data, acks)
    ensures var front := acks[..|acks| - 1];
            AcksFit(data, front) && (FullButLast(data, acks) <==> AllFull(data, front))
    ensures AllFull(data, acks[..|acks| - 1]) ==> FullButLast(data, acks[..|acks| - 1])
    ensures 64 * (|acks| - 1) < |data|
  {
    hide ChunkAt;
    var last := |acks| - 1;
    var front := acks[..last];
    assert forall i :: 0 <= i < last ==> front[i] == acks[i];
    assert 1 <= acks[last] <= |ChunkAt(data, last)|;
    if AllFull(data, front) {
      assert forall i :: 0 <= i < last ==> acks[i] == front[i] == |ChunkAt(data, i)|;
    }
  }

  /** `kept` are the bytes of `data` at positions `at`, in that order. */
  predicate BytesAt(data: seq<byte>, kept: seq<byte>, at: seq<nat>) {
    && |kept| == |at|
    && forall j :: 0 <= j < |kept| ==> at[j] < |data| && kept[j] == data[at[j]]
  }

  lemma BytesAtAppend(data: seq<byte>, kept: seq<byte>, at: seq<nat>, i: nat, w: nat)
    requires BytesAt(data, kept, at) && w <= |ChunkAt(data, i)|
    ensures BytesAt(data, kept + ChunkAt(data, i)[..w], at + seq(w, k => 64 * i + k))
  {
    hide ChunkAt;
    var kept', at' := kept + ChunkAt(data, i)[..w], at + seq(w, k => 64 * i + k);
    forall j | 0 <= j < |kept'| ensures at'[j] < |data| && kept'[j] == data[at'[j]] {
      if j >= |kept| {
        ChunkByte(data, i, j - |kept|);
      }
    }
  }

  /** Every kept byte is the byte of `data` at its position, in order. */
  lemma {:induction false} KeptAtPositions(data: seq<byte>, acks: seq<nat>)
    requires AcksFit(data, acks)
    ensures BytesAt(data, Kept(data, acks), Positions(|data|, acks))
    ensures |Kept(data, acks)| == Sum(acks)
  {
    if acks != [] {
      hide Kept, Positions, Sum, ChunkAt, BytesAt;
      var last := |acks| - 1;
      var front := acks[..last];
      FrontFits(data, acks);
      KeptAtPositions(data, front);
      KeptUnfold(data, acks);
      SumUnfold(acks);
      BytesAtAppend(data, Kept(data, front), Positions(|data|, front), last, acks[last]);
    }
  }

  lemma {:induction false} FullButLastPositions(data: seq<byte>, acks: seq<nat>)
    requires AcksFit(data, acks) && FullButLast(data, acks)
    ensures Positions(|data|, acks) == Iota(Sum(acks))
    ensures acks != [] ==> Sum(acks) == 64 * (|acks| - 1) + acks[|acks| - 1]
  {
    if acks == [] {
      assert Positions(|data|, acks) == [] == Iota(0);
    } else {
      hide Kept, Positions, Sum, ChunkAt, Iota;
      var last := |acks| - 1;
      var front := acks[..last];
      FrontFits(data, acks);
      FullButLastPositions(data, front);
      FullAcksKeepPrefix(data, front);
      KeptUnfold(data, acks);
      SumUnfold(acks);
      assert 64 * last < |data|;
      IotaSplit(64 * last, acks[last]);
    }
  }

  lemma IotaSplit(a: nat, b: nat)
    ensures Iota(a + b) == Iota(a) + seq(b, k => a + k)
  {
  }

  /** A chunk acked short leaves a gap, and the positions after it are shifted. */
  lemma {:induction false} GapShows(data: seq<byte>, acks: seq<nat>)
    requires AcksFit(data, acks) && Positions(|data|, acks) == Iota(Sum(acks))
    ensures FullButLast(data, acks)
  {
    if |acks| >= 2 {
      hide Kept, Positions, Sum, ChunkAt, Iota;
      var last := |acks| - 1;
      var front := acks[..last];
      FrontFits(data, acks);
      KeptAtPositions(data, front);
      KeptUnfold(data, acks);
      SumUnfold(acks);
      PrefixOfIota(Positions(|data|, front), seq(acks[last], k => 64 * last + k), Sum(acks));
      GapShows(data, front);
      FullButLastPositions(data, front);
      assert |ChunkAt(data, last - 1)| == 64;
    }
  }

  lemma PrefixOfIota(a: seq<nat>, b: seq<nat>, n: nat)
    requires a + b == Iota(n)
    ensures a == Iota(|a|)
    ensures b != [] ==> b[0] == |a|
  {
    assert a == (a + b)[..|a|];
    if b != [] {
      assert (a + b)[|a|] == b[0];
    }
  }

  /**
    A reported count n means "exactly the first n positions were accepted" if and
    only if every chunk but the last was acked in full and nothing saturated.
  */
  lemma CountMeansPrefix(data: seq<byte>, acks: seq<nat>)
    requires AcksFit(data, acks)
    ensures Positions(|data|, acks) == Iota(Total(acks)) <==> FullButLast(data, acks) && Sum(acks) <= 0xFFFF
  {
    TotalIsCappedSum(acks);
    KeptAtPositions(data, acks);
    if Positions(|data|, acks) == Iota(Total(acks)) {
      assert Sum(acks) == Total(acks);
      GapShows(data, acks);
    }
    if FullButLast(data, acks) && Sum(acks) <= 0xFFFF {
      FullButLastPositions(data, acks);
    }
  }

  lemma {:induction false} ShortAckShortSum(data: seq<byte>, acks: seq<nat>)
    requires AcksFit(data, acks) && 64 * |acks| < |data| + 64
    ensures Sum(acks) <= Min(64 * |acks|, |data|)
    ensures Sum(acks) == Min(64 * |acks|, |data|) <==> AllFull(data, acks)
  {
    if acks != [] {
      hide Sum, ChunkAt;
      var last := |acks| - 1;
      var front := acks[..last];
      FrontFits(data, acks);
      ShortAckShortSum(data, front);
      SumUnfold(acks);
      assert AllFull(data, acks) <==> FullButLast(data, acks) && acks[last] == |ChunkAt(data, last)|;
    }
  }

  /** All of the data was kept exactly if every chunk was acked in full. */
  lemma KeptIsData(data: seq<byte>, acks: seq<nat>)
    requires AcksFit(data, acks) && |acks| == ChunkCount(|data|)
    ensures Kept(data, acks) == data <==> AllFull(data, acks)
  {
    if AllFull(data, acks) {
      FullAcksKeepPrefix(data, acks);
    }
    KeptAtPositions(data, acks);
    ShortAckShortSum(data, acks);
  }

  /**
    A completed send reports `data.len()` if and only if every chunk was acked in
    full and the data is at most 65535 bytes long.
  */
  lemma CountIsLength(data: seq<byte>, acks: seq<nat>)
    requires AcksFit(data, acks) && |acks| == ChunkCount(|data|)
    ensures Total(acks) == |data| <==> AllFull(data, acks) && |data| <= 0xFFFF
  {
    TotalIsCappedSum(acks);
    ShortAckShortSum(data, acks);
  }

  /** 65 bytes of which the chip takes 63 and then 1: one is missing in the middle. */
  lemma ShortChunkCounterexample(data: seq<byte>)
    requires |data| == 65
    ensures AcksFit(data, [63, 1]) && |[63, 1]| == ChunkCount(|data|)
    ensures Total([63, 1]) == Sum([63, 1]) == 64 != |data|
    ensures Kept(data, [63, 1]) == data[..63] + data[64..]
    ensures Positions(|data|, [63, 1]) != Iota(64)
  {
    var acks: seq<nat> := [63, 1];
    assert acks[..1] == [63] && [63][..0] == [];
    assert Sum([63]) == Sum([]) + 63 && Total([63]) == 63;
    assert ChunkAt(data, 0) == data[..64] && ChunkAt(data, 1) == data[64..];
    assert Kept(data, [63]) == [] + data[..63] == data[..63];
    CountMeansPrefix(data, acks);
    assert acks[0] != |ChunkAt(data, 0)|;
  }
}
