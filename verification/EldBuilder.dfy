/** Filling a connector's ELD buffer in place. */
module EldBuilder {
  import opened Outcomes
  import opened Eld

  // ----- what one more block changes -----

  lemma LastAdded(bs: seq<Block>, b: Block, hdmi: bool, n: nat)
    requires n >= 1
    ensures LastByte(bs + [b], hdmi, n) ==
      (if OfKind(b, hdmi) && |b.payload| >= n then b.payload[n - 1] else LastByte(bs, hdmi, n))
  {
    assert (bs + [b])[..|bs + [b]| - 1] == bs;
  }

  lemma AiAdded(bs: seq<Block>, b: Block)
    ensures SupportsAi(bs + [b]) <==> SupportsAi(bs) || HasAi(b)
  {
    if k: nat :| k < |bs| && HasAi(bs[k]) { assert HasAi((bs + [b])[k]); }
    if HasAi(b) { assert HasAi((bs + [b])[|bs|]); }
    if k: nat :| k < |bs + [b]| && HasAi((bs + [b])[k]) { assert k < |bs| ==> HasAi(bs[k]); }
  }

  /** Descriptors of b that still find room. */
  function Room(bs: seq<Block>, b: Block): nat {
    if b.tag != AUDIO then 0
    else if |b.payload| / 3 < MAX_SADS - SadCount(bs) then |b.payload| / 3 else MAX_SADS - SadCount(bs)
  }

  lemma SadsAdded(bs: seq<Block>, b: Block)
    ensures AudioBytes(bs + [b]) == AudioBytes(bs) + Descriptors(b)
    ensures SadCount(bs + [b]) == SadCount(bs) + Room(bs, b)
    ensures Room(bs, b) > 0 ==> |AudioBytes(bs)| == 3 * SadCount(bs)
  {
    assert (bs + [b])[..|bs + [b]| - 1] == bs;
    assert |AudioBytes(bs + [b])| == |AudioBytes(bs)| + |Descriptors(b)|;
  }

  /** What byte j becomes; descriptors go to byte `at`. */
  ghost function ByteAfter(was: byte, b: Block, at: nat, room: nat, j: nat): byte
    requires 3 * room <= |b.payload|
  {
    if at <= j < at + 3 * room then b.payload[j - at]
    else if j == 7 && b.tag == SPEAKER && |b.payload| >= 1 then b.payload[0]
    else if j == 5 && HasAi(b) then 2
    else was
  }

  /** The buffer changes only where the block's kind says. */
  ghost predicate Changed(was: seq<byte>, now: seq<byte>, b: Block, at: nat, room: nat) {
    && |was| == |now| == ELD_BYTES && 3 * room <= |b.payload|
    && forall j: nat :: j < ELD_BYTES ==> now[j] == ByteAfter(was[j], b, at, room, j)
  }

  lemma AudioAt(bs: seq<Block>, b: Block, k: nat)
    requires b.tag == AUDIO
    ensures AudioBytes(bs + [b]) == AudioBytes(bs) + Descriptors(b)
    ensures k < |AudioBytes(bs)| ==> AudioBytes(bs + [b])[k] == AudioBytes(bs)[k]
    ensures |AudioBytes(bs)| <= k < |AudioBytes(bs)| + |Descriptors(b)| ==> AudioBytes(bs + [b])[k] == b.payload[k - |AudioBytes(bs)|]
  {
    SadsAdded(bs, b);
  }

  lemma AudioByte(e: Edid, rev: byte, bs: seq<Block>, b: Block, j: nat)
    requires WellSized(e) && b.tag == AUDIO
    ensures var at := NAME_AT + |Name(e)| + 3 * SadCount(bs);
      EldByte(e, rev, bs + [b], false, j) == (if at <= j < at + 3 * Room(bs, b) then b.payload[j - at] else EldByte(e, rev, bs, false, j))
  {
    if j == 5 {
      AiAdded(bs, b);
    } else if j == 7 {
      LastAdded(bs, b, false, 1);
    } else if j >= NAME_AT + |Name(e)| {
      SadsAdded(bs, b);
      AudioAt(bs, b, j - NAME_AT - |Name(e)|);
    }
  }

  lemma OtherByte(e: Edid, rev: byte, bs: seq<Block>, b: Block, j: nat)
    requires WellSized(e) && b.tag != AUDIO
    ensures EldByte(e, rev, bs + [b], false, j) ==
        (if j == 7 && b.tag == SPEAKER && |b.payload| >= 1 then b.payload[0]
         else if j == 5 && HasAi(b) then 2
         else EldByte(e, rev, bs, false, j))
  {
    SadsAdded(bs, b);
    assert AudioBytes(bs + [b]) == AudioBytes(bs);
    AiAdded(bs, b);
    LastAdded(bs, b, false, 1);
  }

  lemma BuiltAfter(was: seq<byte>, now: seq<byte>, e: Edid, rev: byte, bs: seq<Block>, b: Block)
    requires WellSized(e) && Built(was, e, rev, bs, false)
    requires Changed(was, now, b, NAME_AT + |Name(e)| + 3 * SadCount(bs), Room(bs, b))
    ensures Built(now, e, rev, bs + [b], false) && SadCount(bs + [b]) == SadCount(bs) + Room(bs, b)
  {
    SadsAdded(bs, b);
    forall j: nat | j < ELD_BYTES ensures now[j] == EldByte(e, rev, bs + [b], false, j) {
      assert was[j] == EldByte(e, rev, bs, false, j);
      if b.tag == AUDIO { AudioByte(e, rev, bs, b, j); } else { OtherByte(e, rev, bs, b, j); }
    }
  }

  class Connector {
    const eld: array<byte>
    var latencyPresent0: bool
    var latencyPresent1: bool
    var videoLatency0: byte
    var videoLatency1: byte
    var audioLatency0: byte
    var audioLatency1: byte

    constructor ()
      ensures fresh(eld) && eld.Length == ELD_BYTES
    {
      eld := new byte[ELD_BYTES](_ => 0);
      latencyPresent0, latencyPresent1 := false, false;
      videoLatency0, videoLatency1, audioLatency0, audioLatency1 := 0, 0, 0, 0;
    }

    /** The latencies are those of the last HDMI block long enough to state them. */
    ghost predicate LatenciesOf(bs: seq<Block>)
      reads this
    {
      && latencyPresent0 == (LastByte(bs, true, 8) >= 128) && latencyPresent1 == (LastByte(bs, true, 8) / 64 % 2 == 1)
      && videoLatency0 == LastByte(bs, true, 9) && audioLatency0 == LastByte(bs, true, 10)
      && videoLatency1 == LastByte(bs, true, 11) && audioLatency1 == LastByte(bs, true, 12)
    }

    method ParseHdmiAudio(b: Block, ghost bs: seq<Block>)
      requires eld.Length == ELD_BYTES && LatenciesOf(bs) && IsHdmi(b) && (eld[5] == 0 || eld[5] == 2)
      modifies this, eld
      ensures LatenciesOf(bs + [b])
      ensures eld[..] == old(eld[..])[5 := if HasAi(b) then 2 else old(eld[5])]
    {
      forall n: nat | n >= 1 ensures LastByte(bs + [b], true, n) == if |b.payload| >= n then b.payload[n - 1] else LastByte(bs, true, n) {
        LastAdded(bs, b, true, n);
      }
      var len, db := |b.payload|, b.payload;
      if len >= 6 && db[5] >= 128 && eld[5] / 2 % 2 == 0 { eld[5] := eld[5] + 2; }
      if len >= 8 { latencyPresent0, latencyPresent1 := db[7] >= 128, db[7] / 64 % 2 == 1; }
      if len >= 9 { videoLatency0 := db[8]; }
      if len >= 10 { audioLatency0 := db[9]; }
      if len >= 11 { videoLatency1 := db[10]; }
      if len >= 12 { audioLatency1 := db[11]; }
    }

    /** Copy n bytes of a block's payload to byte `at`. */
    method Copy(payload: seq<byte>, at: nat, n: nat)
      requires n <= |payload| && at + n <= eld.Length
      modifies eld
      ensures forall j: nat :: j < eld.Length ==> eld[j] == if at <= j < at + n then payload[j - at] else old(eld[j])
    {
      var k := 0;
      while k < n
        invariant k <= n
        invariant forall j: nat :: j < eld.Length ==> eld[j] == if at <= j < at + k then payload[j - at] else old(eld[j])
      {
        eld[at + k] := payload[k];
        k := k + 1;
      }
    }

    /** Write what one data block contributes. */
    method TakeBlock(b: Block, mnl: nat, total: nat, ghost bs: seq<Block>) returns (sads: nat)
      requires eld.Length == ELD_BYTES && LatenciesOf(bs) && (eld[5] == 0 || eld[5] == 2)
      requires mnl <= NAME_BYTES && total == SadCount(bs)
      modifies this, eld
      ensures Changed(old(eld[..]), eld[..], b, NAME_AT + mnl + 3 * total, Room(bs, b))
      ensures LatenciesOf(bs + [b]) && sads == total + Room(bs, b)
    {
      SameLatencies(bs, b);
      sads := total;
      if b.tag == AUDIO {
        var n := if |b.payload| / 3 < MAX_SADS - total then |b.payload| / 3 else MAX_SADS - total;
        Copy(b.payload, NAME_AT + mnl + total * 3, n * 3);
        sads := total + n;
      } else if b.tag == SPEAKER {
        if |b.payload| >= 1 { eld[7] := b.payload[0]; }
      } else if IsHdmi(b) {
        ParseHdmiAudio(b, bs);
      }
    }

    /** Take in one data block. */
    method AddBlock(b: Block, mnl: nat, total: nat, ghost e: Edid, ghost rev: byte, ghost bs: seq<Block>) returns (sads: nat)
      requires eld.Length == ELD_BYTES && WellSized(e) && Built(eld[..], e, rev, bs, false) && LatenciesOf(bs)
      requires mnl == |Name(e)| && total == SadCount(bs)
      modifies this, eld
      ensures Built(eld[..], e, rev, bs + [b], false) && LatenciesOf(bs + [b]) && sads == SadCount(bs + [b])
    {
      LowBits(eld[..], e, rev, bs);
      ghost var was := eld[..];
      sads := TakeBlock(b, mnl, total, bs);
      BuiltAfter(was, eld[..], e, rev, bs, b);
    }

    /** Copy the monitor name to the buffer, up to a line feed. */
    method GetMonitorName(name: Option<seq<byte>>) returns (mnl: nat)
      requires eld.Length == ELD_BYTES && (name.Some? ==> |name.value| >= NAME_BYTES)
      modifies eld
      ensures mnl == if name == None then 0 else NameLen(name.value, NAME_BYTES)
      ensures mnl <= NAME_BYTES
      ensures forall j: nat :: j < ELD_BYTES ==> eld[j] == if NAME_AT <= j < NAME_AT + mnl then name.value[j - NAME_AT] else old(eld[j])
    {
      mnl := 0;
      while name.Some? && mnl < NAME_BYTES
        invariant mnl <= NAME_BYTES && (name == None ==> mnl == 0)
        invariant name.Some? ==> forall k: nat :: k < mnl ==> name.value[k] != 0x0a
        invariant forall j: nat :: j < ELD_BYTES ==> eld[j] == if NAME_AT <= j < NAME_AT + mnl then name.value[j - NAME_AT] else old(eld[j])
      {
        if name.value[mnl] == 0x0a { break; }
        eld[NAME_AT + mnl] := name.value[mnl];
        mnl := mnl + 1;
      }
    }

    /** The ELD as specified, or all zero without an EDID or a CEA extension block. */
    method BuildEld(edid: Option<Edid>)
      requires eld.Length == ELD_BYTES && (edid.Some? ==> WellSized(edid.value))
      modifies this, eld
      ensures edid.Some? && edid.value.cea.Some? ==>
        Built(eld[..], edid.value, edid.value.cea.value[1], AllBlocks(edid.value.cea.value), true) && LatenciesOf(AllBlocks(edid.value.cea.value))
      ensures edid.Some? && edid.value.cea.Some? && edid.value.cea.value[1] < 3 ==> eld[5] == 0 && eld[7] == 0 && LatenciesOf([])
      ensures edid == None || edid.value.cea == None ==> (forall j: nat :: j < ELD_BYTES ==> eld[j] == 0) && LatenciesOf([])
    {
      Clear();
      if edid == None || edid.value.cea == None { return; }
      var e, cea := edid.value, edid.value.cea.value;
      var mnl := GetMonitorName(e.name);
      eld[4] := cea[1] % 8 * 32 + mnl;
      eld[0] := 16;
      eld[16], eld[17] := e.mfg.0, e.mfg.1;
      eld[18], eld[19] := e.product.0, e.product.1;
      NoBlocks();
      assert Built(eld[..], e, cea[1], [], false);
      var total := 0;
      if cea[1] >= 3 && BlocksEnd(cea).Some? { total := Walk(cea, BlocksEnd(cea).value, mnl, e); }
      FinishEld(total, e, cea[1], AllBlocks(cea));
    }

    method Clear()
      requires eld.Length == ELD_BYTES
      modifies this, eld
      ensures (forall j: nat :: j < ELD_BYTES ==> eld[j] == 0) && LatenciesOf([])
    {
      for j := 0 to ELD_BYTES
        invariant forall k: nat :: k < j ==> eld[k] == 0
      {
        eld[j] := 0;
      }
      latencyPresent0, latencyPresent1 := false, false;
      videoLatency0, videoLatency1, audioLatency0, audioLatency1 := 0, 0, 0, 0;
    }

    /** Walk the data blocks. */
    method Walk(cea: seq<byte>, end: nat, mnl: nat, ghost e: Edid) returns (total: nat)
      requires eld.Length == ELD_BYTES && WellSized(e) && |cea| == CEA_BYTES && 4 <= end <= 127 && mnl == |Name(e)|
      requires Built(eld[..], e, cea[1], [], false) && LatenciesOf([])
      modifies this, eld
      ensures Built(eld[..], e, cea[1], Blocks(cea, 4, end), false) && LatenciesOf(Blocks(cea, 4, end))
      ensures total == SadCount(Blocks(cea, 4, end))
    {
      total := 0;
      var i := 4;
      ghost var seen: seq<Block> := [];
      while i < end && i + PayloadLen(cea[i]) < end
        invariant 4 <= i && seen + Blocks(cea, i, end) == Blocks(cea, 4, end)
        invariant Built(eld[..], e, cea[1], seen, false) && LatenciesOf(seen) && total == SadCount(seen)
        decreases end - i
      {
        NextBlock(cea, i, end, seen);
        var b := BlockFrom(cea, i);
        total := AddBlock(b, mnl, total, e, cea[1], seen);
        seen := seen + [b];
        i := i + PayloadLen(cea[i]) + 1;
      }
      assert Blocks(cea, i, end) == [] && seen == Blocks(cea, 4, end);
    }

    /** Fill in the count and the length. */
    method FinishEld(total: nat, ghost e: Edid, ghost rev: byte, ghost bs: seq<Block>)
      requires eld.Length == ELD_BYTES && WellSized(e) && Built(eld[..], e, rev, bs, false) && total == SadCount(bs)
      modifies eld
      ensures Built(eld[..], e, rev, bs, true)
    {
      LowBits(eld[..], e, rev, bs);
      eld[5] := eld[5] + 16 * total;
      eld[2] := (16 + ReadNameLen(eld[..]) + 3 * ReadSadCount(eld[..]) + 3) / 4;
      FinishedBytes(old(eld[..]), eld[..], e, rev, bs);
    }
  }

  lemma LowBits(eld: seq<byte>, e: Edid, rev: byte, bs: seq<Block>)
    requires WellSized(e) && Built(eld, e, rev, bs, false)
    ensures eld[4] % 32 == |Name(e)| && (eld[5] == 0 || eld[5] == 2) && (eld[5] + 16 * SadCount(bs)) / 16 == SadCount(bs)
  {
    assert eld[4] == EldByte(e, rev, bs, false, 4);
    assert eld[5] == EldByte(e, rev, bs, false, 5);
  }

  lemma FinishedBytes(was: seq<byte>, now: seq<byte>, e: Edid, rev: byte, bs: seq<Block>)
    requires WellSized(e) && Built(was, e, rev, bs, false) && |now| == ELD_BYTES
    requires now == was[5 := now[5]][2 := now[2]]
    requires now[5] == was[5] + 16 * SadCount(bs) && now[2] == (16 + |Name(e)| + 3 * SadCount(bs) + 3) / 4
    ensures Built(now, e, rev, bs, true)
  {
    forall j: nat | j < ELD_BYTES ensures now[j] == EldByte(e, rev, bs, true, j) { assert was[j] == EldByte(e, rev, bs, false, j); }
  }

  lemma NextBlock(cea: seq<byte>, i: nat, end: nat, seen: seq<Block>)
    requires i < end <= |cea| && i + PayloadLen(cea[i]) < end
    ensures seen + Blocks(cea, i, end) == (seen + [BlockFrom(cea, i)]) + Blocks(cea, i + PayloadLen(cea[i]) + 1, end)
  {
  }

  lemma NoBlocks()
    ensures SadCount([]) == 0 && !SupportsAi([])
  {
  }

  lemma SameLatencies(bs: seq<Block>, b: Block)
    ensures !IsHdmi(b) ==> forall n: nat :: n >= 1 ==> LastByte(bs + [b], true, n) == LastByte(bs, true, n)
  {
    forall n: nat | n >= 1 && !IsHdmi(b) ensures LastByte(bs + [b], true, n) == LastByte(bs, true, n) { LastAdded(bs, b, true, n); }
  }
}
