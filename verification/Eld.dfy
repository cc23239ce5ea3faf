/**
 Building the ELD, the digest of a monitor's EDID that the audio driver reads, from the data blocks of the CEA
 extension block (section 7.5 of CEA-861-D).
 */
module Eld {
  import opened Outcomes

  type byte = x: int | 0 <= x < 256

  const ELD_BYTES: nat := 128
  const CEA_BYTES: nat := 128
  const NAME_AT: nat := 20
  const NAME_BYTES: nat := 13
  const MAX_SADS: nat := 15

  const AUDIO: nat := 1
  const VENDOR: nat := 3
  const SPEAKER: nat := 4
  const HDMI_OUI: nat := 0x000c03

  /** The fields of an EDID that matter here; `name` is the last monitor name descriptor. */
  datatype Edid = Edid(mfg: (byte, byte), product: (byte, byte), name: Option<seq<byte>>, cea: Option<seq<byte>>)

  predicate WellSized(e: Edid) {
    (e.name.Some? ==> |e.name.value| >= NAME_BYTES) && (e.cea.Some? ==> |e.cea.value| == CEA_BYTES)
  }

  // ----- data blocks -----

  datatype Block = Block(tag: nat, payload: seq<byte>)

  function PayloadLen(db: byte): nat { db % 32 }

  function Tag(db: byte): nat { db / 32 }

  /** Where the data blocks end, if the offset makes sense; they start at byte 4. */
  function BlocksEnd(cea: seq<byte>): (r: Option<nat>)
    requires |cea| == CEA_BYTES
    ensures r.Some? ==> 4 <= r.value <= 127 && r.value == if cea[2] == 0 then 127 else cea[2]
    ensures r == None <==> 0 < cea[2] < 4 || cea[2] > 127
  {
    var end := if cea[2] == 0 then 127 else cea[2];
    if end < 4 || end > 127 then None else Some(end)
  }

  /** The data blocks from byte i on that lie wholly below `end`. */
  function Blocks(cea: seq<byte>, i: nat, end: nat): seq<Block>
    requires end <= |cea|
    decreases end - i
  {
    if i < end && i + PayloadLen(cea[i]) < end then
      [BlockFrom(cea, i)] + Blocks(cea, i + PayloadLen(cea[i]) + 1, end)
    else []
  }

  function BlockFrom(cea: seq<byte>, i: nat): Block
    requires i < |cea| && i + PayloadLen(cea[i]) < |cea|
  {
    Block(Tag(cea[i]), cea[i + 1..i + 1 + PayloadLen(cea[i])])
  }

  function AllBlocks(cea: seq<byte>): seq<Block>
    requires |cea| == CEA_BYTES
  {
    if cea[1] < 3 || BlocksEnd(cea) == None then [] else Blocks(cea, 4, BlocksEnd(cea).value)
  }

  predicate IsHdmi(b: Block) {
    b.tag == VENDOR && |b.payload| >= 5 && (b.payload[0] as int) + 0x100 * (b.payload[1] as int) + 0x1_0000 * (b.payload[2] as int) == HDMI_OUI
  }

  /** The whole short audio descriptors of a block. */
  function Descriptors(b: Block): (r: seq<byte>)
    ensures |r| % 3 == 0
  {
    if b.tag == AUDIO then b.payload[..|b.payload| / 3 * 3] else []
  }

  function AudioBytes(bs: seq<Block>): (r: seq<byte>)
    ensures |r| % 3 == 0
  {
    if bs == [] then [] else AudioBytes(bs[..|bs| - 1]) + Descriptors(bs[|bs| - 1])
  }

  function SadCount(bs: seq<Block>): (r: nat)
    ensures r <= MAX_SADS && 3 * r <= |AudioBytes(bs)|
  {
    if |AudioBytes(bs)| / 3 < MAX_SADS then |AudioBytes(bs)| / 3 else MAX_SADS
  }

  predicate OfKind(b: Block, hdmi: bool) {
    if hdmi then IsHdmi(b) else b.tag == SPEAKER
  }

  /** Byte n, counted from the tag byte, of the last block of a kind that is long enough to have it. */
  function LastByte(bs: seq<Block>, hdmi: bool, n: nat): byte
    requires n >= 1
  {
    if bs == [] then 0
    else
      var b := bs[|bs| - 1];
      if OfKind(b, hdmi) && |b.payload| >= n then b.payload[n - 1]
      else LastByte(bs[..|bs| - 1], hdmi, n)
  }

  /** Some HDMI block has the top bit of byte 6 set. */
  predicate SupportsAi(bs: seq<Block>) {
    exists k: nat :: k < |bs| && HasAi(bs[k])
  }

  predicate HasAi(b: Block) {
    IsHdmi(b) && |b.payload| >= 6 && b.payload[5] >= 128
  }

  /** The name runs to the first line feed, or over its whole field. */
  function NameLen(s: seq<byte>, n: nat): (r: nat)
    requires n <= |s|
    ensures r <= n && (forall k: nat :: k < r ==> s[k] != 0x0a) && (r < n ==> s[r] == 0x0a)
  {
    if n == 0 then 0
    else
      var r := NameLen(s, n - 1);
      if r < n - 1 || s[n - 1] == 0x0a then r else n
  }

  function Name(e: Edid): (r: seq<byte>)
    requires WellSized(e)
    ensures |r| <= NAME_BYTES
  {
    if e.name == None then [] else e.name.value[..NameLen(e.name.value, NAME_BYTES)]
  }

  // ----- what the ELD is to contain -----

  /** Byte j of the ELD once the blocks bs have been seen; the count and length fields come last. */
  function EldByte(e: Edid, rev: byte, bs: seq<Block>, done: bool, j: nat): byte
    requires WellSized(e)
  {
    var mnl, count := |Name(e)|, SadCount(bs);
    if j == 0 then 16
    else if j == 2 then if done then (16 + mnl + 3 * count + 3) / 4 else 0
    else if j == 4 then rev % 8 * 32 + mnl
    else if j == 5 then (if SupportsAi(bs) then 2 else 0) + (if done then 16 * count else 0)
    else if j == 7 then LastByte(bs, false, 1)
    else if j == 16 then e.mfg.0
    else if j == 17 then e.mfg.1
    else if j == 18 then e.product.0
    else if j == 19 then e.product.1
    else if NAME_AT <= j < NAME_AT + mnl then Name(e)[j - NAME_AT]
    else if NAME_AT + mnl <= j < NAME_AT + mnl + 3 * count then AudioBytes(bs)[j - NAME_AT - mnl]
    else 0
  }

  ghost predicate Built(eld: seq<byte>, e: Edid, rev: byte, bs: seq<Block>, done: bool)
    requires WellSized(e)
  {
    |eld| == ELD_BYTES && forall j: nat :: j < ELD_BYTES ==> eld[j] == EldByte(e, rev, bs, done, j)
  }

  // ----- what a reader finds -----

  function ReadNameLen(eld: seq<byte>): nat
    requires |eld| == ELD_BYTES
  {
    eld[4] % 32
  }

  function ReadSadCount(eld: seq<byte>): nat
    requires |eld| == ELD_BYTES
  {
    eld[5] / 16
  }

  /** Readers know version 2 and the canned one. */
  predicate ReadableVersion(eld: seq<byte>)
    requires |eld| == ELD_BYTES
  {
    eld[0] / 8 == 2 || eld[0] / 8 == 31
  }

  function ReadSads(eld: seq<byte>): seq<byte>
    requires |eld| == ELD_BYTES
  {
    var at := NAME_AT + ReadNameLen(eld);
    if !ReadableVersion(eld) then [] else if at + 3 * ReadSadCount(eld) <= ELD_BYTES then eld[at..at + 3 * ReadSadCount(eld)] else []
  }

  function ReadSize(eld: seq<byte>): nat
    requires |eld| == ELD_BYTES
  {
    4 + 4 * (eld[2] as int)
  }

  lemma ReadHeader(eld: seq<byte>, e: Edid, rev: byte, bs: seq<Block>)
    requires WellSized(e) && Built(eld, e, rev, bs, true)
    ensures ReadNameLen(eld) == |Name(e)| && ReadSadCount(eld) == SadCount(bs)
    ensures NAME_AT + |Name(e)| + 3 * SadCount(bs) <= ReadSize(eld) <= ELD_BYTES && ReadSize(eld) % 4 == 0
    ensures ReadableVersion(eld)
  {
    assert eld[0] == EldByte(e, rev, bs, true, 0);
    assert eld[2] == EldByte(e, rev, bs, true, 2);
    assert eld[4] == EldByte(e, rev, bs, true, 4);
    assert eld[5] == EldByte(e, rev, bs, true, 5);
  }

  /** The CEA revision is where readers look for it, and the baseline version is 2. */
  lemma ReadVersions(eld: seq<byte>, e: Edid, rev: byte, bs: seq<Block>)
    requires WellSized(e) && Built(eld, e, rev, bs, true)
    ensures eld[0] / 8 == 2 && eld[4] / 32 == rev % 8
  {
    assert eld[0] == EldByte(e, rev, bs, true, 0);
    assert eld[4] == EldByte(e, rev, bs, true, 4);
  }

  /** So are the manufacturer and the product. */
  lemma ReadIdentity(eld: seq<byte>, e: Edid, rev: byte, bs: seq<Block>)
    requires WellSized(e) && Built(eld, e, rev, bs, true)
    ensures eld[16..20] == [e.mfg.0, e.mfg.1, e.product.0, e.product.1]
  {
    assert eld[16] == EldByte(e, rev, bs, true, 16) && eld[17] == EldByte(e, rev, bs, true, 17);
    assert eld[18] == EldByte(e, rev, bs, true, 18) && eld[19] == EldByte(e, rev, bs, true, 19);
    assert eld[16..20] == [eld[16], eld[17], eld[18], eld[19]];
  }

  /** And the speaker allocation and the AI flag. */
  lemma ReadSpeakers(eld: seq<byte>, e: Edid, rev: byte, bs: seq<Block>)
    requires WellSized(e) && Built(eld, e, rev, bs, true)
    ensures eld[7] == LastByte(bs, false, 1) && (eld[5] / 2 % 2 == 1 <==> SupportsAi(bs))
  {
    assert eld[5] == EldByte(e, rev, bs, true, 5);
    assert eld[7] == EldByte(e, rev, bs, true, 7);
  }

  /** Nothing follows the descriptors. */
  lemma ZeroTail(eld: seq<byte>, e: Edid, rev: byte, bs: seq<Block>, j: nat)
    requires WellSized(e) && Built(eld, e, rev, bs, true) && NAME_AT + |Name(e)| + 3 * SadCount(bs) <= j < ELD_BYTES
    ensures eld[j] == 0
  {
    assert eld[j] == EldByte(e, rev, bs, true, j);
  }

  lemma ReadName(eld: seq<byte>, e: Edid, rev: byte, bs: seq<Block>)
    requires WellSized(e) && Built(eld, e, rev, bs, true)
    ensures eld[NAME_AT..NAME_AT + |Name(e)|] == Name(e)
  {
    forall k: nat | k < |Name(e)| ensures eld[NAME_AT + k] == Name(e)[k] {
      assert eld[NAME_AT + k] == EldByte(e, rev, bs, true, NAME_AT + k);
    }
  }

  lemma SameSlice(a: seq<byte>, at: nat, b: seq<byte>, n: nat)
    requires at + n <= |a| && n <= |b| && forall k: nat :: k < n ==> a[at + k] == b[k]
    ensures a[at..at + n] == b[..n]
  {
  }

  lemma DescriptorByte(eld: seq<byte>, e: Edid, rev: byte, bs: seq<Block>, k: nat)
    requires WellSized(e) && Built(eld, e, rev, bs, true) && k < 3 * SadCount(bs)
    ensures eld[NAME_AT + |Name(e)| + k] == AudioBytes(bs)[k]
  {
    assert eld[NAME_AT + |Name(e)| + k] == EldByte(e, rev, bs, true, NAME_AT + |Name(e)| + k);
  }

  lemma ReadDescriptors(eld: seq<byte>, e: Edid, rev: byte, bs: seq<Block>)
    requires WellSized(e) && Built(eld, e, rev, bs, true)
    ensures var at := NAME_AT + |Name(e)|; eld[at..at + 3 * SadCount(bs)] == AudioBytes(bs)[..3 * SadCount(bs)]
  {
    var at, n := NAME_AT + |Name(e)|, 3 * SadCount(bs);
    forall k: nat | k < n ensures eld[at + k] == AudioBytes(bs)[k] { DescriptorByte(eld, e, rev, bs, k); }
    SameSlice(eld, at, AudioBytes(bs), n);
  }

  /**
   Reading a finished ELD back gives the name and exactly the first min(15, total) short audio descriptors of all
   audio blocks in order, and its size covers them.
   */
  lemma ReadBack(eld: seq<byte>, e: Edid, rev: byte, bs: seq<Block>)
    requires WellSized(e) && Built(eld, e, rev, bs, true)
    ensures ReadNameLen(eld) == |Name(e)| && eld[NAME_AT..NAME_AT + |Name(e)|] == Name(e)
    ensures ReadSadCount(eld) == (if |AudioBytes(bs)| / 3 < MAX_SADS then |AudioBytes(bs)| / 3 else MAX_SADS)
    ensures 3 * ReadSadCount(eld) <= |AudioBytes(bs)| && ReadSads(eld) == AudioBytes(bs)[..3 * ReadSadCount(eld)]
    ensures NAME_AT + |Name(e)| + 3 * ReadSadCount(eld) <= ReadSize(eld) <= ELD_BYTES && ReadSize(eld) % 4 == 0
  {
    ReadHeader(eld, e, rev, bs);
    ReadName(eld, e, rev, bs);
    ReadDescriptors(eld, e, rev, bs);
  }

  // ----- blocks and the bytes they come from -----

  /** Blocks as bytes: the tag in the top three bits of a header, the length in the others, then the payload. */
  function Serialised(bs: seq<Block>): seq<int> {
    if bs == [] then [] else [32 * bs[0].tag + |bs[0].payload|] + bs[0].payload + Serialised(bs[1..])
  }

  /**
   Written out again, the blocks are the bytes from i to where the walk stops; it stops at the end or at a block
   that reaches the end.
   */
  lemma {:induction false} BlocksSerialised(cea: seq<byte>, i: nat, end: nat)
    requires i <= end <= |cea|
    ensures var stop := i + |Serialised(Blocks(cea, i, end))|;
      && stop <= end && Serialised(Blocks(cea, i, end)) == cea[i..stop]
      && (stop == end || stop + cea[stop] % 32 >= end)
    ensures forall k: nat :: k < |Blocks(cea, i, end)| ==> Blocks(cea, i, end)[k].tag < 8 && |Blocks(cea, i, end)[k].payload| < 32
    decreases end - i
  {
    if i < end && i + PayloadLen(cea[i]) < end {
      var next := i + PayloadLen(cea[i]) + 1;
      BlocksSerialised(cea, next, end);
      SerialisedFrom(cea, i, Blocks(cea, next, end));
      assert Blocks(cea, i, end) == [BlockFrom(cea, i)] + Blocks(cea, next, end);
    }
  }

  lemma SerialisedFrom(cea: seq<byte>, i: nat, rest: seq<Block>)
    requires i < |cea| && i + PayloadLen(cea[i]) < |cea|
    requires var next := i + PayloadLen(cea[i]) + 1; next + |Serialised(rest)| <= |cea| && Serialised(rest) == cea[next..next + |Serialised(rest)|]
    ensures var bs := [BlockFrom(cea, i)] + rest; i + |Serialised(bs)| <= |cea| && Serialised(bs) == cea[i..i + |Serialised(bs)|]
    ensures |Serialised([BlockFrom(cea, i)] + rest)| == 1 + PayloadLen(cea[i]) + |Serialised(rest)|
    ensures BlockFrom(cea, i).tag < 8 && |BlockFrom(cea, i).payload| < 32
  {
    var bs, next := [BlockFrom(cea, i)] + rest, i + PayloadLen(cea[i]) + 1;
    assert bs[0] == BlockFrom(cea, i) && bs[1..] == rest;
    assert Serialised(bs) == cea[i..next] + Serialised(rest);
  }

  /** The descriptors of block k come right after those of the blocks before it. */
  lemma {:induction false} DescriptorsPlaced(bs: seq<Block>, k: nat, x: nat)
    requires k < |bs| && bs[k].tag == AUDIO && x < |bs[k].payload| / 3 * 3
    ensures |AudioBytes(bs[..k])| + x < |AudioBytes(bs)| && AudioBytes(bs)[|AudioBytes(bs[..k])| + x] == bs[k].payload[x]
  {
    var last := |bs| - 1;
    if k == last {
      assert bs[..k] == bs[..last];
    } else {
      assert bs[..last][..k] == bs[..k];
      DescriptorsPlaced(bs[..last], k, x);
    }
  }

  /** Only whole descriptors of audio blocks are taken. */
  lemma {:induction false} DescriptorsCounted(bs: seq<Block>, k: nat)
    requires k < |bs|
    ensures |AudioBytes(bs[..k + 1])| == |AudioBytes(bs[..k])| + if bs[k].tag == AUDIO then |bs[k].payload| / 3 * 3 else 0
  {
    assert bs[..k + 1][..k] == bs[..k];
  }

  /** No later block of the kind has a byte n. */
  ghost predicate LastWith(bs: seq<Block>, hdmi: bool, n: nat, k: nat) {
    && k < |bs| && OfKind(bs[k], hdmi) && |bs[k].payload| >= n
    && forall j: nat :: k < j < |bs| ==> !(OfKind(bs[j], hdmi) && |bs[j].payload| >= n)
  }

  /** Byte n of a kind is read from the last block of the kind that has it. */
  lemma {:induction false} LastByteIs(bs: seq<Block>, hdmi: bool, n: nat, k: nat)
    requires n >= 1 && LastWith(bs, hdmi, n, k)
    ensures LastByte(bs, hdmi, n) == bs[k].payload[n - 1]
  {
    var last := |bs| - 1;
    if k != last {
      assert LastWith(bs[..last], hdmi, n, k);
      LastByteIs(bs[..last], hdmi, n, k);
    }
  }

  /** It is 0 if there is none. */
  lemma {:induction false} LastByteNone(bs: seq<Block>, hdmi: bool, n: nat)
    requires n >= 1 && forall k: nat :: k < |bs| ==> !(OfKind(bs[k], hdmi) && |bs[k].payload| >= n)
    ensures LastByte(bs, hdmi, n) == 0
  {
    if bs != [] {
      LastByteNone(bs[..|bs| - 1], hdmi, n);
    }
  }

  /** The block b is the one at byte `at`, and its last byte is below `end`. */
  ghost predicate BlockAt(cea: seq<byte>, at: nat, end: nat, b: Block) {
    at < |cea| && at + PayloadLen(cea[at]) < end <= |cea| && b == BlockFrom(cea, at)
  }

  /** Every block the walk visits lies wholly below the end, hence below byte 127. */
  lemma {:induction false} WalkStaysInside(cea: seq<byte>, i: nat, end: nat, k: nat)
    requires end <= 127 && |cea| == CEA_BYTES && k < |Blocks(cea, i, end)|
    ensures exists at: nat :: i <= at && BlockAt(cea, at, end, Blocks(cea, i, end)[k])
    decreases k
  {
    if k > 0 {
      var next := i + PayloadLen(cea[i]) + 1;
      WalkStaysInside(cea, next, end, k - 1);
      assert Blocks(cea, i, end)[k] == Blocks(cea, next, end)[k - 1];
    } else {
      assert BlockAt(cea, i, end, Blocks(cea, i, end)[0]);
    }
  }
}
