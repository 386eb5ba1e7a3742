/**
 Finding the vendor-specific data block that carries a given three-byte identifier (the
 HDMI and the HDMI Forum blocks).  The identifier is read into a buffer that keeps what it
 held when a read fails, and the failure is not reported.
 */
module VendorBlocks {
  import opened Basics
  import opened DataBlocks
  import opened AudioDescriptors

  const TAG_VENDOR := 3
  /** Least significant byte first. */
  const HDMI_CODE: seq<byte> := [0x03, 0x0C, 0x00]
  const HF_CODE: seq<byte> := [0xD8, 0x5D, 0xC4]

  /** The identifiers as numbers. */
  lemma CodesAre()
    ensures HDMI_CODE[0] as int + HDMI_CODE[1] as int * 0x100 + HDMI_CODE[2] as int * 0x1_0000 == 0x00_0C_03
    ensures HF_CODE[0] as int + HF_CODE[1] as int * 0x100 + HF_CODE[2] as int * 0x1_0000 == 0xC4_5D_D8
  {
  }

  /** The buffer from position `i` on after reading ahead until a read fails or byte 127 is
      passed. */
  function ReadOver(edid: seq<Registers>, blockNum: byte, at: byte, data: seq<byte>, i: nat): (r: seq<byte>)
    requires |edid| == 2 && i <= |data|
    ensures |r| == |data|
    decreases |data| - i
  {
    if i == |data| || at + i > 127 then data
    else
      match ReadRegister(edid, blockNum, at + i)
      case None => data
      case Some(v) => ReadOver(edid, blockNum, at, data[i := v], i + 1)
  }

  function ClampedAddress(at: byte): byte {
    if at > 127 then 127 else at
  }

  /** read_edid_registers: always succeeds. */
  method ReadRegisters(edid: seq<Registers>, blockNum: byte, regAddr: byte, data: array<byte>)
    requires |edid| == 2 && data.Length > 0
    modifies data
    ensures data[..] == ReadOver(edid, blockNum, ClampedAddress(regAddr), old(data[..]), 0)
  {
    var addr: byte := if regAddr > 127 then 127 else regAddr;
    ghost var goal := ReadOver(edid, blockNum, addr, data[..], 0);
    var lastReg := addr + data.Length - 1;
    if lastReg > 127 {
      lastReg := 127;
    }
    var i: int := addr;
    while i <= lastReg
      invariant addr <= i <= lastReg + 1
      invariant goal == ReadOver(edid, blockNum, addr, data[..], i - addr)
    {
      var reg := ReadRegister(edid, blockNum, i);
      if reg.None? {
        break;
      }
      ghost var was := data[..];
      data[i - addr] := reg.value;
      assert data[..] == was[i - addr := reg.value];
      i := i + 1;
    }
  }

  /** The first vendor block from number `k` on after whose reading the buffer holds `code`. */
  function VendorSearch(edid: seq<Registers>, blockNum: byte, w: Walk, k: nat,
      code: seq<byte>, regId: seq<byte>): Reached
    requires |edid| == 2 && Placed(w.blocks) && k <= |w.blocks| && |regId| == 3
    decreases |w.blocks| - k
  {
    if k == |w.blocks| then (if w.failed then Unread else Nowhere)
    else
      var id := ReadOver(edid, blockNum, ClampedAddress(w.blocks[k].index + 1), regId, 0);
      if id == code then At(w.blocks[k].index) else VendorSearch(edid, blockNum, w, k + 1, code, id)
  }

  function VendorLookup(edid: seq<Registers>, blockNum: byte, code: seq<byte>, regId: seq<byte>): Reached
    requires |edid| == 2 && |regId| == 3
  {
    if blockNum == 0 || blockNum == 255 then Unread
    else VendorSearch(edid, blockNum, TaggedWalk(edid, blockNum, TAG_VENDOR), 0, code, regId)
  }

  /** The search both vendor lookups make; `regId` is the buffer as they find it. */
  method GetIndexForVendorBlock(edid: seq<Registers>, blockNum: byte, code: seq<byte>, regId: array<byte>)
    returns (ok: bool, index: byte)
    requires |edid| == 2 && |code| == 3 && regId.Length == 3
    modifies regId
    ensures Tells(VendorLookup(edid, blockNum, code, old(regId[..])), ok, index)
    ensures blockNum != 1 ==> !ok
  {
    if blockNum == 0 || blockNum == 255 {
      return false, 0;
    }
    ok, index := true, 0;
    var dbInst: byte := 0;
    ghost var w := TaggedWalk(edid, blockNum, TAG_VENDOR);
    ghost var want := VendorLookup(edid, blockNum, code, regId[..]);
    for i := 0 to 254
      invariant dbInst == i <= |w.blocks|
      invariant want == VendorSearch(edid, blockNum, w, i, code, regId[..])
    {
      var read, dbIndex, dbLength := NextBlock(edid, blockNum, TAG_VENDOR, dbInst, w);
      if !read {
        return false, 0;
      }
      if dbIndex == 0 {
        return true, 0;
      }
      ReadRegisters(edid, blockNum, dbIndex + 1, regId);
      if regId[0] == code[0] && regId[1] == code[1] && regId[2] == code[2] {
        assert regId[..] == code;
        return true, dbIndex;
      }
      dbInst := dbInst + 1;
    }
    InOrderAt(w.blocks, 4, 253);
  }

  /** get_index_for_hdmi_datablock. */
  method GetIndexForHdmiDatablock(edid: seq<Registers>, blockNum: byte, regId: array<byte>)
    returns (ok: bool, index: byte)
    requires |edid| == 2 && regId.Length == 3
    modifies regId
    ensures Tells(VendorLookup(edid, blockNum, HDMI_CODE, old(regId[..])), ok, index)
  {
    ok, index := GetIndexForVendorBlock(edid, blockNum, HDMI_CODE, regId);
  }

  /** get_index_for_hf_datablock. */
  method GetIndexForHfDatablock(edid: seq<Registers>, blockNum: byte, regId: array<byte>)
    returns (ok: bool, index: byte)
    requires |edid| == 2 && regId.Length == 3
    modifies regId
    ensures Tells(VendorLookup(edid, blockNum, HF_CODE, old(regId[..])), ok, index)
  {
    ok, index := GetIndexForVendorBlock(edid, blockNum, HF_CODE, regId);
  }

  // ----- what the buffer held -----

  /** The three bytes after the header can be read. */
  predicate IdReadable(edid: seq<Registers>, blockNum: byte, index: int)
    requires |edid| == 2 && 0 <= index < BLOCK_SIZE
  {
    && blockNum <= 1 && index + 3 < BLOCK_SIZE
    && edid[blockNum][index + 1].Some? && edid[blockNum][index + 2].Some? && edid[blockNum][index + 3].Some?
  }

  function IdAt(edid: seq<Registers>, blockNum: byte, index: int): seq<byte>
    requires |edid| == 2 && 0 <= index < BLOCK_SIZE && IdReadable(edid, blockNum, index)
  {
    [edid[blockNum][index + 1].value, edid[blockNum][index + 2].value, edid[blockNum][index + 3].value]
  }

  lemma ReadsId(edid: seq<Registers>, blockNum: byte, index: byte, data: seq<byte>)
    requires |edid| == 2 && index < BLOCK_SIZE && |data| == 3 && IdReadable(edid, blockNum, index)
    ensures ReadOver(edid, blockNum, ClampedAddress(index + 1), data, 0) == IdAt(edid, blockNum, index)
  {
    var at: byte, id := index + 1, IdAt(edid, blockNum, index);
    var d1 := data[0 := id[0]];
    var d2 := d1[1 := id[1]];
    var d3 := d2[2 := id[2]];
    assert d3 == id;
    assert ReadOver(edid, blockNum, at, d2, 2) == ReadOver(edid, blockNum, at, d3, 3);
    assert ReadOver(edid, blockNum, at, d1, 1) == ReadOver(edid, blockNum, at, d2, 2);
  }

  /** A read never reaches the last byte of the buffer unless all three are there; with one
      missing, at the end of the block or unreadable, that byte stays. */
  lemma LeavesLast(edid: seq<Registers>, blockNum: byte, index: byte, data: seq<byte>)
    requires |edid| == 2 && index < BLOCK_SIZE && |data| == 3 && !IdReadable(edid, blockNum, index)
    ensures ReadOver(edid, blockNum, ClampedAddress(index + 1), data, 0)[2] == data[2]
  {
    var at := ClampedAddress(index + 1);
    if ReadRegister(edid, blockNum, at).Some? {
      var d1 := data[0 := ReadRegister(edid, blockNum, at).value];
      assert ReadOver(edid, blockNum, at, data, 0) == ReadOver(edid, blockNum, at, d1, 1);
      if at + 1 <= 127 && ReadRegister(edid, blockNum, at + 1).Some? {
        var d2 := d1[1 := ReadRegister(edid, blockNum, at + 1).value];
        assert ReadOver(edid, blockNum, at, d1, 1) == ReadOver(edid, blockNum, at, d2, 2) == d2;
      }
    }
  }

  /** For a block at the very end the byte read in place of its identifier is its own header. */
  lemma LastBlockReadsHeader(edid: seq<Registers>, blockNum: byte, data: seq<byte>)
    requires |edid| == 2 && blockNum <= 1 && |data| == 3 && edid[blockNum][127].Some?
    ensures ReadOver(edid, blockNum, ClampedAddress(128), data, 0) == data[0 := edid[blockNum][127].value]
  {
    var d1 := data[0 := edid[blockNum][127].value];
    assert ReadOver(edid, blockNum, 127, data, 0) == ReadOver(edid, blockNum, 127, d1, 1) == d1;
  }

  /** What is compared for one block is independent of what the buffer held exactly when
      the whole identifier could be read. */
  lemma IdIsFreshIff(edid: seq<Registers>, blockNum: byte, index: byte)
    requires |edid| == 2 && index < BLOCK_SIZE
    ensures IdReadable(edid, blockNum, index) <==>
      forall x, y: seq<byte> :: |x| == 3 && |y| == 3 ==>
        ReadOver(edid, blockNum, ClampedAddress(index + 1), x, 0) ==
          ReadOver(edid, blockNum, ClampedAddress(index + 1), y, 0)
  {
    if IdReadable(edid, blockNum, index) {
      forall x: seq<byte> | |x| == 3
        ensures ReadOver(edid, blockNum, ClampedAddress(index + 1), x, 0) == IdAt(edid, blockNum, index)
      {
        ReadsId(edid, blockNum, index, x);
      }
    } else {
      var x: seq<byte>, y: seq<byte> := [0, 0, 0], [0, 0, 1];
      LeavesLast(edid, blockNum, index, x);
      LeavesLast(edid, blockNum, index, y);
    }
  }

  /** An extension of which every byte can be read: a vendor block whose identifier ends like
      the HDMI one, four other blocks, and at its very end a vendor block of one byte. */
  predicate StaleExtension(edid: seq<Registers>) {
    && |edid| == 2 && (forall i :: 0 <= i < BLOCK_SIZE ==> edid[1][i].Some?)
    && edid[1][2] == Some(127)
    && edid[1][4] == Some(99) && edid[1][5] == Some(1) && edid[1][6] == Some(0x0C) && edid[1][7] == Some(0)
    && edid[1][8] == Some(95) && edid[1][40] == Some(95) && edid[1][72] == Some(95) && edid[1][104] == Some(85)
    && edid[1][126] == Some(97) && edid[1][127] == Some(3)
  }

  const STALE_FIRST := Block(4, TAG_VENDOR, EXTENDED_TAG_RESERVED, 3)
  const STALE_LAST := Block(126, TAG_VENDOR, EXTENDED_TAG_RESERVED, 1)

  /** The vendor blocks from `index` on, in an extension whose blocks end at byte 127. */
  function VendorsFrom(edid: seq<Registers>, index: byte): Walk
    requires |edid| == 2
  {
    var w := WalkFrom(edid, 1, index, 127);
    Walk(Matching(w.blocks, TAG_VENDOR, EXTENDED_TAG_RESERVED), w.failed)
  }

  lemma VendorsNext(edid: seq<Registers>, index: byte, b: Block)
    requires |edid| == 2 && index < 127 && Header(edid, 1, index) == Some(b) && b.length > 0
    ensures var rest := VendorsFrom(edid, index + b.length + 1);
      VendorsFrom(edid, index) == Walk((if b.tag == TAG_VENDOR then [b] else []) + rest.blocks, rest.failed)
  {
    var rest := WalkFrom(edid, 1, index + b.length + 1, 127);
    assert WalkFrom(edid, 1, index, 127) == Walk([b] + rest.blocks, rest.failed);
    MatchingCons(b, rest.blocks, TAG_VENDOR, EXTENDED_TAG_RESERVED);
  }

  /** A block of another tag is passed over. */
  lemma PassesOver(edid: seq<Registers>, index: byte, length: byte)
    requires |edid| == 2 && index + length < 126 && 0 < length < 32 && edid[1][index] == Some(64 + length)
    ensures VendorsFrom(edid, index) == VendorsFrom(edid, index + length + 1)
  {
    VendorsNext(edid, index, Block(index, 2, EXTENDED_TAG_RESERVED, length));
  }

  lemma StaleTail(edid: seq<Registers>)
    requires StaleExtension(edid)
    ensures VendorsFrom(edid, 8) == Walk([STALE_LAST], false)
  {
    VendorsNext(edid, 126, STALE_LAST);
    assert VendorsFrom(edid, 128) == Walk([], false);
    PassesOver(edid, 104, 21);
    PassesOver(edid, 72, 31);
    PassesOver(edid, 40, 31);
    PassesOver(edid, 8, 31);
  }

  lemma StaleBlocks(edid: seq<Registers>)
    requires StaleExtension(edid)
    ensures TaggedWalk(edid, 1, TAG_VENDOR) == Walk([STALE_FIRST, STALE_LAST], false)
  {
    StaleTail(edid);
    VendorsNext(edid, 4, STALE_FIRST);
    assert TaggedWalk(edid, 1, TAG_VENDOR) == VendorsFrom(edid, 4);
  }

  /** Whatever the buffer held, the last block is taken for the HDMI one: reading its
      identifier stops at the end of the extension, and its one byte completes the two bytes
      left over from the first block. */
  lemma StaleBytesAnswer(edid: seq<Registers>, regId: seq<byte>)
    requires StaleExtension(edid) && |regId| == 3
    ensures VendorLookup(edid, 1, HDMI_CODE, regId) == At(126)
  {
    StaleBlocks(edid);
    var w := TaggedWalk(edid, 1, TAG_VENDOR);
    var id1: seq<byte>, id2: seq<byte> := [1, 0x0C, 0], [3, 0x0C, 0];
    ReadsId(edid, 1, 4, regId);
    assert ReadOver(edid, 1, 5, regId, 0) == id1;
    assert id1[0 := 3] == id2;
    assert ReadOver(edid, 1, 127, id1, 0) == ReadOver(edid, 1, 127, id2, 1) == id2;
    assert VendorSearch(edid, 1, w, 1, HDMI_CODE, id1) == At(126);
  }

  /** The blocks whose identifiers can all be read. */
  predicate AllIdsReadable(edid: seq<Registers>, blockNum: byte, bs: seq<Block>)
    requires |edid| == 2
  {
    forall k :: 0 <= k < |bs| ==> 0 <= bs[k].index < BLOCK_SIZE && IdReadable(edid, blockNum, bs[k].index)
  }

  /** Then the search gives the first vendor block that carries the identifier. */
  lemma {:induction false} SearchFindsId(edid: seq<Registers>, blockNum: byte, w: Walk, k: nat,
      code: seq<byte>, regId: seq<byte>)
    requires |edid| == 2 && Placed(w.blocks) && k <= |w.blocks| && |regId| == 3
    requires AllIdsReadable(edid, blockNum, w.blocks)
    ensures match VendorSearch(edid, blockNum, w, k, code, regId)
      case At(index) => FirstIs(edid, blockNum, w.blocks, k, code, index)
      case Nowhere => !w.failed && NoneCarries(edid, blockNum, w.blocks, k, |w.blocks|, code)
      case Unread => w.failed && NoneCarries(edid, blockNum, w.blocks, k, |w.blocks|, code)
    decreases |w.blocks| - k
  {
    if k < |w.blocks| {
      ReadsId(edid, blockNum, w.blocks[k].index, regId);
      var id := IdAt(edid, blockNum, w.blocks[k].index);
      if id == code {
        assert IsFirst(edid, blockNum, w.blocks, k, k, code);
      } else {
        SearchFindsId(edid, blockNum, w, k + 1, code, id);
        var found := VendorSearch(edid, blockNum, w, k + 1, code, id);
        if found.At? {
          var f :| k + 1 <= f < |w.blocks| && w.blocks[f].index == found.index
            && IsFirst(edid, blockNum, w.blocks, k + 1, f, code);
          assert IsFirst(edid, blockNum, w.blocks, k, f, code);
        }
      }
    }
  }

  predicate NoneCarries(edid: seq<Registers>, blockNum: byte, bs: seq<Block>, lo: nat, hi: nat, code: seq<byte>)
    requires |edid| == 2 && lo <= hi <= |bs| && AllIdsReadable(edid, blockNum, bs)
  {
    forall j :: lo <= j < hi ==> IdAt(edid, blockNum, bs[j].index) != code
  }

  predicate IsFirst(edid: seq<Registers>, blockNum: byte, bs: seq<Block>, lo: nat, f: nat, code: seq<byte>)
    requires |edid| == 2 && lo <= f < |bs| && AllIdsReadable(edid, blockNum, bs)
  {
    IdAt(edid, blockNum, bs[f].index) == code && NoneCarries(edid, blockNum, bs, lo, f, code)
  }

  /** The block at `index` is the first from number `lo` on that carries the identifier. */
  ghost predicate FirstIs(edid: seq<Registers>, blockNum: byte, bs: seq<Block>, lo: nat, code: seq<byte>, index: int)
    requires |edid| == 2 && lo <= |bs| && AllIdsReadable(edid, blockNum, bs)
  {
    exists f :: lo <= f < |bs| && bs[f].index == index && IsFirst(edid, blockNum, bs, lo, f, code)
  }

  /** So in an extension that can be read the search is the same whatever the buffer held:
      the first vendor block carrying the identifier, or none when none does. */
  lemma VendorLookupFindsId(edid: seq<Registers>, code: seq<byte>, regId: seq<byte>)
    requires |edid| == 2 && |regId| == 3
    requires !TaggedWalk(edid, 1, TAG_VENDOR).failed
    requires AllIdsReadable(edid, 1, TaggedWalk(edid, 1, TAG_VENDOR).blocks)
    ensures var bs := TaggedWalk(edid, 1, TAG_VENDOR).blocks;
      match VendorLookup(edid, 1, code, regId)
      case At(index) => FirstIs(edid, 1, bs, 0, code, index)
      case Nowhere => NoneCarries(edid, 1, bs, 0, |bs|, code)
      case Unread => false
  {
    SearchFindsId(edid, 1, TaggedWalk(edid, 1, TAG_VENDOR), 0, code, regId);
  }
}
