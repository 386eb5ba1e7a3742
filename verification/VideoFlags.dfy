/**
 The 4:2:0 flag of a display: set when an extended data block of either 4:2:0 kind is met.
 The scan goes to the end of the extension, past the place where its data blocks end.
 */
module VideoFlags {
  import opened Basics
  import opened DataBlocks

  const EXTENDED_TAG_420_DATA := 14
  const EXTENDED_TAG_420_MAP := 15

  predicate Says420(extTag: int) {
    extTag == EXTENDED_TAG_420_DATA || extTag == EXTENDED_TAG_420_MAP
  }

  /** The outcome of a scan: whether all reads succeeded, and whether a 4:2:0 block was met
      before it ended. */
  datatype Scan = Scan(ok: bool, flag: bool)

  /** The scan from `index` on.  It stops at the first empty block, after looking at that
      block's extended tag. */
  function FlagFrom(edid: seq<Registers>, blockNum: byte, index: byte): Scan
    requires |edid| == 2
    decreases 256 - index
  {
    if index >= 128 then Scan(true, false)
    else
      match ReadRegister(edid, blockNum, index)
      case None => Scan(false, false)
      case Some(v) =>
        var tag := TagFlag(edid, blockNum, index, v);
        if !tag.ok || v % 32 == 0 then tag
        else OrFlag(tag.flag, FlagFrom(edid, blockNum, index + v % 32 + 1))
  }

  function TagFlag(edid: seq<Registers>, blockNum: byte, index: byte, v: byte): Scan
    requires |edid| == 2 && index < 128
  {
    if v / 32 != TAG_EXTENDED then Scan(true, false)
    else
      match ReadRegister(edid, blockNum, index + 1)
      case None => Scan(false, false)
      case Some(x) => Scan(true, Says420(x))
  }

  function OrFlag(flag: bool, rest: Scan): Scan {
    rest.(flag := flag || rest.flag)
  }

  datatype VideoStatus = VideoStatus(underscan: bool, ycbcr444: bool, ycbcr422: bool, ycbcr420: bool)

  /** The support bits of byte 3. */
  function SupportBits(v: byte, ycbcr420: bool): VideoStatus {
    VideoStatus(v / 128 % 2 == 1, v / 32 % 2 == 1, v / 16 % 2 == 1, ycbcr420)
  }

  /** Underscan is bit 7, 4:4:4 bit 5 and 4:2:2 bit 4. */
  lemma SupportBitsAre(u: bool, x: bool, p: bool, q: bool, low: nat, flag: bool)
    requires low < 16
    ensures var v := Bit(u, 128) + Bit(x, 64) + Bit(p, 32) + Bit(q, 16) + low;
      SupportBits(v, flag) == VideoStatus(u, p, q, flag)
  {
  }

  function Bit(b: bool, value: nat): nat {
    if b then value else 0
  }

  /** get_global_video_status: it ends for every content of the block.  A status the caller
      had is left alone until byte 3 is read; from then on it holds what was found, also when
      a later read fails. */
  method GetGlobalVideoStatus(edid: seq<Registers>, blockNum: byte, was: VideoStatus)
    returns (ok: bool, status: VideoStatus)
    requires |edid| == 2
    ensures ok <==> blockNum == 1 && edid[1][3].Some? && FlagFrom(edid, 1, 4).ok
    ensures status ==
      if blockNum == 1 && edid[1][3].Some? then SupportBits(edid[1][3].value, FlagFrom(edid, 1, 4).flag) else was
  {
    ok, status := false, was;
    if blockNum == 0 {
      return;
    }
    var reg := ReadRegister(edid, blockNum, 3);
    if reg.None? {
      return;
    }
    status := VideoStatus(reg.value / 128 % 2 == 1, reg.value / 32 % 2 == 1, reg.value / 16 % 2 == 1, false);
    ghost var bits := reg.value;
    var ndx: byte := 4;
    ghost var goal := FlagFrom(edid, blockNum, 4);
    var done := false;
    while ndx < 128 && !done
      invariant 4 <= ndx <= 159
      invariant status == SupportBits(bits, status.ycbcr420)
      invariant goal ==
        if done then Scan(true, status.ycbcr420) else OrFlag(status.ycbcr420, FlagFrom(edid, blockNum, ndx))
      decreases 256 - ndx, !done
    {
      var read := ReadRegister(edid, blockNum, ndx);
      if read.None? {
        return;
      }
      var tagLength := read.value % 32;
      if read.value / 32 == TAG_EXTENDED {
        var ext := ReadRegister(edid, blockNum, ndx + 1);
        if ext.None? {
          return;
        }
        if ext.value == EXTENDED_TAG_420_DATA || ext.value == EXTENDED_TAG_420_MAP {
          status := status.(ycbcr420 := true);
        }
      }
      if tagLength == 0 {
        done := true;
      } else {
        ndx := ndx + (tagLength + 1);
      }
    }
    ok := true;
  }

  // ----- the headers a scan meets -----

  /** The positions of the headers the scan from `index` on goes through, up to the first
      empty block, the first that cannot be read, or the end: given by the lengths alone. */
  function HeadersFrom(edid: seq<Registers>, blockNum: byte, index: byte): seq<byte>
    requires |edid| == 2
    decreases 256 - index
  {
    if index >= 128 then []
    else
      match ReadRegister(edid, blockNum, index)
      case None => [index]
      case Some(v) =>
        if v % 32 == 0 then [index] else [index] + HeadersFrom(edid, blockNum, index + v % 32 + 1)
  }

  /** A header, and the tag after it when it is an extended one, can be read. */
  predicate CanRead(edid: seq<Registers>, blockNum: byte, h: byte)
    requires |edid| == 2
  {
    && ReadRegister(edid, blockNum, h).Some?
    && (ReadRegister(edid, blockNum, h).value / 32 == TAG_EXTENDED ==>
        h < 255 && ReadRegister(edid, blockNum, h + 1).Some?)
  }

  /** An extended header followed by one of the two 4:2:0 tags. */
  predicate Says420At(edid: seq<Registers>, blockNum: byte, h: byte)
    requires |edid| == 2
  {
    && ReadRegister(edid, blockNum, h).Some? && ReadRegister(edid, blockNum, h).value / 32 == TAG_EXTENDED
    && h < 255 && ReadRegister(edid, blockNum, h + 1).Some? && Says420(ReadRegister(edid, blockNum, h + 1).value)
  }

  predicate AllCanBeRead(edid: seq<Registers>, blockNum: byte, hs: seq<byte>)
    requires |edid| == 2
  {
    forall h :: h in hs ==> CanRead(edid, blockNum, h)
  }

  predicate NoneSays420(edid: seq<Registers>, blockNum: byte, hs: seq<byte>)
    requires |edid| == 2
  {
    forall h :: h in hs ==> !Says420At(edid, blockNum, h)
  }

  /** The scan succeeds exactly when all those headers can be read, and then sets the flag
      exactly when one of them announces 4:2:0. */
  lemma {:induction false} FlagByHeaders(edid: seq<Registers>, blockNum: byte, index: byte)
    requires |edid| == 2
    ensures var hs := HeadersFrom(edid, blockNum, index);
      && (FlagFrom(edid, blockNum, index).ok <==> AllCanBeRead(edid, blockNum, hs))
      && (FlagFrom(edid, blockNum, index).ok ==> (FlagFrom(edid, blockNum, index).flag <==>
          !NoneSays420(edid, blockNum, hs)))
    decreases 256 - index
  {
    if index < 128 {
      var hs := HeadersFrom(edid, blockNum, index);
      assert index in hs;
      if ReadRegister(edid, blockNum, index).Some? {
        var v := ReadRegister(edid, blockNum, index).value;
        if v % 32 != 0 {
          var rest := HeadersFrom(edid, blockNum, index + v % 32 + 1);
          FlagByHeaders(edid, blockNum, index + v % 32 + 1);
          assert forall h :: h in hs <==> h == index || h in rest;
        }
      }
    }
  }

  // ----- against the layout -----

  predicate Announces420(p: Payload) {
    p.tag == TAG_EXTENDED && p.bytes != [] && Says420(p.bytes[0])
  }

  predicate AnyAnnounces420(ps: seq<Payload>) {
    ps != [] && (Announces420(ps[0]) || AnyAnnounces420(ps[1..]))
  }

  /** Over a layout of nonempty blocks the scan finds what the blocks say, and then goes on
      through what follows them. */
  lemma {:induction false} FlagOfLayout(edid: seq<Registers>, blockNum: byte, ps: seq<Payload>, index: byte)
    requires |edid| == 2 && blockNum <= 1 && forall p :: p in ps ==> Encodable(p) && p.bytes != []
    requires index + |Encode(ps)| < BLOCK_SIZE
    requires forall i {:trigger Encode(ps)[i]} :: 0 <= i < |Encode(ps)| ==>
      edid[blockNum][index + i] == Some(Encode(ps)[i])
    ensures FlagFrom(edid, blockNum, index) ==
      OrFlag(AnyAnnounces420(ps), FlagFrom(edid, blockNum, index + |Encode(ps)|))
    decreases |ps|
  {
    if ps != [] {
      var p, code, rest := ps[0], Encode(ps), Encode(ps[1..]);
      var n := |p.bytes|;
      assert code[0] == p.tag * 32 + n && code[1] == p.bytes[0];
      assert edid[blockNum][index + 0] == Some(code[0]) && edid[blockNum][index + 1] == Some(code[1]);
      assert code[0] / 32 == p.tag && code[0] % 32 == n;
      forall i | 0 <= i < |rest| ensures edid[blockNum][index + n + 1 + i] == Some(rest[i]) {
        assert code[n + 1 + i] == rest[i];
      }
      FlagOfLayout(edid, blockNum, ps[1..], index + n + 1);
      assert |code| == n + 1 + |rest|;
      assert TagFlag(edid, blockNum, index, code[0]) == Scan(true, Announces420(p));
    }
  }

  /** The flag is what the data blocks say exactly when every header met by going on from
      their end, an empty one included, can be read, and none of them is an extended one
      followed by a 4:2:0 tag unless a data block announces 4:2:0 anyway. */
  lemma FlagIsRightIff(edid: seq<Registers>, ps: seq<Payload>)
    requires |edid| == 2 && LayoutOf(edid, ps)
    ensures var after := HeadersFrom(edid, 1, 4 + |Encode(ps)|);
      FlagFrom(edid, 1, 4) == Scan(true, AnyAnnounces420(ps)) <==>
        AllCanBeRead(edid, 1, after) && (AnyAnnounces420(ps) || NoneSays420(edid, 1, after))
  {
    FlagOfLayout(edid, 1, ps, 4);
    FlagByHeaders(edid, 1, 4 + |Encode(ps)|);
  }

  lemma {:induction false} AnyAppends(ps: seq<Payload>, qs: seq<Payload>)
    ensures AnyAnnounces420(ps + qs) <==> AnyAnnounces420(ps) || AnyAnnounces420(qs)
    decreases |ps|
  {
    if ps == [] {
      assert ps + qs == qs;
    } else {
      assert (ps + qs)[1..] == ps[1..] + qs;
      AnyAppends(ps[1..], qs);
    }
  }

  lemma {:induction false} EncodeAppends(ps: seq<Payload>, qs: seq<Payload>)
    requires forall p :: p in ps + qs ==> Encodable(p)
    requires forall p :: p in ps ==> Encodable(p)
    requires forall p :: p in qs ==> Encodable(p)
    ensures Encode(ps + qs) == Encode(ps) + Encode(qs)
    decreases |ps|
  {
    if ps == [] {
      assert ps + qs == qs;
    } else {
      var whole := ps + qs;
      assert whole[0] == ps[0] && whole[1..] == ps[1..] + qs;
      EncodeAppends(ps[1..], qs);
      assert Encodable(ps[0]);
      var header: byte := ps[0].tag * 32 + |ps[0].bytes|;
      var first: seq<byte> := [header] + ps[0].bytes;
      assert Encode(whole) == first + Encode(whole[1..]) && Encode(ps) == first + Encode(ps[1..]);
      Regroup(first, Encode(ps[1..]), Encode(qs));
    }
  }

  /** Where an empty block comes in a layout. */
  lemma EmptyBlockAt(front: seq<Payload>, p: Payload, back: seq<Payload>)
    requires p.bytes == [] && Encodable(p)
    requires forall q :: q in front ==> Encodable(q)
    requires forall q :: q in back ==> Encodable(q)
    ensures forall q :: q in front + ([p] + back) ==> Encodable(q)
    ensures Encode(front + ([p] + back)) == Encode(front) + ([p.tag * 32] + Encode(back))
  {
    EncodeAppends(front, [p] + back);
    assert ([p] + back)[1..] == back;
    assert Encode([p] + back) == [p.tag * 32] + Encode(back);
  }

  /** The layout `front`, an empty block, `back`. */
  predicate LaidOutAround(edid: seq<Registers>, front: seq<Payload>, p: Payload, back: seq<Payload>, at: byte)
    requires |edid| == 2
  {
    && p.bytes == [] && Encodable(p)
    && (forall q :: q in front ==> Encodable(q) && q.bytes != [])
    && (forall q :: q in back ==> Encodable(q))
    && (forall q :: q in front + ([p] + back) ==> Encodable(q))
    && LaidOut(edid[1], front + ([p] + back))
    && at == 4 + |Encode(front)| < BLOCK_SIZE
  }

  lemma EmptyBlockEndsScan(edid: seq<Registers>, front: seq<Payload>, p: Payload, back: seq<Payload>, at: byte)
    requires |edid| == 2 && LaidOutAround(edid, front, p, back, at)
    ensures FlagFrom(edid, 1, 4) == OrFlag(AnyAnnounces420(front), TagFlag(edid, 1, at, p.tag * 32))
  {
    EmptyBlockAt(front, p, back);
    var code := Encode(front + ([p] + back));
    assert code[|Encode(front)|] == p.tag * 32;
    assert edid[1][at] == Some(p.tag * 32);
    forall i | 0 <= i < |Encode(front)| ensures edid[1][4 + i] == Some(Encode(front)[i]) {
      assert code[i] == Encode(front)[i];
    }
    FlagOfLayout(edid, 1, front, 4);
    assert p.tag * 32 % 32 == 0;
  }

  /** An empty data block ends the scan: with one after `front` the flag is what all the blocks
      say exactly when `front` announces 4:2:0 or `back` does not; for an empty extended block
      the byte after it is taken for its tag, must be there, and stands in for `back`. */
  lemma EmptyBlockEndsScanIff(edid: seq<Registers>, front: seq<Payload>, p: Payload, back: seq<Payload>, at: byte)
    requires |edid| == 2 && LaidOutAround(edid, front, p, back, at)
    ensures var after := ReadRegister(edid, 1, at + 1);
      var right := FlagFrom(edid, 1, 4) == Scan(true, AnyAnnounces420(front + ([p] + back)));
      && (p.tag != TAG_EXTENDED ==> (right <==> AnyAnnounces420(front) || !AnyAnnounces420(back)))
      && (p.tag == TAG_EXTENDED ==>
            (right <==> after.Some? && (AnyAnnounces420(front) || (Says420(after.value) <==> AnyAnnounces420(back)))))
  {
    EmptyBlockEndsScan(edid, front, p, back, at);
    AnyAppends(front, [p] + back);
    AnyAppends([p], back);
    assert p.tag * 32 / 32 == p.tag;
    assert !AnyAnnounces420([p]);
  }

  /** An extension with no data blocks at all, whose first detailed timing begins with the
      bytes 224 and 14, is taken to announce 4:2:0. */
  lemma TimingReadAsFlag(edid: seq<Registers>)
    requires |edid| == 2 && edid[1][2] == Some(4) && edid[1][4] == Some(224) && edid[1][5] == Some(14)
    ensures LayoutOf(edid, []) && !AnyAnnounces420([]) && FlagFrom(edid, 1, 4) == Scan(true, true)
  {
    assert TagFlag(edid, 1, 4, 224) == Scan(true, true);
  }

  predicate LayoutOf(edid: seq<Registers>, ps: seq<Payload>)
    requires |edid| == 2
  {
    && (forall p :: p in ps ==> Encodable(p) && p.bytes != [])
    && LaidOut(edid[1], ps)
  }
}
