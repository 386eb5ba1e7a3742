/**
 Finding a data block in a CEA-861 extension of an EDID.  The bytes come from a device and
 may be anything; any read may fail.
 */
module DataBlocks {
  import opened Basics

  const BLOCK_SIZE := 128
  const TAG_WILDCARD := 0
  const TAG_EXTENDED := 7
  const EXTENDED_TAG_RESERVED := 255

  /** What reading each register of one 128-byte block gives; None when the read fails. */
  type Registers = r: seq<Option<byte>> | |r| == BLOCK_SIZE witness seq(BLOCK_SIZE, _ => None)

  /** read_edid_register, on an EDID of two blocks. */
  function ReadRegister(edid: seq<Registers>, blockNum: byte, regNum: byte): Option<byte>
    requires |edid| == 2
  {
    if blockNum > 1 || regNum >= 128 then None else edid[blockNum][regNum]
  }

  datatype Block = Block(index: int, tag: int, extTag: int, length: int)

  /** A header: the tag in the top three bits, the payload length in the rest, and for an
      extended tag the next byte. */
  function Header(edid: seq<Registers>, blockNum: byte, index: byte): (r: Option<Block>)
    requires |edid| == 2
    ensures r.Some? ==> index < 128 && r.value.index == index && 0 <= r.value.tag < 8 && 0 <= r.value.length < 32
  {
    match ReadRegister(edid, blockNum, index)
    case None => None
    case Some(v) =>
      if v / 32 == TAG_EXTENDED && v % 32 > 0 then
        match ReadRegister(edid, blockNum, (index + 1) % 256)
        case None => None
        case Some(x) => Some(Block(index, v / 32, x, v % 32))
      else Some(Block(index, v / 32, EXTENDED_TAG_RESERVED, v % 32))
  }

  /** get_datablock_header. */
  method GetDatablockHeader(edid: seq<Registers>, blockNum: byte, dbIndex: byte)
    returns (ok: bool, tag: int, extTag: int, numBytes: byte)
    requires |edid| == 2
    ensures ok <==> Header(edid, blockNum, dbIndex).Some?
    ensures ok ==> Header(edid, blockNum, dbIndex).value == Block(dbIndex, tag, extTag, numBytes)
    ensures !ok ==> tag == 0 && extTag == EXTENDED_TAG_RESERVED && numBytes == 128
  {
    var reg := ReadRegister(edid, blockNum, dbIndex);
    if reg.None? {
      return false, 0, EXTENDED_TAG_RESERVED, 128;
    }
    tag := (reg.value / 32) % 8;
    numBytes := reg.value % 32;
    if tag == TAG_EXTENDED && numBytes > 0 {
      reg := ReadRegister(edid, blockNum, (dbIndex + 1) % 256);
      if reg.None? {
        return false, 0, EXTENDED_TAG_RESERVED, 128;
      }
      extTag := reg.value;
    } else {
      extTag := EXTENDED_TAG_RESERVED;
    }
    ok := true;
  }

  // ----- the walk -----

  /** The data blocks from `index` up to `end`, as far as they can be read, and whether the
      walk was cut short by a failed read.  An empty block with tag 0 is padding. */
  datatype Walk = Walk(blocks: seq<Block>, failed: bool)

  function WalkFrom(edid: seq<Registers>, blockNum: byte, index: byte, end: byte): Walk
    requires |edid| == 2
    decreases 256 - index
  {
    if index >= end then Walk([], false)
    else
      match Header(edid, blockNum, index)
      case None => Walk([], true)
      case Some(b) =>
        if b.tag == 0 && b.length == 0 then Walk([], false)
        else
          var rest := WalkFrom(edid, blockNum, index + b.length + 1, end);
          Walk([b] + rest.blocks, rest.failed)
  }

  predicate Matches(b: Block, tag: int, extTag: int) {
    tag == TAG_WILDCARD || (b.tag == tag && (b.tag != TAG_EXTENDED || b.extTag == extTag))
  }

  function Matching(blocks: seq<Block>, tag: int, extTag: int): seq<Block> {
    if blocks == [] then []
    else (if Matches(blocks[0], tag, extTag) then [blocks[0]] else []) + Matching(blocks[1..], tag, extTag)
  }

  /** The data blocks end before the detailed timings, or at 126 when there are none. */
  function BlocksEnd(dtdStart: byte): byte {
    if dtdStart == 0 then 126 else dtdStart
  }

  /** The outcome of looking for match number `inst`: found, none, or unreadable. */
  datatype Lookup = Found(index: int, length: int) | NotFound | Unreadable

  function Outcome(walk: Walk, tag: int, extTag: int, inst: nat): Lookup {
    var ms := Matching(walk.blocks, tag, extTag);
    if inst < |ms| then Found(ms[inst].index, ms[inst].length)
    else if walk.failed then Unreadable
    else NotFound
  }

  function LookUp(edid: seq<Registers>, blockNum: byte, tag: int, extTag: int, inst: nat): Lookup
    requires |edid| == 2
  {
    match ReadRegister(edid, blockNum, 2)
    case None => Unreadable
    case Some(d) => Outcome(WalkFrom(edid, blockNum, 4, BlocksEnd(d)), tag, extTag, inst)
  }

  /** The same lookup as one pass that keeps no list. */
  function Seek(edid: seq<Registers>, blockNum: byte, index: byte, end: byte, tag: int, extTag: int, inst: nat): Lookup
    requires |edid| == 2
    decreases 256 - index
  {
    if index >= end then NotFound
    else
      match Header(edid, blockNum, index)
      case None => Unreadable
      case Some(b) =>
        if b.tag == 0 && b.length == 0 then NotFound
        else if !Matches(b, tag, extTag) then Seek(edid, blockNum, index + b.length + 1, end, tag, extTag, inst)
        else if inst == 0 then Found(index, b.length)
        else Seek(edid, blockNum, index + b.length + 1, end, tag, extTag, inst - 1)
  }

  /** One data block of the walk: it is passed over, is the match wanted, or counts down. */
  lemma OutcomeStep(b: Block, rest: Walk, tag: int, extTag: int, inst: nat)
    ensures Outcome(Walk([b] + rest.blocks, rest.failed), tag, extTag, inst) ==
      if !Matches(b, tag, extTag) then Outcome(rest, tag, extTag, inst)
      else if inst == 0 then Found(b.index, b.length)
      else Outcome(rest, tag, extTag, inst - 1)
  {
    MatchingCons(b, rest.blocks, tag, extTag);
  }

  /** One pass finds what filtering the walk finds. */
  lemma {:induction false} SeekIsOutcome(edid: seq<Registers>, blockNum: byte, index: byte, end: byte,
      tag: int, extTag: int, inst: nat)
    requires |edid| == 2
    ensures Seek(edid, blockNum, index, end, tag, extTag, inst) ==
      Outcome(WalkFrom(edid, blockNum, index, end), tag, extTag, inst)
    decreases 256 - index
  {
    if index < end && Header(edid, blockNum, index).Some? {
      var b := Header(edid, blockNum, index).value;
      if !(b.tag == 0 && b.length == 0) {
        OutcomeStep(b, WalkFrom(edid, blockNum, index + b.length + 1, end), tag, extTag, inst);
        if !Matches(b, tag, extTag) {
          SeekIsOutcome(edid, blockNum, index + b.length + 1, end, tag, extTag, inst);
        } else if inst > 0 {
          SeekIsOutcome(edid, blockNum, index + b.length + 1, end, tag, extTag, inst - 1);
        }
      }
    }
  }

  predicate Reports(want: Lookup, ok: bool, dbIndex: int, dbLength: int) {
    match want
    case Found(i, n) => ok && dbIndex == i && dbLength == n
    case NotFound => ok && dbIndex == 0 && dbLength == 0
    case Unreadable => !ok && dbIndex == 0 && dbLength == 0
  }

  /** Is a block with these tags of the type looked for? */
  method IsWanted(dbTag: int, dbExtTag: int, tag: int, extTag: int) returns (gotMatch: bool)
    ensures gotMatch <==> tag == TAG_WILDCARD || (dbTag == tag && (dbTag == TAG_EXTENDED ==> dbExtTag == extTag))
  {
    gotMatch := false;
    if tag == TAG_WILDCARD {
      gotMatch := true;
    } else if dbTag == tag {
      if dbTag != TAG_EXTENDED {
        gotMatch := true;
      } else {
        if dbExtTag == extTag {
          gotMatch := true;
        }
      }
    }
  }

  /** get_index_for_datablock: for every content of the block it ends, keeps its eight-bit
      index in range, and gives the match number `dbInst` of the walk. */
  method GetIndexForDatablock(edid: seq<Registers>, blockNum: byte, tag: int, extTag: int, dbInst: byte)
    returns (ok: bool, dbIndex: byte, dbLength: byte)
    requires |edid| == 2
    ensures Reports(LookUp(edid, blockNum, tag, extTag, dbInst), ok, dbIndex, dbLength)
    ensures ReadRegister(edid, blockNum, 2).None? ==> !ok
  {
    var index: byte := 4;
    var instCount: byte := 0;
    var gotMatch := false;
    var reg := ReadRegister(edid, blockNum, 2);
    if reg.None? {
      return false, 0, 0;
    }
    var dbEnd: byte := if reg.value == 0 then 126 else reg.value;
    ghost var want := LookUp(edid, blockNum, tag, extTag, dbInst);
    SeekIsOutcome(edid, blockNum, 4, dbEnd, tag, extTag, dbInst);
    while index < dbEnd
      invariant 4 <= index <= 159
      invariant instCount <= index && instCount <= dbInst && !gotMatch
      invariant want == Seek(edid, blockNum, index, dbEnd, tag, extTag, dbInst - instCount)
      decreases 256 - index
    {
      var read, dbTag, dbExtTag, numBytes := GetDatablockHeader(edid, blockNum, index);
      if !read {
        return false, 0, 0;
      }
      if dbTag == 0 && numBytes == 0 {
        return true, 0, 0;
      }
      gotMatch := IsWanted(dbTag, dbExtTag, tag, extTag);
      assert gotMatch == Matches(Block(index, dbTag, dbExtTag, numBytes), tag, extTag);
      if gotMatch {
        if instCount == dbInst {
          return true, index, numBytes;
        } else {
          instCount := instCount + 1;
          gotMatch := false;
        }
      }
      index := index + (numBytes + 1);
    }
    return true, 0, 0;
  }

  lemma MatchingCons(b: Block, rest: seq<Block>, tag: int, extTag: int)
    ensures Matching([b] + rest, tag, extTag) ==
      (if Matches(b, tag, extTag) then [b] else []) + Matching(rest, tag, extTag)
  {
    assert ([b] + rest)[1..] == rest;
  }

  /** What the walk finds is where it says: in order, one right after the other, inside the
      block and before the detailed timings. */
  lemma {:induction false} WalkIsLaidOut(edid: seq<Registers>, blockNum: byte, index: byte, end: byte, i: nat)
    requires |edid| == 2 && i < |WalkFrom(edid, blockNum, index, end).blocks|
    ensures var bs := WalkFrom(edid, blockNum, index, end).blocks;
      && index <= bs[i].index < end && bs[i].index < BLOCK_SIZE
      && Header(edid, blockNum, bs[i].index) == Some(bs[i])
      && bs[i].index == if i == 0 then index as int else bs[i - 1].index + bs[i - 1].length + 1
    decreases i
  {
    if i > 0 {
      var b := Header(edid, blockNum, index).value;
      WalkIsLaidOut(edid, blockNum, index + b.length + 1, end, i - 1);
    }
  }

  // ----- laying blocks out -----

  /** A data block to be laid out; an extended one begins with its extended tag. */
  datatype Payload = Payload(tag: int, bytes: seq<byte>)

  predicate Encodable(p: Payload) {
    0 <= p.tag < 8 && |p.bytes| < 32 && !(p.tag == 0 && p.bytes == [])
  }

  function Encode(ps: seq<Payload>): seq<byte>
    requires forall p :: p in ps ==> Encodable(p)
  {
    if ps == [] then []
    else
      assert Encodable(ps[0]);
      var header: byte := ps[0].tag * 32 + |ps[0].bytes|;
      [header] + ps[0].bytes + Encode(ps[1..])
  }

  /** The bytes of `ps` stand from `index` on. */
  predicate Holds(r: Registers, ps: seq<Payload>, index: int)
    requires forall p :: p in ps ==> Encodable(p)
  {
    var code := Encode(ps);
    && 0 <= index && index + |code| < BLOCK_SIZE
    && forall i :: 0 <= i < |code| ==> r[index + i] == Some(code[i])
  }

  /** A block holds the encoded payloads after its four bytes of header, and byte 2 says
      where they end (section 7.5 of CEA-861-E). */
  predicate LaidOut(r: Registers, ps: seq<Payload>)
    requires forall p :: p in ps ==> Encodable(p)
  {
    Holds(r, ps, 4) && r[2] == Some((4 + |Encode(ps)|) as byte)
  }

  /** An extension without detailed timings: byte 2 is 0, and padding follows the encoded
      payloads unless they fill it up to byte 126. */
  predicate LaidOutUntimed(r: Registers, ps: seq<Payload>)
    requires forall p :: p in ps ==> Encodable(p)
  {
    var end := 4 + |Encode(ps)|;
    && r[2] == Some(0) && Holds(r, ps, 4) && end <= 126
    && (end < 126 ==> r[end] == Some(0))
  }

  /** The blocks a walk of the layout should find. */
  function Expected(ps: seq<Payload>, index: int): seq<Block> {
    if ps == [] then []
    else
      var ext := if ps[0].tag == TAG_EXTENDED && ps[0].bytes != [] then ps[0].bytes[0] else EXTENDED_TAG_RESERVED;
      [Block(index, ps[0].tag, ext, |ps[0].bytes|)] + Expected(ps[1..], index + |ps[0].bytes| + 1)
  }

  lemma HeaderOfPayload(edid: seq<Registers>, blockNum: byte, p: Payload, index: byte)
    requires |edid| == 2 && blockNum <= 1 && Encodable(p) && index + |p.bytes| < BLOCK_SIZE
    requires edid[blockNum][index] == Some((p.tag * 32 + |p.bytes|) as byte)
    requires p.bytes != [] ==> edid[blockNum][index + 1] == Some(p.bytes[0])
    ensures Header(edid, blockNum, index) == Some(Expected([p], index)[0])
  {
    var v := p.tag * 32 + |p.bytes|;
    assert v / 32 == p.tag && v % 32 == |p.bytes|;
  }

  lemma HoldsRest(r: Registers, ps: seq<Payload>, index: int)
    requires ps != [] && forall p :: p in ps ==> Encodable(p)
    requires Holds(r, ps, index)
    ensures var n := |ps[0].bytes|;
      && |Encode(ps)| == n + 1 + |Encode(ps[1..])| && Holds(r, ps[1..], index + n + 1)
      && r[index] == Some((ps[0].tag * 32 + n) as byte) && (n > 0 ==> r[index + 1] == Some(ps[0].bytes[0]))
  {
    var p, code, rest := ps[0], Encode(ps), Encode(ps[1..]);
    var n := |p.bytes|;
    assert Encodable(p);
    assert code[0] == p.tag * 32 + n;
    assert n > 0 ==> code[1] == p.bytes[0];
    assert r[index + 0] == Some(code[0]);
    assert n > 0 ==> r[index + 1] == Some(code[1]);
    forall i | 0 <= i < |rest| ensures r[index + n + 1 + i] == Some(rest[i]) {
      assert code[n + 1 + i] == rest[i];
    }
  }

  lemma WalkStep(edid: seq<Registers>, blockNum: byte, b: Block, end: byte)
    requires |edid| == 2 && 0 <= b.index < end && 0 <= b.length < 32 && !(b.tag == 0 && b.length == 0)
    requires b.index < BLOCK_SIZE && Header(edid, blockNum, b.index) == Some(b)
    ensures var rest := WalkFrom(edid, blockNum, b.index + b.length + 1, end);
      WalkFrom(edid, blockNum, b.index, end) == Walk([b] + rest.blocks, rest.failed)
  {
  }

  lemma ExpectedStep(ps: seq<Payload>, index: int, rest: seq<Block>)
    requires ps != []
    ensures Expected(ps, index) + rest ==
      [Expected([ps[0]], index)[0]] + (Expected(ps[1..], index + |ps[0].bytes| + 1) + rest)
  {
  }

  /** A walk from `index` finds the blocks of `ps`, then whatever it finds from `after` on. */
  predicate FindsThen(edid: seq<Registers>, blockNum: byte, ps: seq<Payload>, index: byte, after: byte, end: byte)
    requires |edid| == 2
  {
    var rest := WalkFrom(edid, blockNum, after, end);
    WalkFrom(edid, blockNum, index, end) == Walk(Expected(ps, index) + rest.blocks, rest.failed)
  }

  lemma WalkPassesPayload(edid: seq<Registers>, blockNum: byte, ps: seq<Payload>, index: byte, end: byte)
    requires |edid| == 2 && blockNum <= 1 && ps != [] && forall p :: p in ps ==> Encodable(p)
    requires Holds(edid[blockNum], ps, index) && index + |ps[0].bytes| < end && index + |ps[0].bytes| + 1 < BLOCK_SIZE
    ensures var rest := WalkFrom(edid, blockNum, index + |ps[0].bytes| + 1, end);
      WalkFrom(edid, blockNum, index, end) == Walk([Expected([ps[0]], index)[0]] + rest.blocks, rest.failed)
  {
    HoldsRest(edid[blockNum], ps, index);
    HeaderOfPayload(edid, blockNum, ps[0], index);
    WalkStep(edid, blockNum, Expected([ps[0]], index)[0], end);
  }

  lemma FindsPayload(edid: seq<Registers>, blockNum: byte, ps: seq<Payload>, index: byte, after: byte, end: byte)
    requires |edid| == 2 && blockNum <= 1 && ps != [] && forall p :: p in ps ==> Encodable(p)
    requires Holds(edid[blockNum], ps, index) && index + |ps[0].bytes| < end && index + |ps[0].bytes| + 1 < BLOCK_SIZE
    requires FindsThen(edid, blockNum, ps[1..], index + |ps[0].bytes| + 1, after, end)
    ensures FindsThen(edid, blockNum, ps, index, after, end)
  {
    WalkPassesPayload(edid, blockNum, ps, index, end);
    ExpectedStep(ps, index, WalkFrom(edid, blockNum, after, end).blocks);
  }

  /** A walk that does not end within the payloads finds them, then whatever follows. */
  lemma {:induction false} WalkReadsLayout(edid: seq<Registers>, blockNum: byte,
      ps: seq<Payload>, index: byte, after: byte, end: byte)
    requires |edid| == 2 && blockNum <= 1 && forall p :: p in ps ==> Encodable(p)
    requires Holds(edid[blockNum], ps, index) && index + |Encode(ps)| == after <= end
    ensures FindsThen(edid, blockNum, ps, index, after, end)
    decreases |ps|
  {
    if ps == [] {
      var rest := WalkFrom(edid, blockNum, after, end).blocks;
      assert Expected(ps, index) + rest == rest;
    } else {
      HoldsRest(edid[blockNum], ps, index);
      WalkReadsLayout(edid, blockNum, ps[1..], index + |ps[0].bytes| + 1, after, end);
      FindsPayload(edid, blockNum, ps, index, after, end);
    }
  }

  /** Laying out any list of tagged blocks that fits, with detailed timings after it or none,
      and looking one up by tag and number, gives its offset and length, or nothing when there
      are not so many. */
  lemma LookUpFindsLayout(edid: seq<Registers>, blockNum: byte, ps: seq<Payload>, tag: int, extTag: int, inst: nat)
    requires |edid| == 2 && blockNum <= 1 && forall p :: p in ps ==> Encodable(p)
    requires LaidOut(edid[blockNum], ps) || LaidOutUntimed(edid[blockNum], ps)
    ensures LookUp(edid, blockNum, tag, extTag, inst) == Outcome(Walk(Expected(ps, 4), false), tag, extTag, inst)
  {
    var end: byte := if LaidOut(edid[blockNum], ps) then 4 + |Encode(ps)| else 126;
    WalkReadsLayout(edid, blockNum, ps, 4, 4 + |Encode(ps)|, end);
    assert WalkFrom(edid, blockNum, 4 + |Encode(ps)|, end) == Walk([], false);
    assert Expected(ps, 4) + [] == Expected(ps, 4);
  }

  /** Without detailed timings a data block may begin at byte 125 and none at 126: after
      payloads that fill the bytes before, the header at 125 is the next match, or makes the
      lookup fail when it cannot be read, and whatever stands at 126 is not looked at. */
  lemma BlocksEndAt126(edid: seq<Registers>, blockNum: byte, ps: seq<Payload>, extTag: int)
    requires |edid| == 2 && blockNum <= 1 && forall p :: p in ps ==> Encodable(p)
    requires edid[blockNum][2] == Some(0) && Holds(edid[blockNum], ps, 4) && 125 <= 4 + |Encode(ps)| <= 126
    ensures 4 + |Encode(ps)| == 125 ==>
      LookUp(edid, blockNum, TAG_WILDCARD, extTag, |ps|) ==
        match edid[blockNum][125]
        case None => Unreadable
        case Some(v) =>
          if v == 0 then NotFound
          else if v > 224 && edid[blockNum][126].None? then Unreadable
          else Found(125, v % 32)
    ensures 4 + |Encode(ps)| == 126 ==> LookUp(edid, blockNum, TAG_WILDCARD, extTag, |ps|) == NotFound
  {
    var after: byte := 4 + |Encode(ps)|;
    WalkReadsLayout(edid, blockNum, ps, 4, after, 126);
    ExpectedAll(ps, 4);
    var rest := WalkFrom(edid, blockNum, after, 126);
    WildcardMatchesAll(Expected(ps, 4) + rest.blocks, extTag);
    if after == 125 {
      LastHeader(edid, blockNum);
    }
  }

  lemma LastHeader(edid: seq<Registers>, blockNum: byte)
    requires |edid| == 2 && blockNum <= 1
    ensures var w := WalkFrom(edid, blockNum, 125, 126);
      match edid[blockNum][125]
      case None => w == Walk([], true)
      case Some(v) =>
        if v == 0 then w == Walk([], false)
        else if v > 224 && edid[blockNum][126].None? then w == Walk([], true)
        else |w.blocks| == 1 && !w.failed && w.blocks[0].index == 125 && w.blocks[0].length == v % 32
  {
  }

  /** In particular payload `k` is the wildcard match number `k`, at the offset its
      predecessors add up to. */
  lemma {:induction false} EveryPayloadIsExpected(ps: seq<Payload>, index: int, k: nat)
    requires k < |ps| && forall p :: p in ps ==> Encodable(p)
    ensures |Expected(ps, index)| == |ps|
    ensures var b := Expected(ps, index)[k];
      b.index == index + |Encode(ps[..k])| && b.tag == ps[k].tag && b.length == |ps[k].bytes|
    decreases |ps|
  {
    ExpectedAll(ps, index);
    if k > 0 {
      EveryPayloadIsExpected(ps[1..], index + |ps[0].bytes| + 1, k - 1);
      assert ps[..k][1..] == ps[1..][..k - 1];
    } else {
      assert ps[..0] == [];
    }
  }

  lemma {:induction false} ExpectedAll(ps: seq<Payload>, index: int)
    ensures |Expected(ps, index)| == |ps|
    decreases |ps|
  {
    if ps != [] {
      ExpectedAll(ps[1..], index + |ps[0].bytes| + 1);
    }
  }

  lemma {:induction false} WildcardMatchesAll(bs: seq<Block>, extTag: int)
    ensures Matching(bs, TAG_WILDCARD, extTag) == bs
    decreases |bs|
  {
    if bs != [] {
      WildcardMatchesAll(bs[1..], extTag);
    }
  }

  lemma PayloadRoundTrip(edid: seq<Registers>, blockNum: byte, ps: seq<Payload>, k: nat)
    requires |edid| == 2 && blockNum <= 1 && k < |ps| && forall p :: p in ps ==> Encodable(p)
    requires LaidOut(edid[blockNum], ps) || LaidOutUntimed(edid[blockNum], ps)
    ensures LookUp(edid, blockNum, TAG_WILDCARD, EXTENDED_TAG_RESERVED, k)
      == Found(4 + |Encode(ps[..k])|, |ps[k].bytes|)
  {
    LookUpFindsLayout(edid, blockNum, ps, TAG_WILDCARD, EXTENDED_TAG_RESERVED, k);
    EveryPayloadIsExpected(ps, 4, k);
    WildcardMatchesAll(Expected(ps, 4), EXTENDED_TAG_RESERVED);
  }

  // ----- looking up by tag -----

  /** A payload of the type a lookup names. */
  predicate OfKind(p: Payload, tag: int, extTag: int) {
    p.tag == tag && (tag == TAG_EXTENDED ==> extTag == if p.bytes == [] then EXTENDED_TAG_RESERVED else p.bytes[0])
  }

  /** How many of the first `k` payloads are of that type. */
  function CountOfKind(ps: seq<Payload>, k: nat, tag: int, extTag: int): nat
    requires k <= |ps|
  {
    if k == 0 then 0
    else (if OfKind(ps[0], tag, extTag) then 1 else 0) + CountOfKind(ps[1..], k - 1, tag, extTag)
  }

  lemma {:induction false} MatchingCounts(ps: seq<Payload>, index: int, k: nat, tag: int, extTag: int)
    requires k < |ps| && tag != TAG_WILDCARD && OfKind(ps[k], tag, extTag)
    ensures |Expected(ps, index)| == |ps|
    ensures var ms, c := Matching(Expected(ps, index), tag, extTag), CountOfKind(ps, k, tag, extTag);
      c < |ms| && ms[c] == Expected(ps, index)[k]
    decreases |ps|
  {
    ExpectedAll(ps, index);
    var b, rest := Expected([ps[0]], index)[0], Expected(ps[1..], index + |ps[0].bytes| + 1);
    assert Expected(ps, index) == [b] + rest;
    MatchingCons(b, rest, tag, extTag);
    assert Matches(b, tag, extTag) <==> OfKind(ps[0], tag, extTag);
    if k > 0 {
      MatchingCounts(ps[1..], index + |ps[0].bytes| + 1, k - 1, tag, extTag);
    }
  }

  lemma {:induction false} MatchingNoMore(ps: seq<Payload>, index: int, tag: int, extTag: int)
    requires tag != TAG_WILDCARD
    ensures |Matching(Expected(ps, index), tag, extTag)| == CountOfKind(ps, |ps|, tag, extTag)
    decreases |ps|
  {
    if ps != [] {
      var b, rest := Expected([ps[0]], index)[0], Expected(ps[1..], index + |ps[0].bytes| + 1);
      assert Expected(ps, index) == [b] + rest;
      MatchingCons(b, rest, tag, extTag);
      MatchingNoMore(ps[1..], index + |ps[0].bytes| + 1, tag, extTag);
    }
  }

  /** Payload `k` is found by its own type under the number of payloads of that type before it,
      and a type has as many numbers as there are payloads of it. */
  lemma TaggedRoundTrip(edid: seq<Registers>, blockNum: byte, ps: seq<Payload>, k: nat, tag: int, extTag: int)
    requires |edid| == 2 && blockNum <= 1 && k < |ps| && forall p :: p in ps ==> Encodable(p)
    requires LaidOut(edid[blockNum], ps) || LaidOutUntimed(edid[blockNum], ps)
    requires tag != TAG_WILDCARD
    ensures OfKind(ps[k], tag, extTag) ==>
      LookUp(edid, blockNum, tag, extTag, CountOfKind(ps, k, tag, extTag))
        == Found(4 + |Encode(ps[..k])|, |ps[k].bytes|)
    ensures LookUp(edid, blockNum, tag, extTag, CountOfKind(ps, |ps|, tag, extTag)) == NotFound
  {
    MatchingNoMore(ps, 4, tag, extTag);
    LookUpFindsLayout(edid, blockNum, ps, tag, extTag, CountOfKind(ps, |ps|, tag, extTag));
    if OfKind(ps[k], tag, extTag) {
      LookUpFindsLayout(edid, blockNum, ps, tag, extTag, CountOfKind(ps, k, tag, extTag));
      EveryPayloadIsExpected(ps, 4, k);
      MatchingCounts(ps, 4, k, tag, extTag);
    }
  }
}
