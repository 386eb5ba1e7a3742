/**
 Finding a short audio descriptor in the audio data blocks of a CEA-861 extension, and
 which descriptors a caller who asks for number 0, 1, 2, ... gets to see.
 */
module AudioDescriptors {
  import opened Basics
  import opened DataBlocks

  const TAG_AUDIO := 1
  const FORMAT_WILDCARD := 0

  // ----- data blocks in order -----

  /** The blocks lie one after the other from `at` on. */
  predicate InOrder(bs: seq<Block>, at: int) {
    bs == [] ||
    (at <= bs[0].index < BLOCK_SIZE && 0 <= bs[0].length < 32 && InOrder(bs[1..], bs[0].index + bs[0].length + 1))
  }

  lemma {:induction false} WalkInOrder(edid: seq<Registers>, blockNum: byte, index: byte, end: byte)
    requires |edid| == 2
    ensures InOrder(WalkFrom(edid, blockNum, index, end).blocks, index)
    decreases 256 - index
  {
    var w := WalkFrom(edid, blockNum, index, end);
    if w.blocks != [] {
      var b := Header(edid, blockNum, index).value;
      WalkInOrder(edid, blockNum, index + b.length + 1, end);
      assert w.blocks[1..] == WalkFrom(edid, blockNum, index + b.length + 1, end).blocks;
    }
  }

  lemma {:induction false} MatchingInOrder(bs: seq<Block>, at: int, from: int, tag: int, extTag: int)
    requires InOrder(bs, at) && from <= at
    ensures InOrder(Matching(bs, tag, extTag), from)
    decreases |bs|
  {
    if bs != [] {
      var next := bs[0].index + bs[0].length + 1;
      if Matches(bs[0], tag, extTag) {
        MatchingInOrder(bs[1..], next, next, tag, extTag);
        assert Matching(bs, tag, extTag)[1..] == Matching(bs[1..], tag, extTag);
      } else {
        MatchingInOrder(bs[1..], next, from, tag, extTag);
        assert Matching(bs, tag, extTag) == Matching(bs[1..], tag, extTag);
      }
    }
  }

  lemma {:induction false} InOrderAt(bs: seq<Block>, at: int, k: nat)
    requires InOrder(bs, at) && k < |bs|
    ensures at + k <= bs[k].index < BLOCK_SIZE && 0 <= bs[k].length < 32
    decreases k
  {
    if k > 0 {
      InOrderAt(bs[1..], bs[0].index + bs[0].length + 1, k - 1);
    }
  }

  lemma {:induction false} InOrderApart(bs: seq<Block>, at: int, k: nat, l: nat)
    requires InOrder(bs, at) && k < l < |bs|
    ensures bs[k].index + bs[k].length < bs[l].index
    decreases k
  {
    if k == 0 {
      InOrderAt(bs[1..], bs[0].index + bs[0].length + 1, l - 1);
    } else {
      InOrderApart(bs[1..], bs[0].index + bs[0].length + 1, k - 1, l - 1);
    }
  }

  // ----- the descriptors of one block -----

  function FormatOf(v: byte): int {
    (v / 8) % 16
  }

  /** The format stands in bits 3 to 6. */
  lemma FormatIsMiddle(reserved: nat, format: nat, channels: nat)
    requires reserved < 2 && format < 16 && channels < 8
    ensures FormatOf(128 * reserved + 8 * format + channels) == format
  {
  }

  /** The offsets of the descriptors of a format, as far as they can be read. */
  datatype Descriptors = Descriptors(found: seq<int>, failed: bool)

  /** Among the `n` three-byte descriptors from `at` on; a wildcard matches unread. */
  function DescriptorsFrom(edid: seq<Registers>, blockNum: byte, at: byte, n: nat, format: int): Descriptors
    requires |edid| == 2 && at + 3 * n < 256
    decreases n
  {
    if n == 0 then Descriptors([], false)
    else if format == FORMAT_WILDCARD then
      var rest := DescriptorsFrom(edid, blockNum, at + 3, n - 1, format);
      Descriptors([at as int] + rest.found, rest.failed)
    else
      match ReadRegister(edid, blockNum, at)
      case None => Descriptors([], true)
      case Some(v) =>
        var rest := DescriptorsFrom(edid, blockNum, at + 3, n - 1, format);
        Descriptors((if FormatOf(v) == format then [at as int] else []) + rest.found, rest.failed)
  }

  /** The wildcard finds all descriptors, unread. */
  lemma {:induction false} WildcardFindsAll(edid: seq<Registers>, blockNum: byte, at: byte, n: nat, j: nat)
    requires |edid| == 2 && at + 3 * n < 256 && j < n
    ensures var d := DescriptorsFrom(edid, blockNum, at, n, FORMAT_WILDCARD);
      !d.failed && |d.found| == n && d.found[j] == at + 3 * j
    decreases n
  {
    if n > 1 {
      WildcardFindsAll(edid, blockNum, at + 3, n - 1, if j > 0 then j - 1 else 0);
    }
  }

  /** A format finds the descriptors that carry it, while all can be read. */
  lemma {:induction false} FormatFindsOwn(edid: seq<Registers>, blockNum: byte, at: byte, n: nat, format: int, j: nat)
    requires |edid| == 2 && at + 3 * n < 256 && j < n && format != FORMAT_WILDCARD
    requires !DescriptorsFrom(edid, blockNum, at, n, format).failed
    ensures var byte1 := ReadRegister(edid, blockNum, at + 3 * j);
      byte1.Some? &&
      (FormatOf(byte1.value) == format <==> at + 3 * j in DescriptorsFrom(edid, blockNum, at, n, format).found)
    decreases n
  {
    var rest := DescriptorsFrom(edid, blockNum, at + 3, n - 1, format);
    forall x | x in rest.found ensures x >= at + 3 {
      var i :| 0 <= i < |rest.found| && rest.found[i] == x;
      DescriptorsInBlock(edid, blockNum, at + 3, n - 1, format, i);
    }
    if j > 0 {
      FormatFindsOwn(edid, blockNum, at + 3, n - 1, format, j - 1);
    }
  }

  /** The search of a block fails exactly when a descriptor it has to read cannot be read. */
  lemma {:induction false} FailsIff(edid: seq<Registers>, blockNum: byte, at: byte, n: nat, format: int)
    requires |edid| == 2 && at + 3 * n < 256
    ensures DescriptorsFrom(edid, blockNum, at, n, format).failed <==>
      && format != FORMAT_WILDCARD
      && exists k :: at <= k < at + 3 * n && (k - at) % 3 == 0 && Unreadable(edid, blockNum, k)
    decreases n
  {
    if n > 0 {
      FailsIff(edid, blockNum, at + 3, n - 1, format);
      assert Unreadable(edid, blockNum, at) <==> ReadRegister(edid, blockNum, at).None?;
    }
  }

  predicate Unreadable(edid: seq<Registers>, blockNum: byte, k: int)
    requires |edid| == 2 && 0 <= k < 256
  {
    ReadRegister(edid, blockNum, k).None?
  }

  lemma FoundStep(edid: seq<Registers>, blockNum: byte, at: byte, n: nat, format: int)
    requires |edid| == 2 && n > 0 && at + 3 * n < 256
    ensures var found := DescriptorsFrom(edid, blockNum, at, n, format).found;
      var rest := DescriptorsFrom(edid, blockNum, at + 3, n - 1, format).found;
      found == [] || found == rest || found == [at as int] + rest
  {
  }

  lemma {:induction false} DescriptorsInBlock(edid: seq<Registers>, blockNum: byte, at: byte,
      n: nat, format: int, i: nat)
    requires |edid| == 2 && at + 3 * n < 256 && i < |DescriptorsFrom(edid, blockNum, at, n, format).found|
    ensures at <= DescriptorsFrom(edid, blockNum, at, n, format).found[i] < at + 3 * n
    ensures |DescriptorsFrom(edid, blockNum, at, n, format).found| <= n
    decreases n
  {
    FoundStep(edid, blockNum, at, n, format);
    var found := DescriptorsFrom(edid, blockNum, at, n, format).found;
    var rest := DescriptorsFrom(edid, blockNum, at + 3, n - 1, format).found;
    if found == rest {
      DescriptorsInBlock(edid, blockNum, at + 3, n - 1, format, i);
    } else if rest != [] {
      DescriptorsInBlock(edid, blockNum, at + 3, n - 1, format, if i > 0 then i - 1 else 0);
    }
  }

  lemma {:induction false} DescriptorsDiffer(edid: seq<Registers>, blockNum: byte, at: byte, n: nat,
      format: int, i: nat, j: nat)
    requires |edid| == 2 && at + 3 * n < 256
    requires i < j < |DescriptorsFrom(edid, blockNum, at, n, format).found|
    ensures var found := DescriptorsFrom(edid, blockNum, at, n, format).found; found[i] < found[j]
    decreases n
  {
    FoundStep(edid, blockNum, at, n, format);
    var found := DescriptorsFrom(edid, blockNum, at, n, format).found;
    var rest := DescriptorsFrom(edid, blockNum, at + 3, n - 1, format).found;
    if found == rest {
      DescriptorsDiffer(edid, blockNum, at + 3, n - 1, format, i, j);
    } else if i == 0 {
      DescriptorsInBlock(edid, blockNum, at + 3, n - 1, format, j - 1);
    } else {
      DescriptorsDiffer(edid, blockNum, at + 3, n - 1, format, i - 1, j - 1);
    }
  }

  // ----- the search -----

  datatype Reached = At(index: int) | Nowhere | Unread

  function InBlock(edid: seq<Registers>, blockNum: byte, b: Block, format: int): Descriptors
    requires |edid| == 2 && 0 <= b.index < BLOCK_SIZE && 0 <= b.length < 32
  {
    DescriptorsFrom(edid, blockNum, b.index + 1, b.length / 3, format)
  }

  /** Number `inst` of one block. */
  function Pick(d: Descriptors, inst: nat): Reached {
    if inst < |d.found| then At(d.found[inst]) else if d.failed then Unread else Nowhere
  }

  predicate Placed(bs: seq<Block>) {
    forall k {:trigger bs[k]} :: 0 <= k < |bs| ==> 4 <= bs[k].index < BLOCK_SIZE && 0 <= bs[k].length < 32
  }

  /** The first block from number `k` on that holds more than `inst` of them gives its own
      number `inst`: the count begins anew with every block. */
  function Search(edid: seq<Registers>, blockNum: byte, w: Walk, k: nat, format: int, inst: nat): Reached
    requires |edid| == 2 && Placed(w.blocks) && k <= |w.blocks|
    decreases |w.blocks| - k
  {
    if k == |w.blocks| then (if w.failed then Unread else Nowhere)
    else
      match Pick(InBlock(edid, blockNum, w.blocks[k], format), inst)
      case Nowhere => Search(edid, blockNum, w, k + 1, format, inst)
      case r => r
  }

  lemma InOrderIsPlaced(bs: seq<Block>)
    requires InOrder(bs, 4)
    ensures Placed(bs)
  {
    forall k | 0 <= k < |bs| ensures 4 <= bs[k].index < BLOCK_SIZE && 0 <= bs[k].length < 32 {
      InOrderAt(bs, 4, k);
    }
  }

  /** The data blocks with a tag, in order. */
  function TaggedWalk(edid: seq<Registers>, blockNum: byte, tag: int): (r: Walk)
    requires |edid| == 2
    ensures InOrder(r.blocks, 4) && Placed(r.blocks)
  {
    match ReadRegister(edid, blockNum, 2)
    case None => Walk([], true)
    case Some(d) =>
      var w := WalkFrom(edid, blockNum, 4, BlocksEnd(d));
      WalkInOrder(edid, blockNum, 4, BlocksEnd(d));
      MatchingInOrder(w.blocks, 4, 4, tag, EXTENDED_TAG_RESERVED);
      InOrderIsPlaced(Matching(w.blocks, tag, EXTENDED_TAG_RESERVED));
      Walk(Matching(w.blocks, tag, EXTENDED_TAG_RESERVED), w.failed)
  }

  function AudioWalk(edid: seq<Registers>, blockNum: byte): (r: Walk)
    requires |edid| == 2
    ensures InOrder(r.blocks, 4) && Placed(r.blocks)
  {
    TaggedWalk(edid, blockNum, TAG_AUDIO)
  }

  function DescriptorLookup(edid: seq<Registers>, blockNum: byte, format: int, inst: nat): Reached
    requires |edid| == 2
  {
    if blockNum == 0 || blockNum == 255 then Unread
    else Search(edid, blockNum, AudioWalk(edid, blockNum), 0, format, inst)
  }

  /** Block number `k` with the tag, at index 0 when there is none. */
  method NextBlock(edid: seq<Registers>, blockNum: byte, tag: int, k: byte, ghost w: Walk)
    returns (read: bool, dbIndex: byte, dbLength: byte)
    requires |edid| == 2 && w == TaggedWalk(edid, blockNum, tag) && k <= |w.blocks|
    ensures k < |w.blocks| ==>
      read && 0 < dbIndex == w.blocks[k].index < BLOCK_SIZE && dbLength == w.blocks[k].length < 32
    ensures k == |w.blocks| ==> dbIndex == 0 && read == !w.failed
  {
    read, dbIndex, dbLength := GetIndexForDatablock(edid, blockNum, tag, EXTENDED_TAG_RESERVED, k);
  }

  predicate Tells(want: Reached, ok: bool, index: int) {
    match want
    case At(i) => ok && index == i
    case Nowhere => ok && index == 0
    case Unread => !ok && index == 0
  }

  /** The same as one pass that keeps no list. */
  function PickFrom(edid: seq<Registers>, blockNum: byte, at: byte, n: nat, format: int, inst: nat): Reached
    requires |edid| == 2 && at + 3 * n < 256
    decreases n
  {
    if n == 0 then Nowhere
    else if format != FORMAT_WILDCARD && ReadRegister(edid, blockNum, at).None? then Unread
    else if format != FORMAT_WILDCARD && FormatOf(ReadRegister(edid, blockNum, at).value) != format then
      PickFrom(edid, blockNum, at + 3, n - 1, format, inst)
    else if inst == 0 then At(at)
    else PickFrom(edid, blockNum, at + 3, n - 1, format, inst - 1)
  }

  lemma {:induction false} PickFromIsPick(edid: seq<Registers>, blockNum: byte, at: byte,
      n: nat, format: int, inst: nat)
    requires |edid| == 2 && at + 3 * n < 256
    ensures PickFrom(edid, blockNum, at, n, format, inst) == Pick(DescriptorsFrom(edid, blockNum, at, n, format), inst)
    decreases n
  {
    if n > 0 && (format == FORMAT_WILDCARD || ReadRegister(edid, blockNum, at).Some?) {
      if format != FORMAT_WILDCARD && FormatOf(ReadRegister(edid, blockNum, at).value) != format {
        PickFromIsPick(edid, blockNum, at + 3, n - 1, format, inst);
      } else if inst > 0 {
        PickFromIsPick(edid, blockNum, at + 3, n - 1, format, inst - 1);
      }
    }
  }

  /** Is the descriptor at `dsIndex` of the format?  A wildcard matches unread. */
  method MatchDescriptor(edid: seq<Registers>, blockNum: byte, dsIndex: byte, format: int)
    returns (unread: bool, isMatch: bool)
    requires |edid| == 2
    ensures unread <==> format != FORMAT_WILDCARD && ReadRegister(edid, blockNum, dsIndex).None?
    ensures !unread ==> (isMatch <==>
        format == FORMAT_WILDCARD || FormatOf(ReadRegister(edid, blockNum, dsIndex).value) == format)
  {
    unread, isMatch := false, format == FORMAT_WILDCARD;
    if format != FORMAT_WILDCARD {
      var byte1 := ReadRegister(edid, blockNum, dsIndex);
      if byte1.None? {
        return true, false;
      }
      isMatch := FormatOf(byte1.value) == format;
    }
  }

  /** The descriptors of one audio block, up to number `inst`; index 0 is none. */
  method ScanBlock(edid: seq<Registers>, blockNum: byte, dbIndex: byte, dbLength: byte, format: int, inst: byte)
    returns (failed: bool, index: byte)
    requires |edid| == 2 && 4 <= dbIndex < BLOCK_SIZE && dbLength < 32
    ensures PickFrom(edid, blockNum, dbIndex + 1, dbLength / 3, format, inst) ==
      if failed then Unread else if index == 0 then Nowhere else At(index)
  {
    var dsIndex: byte := dbIndex + 1;
    var numDescriptors := dbLength / 3;
    var matchCount: byte := 0;
    ghost var want := PickFrom(edid, blockNum, dsIndex, numDescriptors, format, inst);
    for j := 0 to numDescriptors
      invariant dsIndex == dbIndex + 1 + 3 * j && matchCount <= j && matchCount <= inst
      invariant want == PickFrom(edid, blockNum, dsIndex, numDescriptors - j, format, inst - matchCount)
    {
      var unread, isMatch := MatchDescriptor(edid, blockNum, dsIndex, format);
      if unread {
        return true, 0;
      }
      if isMatch {
        if matchCount == inst {
          return false, dsIndex;
        }
        matchCount := matchCount + 1;
      }
      dsIndex := dsIndex + 3;
    }
    return false, 0;
  }

  /** get_index_for_audio_descriptor: for every content of the block it ends before its 254
      rounds are up and reports what the search says. */
  method GetIndexForAudioDescriptor(edid: seq<Registers>, blockNum: byte, format: int, inst: byte)
    returns (ok: bool, index: byte)
    requires |edid| == 2
    ensures Tells(DescriptorLookup(edid, blockNum, format, inst), ok, index)
    ensures blockNum != 1 ==> !ok
  {
    if blockNum == 0 || blockNum == 255 {
      return false, 0;
    }
    ok, index := true, 0;
    var dbInst: byte := 0;
    ghost var w := AudioWalk(edid, blockNum);
    ghost var want := DescriptorLookup(edid, blockNum, format, inst);
    for i := 0 to 254
      invariant dbInst == i <= |w.blocks|
      invariant want == Search(edid, blockNum, w, i, format, inst)
    {
      var read, dbIndex, dbLength := NextBlock(edid, blockNum, TAG_AUDIO, dbInst, w);
      if !read {
        return false, 0;
      }
      if dbIndex == 0 {
        return true, 0;
      }
      PickFromIsPick(edid, blockNum, dbIndex + 1, dbLength / 3, format, inst);
      var failed, found := ScanBlock(edid, blockNum, dbIndex, dbLength, format, inst);
      if failed {
        return false, 0;
      }
      if found != 0 {
        return true, found;
      }
      dbInst := dbInst + 1;
    }
    InOrderAt(w.blocks, 4, 253);
  }

  // ----- which descriptors are reached -----

  /** Everything a complete enumeration has to read can be read. */
  predicate Readable(edid: seq<Registers>, blockNum: byte, format: int)
    requires |edid| == 2
  {
    var w := AudioWalk(edid, blockNum);
    && blockNum == 1 && !w.failed
    && forall k {:trigger w.blocks[k]} :: 0 <= k < |w.blocks| ==> !InBlock(edid, blockNum, w.blocks[k], format).failed
  }

  /** The descriptors audio block `k` holds. */
  function Held(edid: seq<Registers>, blockNum: byte, format: int, k: nat): seq<int>
    requires |edid| == 2 && k < |AudioWalk(edid, blockNum).blocks|
  {
    InBlock(edid, blockNum, AudioWalk(edid, blockNum).blocks[k], format).found
  }

  /** Descriptors of different blocks have different offsets. */
  lemma HeldApart(edid: seq<Registers>, blockNum: byte, format: int, k: nat, l: nat, i: nat, j: nat)
    requires |edid| == 2 && k < l < |AudioWalk(edid, blockNum).blocks|
    requires i < |Held(edid, blockNum, format, k)| && j < |Held(edid, blockNum, format, l)|
    ensures Held(edid, blockNum, format, k)[i] < Held(edid, blockNum, format, l)[j]
  {
    var bs := AudioWalk(edid, blockNum).blocks;
    InOrderAt(bs, 4, k);
    InOrderAt(bs, 4, l);
    InOrderApart(bs, 4, k, l);
    DescriptorsInBlock(edid, blockNum, bs[k].index + 1, bs[k].length / 3, format, i);
    DescriptorsInBlock(edid, blockNum, bs[l].index + 1, bs[l].length / 3, format, j);
  }

  predicate IsReached(edid: seq<Registers>, blockNum: byte, format: int, offset: int)
    requires |edid| == 2
  {
    exists inst: nat :: inst < 255 && DescriptorLookup(edid, blockNum, format, inst) == At(offset)
  }

  /** The first block holding more than `inst`, from `k` on, if any. */
  function FirstLonger(edid: seq<Registers>, blockNum: byte, format: int, inst: nat, k: nat): (r: Option<nat>)
    requires |edid| == 2 && k <= |AudioWalk(edid, blockNum).blocks|
    ensures r.Some? ==>
      k <= r.value < |AudioWalk(edid, blockNum).blocks| && inst < |Held(edid, blockNum, format, r.value)|
    ensures forall m :: k <= m < (if r.Some? then r.value else |AudioWalk(edid, blockNum).blocks|) ==>
      |Held(edid, blockNum, format, m)| <= inst
    decreases |AudioWalk(edid, blockNum).blocks| - k
  {
    if k == |AudioWalk(edid, blockNum).blocks| then None
    else if inst < |Held(edid, blockNum, format, k)| then Some(k)
    else FirstLonger(edid, blockNum, format, inst, k + 1)
  }

  lemma {:induction false} SearchIsFirstLonger(edid: seq<Registers>, blockNum: byte, format: int, inst: nat, k: nat)
    requires |edid| == 2 && Readable(edid, blockNum, format) && k <= |AudioWalk(edid, blockNum).blocks|
    ensures Search(edid, blockNum, AudioWalk(edid, blockNum), k, format, inst) ==
      match FirstLonger(edid, blockNum, format, inst, k)
      case Some(f) => At(Held(edid, blockNum, format, f)[inst])
      case None => Nowhere
    decreases |AudioWalk(edid, blockNum).blocks| - k
  {
    if k < |AudioWalk(edid, blockNum).blocks| {
      SearchIsFirstLonger(edid, blockNum, format, inst, k + 1);
    }
  }

  /** Number `inst` is number `inst` of the first block that holds so many. */
  lemma LookupIsFirstLonger(edid: seq<Registers>, blockNum: byte, format: int, inst: nat)
    requires |edid| == 2 && Readable(edid, blockNum, format)
    ensures DescriptorLookup(edid, blockNum, format, inst) ==
      match FirstLonger(edid, blockNum, format, inst, 0)
      case Some(f) => At(Held(edid, blockNum, format, f)[inst])
      case None => Nowhere
  {
    SearchIsFirstLonger(edid, blockNum, format, inst, 0);
  }

  lemma NotReached(edid: seq<Registers>, blockNum: byte, format: int, k: nat, i: nat, inst: nat)
    requires |edid| == 2 && Readable(edid, blockNum, format)
    requires k < |AudioWalk(edid, blockNum).blocks| && i < |Held(edid, blockNum, format, k)|
    requires DescriptorLookup(edid, blockNum, format, inst) == At(Held(edid, blockNum, format, k)[i])
    ensures forall m :: 0 <= m < k ==> |Held(edid, blockNum, format, m)| <= i
  {
    LookupIsFirstLonger(edid, blockNum, format, inst);
    var f := FirstLonger(edid, blockNum, format, inst, 0).value;
    if f < k {
      HeldApart(edid, blockNum, format, f, k, inst, i);
    } else if k < f {
      HeldApart(edid, blockNum, format, k, f, i, inst);
    } else {
      SameDescriptor(edid, blockNum, format, k, inst, i);
    }
  }

  lemma SameDescriptor(edid: seq<Registers>, blockNum: byte, format: int, k: nat, i: nat, j: nat)
    requires |edid| == 2 && k < |AudioWalk(edid, blockNum).blocks|
    requires i < |Held(edid, blockNum, format, k)| && j < |Held(edid, blockNum, format, k)|
    requires Held(edid, blockNum, format, k)[i] == Held(edid, blockNum, format, k)[j]
    ensures i == j
  {
    var bs := AudioWalk(edid, blockNum).blocks;
    InOrderAt(bs, 4, k);
    if i < j {
      DescriptorsDiffer(edid, blockNum, bs[k].index + 1, bs[k].length / 3, format, i, j);
    } else if j < i {
      DescriptorsDiffer(edid, blockNum, bs[k].index + 1, bs[k].length / 3, format, j, i);
    }
  }

  lemma HeldIsShort(edid: seq<Registers>, blockNum: byte, format: int, k: nat)
    requires |edid| == 2 && k < |AudioWalk(edid, blockNum).blocks|
    ensures |Held(edid, blockNum, format, k)| <= 10
  {
    var bs := AudioWalk(edid, blockNum).blocks;
    InOrderAt(bs, 4, k);
    if Held(edid, blockNum, format, k) != [] {
      DescriptorsInBlock(edid, blockNum, bs[k].index + 1, bs[k].length / 3, format, 0);
    }
  }

  /** Descriptor `i` of block `k` is reached exactly when every earlier block holds at most `i`. */
  lemma ReachedIff(edid: seq<Registers>, blockNum: byte, format: int, k: nat, i: nat)
    requires |edid| == 2 && Readable(edid, blockNum, format)
    requires k < |AudioWalk(edid, blockNum).blocks| && i < |Held(edid, blockNum, format, k)|
    ensures IsReached(edid, blockNum, format, Held(edid, blockNum, format, k)[i]) <==>
      forall m :: 0 <= m < k ==> |Held(edid, blockNum, format, m)| <= i
  {
    var offset := Held(edid, blockNum, format, k)[i];
    if forall m :: 0 <= m < k ==> |Held(edid, blockNum, format, m)| <= i {
      HeldIsShort(edid, blockNum, format, k);
      LookupIsFirstLonger(edid, blockNum, format, i);
      assert DescriptorLookup(edid, blockNum, format, i) == At(offset);
    } else if IsReached(edid, blockNum, format, offset) {
      var inst: nat :| inst < 255 && DescriptorLookup(edid, blockNum, format, inst) == At(offset);
      NotReached(edid, blockNum, format, k, i, inst);
    }
  }

  predicate HoldsSome(edid: seq<Registers>, blockNum: byte, format: int, k: nat)
    requires |edid| == 2 && k < |AudioWalk(edid, blockNum).blocks|
  {
    Held(edid, blockNum, format, k) != []
  }

  predicate AllReached(edid: seq<Registers>, blockNum: byte, format: int, k: nat)
    requires |edid| == 2 && k < |AudioWalk(edid, blockNum).blocks|
  {
    forall i :: 0 <= i < |Held(edid, blockNum, format, k)| ==>
      IsReached(edid, blockNum, format, Held(edid, blockNum, format, k)[i])
  }

  /** Asking for number 0, 1, 2, ... sees all descriptors of a format exactly when at most
      one audio block holds any. */
  lemma AllReachedIff(edid: seq<Registers>, blockNum: byte, format: int)
    requires |edid| == 2 && Readable(edid, blockNum, format)
    ensures var n := |AudioWalk(edid, blockNum).blocks|;
      (forall k :: 0 <= k < n ==> AllReached(edid, blockNum, format, k)) <==>
      (forall k, l :: 0 <= k < l < n ==>
          !(HoldsSome(edid, blockNum, format, k) && HoldsSome(edid, blockNum, format, l)))
  {
    var n := |AudioWalk(edid, blockNum).blocks|;
    if forall k, l :: 0 <= k < l < n ==>
      !(HoldsSome(edid, blockNum, format, k) && HoldsSome(edid, blockNum, format, l)) {
      forall k, i | 0 <= k < n && 0 <= i < |Held(edid, blockNum, format, k)|
        ensures IsReached(edid, blockNum, format, Held(edid, blockNum, format, k)[i])
      {
        assert HoldsSome(edid, blockNum, format, k);
        forall m | 0 <= m < k ensures |Held(edid, blockNum, format, m)| <= i {
          assert !HoldsSome(edid, blockNum, format, m);
        }
        ReachedIff(edid, blockNum, format, k, i);
      }
    } else {
      var k, l :| 0 <= k < l < n && HoldsSome(edid, blockNum, format, k) && HoldsSome(edid, blockNum, format, l);
      ReachedIff(edid, blockNum, format, l, 0);
      assert |Held(edid, blockNum, format, k)| > 0;
      assert !AllReached(edid, blockNum, format, l);
    }
  }

  /** And the numbers asked for have no gap: after the first that finds nothing, none finds
      anything. */
  lemma NumbersHaveNoGap(edid: seq<Registers>, blockNum: byte, format: int, inst: nat, later: nat)
    requires |edid| == 2 && Readable(edid, blockNum, format) && inst <= later
    requires DescriptorLookup(edid, blockNum, format, inst) == Nowhere
    ensures DescriptorLookup(edid, blockNum, format, later) == Nowhere
  {
    LookupIsFirstLonger(edid, blockNum, format, inst);
    LookupIsFirstLonger(edid, blockNum, format, later);
  }

  predicate TwoAudioBlocks(edid: seq<Registers>) {
    && |edid| == 2 && edid[1][2] == Some(12)
    && edid[1][4] == Some(35) && edid[1][5] == Some(9) && edid[1][8] == Some(35) && edid[1][9] == Some(9)
  }

  const FIRST := Block(4, TAG_AUDIO, EXTENDED_TAG_RESERVED, 3)
  const SECOND := Block(8, TAG_AUDIO, EXTENDED_TAG_RESERVED, 3)

  lemma TwoAudioBlocksAreFound(edid: seq<Registers>)
    requires TwoAudioBlocks(edid)
    ensures AudioWalk(edid, 1) == Walk([FIRST, SECOND], false)
  {
    assert Header(edid, 1, 4) == Some(FIRST) && Header(edid, 1, 8) == Some(SECOND);
    assert WalkFrom(edid, 1, 8, 12) == Walk([SECOND], false);
    assert WalkFrom(edid, 1, 4, 12) == Walk([FIRST, SECOND], false);
    assert Matching([], TAG_AUDIO, EXTENDED_TAG_RESERVED) == [];
    MatchingCons(SECOND, [], TAG_AUDIO, EXTENDED_TAG_RESERVED);
    MatchingCons(FIRST, [SECOND], TAG_AUDIO, EXTENDED_TAG_RESERVED);
  }

  /** Two audio blocks with one linear PCM descriptor each: number 0 is the first, no number
      is the second. */
  lemma SecondBlockIsHidden(edid: seq<Registers>)
    requires TwoAudioBlocks(edid)
    ensures AudioWalk(edid, 1).blocks == [FIRST, SECOND]
    ensures Held(edid, 1, 1, 0) == [5] && Held(edid, 1, 1, 1) == [9]
    ensures DescriptorLookup(edid, 1, 1, 0) == At(5) && !IsReached(edid, 1, 1, 9)
  {
    TwoAudioBlocksAreFound(edid);
    assert DescriptorsFrom(edid, 1, 5, 1, 1) == Descriptors([5], false);
    assert DescriptorsFrom(edid, 1, 9, 1, 1) == Descriptors([9], false);
    LookupIsFirstLonger(edid, 1, 1, 0);
    ReachedIff(edid, 1, 1, 1, 0);
  }
}
