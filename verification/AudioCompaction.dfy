/**
 Picking channels 0 and 1 out of interleaved 32-bit audio and packing their top halves at
 the front of the same buffer.  Reads and writes go through one memory: sample `i` occupies
 the 16-bit cells `2*i` (low half) and `2*i + 1` (top half).
 */
module AudioCompaction {
  import opened ModArith

  const UWORD := 0x10000

  /** The little-endian sample a pair of cells holds. */
  function Sample(cells: seq<nat>, i: nat): nat
    requires 2 * i + 1 < |cells|
  {
    cells[2 * i] + UWORD * cells[2 * i + 1]
  }

  predicate Cells(cells: seq<nat>) {
    forall j :: 0 <= j < |cells| ==> cells[j] < UWORD
  }

  /** Among the first `n` samples, those of channels 0 and 1, in order. */
  function Sources(n: nat, channels: nat): seq<nat>
    requires channels > 0
  {
    if n == 0 then []
    else Sources(n - 1, channels) + if (n - 1) % channels < 2 then [n - 1] else []
  }

  /** Output number `k` goes to cell `k` modulo 65536: the output counter has 16 bits. */
  function LastWriter(cell: nat, outputs: nat): nat
    requires cell < outputs && cell < UWORD
  {
    outputs - 1 - (outputs - 1 - cell) % UWORD
  }

  lemma LastWriterNext(cell: nat, outputs: nat)
    requires cell < outputs && cell < UWORD
    ensures LastWriter(cell, outputs) < outputs
    ensures LastWriter(cell, outputs + 1) == if outputs % UWORD == cell then outputs else LastWriter(cell, outputs)
  {
  }

  lemma ChannelNext(i: nat, channels: nat)
    requires channels > 0
    ensures (i + 1) % channels == if i % channels + 1 == channels then 0 else i % channels + 1
  {
    var q, r := i / channels, i % channels;
    assert i == q * channels + r;
    if r + 1 == channels {
      assert i + 1 == (q + 1) * channels + 0;
      DivModUnique(i + 1, q + 1, 0, channels);
    } else {
      DivModUnique(i + 1, q, r + 1, channels);
    }
  }

  /** The buffer `was` after the samples `src` were sent out: each cell reached holds the top
      half of the last sample sent to it, every other cell is as it was. */
  ghost predicate Packed(was: seq<nat>, now: seq<nat>, src: seq<nat>) {
    && |was| == |now| && |src| <= |was|
    && (forall k :: 0 <= k < |src| ==> 2 * src[k] + 1 < |was|)
    && (forall j :: 0 <= j < |was| && (j >= |src| || j >= UWORD) ==> now[j] == was[j])
    && (forall j :: 0 <= j < |src| && j < UWORD ==> now[j] == Sample(was, src[LastWriter(j, |src|)]) / UWORD)
  }

  lemma PackNext(was: seq<nat>, now: seq<nat>, src: seq<nat>, i: nat)
    requires Packed(was, now, src) && |src| <= i && 2 * i + 1 < |was|
    ensures now[2 * i] == was[2 * i] && now[2 * i + 1] == was[2 * i + 1]
    ensures Packed(was, now[|src| % UWORD := Sample(was, i) / UWORD], src + [i])
  {
    var now', src' := now[|src| % UWORD := Sample(was, i) / UWORD], src + [i];
    forall j | 0 <= j < |src'| && j < UWORD
      ensures now'[j] == Sample(was, src'[LastWriter(j, |src'|)]) / UWORD
    {
      if j < |src| {
        LastWriterNext(j, |src|);
      }
    }
  }

  /** The cell an output goes to. */
  function OutputCell(k: nat): nat {
    k % UWORD
  }

  lemma OutputCellNext(k: nat)
    ensures OutputCell(k + 1) == (OutputCell(k) + 1) % UWORD
  {
  }

  /** One output: the top half of sample `i` goes to the cell of the 16-bit counter. */
  method Emit(cells: array<nat>, qtSampleNdx: nat, i: nat, ghost was: seq<nat>, ghost src: seq<nat>)
    requires Packed(was, cells[..], src) && |src| <= i && 2 * i + 1 < cells.Length
    requires qtSampleNdx == OutputCell(|src|)
    modifies cells
    ensures Packed(was, cells[..], src + [i])
  {
    PackNext(was, cells[..], src, i);
    ghost var now := cells[..][|src| % UWORD := Sample(was, i) / UWORD];
    cells[qtSampleNdx] := (cells[2 * i] + UWORD * cells[2 * i + 1]) / UWORD;
    assert cells[..] == now;
  }

  function Channel(i: nat, channels: nat): nat
    requires channels > 0
  {
    i % channels
  }

  lemma SourcesNext(i: nat, channels: nat)
    requires channels > 0
    ensures Sources(i + 1, channels) ==
      if Channel(i, channels) < 2 then Sources(i, channels) + [i] else Sources(i, channels)
    ensures Channel(i + 1, channels) == if Channel(i, channels) + 1 == channels then 0 else Channel(i, channels) + 1
  {
    ChannelNext(i, channels);
  }

  /** OutputAudio.  No sample is clobbered before it is read, although the buffer is
      overwritten from its front while it is being read. */
  method OutputAudio(cells: array<nat>, numValidBytes: nat, channels: nat) returns (written: nat)
    requires channels >= 2
    requires 2 * (numValidBytes / 4) <= cells.Length
    modifies cells
    ensures written == numValidBytes / channels
    ensures Packed(old(cells[..]), cells[..], Sources(numValidBytes / 4, channels))
  {
    var totalSamples := numValidBytes / channels;
    var totalAjaSamples := numValidBytes / 4;
    PickChannels(cells, totalAjaSamples, channels);
    written := totalSamples;
  }

  method PickChannels(cells: array<nat>, totalAjaSamples: nat, channels: nat)
    requires channels >= 2 && 2 * totalAjaSamples <= cells.Length
    modifies cells
    ensures Packed(old(cells[..]), cells[..], Sources(totalAjaSamples, channels))
  {
    ghost var was := cells[..];
    var channel := 0;
    var qtSampleNdx := 0;
    ghost var src: seq<nat> := [];
    var i := 0;
    while i < totalAjaSamples
      invariant 0 <= i <= totalAjaSamples && channel == Channel(i, channels)
      invariant src == Sources(i, channels) && |src| <= i && qtSampleNdx == OutputCell(|src|)
      invariant Packed(was, cells[..], src)
    {
      SourcesNext(i, channels);
      if channel < 2 {
        Emit(cells, qtSampleNdx, i, was, src);
        OutputCellNext(|src|);
        src := src + [i];
        qtSampleNdx := (qtSampleNdx + 1) % UWORD;
      }
      channel := channel + 1;
      if channel == channels {
        channel := 0;
      }
      i := i + 1;
    }
  }

  // ----- whole groups of samples -----

  lemma {:induction false} SourcesInGroup(groups: nat, channels: nat, c: nat)
    requires channels >= 2 && c <= channels
    ensures Sources(groups * channels + c, channels) ==
      Sources(groups * channels, channels) +
        if c == 0 then [] else if c == 1 then [groups * channels] else [groups * channels, groups * channels + 1]
    decreases c
  {
    if c > 0 {
      SourcesInGroup(groups, channels, c - 1);
      DivModUnique(groups * channels + c - 1, groups, c - 1, channels);
    }
  }

  /** In whole groups there are two outputs a group: channels 0 and 1 of each, in order. */
  lemma {:induction false} SourcesOfGroups(groups: nat, channels: nat)
    requires channels >= 2
    ensures |Sources(groups * channels, channels)| == 2 * groups
    ensures forall g :: 0 <= g < groups ==>
      Sources(groups * channels, channels)[2 * g] == g * channels &&
      Sources(groups * channels, channels)[2 * g + 1] == g * channels + 1
    decreases groups
  {
    if groups > 0 {
      SourcesOfGroups(groups - 1, channels);
      SourcesInGroup(groups - 1, channels, channels);
      assert groups * channels == (groups - 1) * channels + channels;
    }
  }

  lemma TopHalf(cells: seq<nat>, i: nat)
    requires Cells(cells) && 2 * i + 1 < |cells|
    ensures Sample(cells, i) / UWORD == cells[2 * i + 1]
  {
  }

  lemma WholeGroupBytes(groups: nat, channels: nat)
    requires channels > 0
    ensures (4 * (groups * channels)) / channels == 4 * groups && (4 * (groups * channels)) / 4 == groups * channels
  {
    assert 4 * (groups * channels) == (4 * groups) * channels + 0;
    DivModUnique(4 * (groups * channels), 4 * groups, 0, channels);
  }

  /** Below 65536 outputs the last output sent to a cell is the cell's own. */
  lemma OwnWriter(cell: nat, outputs: nat)
    requires cell < outputs <= UWORD
    ensures LastWriter(cell, outputs) == cell
  {
  }

  lemma GroupIsInside(g: nat, groups: nat, channels: nat)
    requires g < groups && channels >= 2
    ensures g * channels + 1 < groups * channels
  {
    AtLeastOnce(groups - g, channels);
    assert (groups - g) * channels == groups * channels - g * channels;
  }

  /** For whole groups with at most 65536 outputs the front of the buffer is exactly the top
      halves of channels 0 and 1 in order. */
  lemma FrontIsPacked(was: seq<nat>, now: seq<nat>, groups: nat, channels: nat, g: nat)
    requires channels >= 2 && 2 * groups <= UWORD && 2 * (groups * channels) <= |was| && Cells(was)
    requires Packed(was, now, Sources(groups * channels, channels)) && g < groups
    ensures 2 * (g * channels) + 3 < |was| && 2 * g + 1 < |now|
    ensures now[2 * g] == was[2 * (g * channels) + 1]
    ensures now[2 * g + 1] == was[2 * (g * channels + 1) + 1]
  {
    var src := Sources(groups * channels, channels);
    SourcesOfGroups(groups, channels);
    GroupIsInside(g, groups, channels);
    OwnWriter(2 * g, |src|);
    OwnWriter(2 * g + 1, |src|);
    assert now[2 * g] == Sample(was, g * channels) / UWORD;
    assert now[2 * g + 1] == Sample(was, g * channels + 1) / UWORD;
    TopHalf(was, g * channels);
    TopHalf(was, g * channels + 1);
  }

  /** And the bytes written out are then the bytes produced. */
  lemma BytesWrittenAreBytesProduced(groups: nat, channels: nat)
    requires channels >= 2
    ensures (4 * (groups * channels)) / channels == 2 * |Sources((4 * (groups * channels)) / 4, channels)|
  {
    WholeGroupBytes(groups, channels);
    SourcesOfGroups(groups, channels);
  }

  /** Every output stays in the cell it was sent to exactly while the 16-bit counter has not
      wrapped; beyond that the front of the buffer holds later outputs. */
  lemma OutputsStandIff(outputs: nat)
    ensures outputs <= UWORD <==>
      forall cell: nat :: cell < outputs && cell < UWORD ==> LastWriter(cell, outputs) == cell
  {
    if outputs <= UWORD {
      forall cell: nat | cell < outputs ensures LastWriter(cell, outputs) == cell {
        OwnWriter(cell, outputs);
      }
    } else {
      assert LastWriter(0, outputs) >= UWORD;
    }
  }
}
