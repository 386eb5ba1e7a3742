/**
 The audio ring of a capture: the stretch of audio that belongs to each video frame, where
 it wraps, and how far the hardware has drifted from it.
 */
module AudioRing {
  import opened AudioCadence
  import opened ModArith

  const WRAPADDRESS := 0xFF000
  const WRAPADDRESS_BIG := 0xFF000 * 4
  const READBUFFEROFFSET := 0x100000
  const READBUFFEROFFSET_BIG := 0x100000 * 4
  const UINT32 := 0x1_0000_0000
  const UINT64 := 0x1_0000_0000_0000_0000

  /** Unsigned arithmetic of 32 bits. */
  function U32(x: int): (r: nat)
    ensures r < UINT32 && (0 <= x < UINT32 ==> r == x)
  {
    x % UINT32
  }

  /** An audio system: a 1 MB or 4 MB buffer, and 6, 8 or 16 channels. */
  datatype AudioSystem = AudioSystem(big: bool, bit16: bool, bit20: bool)

  function WrapAddress(a: AudioSystem): nat {
    if a.big then WRAPADDRESS_BIG else WRAPADDRESS
  }

  function ReadOffset(a: AudioSystem): nat {
    if a.big then READBUFFEROFFSET_BIG else READBUFFEROFFSET
  }

  function NumChannels(a: AudioSystem): nat {
    if a.bit20 then 16 else if a.bit16 then 8 else 6
  }

  /** Four bytes for every channel: the bit for 16 channels goes before the one for 8. */
  function SampleBytes(a: AudioSystem): (r: nat)
    ensures (r == 64 <==> a.bit20) && (r == 32 <==> !a.bit20 && a.bit16) && (r == 24 <==> !a.bit20 && !a.bit16)
    ensures WrapAddress(a) % r == 0
  {
    NumChannels(a) * 4
  }

  /** A buffer is one or four megabytes, of which the last 4 or 16 kilobytes are not used; the
      capture half follows the playback half. */
  lemma BufferSizes(a: AudioSystem)
    ensures ReadOffset(a) == 0x10_0000 * (if a.big then 4 else 1)
    ensures WrapAddress(a) == ReadOffset(a) - 0x1000 * (if a.big then 4 else 1)
  {
  }

  /** oemAudioSampleAlign: back to the start of the sample. */
  function SampleAlign(a: AudioSystem, address: nat): (r: nat)
    ensures r <= address < r + SampleBytes(a) && r % SampleBytes(a) == 0
  {
    AlignFacts(address, SampleBytes(a));
    (address / SampleBytes(a)) * SampleBytes(a)
  }

  lemma AlignFacts(x: nat, m: nat)
    requires m > 0
    ensures (x / m) * m <= x < (x / m) * m + m && ((x / m) * m) % m == 0
  {
    assert x == (x / m) * m + x % m;
    MultipleOf(x / m, m);
  }

  /** The bytes of one frame never fill the ring. */
  lemma FrameFitsRing(a: AudioSystem, audio: AudioRate, rate: FrameRate, c: nat)
    requires c < 5
    ensures CadenceSamples(audio, rate, c) * SampleBytes(a) < WrapAddress(a)
  {
    assert WrapAddress(a) >= WRAPADDRESS;
    SupportedIffCounted(audio, rate, c);
  }

  // ----- one stretch -----

  /** GetAudioTransferInfo: where a stretch ends, and how it splits at the wrap.  For a
      position in the ring nothing is lost; it wraps at most once, so a stretch longer than
      the ring ends outside it. */
  method GetAudioTransferInfo(a: AudioSystem, current: nat, bytes: nat) returns (next: nat, pre: nat, post: nat)
    requires current < UINT32 && bytes < UINT32
    ensures current < WrapAddress(a) && current + bytes < UINT32 ==>
      && pre + post == bytes && next == NextOffset(a, current, bytes)
      && (post == 0 ==> current + pre <= WrapAddress(a))
      && (post > 0 ==> current + pre == WrapAddress(a) && next == post)
    ensures (next, pre, post) == TransferInfo(a, current, bytes)
  {
    next := U32(current + bytes);
    var wrap := WrapAddress(a);
    if next >= wrap {
      pre := U32(wrap - current);
      post := next - wrap;
      next := post;
    } else {
      pre := U32(next - current);
      post := 0;
    }
  }

  function TransferInfo(a: AudioSystem, current: nat, bytes: nat): (nat, nat, nat) {
    var next := U32(current + bytes);
    if next >= WrapAddress(a) then (next - WrapAddress(a), U32(WrapAddress(a) - current), next - WrapAddress(a))
    else (next, U32(next - current), 0)
  }

  function NextOffset(a: AudioSystem, current: nat, bytes: nat): nat {
    if current + bytes >= WrapAddress(a) then current + bytes - WrapAddress(a) else current + bytes
  }

  /** The end stays in the ring, for every position, exactly when the stretch is no longer
      than the ring; and then it is the position modulo the ring. */
  lemma EndsInRingIff(a: AudioSystem, bytes: nat)
    ensures bytes <= WrapAddress(a) <==>
      forall current: nat :: current < WrapAddress(a) ==> NextOffset(a, current, bytes) < WrapAddress(a)
    ensures forall current: nat {:trigger NextOffset(a, current, bytes)} ::
      current < WrapAddress(a) && bytes <= WrapAddress(a) ==>
      NextOffset(a, current, bytes) == (current + bytes) % WrapAddress(a)
  {
    var last := WrapAddress(a) - 1;
    assert NextOffset(a, last, bytes) == if bytes == 0 then last else bytes - 1;
  }

  // ----- drift from the hardware -----

  /** The shorter way round. */
  function CircularDistance(wrap: nat, x: nat, y: nat): nat
    requires x < wrap && y < wrap
  {
    var d := if x <= y then y - x else x - y;
    if d <= wrap - d then d else wrap - d
  }

  /** Unsigned arithmetic of 64 bits. */
  function U64(x: int): (r: nat)
    ensures r < UINT64 && (0 <= x < UINT64 ==> r == x)
  {
    x % UINT64
  }

  /** The distance between the expected start and the actual address, as both the capture and
      the playback interrupt compute it: in 32 bits, folded in 64. */
  function Delta(wrap: nat, start: nat, actual: nat): nat {
    var d := if actual < start then U32(U32(wrap - start) + 1 + actual) else U32(actual - start);
    if d > wrap / 2 then U64(wrap - d) else d
  }

  /** For addresses in the ring it never underflows, is at most half the ring, and is within
      one byte of the shorter way round. */
  method AudioDelta(wrap: nat, start: nat, actual: nat) returns (delta: nat)
    requires wrap < UINT32 && start < UINT32 && actual < UINT32
    ensures delta == Delta(wrap, start, actual)
    ensures start < wrap && actual < wrap ==>
      && delta <= wrap / 2
      && CircularDistance(wrap, start, actual) - 1 <= delta <= CircularDistance(wrap, start, actual) + 1
      && (start <= actual ==> delta == CircularDistance(wrap, start, actual))
      && (actual < start ==>
            delta == if wrap - start + actual < wrap / 2 then wrap - start + actual + 1 else start - actual - 1)
  {
    if actual < start {
      delta := U32(U32(wrap - start) + 1 + actual);
    } else {
      delta := actual - start;
    }
    if delta > wrap / 2 {
      delta := U64(wrap - delta);
    }
  }

  /** A distance as a time, in ten-millionths of a second. */
  function DeltaTime(a: AudioSystem, audio: AudioRate, delta: nat): nat {
    U64(delta * 10000) / (Hertz(audio) / 1000) / SampleBytes(a)
  }

  /** The hardware has drifted too far from where the last frame stopped. */
  predicate OutOfTolerance(a: AudioSystem, audio: AudioRate, tolerance: nat, lastStop: nat, lastIn: nat) {
    DeltaTime(a, audio, Delta(WrapAddress(a), U32(lastStop - ReadOffset(a)), lastIn)) > U32(tolerance * 10)
  }

  /** The interrupt came regularly enough for the drift to be looked at. */
  predicate Regular(tolerance: nat, discontinuity: int) {
    -3 * tolerance < discontinuity < 3 * tolerance
  }

  /** A time is the exact one rounded down, and an address in the ring is out of tolerance
      exactly when the time it is away is more than the tolerance, in microseconds. */
  lemma OutOfToleranceIff(a: AudioSystem, audio: AudioRate, tolerance: nat, lastStop: nat, lastIn: nat)
    requires Placed(a, lastStop) && lastIn < WrapAddress(a) && 10 * tolerance < UINT32
    ensures var delta := Delta(WrapAddress(a), lastStop - ReadOffset(a), lastIn);
      var persecond := Hertz(audio) * SampleBytes(a);
      && DeltaTime(a, audio, delta) * persecond <= delta * 10_000_000 < (DeltaTime(a, audio, delta) + 1) * persecond
      && (OutOfTolerance(a, audio, tolerance, lastStop, lastIn) <==>
            delta * 10_000_000 >= (10 * tolerance + 1) * persecond)
  {
    var delta := Delta(WrapAddress(a), lastStop - ReadOffset(a), lastIn);
    TimeIsRoundedDown(a, audio, delta);
    var time, persecond := DeltaTime(a, audio, delta), Hertz(audio) * SampleBytes(a);
    if time > 10 * tolerance {
      QuotientsCompare(10 * tolerance + 1, time, persecond);
    } else {
      QuotientsCompare(time + 1, 10 * tolerance + 1, persecond);
    }
  }

  lemma QuotientsCompare(x: nat, y: nat, m: nat)
    requires x <= y
    ensures x * m <= y * m
  {
  }

  lemma TimeIsRoundedDown(a: AudioSystem, audio: AudioRate, delta: nat)
    requires delta < WRAPADDRESS_BIG
    ensures var persecond := Hertz(audio) * SampleBytes(a);
      DeltaTime(a, audio, delta) * persecond <= delta * 10_000_000 < (DeltaTime(a, audio, delta) + 1) * persecond
  {
    var hertz, bytes := Hertz(audio) / 1000, SampleBytes(a);
    assert U64(delta * 10000) == delta * 10000;
    NestedQuotient(delta * 10000, hertz, bytes);
    assert Hertz(audio) == 1000 * hertz;
  }

  lemma NestedQuotient(x: nat, h: nat, b: nat)
    requires h > 0 && b > 0
    ensures x / h / b * (h * b) <= x < (x / h / b + 1) * (h * b)
  {
    var q := x / h;
    var t, r := q / b, q % b;
    assert x == q * h + x % h && q == t * b + r;
    Distribute(t * b, r, h);
    Associate(t, b, h);
    ProductIsNat(r, h);
    ProductIsNat(b - 1 - r, h);
    Distribute(b - 1 - r, r + 1, h);
    Distribute(r, 1, h);
    Distribute(t, 1, h * b);
  }

  lemma Associate(x: int, y: int, z: int)
    ensures x * y * z == x * (z * y)
  {
  }

  lemma UnstampedDelta(a: AudioSystem, lastIn: nat)
    requires lastIn < WrapAddress(a)
    ensures Delta(WrapAddress(a), U32(UNSTAMPED.inStop - ReadOffset(a)), lastIn) ==
      UINT64 - (ReadOffset(a) + 1 + lastIn)
  {
    var wrap, start := WrapAddress(a), UINT32 - ReadOffset(a);
    assert U32(UNSTAMPED.inStop - ReadOffset(a)) == start;
    assert U32(wrap - start) == wrap + ReadOffset(a);
  }

  lemma HugeTime(x: nat, hertz: nat, bytes: nat)
    requires UINT64 - 0x20_0000_0000 <= x && 0 < hertz <= 192 && 0 < bytes <= 64
    ensures x / hertz / bytes > UINT32
  {
    assert x / 192 > 64 * (UINT32 + 1);
    QuotientGrows(x, hertz, 192);
    QuotientGrows(x / hertz, bytes, 64);
  }

  /** A stop address never stamped is out of every tolerance: the subtraction underflows. */
  lemma UnstampedIsOutOfTolerance(a: AudioSystem, audio: AudioRate, tolerance: nat, lastIn: nat)
    requires lastIn < WrapAddress(a)
    ensures OutOfTolerance(a, audio, tolerance, UNSTAMPED.inStop, lastIn)
  {
    UnstampedDelta(a, lastIn);
    NegativeTimes(ReadOffset(a) + 1 + lastIn);
    HugeTime(UINT64 - 10000 * (ReadOffset(a) + 1 + lastIn), Hertz(audio) / 1000, SampleBytes(a));
  }

  lemma NegativeTimes(k: nat)
    requires 0 < k < 0x100_0000
    ensures U64((UINT64 - k) * 10000) == UINT64 - 10000 * k
  {
    assert (UINT64 - k) * 10000 == 9999 * UINT64 + (UINT64 - 10000 * k);
  }

  // ----- the stamps of a capture -----

  /** The addresses stored with a frame include the read offset. */
  datatype AudioStamp = AudioStamp(inStart: nat, inStop: nat, preWrap: nat, postWrap: nat)

  /** What a cleared frame stamp holds. */
  const UNSTAMPED := AudioStamp(0, 0, 0, 0)

  /** The address is the start of a sample in the ring. */
  predicate Placed(a: AudioSystem, address: nat) {
    ReadOffset(a) <= address < ReadOffset(a) + WrapAddress(a) && (address - ReadOffset(a)) % SampleBytes(a) == 0
  }

  /** A stamp describes a whole number of samples that lie in the ring. */
  predicate Sound(a: AudioSystem, s: AudioStamp) {
    && Placed(a, s.inStart) && Placed(a, s.inStop)
    && s.preWrap + s.postWrap < WrapAddress(a)
    && (s.preWrap + s.postWrap) % SampleBytes(a) == 0
    && s.inStop - ReadOffset(a) == NextOffset(a, s.inStart - ReadOffset(a), s.preWrap + s.postWrap)
    && (s.postWrap > 0 ==> s.inStart - ReadOffset(a) + s.preWrap == WrapAddress(a))
    && (s.postWrap == 0 ==> s.inStart - ReadOffset(a) + s.preWrap <= WrapAddress(a))
  }

  /** The stamp of `samples` samples from `start` on. */
  function StampFrom(a: AudioSystem, start: nat, samples: nat): AudioStamp {
    var (next, pre, post) := TransferInfo(a, U32(start - ReadOffset(a)), U32(samples * SampleBytes(a)));
    AudioStamp(start, U32(next + ReadOffset(a)), pre, post)
  }

  /** Where a running interrupt lets a frame start: where the last one stopped, or, when that
      has drifted out of tolerance, where the hardware is. */
  function StartAddress(a: AudioSystem, lastStop: nat, lastIn: nat, resync: bool): (r: nat)
    ensures if resync then ReadOffset(a) <= r <= ReadOffset(a) + lastIn < r + SampleBytes(a) else r == lastStop
  {
    if resync then SampleAlign(a, lastIn) + ReadOffset(a) else lastStop
  }

  lemma AlignedIsPlaced(a: AudioSystem, address: nat)
    requires address < WrapAddress(a)
    ensures Placed(a, SampleAlign(a, address) + ReadOffset(a))
  {
  }

  /** A stamp is sound exactly when it starts at the start of a sample in the ring; then it
      holds all its samples. */
  lemma StampIsSoundIff(a: AudioSystem, start: nat, samples: nat)
    requires samples * SampleBytes(a) < WrapAddress(a)
    ensures Sound(a, StampFrom(a, start, samples)) <==> Placed(a, start)
    ensures Placed(a, start) ==>
      StampFrom(a, start, samples).preWrap + StampFrom(a, start, samples).postWrap == samples * SampleBytes(a)
  {
    if Placed(a, start) {
      var bytes := samples * SampleBytes(a);
      MultipleOf(samples, SampleBytes(a));
      SumOfMultiples(start - ReadOffset(a), bytes, SampleBytes(a));
      SumOfMultiples(start - ReadOffset(a) + bytes, WrapAddress(a), SampleBytes(a));
    }
  }

  /** So a running interrupt stores a sound stamp exactly when it resyncs or the last frame
      stopped at a sample of the ring, which a slot never stamped does not. */
  lemma RunningStampIsSoundIff(a: AudioSystem, lastStop: nat, lastIn: nat, resync: bool, samples: nat)
    requires lastIn < WrapAddress(a) && samples * SampleBytes(a) < WrapAddress(a)
    ensures Sound(a, StampFrom(a, StartAddress(a, lastStop, lastIn, resync), samples)) <==>
      resync || Placed(a, lastStop)
    ensures !Placed(a, UNSTAMPED.inStop)
  {
    AlignedIsPlaced(a, lastIn);
    StampIsSoundIff(a, StartAddress(a, lastStop, lastIn, resync), samples);
  }

  class CaptureAudio {
    const system: AudioSystem
    const stamps: array<AudioStamp>

    constructor (system: AudioSystem, slots: nat)
      ensures this.system == system && fresh(stamps)
      ensures stamps[..] == seq(slots, _ => UNSTAMPED)
    {
      this.system := system;
      stamps := new AudioStamp[slots](_ => UNSTAMPED);
      new;
      assert stamps[..] == seq(slots, _ => UNSTAMPED);
    }

    /** Give slot `active` the stretch of `samples` samples from `start` on. */
    method Stamp(active: int, start: nat, samples: nat)
      requires 0 <= active < stamps.Length
      modifies stamps
      ensures stamps[..] == old(stamps[..])[active := StampFrom(system, start, samples)]
    {
      var next, pre, post :=
          GetAudioTransferInfo(system, U32(start - ReadOffset(system)), U32(samples * SampleBytes(system)));
      stamps[active] := AudioStamp(start, U32(next + ReadOffset(system)), pre, post);
    }

    /** The starting interrupt begins where the hardware is. */
    method StartCapture(active: int, actualLastIn: nat, samples: nat)
      requires 0 <= active < stamps.Length
      requires actualLastIn < WrapAddress(system) && samples * SampleBytes(system) < WrapAddress(system)
      modifies stamps
      ensures stamps[..] ==
        old(stamps[..])[active := StampFrom(system, SampleAlign(system, actualLastIn) + ReadOffset(system), samples)]
      ensures Sound(system, stamps[active])
      ensures stamps[active].preWrap + stamps[active].postWrap == samples * SampleBytes(system)
    {
      AlignedIsPlaced(system, actualLastIn);
      StampIsSoundIff(system, SampleAlign(system, actualLastIn) + ReadOffset(system), samples);
      Stamp(active, SampleAlign(system, actualLastIn) + ReadOffset(system), samples);
    }

    /** Look at the drift when the interrupt came regularly. */
    method MustResync(lastStop: nat, actualLastIn: nat, discontinuity: int, audio: AudioRate, tolerance: nat)
      returns (resync: bool)
      requires actualLastIn < WrapAddress(system)
      ensures resync <==>
        Regular(tolerance, discontinuity) && OutOfTolerance(system, audio, tolerance, lastStop, actualLastIn)
    {
      resync := false;
      if -3 * tolerance < discontinuity < 3 * tolerance {
        var delta := AudioDelta(WrapAddress(system), U32(lastStop - ReadOffset(system)), actualLastIn);
        resync := DeltaTime(system, audio, delta) > U32(tolerance * 10);
      }
    }

    /** A running interrupt goes on where the last frame stopped, or, when it looked and the
        hardware has drifted out of tolerance, where the hardware is. */
    method Capture(last: int, active: int, actualLastIn: nat, discontinuity: int, audio: AudioRate,
        tolerance: nat, samples: nat)
      requires 0 <= active < stamps.Length && 0 <= last < stamps.Length
      requires actualLastIn < WrapAddress(system) && samples * SampleBytes(system) < WrapAddress(system)
      modifies stamps
      ensures var stop := old(stamps[last].inStop);
        var resync :=
          -3 * tolerance < discontinuity < 3 * tolerance
          && OutOfTolerance(system, audio, tolerance, stop, actualLastIn);
        && stamps[..] ==
          old(stamps[..])[active := StampFrom(system, StartAddress(system, stop, actualLastIn, resync), samples)]
        && (Sound(system, stamps[active]) <==> resync || Placed(system, stop))
        && var start := stamps[active].inStart;
           if resync then start - ReadOffset(system) <= actualLastIn < start - ReadOffset(system) + SampleBytes(system)
           else start == stop
    {
      var start := stamps[last].inStop;
      var resync := MustResync(start, actualLastIn, discontinuity, audio, tolerance);
      RunningStampIsSoundIff(system, start, actualLastIn, resync, samples);
      if resync {
        start := SampleAlign(system, actualLastIn) + ReadOffset(system);
      }
      Stamp(active, start, samples);
    }

    /** AutoCircDmaAudioSetup re-reads the stored pair: from a sound stamp it finds the same
        split, hence exactly the bytes of the frame, whether or not the stretch wrapped. */
    method DmaAudioSetup(frame: int) returns (offset: nat, size: nat, pre: nat, post: nat)
      requires 0 <= frame < stamps.Length
      ensures size == U32(pre + post)
      ensures Sound(system, stamps[frame]) ==>
        && offset == stamps[frame].inStart - ReadOffset(system) < WrapAddress(system)
        && pre == stamps[frame].preWrap && post == stamps[frame].postWrap && size == pre + post
        && offset % SampleBytes(system) == 0 && size % SampleBytes(system) == 0
    {
      var end, start := stamps[frame].inStop, stamps[frame].inStart;
      offset := U32(start - ReadOffset(system));
      if end < start {
        pre := U32(WrapAddress(system) - U32(start - ReadOffset(system)));
        post := U32(end - ReadOffset(system));
      } else {
        pre := U32(end - start);
        post := 0;
      }
      size := U32(pre + post);
    }
  }

  /** What DmaAudioSetup computes from a stored pair. */
  function StoredSize(a: AudioSystem, start: nat, stop: nat): int {
    if stop < start then WrapAddress(a) - start + stop else stop - start
  }

  /** The stored pair gives back the length of a stretch exactly when the stretch is shorter
      than the ring: a stretch of the whole ring reads back as nothing. */
  lemma RoundTripIff(a: AudioSystem, start: nat, bytes: nat)
    requires start < WrapAddress(a) && bytes <= WrapAddress(a)
    ensures StoredSize(a, start, NextOffset(a, start, bytes)) == bytes <==> bytes < WrapAddress(a)
  {
  }

  // ----- stretches one after the other -----

  /** One more stretch, from a position given modulo the ring. */
  lemma OneMoreStretch(a: AudioSystem, soFar: nat, bytes: nat)
    requires bytes <= WrapAddress(a)
    ensures NextOffset(a, soFar % WrapAddress(a), bytes) == (soFar + bytes) % WrapAddress(a)
  {
    ModAdd(soFar, bytes, WrapAddress(a));
    EndsInRingIff(a, bytes);
  }

  function Total(stretches: seq<nat>): nat {
    if stretches == [] then 0 else Total(stretches[..|stretches| - 1]) + stretches[|stretches| - 1]
  }

  /** Where the last of several stretches ends when each begins where the one before ended. */
  function EndAfter(a: AudioSystem, first: nat, stretches: seq<nat>): nat {
    if stretches == [] then first
    else NextOffset(a, EndAfter(a, first, stretches[..|stretches| - 1]), stretches[|stretches| - 1])
  }

  /** Any run of stretches ends at the start plus all their bytes, modulo the ring. */
  lemma {:induction false} EndIsCumulative(a: AudioSystem, first: nat, stretches: seq<nat>)
    requires first < WrapAddress(a) && forall i :: 0 <= i < |stretches| ==> stretches[i] <= WrapAddress(a)
    ensures EndAfter(a, first, stretches) == (first + Total(stretches)) % WrapAddress(a)
    decreases |stretches|
  {
    if stretches != [] {
      var rest := stretches[..|stretches| - 1];
      EndIsCumulative(a, first, rest);
      OneMoreStretch(a, first + Total(rest), stretches[|stretches| - 1]);
    }
  }
}
