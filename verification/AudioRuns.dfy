/**
 The audio stamps of a capture channel over whole runs of calls, transfers and interrupts.
 */
module AudioRuns {
  import opened Basics
  import opened Ring
  import opened AudioCadence
  import opened AudioRing
  import opened ModArith
  import C = CaptureRing

  /** The audio system, the rates and the sync tolerance, fixed while the channel runs. */
  datatype Setup = Setup(system: AudioSystem, audio: AudioRate, rate: FrameRate, double: bool, tolerance: nat)

  function Samples(u: Setup, count: nat): nat {
    SamplesPerFrame(u.audio, u.rate, u.double, count)
  }

  /** The channel, the audio stamp of every slot, where the first stamp began, and how often
      an interrupt bailed or resynced. */
  datatype World = World(c: C.World, stamps: seq<AudioStamp>, first: nat, bails: nat, resyncs: nat)

  /** An interrupt also learns where the hardware is, and how far the time since the last one
      is from a frame period. */
  datatype Event = Event(e: C.Event, lastIn: nat, discontinuity: int)

  function InitWorld(s: int, e: int, register: int): World {
    World(C.InitWorld(s, e, register), seq(MAX_FRAMEBUFFERS, _ => UNSTAMPED), 0, 0, 0)
  }

  predicate Shape(w: World) {
    C.Shape(w.c) && |w.stamps| == MAX_FRAMEBUFFERS
  }

  predicate Enabled(u: Setup, w: World, e: Event)
    requires Shape(w)
  {
    C.Enabled(w.c, e.e) && e.lastIn < WrapAddress(u.system)
  }

  /** An interrupt the driver acts on. */
  predicate IsInterrupt(e: Event) {
    e.e.VBI? && Acts(e.e.t)
  }

  /** The interrupt looks at the drift and finds too much of it. */
  predicate Resyncs(u: Setup, w: World, e: Event)
    requires Shape(w) && InRing(w.c.a, w.c.a.activeFrame)
  {
    && Regular(u.tolerance, e.discontinuity)
    && OutOfTolerance(u.system, u.audio, u.tolerance, w.stamps[w.c.a.activeFrame].inStop, e.lastIn)
  }

  function Started(u: Setup, w: World, c: C.World, lastIn: nat, count: nat): World
    requires Shape(w) && 0 <= c.a.activeFrame < MAX_FRAMEBUFFERS
  {
    var first := SampleAlign(u.system, lastIn);
    w.(c := c, first := first,
       stamps := w.stamps[c.a.activeFrame := StampFrom(u.system, first + ReadOffset(u.system), Samples(u, count))])
  }

  function Continued(u: Setup, w: World, c: C.World, start: nat, count: nat, resync: bool): World
    requires Shape(w) && 0 <= c.a.activeFrame < MAX_FRAMEBUFFERS
  {
    w.(c := c, resyncs := if resync then w.resyncs + 1 else w.resyncs,
       stamps := w.stamps[c.a.activeFrame := StampFrom(u.system, start, Samples(u, count))])
  }

  /** The starting interrupt stamps the active slot with frame 0 of the cadence; a running one
      continues from the slot that was active before, with the count of frames processed, or,
      when the slot is still the same, of frames dropped. */
  function Apply(u: Setup, w: World, e: Event): (r: World)
    requires Shape(w) && Enabled(u, w, e)
    ensures Shape(r) && r.c == C.Apply(w.c, e.e)
  {
    var c := C.Apply(w.c, e.e);
    if !IsInterrupt(e) then w.(c := c)
    else
      var last, active := w.c.a.activeFrame, c.a.activeFrame;
      if w.c.a.state == Starting && e.e.t.timeReached then
        Started(u, w, c, e.lastIn, w.c.a.framesProcessed)
      else if w.c.a.state == Running && e.e.t.tooFast then w.(c := c, bails := w.bails + 1)
      else if w.c.a.state == Running then
        var count := if last != active then w.c.a.framesProcessed else w.c.a.droppedFrames;
        var start := StartAddress(u.system, w.stamps[last].inStop, e.lastIn, Resyncs(u, w, e));
        Continued(u, w, c, start, count, Resyncs(u, w, e))
      else w.(c := c)
  }

  predicate Legal(u: Setup, w: World, es: seq<Event>)
    requires Shape(w)
    decreases es
  {
    es == [] || (Enabled(u, w, es[0]) && Legal(u, Apply(u, w, es[0]), es[1..]))
  }

  function Run(u: Setup, w: World, es: seq<Event>): (r: World)
    requires Shape(w) && Legal(u, w, es)
    ensures Shape(r)
    decreases es
  {
    if es == [] then w else Run(u, Apply(u, w, es[0]), es[1..])
  }

  lemma SamplesFit(u: Setup, count: nat)
    ensures Samples(u, count) * SampleBytes(u.system) < WrapAddress(u.system)
  {
    FrameFitsRing(u.system, u.audio, Effective(u.rate, u.double), count % 5);
  }

  // ----- sound stamps -----

  /** A running interrupt leaves a sound stamp on the active slot exactly when it resyncs, or
      the slot active before holds one that stops at a sample of the ring. */
  lemma TickStampIsSoundIff(u: Setup, w: World, e: Event)
    requires Shape(w) && Enabled(u, w, e) && IsInterrupt(e) && w.c.a.state == Running && !e.e.t.tooFast
    ensures var r := Apply(u, w, e);
      Sound(u.system, r.stamps[r.c.a.activeFrame]) <==>
        Resyncs(u, w, e) || Placed(u.system, w.stamps[w.c.a.activeFrame].inStop)
  {
    var r := Apply(u, w, e);
    var count := if w.c.a.activeFrame != r.c.a.activeFrame then w.c.a.framesProcessed else w.c.a.droppedFrames;
    SamplesFit(u, count);
    RunningStampIsSoundIff(u.system, w.stamps[w.c.a.activeFrame].inStop, e.lastIn, Resyncs(u, w, e), Samples(u, count));
  }

  lemma RunningStampIs(u: Setup, w: World, e: Event, count: nat)
    requires Shape(w) && Enabled(u, w, e) && IsInterrupt(e) && w.c.a.state == Running && !e.e.t.tooFast
    requires var now, last := Apply(u, w, e).c.a.activeFrame, w.c.a.activeFrame;
      count == if now == last then w.c.a.droppedFrames else w.c.a.framesProcessed
    ensures var r := Apply(u, w, e);
      && 0 <= r.c.a.activeFrame < MAX_FRAMEBUFFERS
      && r.stamps[r.c.a.activeFrame] ==
        StampFrom(u.system, StartAddress(u.system, w.stamps[w.c.a.activeFrame].inStop, e.lastIn, Resyncs(u, w, e)),
                  Samples(u, count))
  {
  }

  /** The stamp begins where the one before stopped, or within a sample of the hardware when
      it resyncs, and holds the samples for the frames processed so far, or, when the slot is
      the same as before, for the frames dropped. */
  lemma RunningStampHolds(u: Setup, w: World, e: Event, count: nat)
    requires Shape(w) && Enabled(u, w, e) && IsInterrupt(e) && w.c.a.state == Running && !e.e.t.tooFast
    requires Resyncs(u, w, e) || Placed(u.system, w.stamps[w.c.a.activeFrame].inStop)
    requires var now, last := Apply(u, w, e).c.a.activeFrame, w.c.a.activeFrame;
      count == if now == last then w.c.a.droppedFrames else w.c.a.framesProcessed
    ensures var r := Apply(u, w, e);
      && 0 <= r.c.a.activeFrame < MAX_FRAMEBUFFERS
      && var stamp := r.stamps[r.c.a.activeFrame];
      && stamp.preWrap + stamp.postWrap == SamplesPerFrame(u.audio, u.rate, u.double, count) * SampleBytes(u.system)
      && if Resyncs(u, w, e)
         then stamp.inStart <= ReadOffset(u.system) + e.lastIn < stamp.inStart + SampleBytes(u.system)
         else stamp.inStart == w.stamps[w.c.a.activeFrame].inStop
  {
    RunningStampIs(u, w, e, count);
    SamplesFit(u, count);
    AlignedIsPlaced(u.system, e.lastIn);
    StampIsSoundIff(u.system, StartAddress(u.system, w.stamps[w.c.a.activeFrame].inStop, e.lastIn, Resyncs(u, w, e)),
                    Samples(u, count));
  }

  /** Until an interrupt bails, the active slot of a running capture holds a sound stamp. */
  predicate SoundInv(u: Setup, w: World)
    requires Shape(w)
  {
    w.bails == 0 && w.c.a.state == Running ==> Sound(u.system, w.stamps[w.c.a.activeFrame])
  }

  lemma StartStamps(u: Setup, w: World, e: Event)
    requires Shape(w) && Enabled(u, w, e) && IsInterrupt(e) && w.c.a.state == Starting && e.e.t.timeReached
    ensures 0 <= C.Apply(w.c, e.e).a.activeFrame < MAX_FRAMEBUFFERS
    ensures Apply(u, w, e) == Started(u, w, C.Apply(w.c, e.e), e.lastIn, w.c.a.framesProcessed)
  {
  }

  lemma StartStampIsSound(u: Setup, lastIn: nat, count: nat)
    requires lastIn < WrapAddress(u.system)
    ensures Sound(u.system, StampFrom(u.system, SampleAlign(u.system, lastIn) + ReadOffset(u.system), Samples(u,
        count)))
  {
    SamplesFit(u, count);
    AlignedIsPlaced(u.system, lastIn);
    StampIsSoundIff(u.system, SampleAlign(u.system, lastIn) + ReadOffset(u.system), Samples(u, count));
  }

  lemma StartedIsSound(u: Setup, w: World, c: C.World, lastIn: nat, count: nat)
    requires Shape(w) && 0 <= c.a.activeFrame < MAX_FRAMEBUFFERS && lastIn < WrapAddress(u.system)
    ensures Sound(u.system, Started(u, w, c, lastIn, count).stamps[c.a.activeFrame])
  {
    StartStampIsSound(u, lastIn, count);
  }

  lemma InterruptKeepsSound(u: Setup, w: World, e: Event)
    requires Shape(w) && Enabled(u, w, e) && C.QueueInv(w.c) && SoundInv(u, w) && IsInterrupt(e)
    ensures SoundInv(u, Apply(u, w, e))
  {
    if w.c.a.state == Running {
      if !e.e.t.tooFast {
        TickStampIsSoundIff(u, w, e);
      }
    } else if w.c.a.state == Starting && e.e.t.timeReached {
      StartStamps(u, w, e);
      StartedIsSound(u, w, C.Apply(w.c, e.e), e.lastIn, w.c.a.framesProcessed);
    }
  }

  lemma StepKeepsSound(u: Setup, w: World, e: Event)
    requires Shape(w) && Enabled(u, w, e) && C.QueueInv(w.c) && SoundInv(u, w)
    ensures SoundInv(u, Apply(u, w, e))
  {
    if IsInterrupt(e) {
      InterruptKeepsSound(u, w, e);
    } else if e.e.FlushAll? {
      C.FlushKeepsDevice(w.c.a, e.e.clearDropped);
    }
  }

  /** After a slot that was never stamped, as a bail on the first lap leaves it, the next stamp
      is sound exactly when the interrupt came regularly enough for the drift to be looked at:
      then it is always too large. */
  lemma AfterMissingStampIff(u: Setup, w: World, e: Event)
    requires Shape(w) && Enabled(u, w, e) && IsInterrupt(e) && w.c.a.state == Running && !e.e.t.tooFast
    requires w.stamps[w.c.a.activeFrame] == UNSTAMPED
    ensures var r := Apply(u, w, e);
      Sound(u.system, r.stamps[r.c.a.activeFrame]) <==> Regular(u.tolerance, e.discontinuity)
    ensures Apply(u, w, e).bails == w.bails
  {
    TickStampIsSoundIff(u, w, e);
    UnstampedIsOutOfTolerance(u.system, u.audio, u.tolerance, e.lastIn);
  }

  // ----- keeping time -----

  /** Neither a drop, nor a bail, nor a resync so far. */
  predicate Clean(w: World) {
    w.bails == 0 && w.resyncs == 0 && w.c.a.droppedFrames == 0 && w.c.cleared == 0
  }

  /** The bytes stamped by the start and `n` running interrupts. */
  function BytesThrough(u: Setup, n: nat): nat {
    Stamped(u.audio, u.rate, u.double, n) * SampleBytes(u.system)
  }

  lemma BytesThroughNext(u: Setup, n: nat)
    ensures BytesThrough(u, 0) == Samples(u, 0) * SampleBytes(u.system)
    ensures BytesThrough(u, n + 1) == BytesThrough(u, n) + Samples(u, n) * SampleBytes(u.system)
  {
    assert Stamped(u.audio, u.rate, u.double, 0) == Samples(u, 0);
    assert Stamped(u.audio, u.rate, u.double, n + 1) == Stamped(u.audio, u.rate, u.double, n) + Samples(u, n);
    Distribute(Stamped(u.audio, u.rate, u.double, n), Samples(u, n), SampleBytes(u.system));
  }

  /** The offset at which the stamp of running interrupt `n` should stop. */
  function StopAt(u: Setup, first: nat, n: nat): nat {
    (first + BytesThrough(u, n)) % WrapAddress(u.system)
  }

  /** The offset at which the active stamp stops is where the first began plus every byte
      stamped since, modulo the ring; and the device is about to move on. */
  predicate OnTime(u: Setup, w: World)
    requires Shape(w) && HasActive(w.c.a)
  {
    var stop := w.stamps[w.c.a.activeFrame].inStop;
    && w.c.a.register == NextOf(w.c.a, w.c.a.activeFrame)
    && w.first < WrapAddress(u.system)
    && ReadOffset(u.system) <= stop
    && stop - ReadOffset(u.system) == StopAt(u, w.first, w.c.counted)
  }

  predicate TimeInv(u: Setup, w: World)
    requires Shape(w)
  {
    && (w.c.a.state != Running ==> w.c.counted == 0)
    && (Clean(w) && w.c.a.state == Running ==> OnTime(u, w))
  }

  /** A stamp from a place in the ring stops where its bytes end. */
  lemma StampStops(u: Setup, start: nat, soFar: nat, count: nat)
    requires Placed(u.system, start) && start - ReadOffset(u.system) == soFar % WrapAddress(u.system)
    ensures var stop := StampFrom(u.system, start, Samples(u, count)).inStop;
      && ReadOffset(u.system) <= stop
      && stop - ReadOffset(u.system) == (soFar + Samples(u, count) * SampleBytes(u.system)) % WrapAddress(u.system)
  {
    SamplesFit(u, count);
    StampIsSoundIff(u.system, start, Samples(u, count));
    OneMoreStretch(u.system, soFar, Samples(u, count) * SampleBytes(u.system));
  }

  lemma FirstStampStops(u: Setup, first: nat)
    requires Placed(u.system, first + ReadOffset(u.system))
    ensures StampFrom(u.system, first + ReadOffset(u.system), Samples(u, 0)).inStop ==
      ReadOffset(u.system) + StopAt(u, first, 0)
  {
    BytesThroughNext(u, 0);
    StampStops(u, first + ReadOffset(u.system), first, 0);
  }

  lemma NextStampStops(u: Setup, start: nat, first: nat, n: nat)
    requires Placed(u.system, start) && start == ReadOffset(u.system) + StopAt(u, first, n)
    ensures StampFrom(u.system, start, Samples(u, n)).inStop == ReadOffset(u.system) + StopAt(u, first, n + 1)
  {
    StampStops(u, start, first + BytesThrough(u, n), n);
    BytesThroughNext(u, n);
  }

  /** The starting interrupt. */
  lemma StartTick(w: C.World, t: VBlank)
    requires C.Inv(w) && Acts(t) && w.a.state == Starting && t.timeReached
    ensures var r := C.Apply(w, C.VBI(t));
      && w.a.framesProcessed == 0 == w.a.droppedFrames
      && r.counted == w.counted && r.a.activeFrame == w.a.activeFrame
      && (r.a.state == Running ==> r.a.register == NextOf(r.a, r.a.activeFrame))
    requires w.counted == 0
  {
  }

  lemma StartIsOnTime(u: Setup, w: World, c: C.World, lastIn: nat)
    requires Shape(w) && C.Shape(c) && HasActive(c.a) && c.a.register == NextOf(c.a, c.a.activeFrame) && c.counted == 0
    requires lastIn < WrapAddress(u.system)
    ensures Shape(Started(u, w, c, lastIn, 0)) && OnTime(u, Started(u, w, c, lastIn, 0))
  {
    AlignedStampStops(u, lastIn);
  }

  lemma AlignedStampStops(u: Setup, lastIn: nat)
    requires lastIn < WrapAddress(u.system)
    ensures SampleAlign(u.system, lastIn) < WrapAddress(u.system)
    ensures StampFrom(u.system, SampleAlign(u.system, lastIn) + ReadOffset(u.system), Samples(u, 0)).inStop
      == ReadOffset(u.system) + StopAt(u, SampleAlign(u.system, lastIn), 0)
  {
    AlignedIsPlaced(u.system, lastIn);
    FirstStampStops(u, SampleAlign(u.system, lastIn));
  }

  lemma StartKeepsTime(u: Setup, w: World, e: Event)
    requires Shape(w) && Enabled(u, w, e) && C.Inv(w.c) && TimeInv(u, w)
    requires IsInterrupt(e) && w.c.a.state == Starting && e.e.t.timeReached
    ensures TimeInv(u, Apply(u, w, e))
  {
    StartTick(w.c, e.e.t);
    if C.Apply(w.c, e.e).a.state == Running {
      StartStamps(u, w, e);
      StartIsOnTime(u, w, C.Apply(w.c, e.e), e.lastIn);
    }
  }

  /** A running interrupt that neither bails nor drops: the device is on the next slot, which
      was free, and the frame count selects the cadence. */
  lemma CleanTick(w: C.World, t: VBlank)
    requires C.Inv(w) && Acts(t) && w.a.state == Running && !t.tooFast && w.a.register == NextOf(w.a, w.a.activeFrame)
    requires w.a.droppedFrames == 0 && w.cleared == 0 && Tick(w.a, t).droppedFrames == 0
    ensures var r := Tick(w.a, t);
      && r.activeFrame == NextOf(w.a, w.a.activeFrame) != w.a.activeFrame
      && r.register == NextOf(r, r.activeFrame) && r.state == Running
      && w.a.framesProcessed == w.counted
  {
  }

  /** What went before a clean interrupt was clean. */
  lemma CleanBefore(u: Setup, w: World, e: Event)
    requires Shape(w) && Enabled(u, w, e) && Clean(Apply(u, w, e)) && w.c.a.recording
    ensures Clean(w)
    ensures IsInterrupt(e) && w.c.a.state == Running ==> !e.e.t.tooFast && !Resyncs(u, w, e)
  {
  }

  lemma RunningStamps(u: Setup, w: World, e: Event)
    requires Shape(w) && Enabled(u, w, e) && IsInterrupt(e) && w.c.a.state == Running
    requires !e.e.t.tooFast && !Resyncs(u, w, e)
    requires Tick(w.c.a, e.e.t).activeFrame != w.c.a.activeFrame
    ensures var c := C.Apply(w.c, e.e);
      && c.a == Tick(w.c.a, e.e.t) && c.counted == w.c.counted + 1 && 0 <= c.a.activeFrame < MAX_FRAMEBUFFERS
      && Apply(u, w, e) == Continued(u, w, c, w.stamps[w.c.a.activeFrame].inStop, w.c.a.framesProcessed, false)
  {
  }

  lemma ContinuedIsOnTime(u: Setup, w: World, c: C.World, start: nat, n: nat)
    requires Shape(w) && C.Shape(c) && HasActive(c.a) && c.a.register == NextOf(c.a, c.a.activeFrame)
    requires c.counted == n + 1
    requires Placed(u.system, start) && w.first < WrapAddress(u.system)
    requires start == ReadOffset(u.system) + StopAt(u, w.first, n)
    ensures Shape(Continued(u, w, c, start, n, false)) && OnTime(u, Continued(u, w, c, start, n, false))
  {
    NextStampStops(u, start, w.first, n);
  }

  lemma RunningIsOnTime(u: Setup, w: World, e: Event)
    requires Shape(w) && Enabled(u, w, e) && C.Inv(w.c) && IsInterrupt(e) && w.c.a.state == Running
    requires Clean(w) && OnTime(u, w) && Sound(u.system, w.stamps[w.c.a.activeFrame])
    requires !e.e.t.tooFast && !Resyncs(u, w, e) && Tick(w.c.a, e.e.t).droppedFrames == 0
    ensures OnTime(u, Apply(u, w, e))
  {
    CleanTick(w.c, e.e.t);
    RunningStamps(u, w, e);
    ContinuedIsOnTime(u, w, C.Apply(w.c, e.e), w.stamps[w.c.a.activeFrame].inStop, w.c.counted);
  }

  lemma RunningKeepsTime(u: Setup, w: World, e: Event)
    requires Shape(w) && Enabled(u, w, e) && C.Inv(w.c) && TimeInv(u, w) && SoundInv(u, w)
    requires IsInterrupt(e) && w.c.a.state == Running
    ensures TimeInv(u, Apply(u, w, e))
  {
    var r := Apply(u, w, e);
    assert r.c.a == Tick(w.c.a, e.e.t) && r.c.a.state == Running;
    if Clean(r) {
      CleanBefore(u, w, e);
      RunningIsOnTime(u, w, e);
    }
  }

  lemma OtherKeepsTime(u: Setup, w: World, e: Event)
    requires Shape(w) && Enabled(u, w, e) && C.Inv(w.c) && TimeInv(u, w) && !IsInterrupt(e)
    ensures TimeInv(u, Apply(u, w, e))
  {
    var r := Apply(u, w, e);
    if e.e.FlushAll? {
      C.FlushKeepsDevice(w.c.a, e.e.clearDropped);
    }
    assert r.c.counted == w.c.counted && SameRing(w.c.a, r.c.a) && (Clean(r) ==> Clean(w));
    if r.c.a.state == Running {
      assert r.c.a.activeFrame == w.c.a.activeFrame && r.c.a.register == w.c.a.register && w.c.a.state == Running;
    }
  }

  lemma StepKeepsTime(u: Setup, w: World, e: Event)
    requires Shape(w) && Enabled(u, w, e) && C.Inv(w.c) && TimeInv(u, w) && SoundInv(u, w)
    ensures TimeInv(u, Apply(u, w, e))
  {
    if !IsInterrupt(e) {
      OtherKeepsTime(u, w, e);
    } else if w.c.a.state == Starting && e.e.t.timeReached {
      StartKeepsTime(u, w, e);
    } else if w.c.a.state == Running {
      RunningKeepsTime(u, w, e);
    } else {
      assert Apply(u, w, e).c.a.state == w.c.a.state;
    }
  }

  lemma {:induction false} RunKeepsTime(u: Setup, w: World, es: seq<Event>)
    requires Shape(w) && Legal(u, w, es) && C.Inv(w.c) && TimeInv(u, w) && SoundInv(u, w)
    ensures var r := Run(u, w, es); C.Inv(r.c) && TimeInv(u, r) && SoundInv(u, r)
    decreases es
  {
    if es != [] {
      StepKeepsTime(u, w, es[0]);
      StepKeepsSound(u, w, es[0]);
      C.StepKeepsInv(w.c, es[0].e);
      RunKeepsTime(u, Apply(u, w, es[0]), es[1..]);
    }
  }

  lemma InitIsOnTime(u: Setup, s: int, e: int, register: int)
    requires 0 <= s <= e < MAX_FRAMEBUFFERS
    ensures var w := InitWorld(s, e, register); Shape(w) && C.Inv(w.c) && TimeInv(u, w) && SoundInv(u, w)
  {
    C.CaptureIsFifo(s, e, register, []);
  }

  /** In every run without a drop, a bail or a resync the active stamp stops at the start plus
      all bytes of the cadence, modulo the ring, and the samples stamped are within 8/5 below
      and 16/5 above exact, however long the run. */
  lemma CaptureRunKeepsTime(u: Setup, s: int, e: int, register: int, es: seq<Event>)
    requires 0 <= s <= e < MAX_FRAMEBUFFERS && Served(u.audio, u.rate, u.double)
    requires Legal(u, InitWorld(s, e, register), es)
    requires Clean(Run(u, InitWorld(s, e, register), es)) && Run(u, InitWorld(s, e, register), es).c.a.state == Running
    ensures var r := Run(u, InitWorld(s, e, register), es);
      && InRing(r.c.a, r.c.a.activeFrame)
      && r.stamps[r.c.a.activeFrame].inStop == ReadOffset(u.system) + StopAt(u, r.first, r.c.counted)
      && var q := FieldsOver(u.rate, u.double).0;
         -8 * q <= 5 * CaptureDrift(u.audio, u.rate, u.double, r.c.counted) <= 16 * q
  {
    InitIsOnTime(u, s, e, register);
    RunKeepsTime(u, InitWorld(s, e, register), es);
    NoCaptureDrift(u.audio, u.rate, u.double, Run(u, InitWorld(s, e, register), es).c.counted);
  }

  /** In every run without a bail, whatever drops and resyncs, the active slot of a running
      capture holds a sound stamp, which reads back exactly. */
  lemma StampsStaySound(u: Setup, s: int, e: int, register: int, es: seq<Event>)
    requires 0 <= s <= e < MAX_FRAMEBUFFERS && Legal(u, InitWorld(s, e, register), es)
    ensures var r := Run(u, InitWorld(s, e, register), es);
      r.bails == 0 && r.c.a.state == Running ==>
        InRing(r.c.a, r.c.a.activeFrame) && Sound(u.system, r.stamps[r.c.a.activeFrame])
  {
    InitIsOnTime(u, s, e, register);
    RunKeepsTime(u, InitWorld(s, e, register), es);
  }

  /** The frame count that selects the cadence is, in a run without drops, the number of
      running interrupts so far. */
  lemma CadenceFollowsInterrupts(s: int, e: int, register: int, es: seq<C.Event>)
    requires 0 <= s <= e < MAX_FRAMEBUFFERS && C.Legal(C.InitWorld(s, e, register), es)
    ensures var w := C.Run(C.InitWorld(s, e, register), es);
      w.a.droppedFrames == 0 && w.cleared == 0 ==> w.a.framesProcessed == w.counted
  {
    C.CaptureIsFifo(s, e, register, es);
  }

  // ----- a bail on the first lap -----

  const BLANK := VBlank(true, false, true, false, false, false)
  const EARLY := VBlank(true, false, true, true, false, false)

  /** An interrupt of which the period is not regular enough to look at the drift. */
  function On(u: Setup, t: VBlank): Event {
    Event(C.VBI(t), 0, 3 * u.tolerance)
  }

  lemma RunNext(u: Setup, w: World, e: Event, rest: seq<Event>)
    requires Shape(w) && Enabled(u, w, e) && Legal(u, Apply(u, w, e), rest)
    ensures Legal(u, w, [e] + rest) && Run(u, w, [e] + rest) == Run(u, Apply(u, w, e), rest)
  {
    assert ([e] + rest)[1..] == rest;
  }

  /** The interrupts of such a run, on the ring alone. */
  lemma BailTicks(a: Auto)
    requires a == Start(InitAuto(true, 0, 3, 0))
    ensures var b := Tick(a, BLANK);
      var c := Tick(b, EARLY);
      && b.state == Running && b.activeFrame == 0 && b.register == 1
      && c.state == Running && c.activeFrame == 1 && c.register == 1
      && Tick(c, BLANK).state == Running
  {
  }

  /** An interrupt too soon stamps nothing. */
  lemma EarlyStampsNothing(u: Setup, w: World)
    requires Shape(w) && w.c.a.state == Running
    ensures var r := Apply(u, w, On(u, EARLY));
      r.stamps == w.stamps && r.bails == w.bails + 1 && r.c.a == Tick(w.c.a, EARLY)
  {
  }

  lemma StartStampsActive(u: Setup, w: World)
    requires Shape(w) && w.c.a.state == Starting && w.c.a.recording && InRing(w.c.a, w.c.a.register)
    ensures var r := Apply(u, w, On(u, BLANK));
      && r.bails == w.bails && r.c.a == Tick(w.c.a, BLANK)
      && forall f :: 0 <= f < MAX_FRAMEBUFFERS && f != w.c.a.register ==> r.stamps[f] == w.stamps[f]
  {
  }

  /** The second frame comes too soon and is not stamped; the third starts where the second
      would have stopped, at address 0. */
  lemma FirstLapBail(u: Setup) returns (es: seq<Event>)
    ensures var w := InitWorld(0, 3, 0);
      && Legal(u, w, es)
      && var r := Run(u, w, es);
         r.bails == 1 && r.c.a.state == Running && !Sound(u.system, r.stamps[r.c.a.activeFrame])
  {
    var w0, start := InitWorld(0, 3, 0), Event(C.StartUp, 0, 0);
    var w1 := Apply(u, w0, start);
    assert w1.c.a == Start(InitAuto(true, 0, 3, 0)) && w1.bails == 0 && w1.stamps[1] == UNSTAMPED;
    BailTicks(w1.c.a);
    StartStampsActive(u, w1);
    var w2 := Apply(u, w1, On(u, BLANK));
    EarlyStampsNothing(u, w2);
    var w3 := Apply(u, w2, On(u, EARLY));
    assert w3.stamps[w3.c.a.activeFrame] == UNSTAMPED;
    AfterMissingStampIff(u, w3, On(u, BLANK));
    assert Apply(u, w3, On(u, BLANK)).c.a == Tick(w3.c.a, BLANK);
    es := LastThree(u, w1, w2, w3);
    RunNext(u, w0, start, es);
    es := [start] + es;
  }

  lemma LastThree(u: Setup, w1: World, w2: World, w3: World) returns (es: seq<Event>)
    requires Shape(w1) && Enabled(u, w1, On(u, BLANK)) && w2 == Apply(u, w1, On(u, BLANK))
    requires Enabled(u, w2, On(u, EARLY)) && w3 == Apply(u, w2, On(u, EARLY)) && Enabled(u, w3, On(u, BLANK))
    ensures Legal(u, w1, es) && Run(u, w1, es) == Apply(u, w3, On(u, BLANK))
  {
    RunNext(u, w3, On(u, BLANK), []);
    RunNext(u, w2, On(u, EARLY), [On(u, BLANK)] + []);
    es := [On(u, BLANK)] + ([On(u, EARLY)] + ([On(u, BLANK)] + []));
    RunNext(u, w1, On(u, BLANK), [On(u, EARLY)] + ([On(u, BLANK)] + []));
  }
}
