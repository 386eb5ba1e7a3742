/**
 The capture buffer level, and where the capture queue's guarantees end: the fallback of a
 transfer that finds no filled slot, pausing a capture, and transferring the slot that is
 being recorded.  Each limit has an input that shows it and the exact condition.
 */
module CaptureLimits {
  import opened Basics
  import opened Ring
  import opened CaptureRing

  ghost function FilledSlots(a: Auto): set<int>
    requires WellFormed(a)
  {
    set f | a.startFrame <= f <= a.endFrame && Valid(a, f) > 0
  }

  lemma {:induction false} ArcHoldsLevelSlots(a: Auto, oldest: int, level: nat)
    requires WellFormed(a) && ArcFrom(a, oldest, level)
    ensures |FilledSlots(a)| == level
    decreases level
  {
    if level == 0 {
      forall f | InRing(a, f) ensures Valid(a, f) == 0 {
        assert DistOf(a, oldest, f) >= 0;
      }
      assert FilledSlots(a) == {};
    } else {
      var last := AheadOf(a, oldest, level - 1);
      assert DistOf(a, oldest, last) == level - 1;
      var b := SetValid(a, last, 0);
      assert SameRing(a, b);
      ArcHoldsLevelSlots(b, oldest, level - 1);
      assert FilledSlots(a) == FilledSlots(b) + {last};
    }
  }

  /** Walking back from the slot at distance `d` counts it and all older slots. */
  lemma {:induction false} LevelBackCounts(a: Auto, oldest: int, level: nat, d: int, k: nat)
    requires WellFormed(a) && ArcFrom(a, oldest, level) && -1 <= d < level && k <= Size(a)
    requires d < 0 || k <= d + 1 || level < Size(a)
    requires d >= 0 || k == 0 || level < Size(a)
    ensures LevelBack(a, if d < 0 then PrevOf(a, oldest) else AheadOf(a, oldest, d), k) ==
      if k <= d + 1 then k else d + 1
    decreases k
  {
    var f := if d < 0 then PrevOf(a, oldest) else AheadOf(a, oldest, d);
    assert DistOf(a, oldest, f) == if d < 0 then Size(a) - 1 else d;
    if k > 0 && d >= 0 {
      LevelBackCounts(a, oldest, level, d - 1, k - 1);
    }
  }

  /** The level reported to the host, which stops at the first gap, misses no frame. */
  lemma BufferLevelIsExact(a: Auto, oldest: int, level: nat)
    requires RingInv(a, oldest, level) && a.state == Running
    ensures BufferLevel(a) == level == |FilledSlots(a)|
  {
    ArcHoldsLevelSlots(a, oldest, level);
    assert 0 <= DistOf(a, oldest, a.activeFrame) < Size(a);
    var d := if Valid(a, a.activeFrame) > 0 then level - 2 else level - 1;
    LevelBackCounts(a, oldest, level, d, Size(a) - 1);
  }

  lemma BufferLevelIsExactInEveryRun(s: int, e: int, register: int, es: seq<Event>)
    requires 0 <= s <= e < MAX_FRAMEBUFFERS && Legal(InitWorld(s, e, register), es)
    ensures var w := Run(InitWorld(s, e, register), es);
      w.a.state == Running ==> BufferLevel(w.a) == w.level == |FilledSlots(w.a)|
  {
    CaptureIsFifo(s, e, register, es);
    var w := Run(InitWorld(s, e, register), es);
    if w.a.state == Running {
      BufferLevelIsExact(w.a, w.oldest, w.level);
    }
  }

  // ----- completing the transfer of an arbitrary slot -----

  ghost predicate IsQueue(a: Auto) {
    exists oldest, level :: RingInv(a, oldest, level)
  }

  /** In a queue every slot from a filled one to the active one, itself apart, is filled. */
  lemma QueueHasNoGap(a: Auto, oldest: int, level: nat, x: int, f: int)
    requires RingInv(a, oldest, level) && a.state == Running
    requires InRing(a, x) && Valid(a, x) > 0 && InRing(a, f) && f != a.activeFrame
    requires DistOf(a, x, f) < DistOf(a, x, a.activeFrame)
    ensures Valid(a, f) > 0
  {
    assert 0 <= DistOf(a, oldest, x) < level && 0 <= DistOf(a, oldest, f);
  }

  /** A completed transfer leaves a queue exactly when its slot was empty, the oldest, or
      the active one. */
  lemma CompletionKeepsQueueIff(a: Auto, oldest: int, level: nat, f: int)
    requires RingInv(a, oldest, level) && a.state == Running && InRing(a, f)
    ensures IsQueue(CompleteTransfer(a, f)) <==> (Valid(a, f) == 0 || f == oldest || f == a.activeFrame)
  {
    var r := CompleteTransfer(a, f);
    assert SameRing(a, r);
    assert 0 <= DistOf(a, oldest, f) < Size(a) && 0 <= DistOf(a, oldest, a.activeFrame) < Size(a);
    assert DistOf(a, oldest, oldest) == 0;
    if Valid(a, f) == 0 {
      assert RingInv(r, oldest, level);
    } else if f == oldest {
      CompleteTakesOldest(a, oldest, level);
    } else if f == a.activeFrame {
      assert RingInv(r, oldest, level - 1);
    } else if IsQueue(r) {
      var o, l :| RingInv(r, o, l);
      QueueHasNoGap(r, o, l, oldest, f);
      assert false;
    }
  }

  // ----- pausing a capture -----

  /** Pause, one interrupt, play. */
  function PausedTick(a: Auto, t: VBlank): Auto
    requires WellFormed(a)
  {
    Pause(Tick(Pause(a, false, false), t), true, false)
  }

  /** An interrupt taken in pause moves to the next slot without marking the last one:
      the queue survives exactly when there was nothing to mark or nothing queued. */
  lemma PausedTickKeepsQueueIff(a: Auto, oldest: int, level: nat, t: VBlank)
    requires RingInv(a, oldest, level) && a.state == Running
    ensures IsQueue(PausedTick(a, t)) <==>
      (a.register == a.activeFrame || Valid(a, a.activeFrame) > 0 || level == 0)
  {
    var r := PausedTick(a, t);
    assert SameRing(a, r) && r.frameStamp == a.frameStamp && r.activeFrame == a.register;
    assert 0 <= DistOf(a, oldest, a.activeFrame) < Size(a) && 0 <= DistOf(a, oldest, a.register) < Size(a);
    assert DistOf(a, oldest, oldest) == 0;
    if a.register == a.activeFrame || Valid(a, a.activeFrame) > 0 {
      assert RingInv(r, oldest, level);
    } else if level == 0 {
      forall f | InRing(a, f) ensures a.frameStamp[f].validCount == 0 { assert DistOf(a, oldest, f) >= 0; }
      assert ArcFrom(r, a.register, 0);
      assert RingInv(r, a.register, 0);
    } else if IsQueue(r) {
      var o, l :| RingInv(r, o, l);
      QueueHasNoGap(r, o, l, oldest, a.activeFrame);
      assert false;
    }
  }

  // ----- flushing a capture -----

  /** A flush of a running capture empties every slot but the register's exactly when the
      register is not ahead of a slot still to be filled, or nothing waits. */
  lemma FlushEmptiesIff(a: Auto, oldest: int, level: nat, clear: bool)
    requires RingInv(a, oldest, level) && a.state == Running
    ensures EmptyBut(Flush(a, clear), a.register) <==>
      (a.register == a.activeFrame || Valid(a, a.activeFrame) > 0 || level == 0)
  {
    if a.register == a.activeFrame || Valid(a, a.activeFrame) > 0 {
      FlushLeavesRegister(a, oldest, level, clear);
    } else {
      FlushIdle(a, clear);
      assert DistOf(a, oldest, oldest) == 0;
      if level == 0 {
        EmptyArc(a, oldest);
      } else {
        assert Valid(a, oldest) > 0 && oldest != a.register;
      }
    }
  }

  // ----- inputs that show the limits -----

  const VBLANK := VBlank(true, false, true, false, false, false)

  /** One interrupt with two free slots ahead. */
  lemma CaptureOne(a: Auto, level: nat)
    requires WellFormed(a) && a.recording && a.state == Running && RingInv(a, 2, level)
    requires a.startFrame == 0 && a.endFrame == 3 && level <= 1
    requires a.activeFrame == Ahead(0, 3, 2, level) && a.register == Ahead(0, 3, 2, level + 1)
    ensures var r := Tick(a, VBLANK);
      && RingInv(r, 2, level + 1) && r.state == Running && SameRing(a, r)
      && r.activeFrame == a.register && r.register == Ahead(0, 3, 2, level + 2)
  {
    assert DistOf(a, 2, a.activeFrame) == level && DistOf(a, 2, a.register) == level + 1;
    assert DistOf(a, 2, Ahead(0, 3, 2, level + 2)) == level + 2;
    TickKeepsRing(a, 2, level, VBLANK);
  }

  /** Three interrupts of a ring of four that was empty with slot 2 active. */
  lemma ThreeCaptures(a: Auto) returns (r: Auto)
    requires WellFormed(a) && a.recording && a.state == Running && a.startFrame == 0 && a.endFrame == 3
    requires a.activeFrame == 2 && a.register == 3
    requires forall f :: 0 <= f <= 3 ==> Valid(a, f) == 0
    ensures r == Tick(Tick(Tick(a, VBLANK), VBLANK), VBLANK)
    ensures RingInv(a, 2, 0) && RingInv(r, 2, 4) && r.state == Running
    ensures r.activeFrame == 1 && SameRing(a, r)
  {
    CaptureOne(a, 0);
    var a1 := Tick(a, VBLANK);
    CaptureOne(a1, 1);
    var a2 := Tick(a1, VBLANK);
    r := Tick(a2, VBLANK);
    assert DistOf(a2, 2, 0) == 2 && DistOf(a2, 2, 1) == 3 && DistOf(a2, 2, 2) == 0;
    TickKeepsRing(a2, 2, 2, VBLANK);
  }

  /** A ring of four with every frame delivered and slot 2 active: the transfer falls back
      to slot 0, three interrupts later that slot is in the middle of the queue, and its
      completion leaves a reported level of 1 with three frames waiting. */
  lemma FallbackBreaksQueue(a: Auto)
    requires WellFormed(a) && a.recording && a.state == Running && a.startFrame == 0 && a.endFrame == 3
    requires a.activeFrame == 2 && a.register == 3
    requires forall f :: 0 <= f <= 3 ==> Valid(a, f) == 0
    ensures RingInv(a, 2, 0) && ChooseSlot(a) == Some(0)
    ensures var r := CompleteTransfer(Tick(Tick(Tick(a, VBLANK), VBLANK), VBLANK), 0);
      BufferLevel(r) == 1 && FilledSlots(r) == {1, 2, 3} && !IsQueue(r)
  {
    var a3 := ThreeCaptures(a);
    assert Scan(a, 3, 4) == Scan(a, 0, 3) == Scan(a, 1, 2) == Scan(a, 2, 1) == Scan(a, 3, 0) == None;
    GapAtStart(a3);
  }

  /** And a run from Init comes to such a channel. */
  lemma FallbackIsReached() returns (w: World)
    ensures Reaches(InitWorld(0, 3, 0), w) && w.inFlight.None? && ChooseSlot(w.a) == Some(0) && IsQueue(w.a)
    ensures var r := CompleteTransfer(Tick(Tick(Tick(w.a, VBLANK), VBLANK), VBLANK), 0);
      BufferLevel(r) == 1 && FilledSlots(r) == {1, 2, 3} && !IsQueue(r)
  {
    w := EmptyAgain();
    FallbackBreaksQueue(w.a);
    assert RingInv(w.a, 2, 0);
  }

  lemma GapAtStart(a: Auto)
    requires RingInv(a, 2, 4) && a.state == Running && a.startFrame == 0 && a.endFrame == 3 && a.activeFrame == 1
    ensures var r := CompleteTransfer(a, 0);
      BufferLevel(r) == 1 && FilledSlots(r) == {1, 2, 3} && !IsQueue(r)
  {
    var r := CompleteTransfer(a, 0);
    assert DistOf(a, 2, 0) == 2 && DistOf(a, 2, 1) == 3 && DistOf(a, 2, 2) == 0 && DistOf(a, 2, 3) == 1;
    assert Valid(r, 0) == 0 && Valid(r, 1) > 0 && Valid(r, 2) > 0 && Valid(r, 3) > 0;
    assert LevelBack(r, 0, 3) == 0;
    CompletionKeepsQueueIff(a, 2, 4, 0);
  }

  /** An interrupt with the next two slots free. */
  lemma FreeTick(a: Auto)
    requires WellFormed(a) && a.recording && a.state == Running && Size(a) > 2 && a.register == NextOf(a, a.activeFrame)
    requires Valid(a, a.activeFrame) == 0 && Valid(a, a.register) == 0 && Valid(a, NextOf(a, a.register)) == 0
    ensures Tick(a, VBLANK) ==
      MoveOn(SetFlags(SetValid(a, a.activeFrame, 1), a.register, FULL).(activeFrame := a.register),
                                      NextOf(a, a.register)).(framesProcessed := a.framesProcessed + 1)
    ensures TickedLevel(a, VBLANK, 0) == 1
  {
  }

  /** An empty queue then holds the slot just recorded. */
  lemma RecordsOne(w0: World, w: World) returns (r: World)
    requires Shape(w0) && Reaches(w0, w) && Inv(w) && w.inFlight.None? && w.level == 0 && w.a.state == Running
    requires Size(w.a) > 2 && w.a.register == NextOf(w.a, w.a.activeFrame)
    requires forall f :: InRing(w.a, f) ==> w.a.frameStamp[f].validCount == 0
    ensures Reaches(w0, r) && Inv(r) && r.inFlight.None? && r.level == 1 && r.oldest == w.a.activeFrame
    ensures r.a.state == Running && SameRing(w.a, r.a)
    ensures r.a.activeFrame == w.a.register && r.a.register == NextOf(w.a, w.a.register)
    ensures forall f :: InRing(w.a, f) ==> r.a.frameStamp[f].validCount == if f == w.a.activeFrame then 1 else 0
  {
    FreeTick(w.a);
    StepKeepsInv(w, VBI(VBLANK));
    ReachesNext(w0, w, VBI(VBLANK));
    r := Apply(w, VBI(VBLANK));
    assert DistOf(w.a, w.oldest, w.a.activeFrame) == 0;
  }

  /** The starting interrupt. */
  lemma StartTick(a: Auto)
    requires WellFormed(a) && a.recording && a.state == Starting && a.register == a.activeFrame
    ensures Tick(a, VBLANK) ==
      MoveOn(SetFlags(SetValid(a, a.activeFrame, 0), a.activeFrame, FULL), NextOf(a, a.activeFrame)).(state := Running)
  {
  }

  /** A ring of `e + 1` slots after the start. */
  lemma StartedRing(e: int) returns (w: World)
    requires 0 < e < MAX_FRAMEBUFFERS
    ensures Reaches(InitWorld(0, e, 0), w) && Inv(w) && w.inFlight.None? && w.level == 0 && w.delivered == []
    ensures w.oldest == 0
    ensures w.a.state == Running && w.a.startFrame == 0 && w.a.endFrame == e && w.a.activeFrame == 0
    ensures w.a.register == 1
    ensures forall f :: InRing(w.a, f) ==> w.a.frameStamp[f].validCount == 0
  {
    var w0 := InitWorld(0, e, 0);
    assert Legal(w0, []) && Run(w0, []) == w0;
    CaptureIsFifo(0, e, 0, []);
    StepKeepsInv(w0, StartUp);
    ReachesNext(w0, w0, StartUp);
    var w1 := Apply(w0, StartUp);
    StartTick(w1.a);
    StepKeepsInv(w1, VBI(VBLANK));
    ReachesNext(w0, w1, VBI(VBLANK));
    w := Apply(w1, VBI(VBLANK));
  }

  lemma OneRecorded() returns (w: World)
    ensures Reaches(InitWorld(0, 3, 0), w) && Inv(w) && w.inFlight.None? && w.level == 1 && w.oldest == 0
    ensures w.a.state == Running && w.a.startFrame == 0 && w.a.endFrame == 3 && w.a.activeFrame == 1
    ensures w.a.register == 2
    ensures forall f :: InRing(w.a, f) ==> w.a.frameStamp[f].validCount == if f == 0 then 1 else 0
  {
    w := StartedRing(3);
    w := RecordsOne(InitWorld(0, 3, 0), w);
  }

  /** The channel of FallbackBreaksQueue is one a host meets: two frames recorded, both
      transferred. */
  lemma EmptyAgain() returns (w: World)
    ensures Reaches(InitWorld(0, 3, 0), w) && w.inFlight.None? && w.level == 0
    ensures w.a.recording && w.a.state == Running && w.a.startFrame == 0 && w.a.endFrame == 3
    ensures w.a.activeFrame == 2 && w.a.register == 3
    ensures forall f :: 0 <= f <= 3 ==> Valid(w.a, f) == 0
  {
    var w0 := InitWorld(0, 3, 0);
    w := OneRecorded();
    w := TransferOldest(w0, w);
    w := RecordsOne(w0, w);
    w := TransferOldest(w0, w);
  }

  /** With one frame waiting and the next one being recorded, a flush changes nothing. */
  lemma FlushDoesNothing() returns (w: World)
    ensures Reaches(InitWorld(0, 3, 0), w) && w.a.state == Running && w.level == 1 && BufferLevel(w.a) == 1
    ensures Flush(w.a, false) == w.a
  {
    w := OneRecorded();
    FlushIdle(w.a, false);
    BufferLevelIsExact(w.a, w.oldest, w.level);
  }

  /** With one frame waiting and the next one being recorded, a pause over one interrupt
      leaves a slot in the middle that is never marked. */
  lemma PauseBreaksQueue() returns (w: World)
    ensures Reaches(InitWorld(0, 3, 0), w) && w.a.state == Running && IsQueue(w.a)
    ensures !IsQueue(PausedTick(w.a, VBLANK)) && FilledSlots(PausedTick(w.a, VBLANK)) == {0}
    ensures PausedTick(w.a, VBLANK).activeFrame == 2
  {
    w := OneRecorded();
    PausedTickKeepsQueueIff(w.a, w.oldest, w.level, VBLANK);
    assert RingInv(w.a, w.oldest, w.level);
    var r := PausedTick(w.a, VBLANK);
    assert r.frameStamp == w.a.frameStamp;
  }

  /** A ring of two after the start, one capture and one drop. */
  lemma OneDropInRingOfTwo() returns (w: World)
    ensures Reaches(InitWorld(0, 1, 0), w) && w.inFlight.None? && w.level == 2 && w.delivered == []
    ensures w.a.state == Running && w.a.startFrame == 0 && w.a.endFrame == 1
    ensures w.oldest == 0 && w.a.activeFrame == 1 && w.a.register == 1
  {
    w := StartedRing(1);
    ReachesNext(InitWorld(0, 1, 0), w, VBI(VBLANK));
    w := Apply(w, VBI(VBLANK));
  }

  /** A whole transfer with no interrupt in between. */
  lemma TransferOldest(w0: World, w: World) returns (r: World)
    requires Shape(w0) && Inv(w) && Reaches(w0, w) && w.inFlight.None? && w.a.state == Running && w.level > 0
    ensures Reaches(w0, r) && Inv(r) && r.inFlight.None?
    ensures r.a == SetValid(w.a, w.oldest, 0) && r.level == w.level - 1
    ensures r.delivered == w.delivered + [w.picture[w.oldest]] && r.picture == w.picture
    ensures r.oldest == if r.level == 0 then w.a.activeFrame else NextOf(w.a, w.oldest)
  {
    ChoosesOldest(w.a, w.oldest, w.level);
    StepKeepsInv(w, Begin);
    ReachesNext(w0, w, Begin);
    r := Apply(w, Begin);
    StepKeepsInv(r, Complete);
    ReachesNext(w0, r, Complete);
    r := Apply(r, Complete);
  }

  /** The older frame is transferred and the ring makes room again. */
  lemma OnlyActiveSlotWaits() returns (w: World)
    ensures Reaches(InitWorld(0, 1, 0), w) && Inv(w) && w.inFlight.None? && w.level == 1 && |w.delivered| == 1
    ensures w.a.state == Running && w.a.startFrame == 0 && w.a.endFrame == 1
    ensures w.oldest == 1 && w.a.activeFrame == 1 && w.a.register == 0
  {
    var w0 := InitWorld(0, 1, 0);
    w := OneDropInRingOfTwo();
    assert Inv(w) by {
      var es :| Legal(w0, es) && Run(w0, es) == w;
      CaptureIsFifo(0, 1, 0, es);
    }
    assert Valid(w.a, 1) > 0 by { assert DistOf(w.a, 0, 1) == 1; }
    w := TransferOldest(w0, w);
    assert w.oldest == 1 && w.level == 1 && w.a.activeFrame == w.a.register;
    StepKeepsInv(w, VBI(VBLANK));
    ReachesNext(w0, w, VBI(VBLANK));
    w := Apply(w, VBI(VBLANK));
  }

  /** The one waiting frame, still being recorded, is handed over, marked again at the next
      interrupt, and handed over a second time. */
  lemma ActiveSlotIsDeliveredTwice() returns (w: World)
    ensures Reaches(InitWorld(0, 1, 0), w) && |w.delivered| == 3 && w.delivered[1] == w.delivered[2]
  {
    var w0 := InitWorld(0, 1, 0);
    w := OnlyActiveSlotWaits();
    w := TransferOldest(w0, w);
    StepKeepsInv(w, VBI(VBLANK));
    ReachesNext(w0, w, VBI(VBLANK));
    w := Apply(w, VBI(VBLANK));
    w := TransferOldest(w0, w);
  }
}
