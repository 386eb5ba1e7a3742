/**
 Ganged channels: one control call or transfer acts on every member, each on its own
 stretch of frame buffers.  Every member shadows the primary one.
 */
module Gang {
  import opened Basics
  import opened Ring

  /** The stamps of two slots agree; on a playback channel but for the field flags, which a
      transfer stores for the primary alone. */
  predicate Alike(recording: bool, x: FrameStamp, y: FrameStamp) {
    x == if recording then y else y.(frameFlags := x.frameFlags)
  }

  /** `other` is `primary` moved up by `k` frame buffers. */
  ghost predicate Shadows(primary: Auto, other: Auto, k: int)
  {
    && WellFormed(primary) && WellFormed(other)
    && other.recording == primary.recording && other.state == primary.state
    && other.startFrame == primary.startFrame + k && other.endFrame == primary.endFrame + k
    && other.framesProcessed == primary.framesProcessed && other.droppedFrames == primary.droppedFrames
    && (HasActive(primary) ==>
          && other.activeFrame == primary.activeFrame + k
          && other.register == primary.register + k && InRing(primary, primary.register))
    && (primary.state == Init ==> primary.activeFrame == INVALID_FRAME == other.activeFrame)
    && (primary.state == Init && primary.recording ==> forall f :: InRing(primary, f) ==>
        primary.frameStamp[f].validCount == 0)
    && (forall f {:trigger primary.frameStamp[f]} :: InRing(primary, f) ==>
          Alike(primary.recording, other.frameStamp[f + k], primary.frameStamp[f]))
  }

  // ----- every step treats a shadow as it treats the primary -----

  lemma SetValidShadows(p: Auto, m: Auto, k: int, f: int, v: int)
    requires Shadows(p, m, k) && InRing(p, f) && (p.state == Init && p.recording ==> v == 0)
    ensures Shadows(SetValid(p, f, v), SetValid(m, f + k, v), k)
  {
    var p', m' := SetValid(p, f, v), SetValid(m, f + k, v);
    forall g | InRing(p, g) ensures Alike(p.recording, m'.frameStamp[g + k], p'.frameStamp[g]) {
      assert Alike(p.recording, m.frameStamp[g + k], p.frameStamp[g]);
    }
  }

  lemma SetFlagsShadows(p: Auto, m: Auto, k: int, f: int, flags: FieldFlags)
    requires Shadows(p, m, k) && InRing(p, f)
    ensures Shadows(SetFlags(p, f, flags), SetFlags(m, f + k, flags), k)
  {
    var p', m' := SetFlags(p, f, flags), SetFlags(m, f + k, flags);
    forall g | InRing(p, g) ensures Alike(p.recording, m'.frameStamp[g + k], p'.frameStamp[g]) {
      assert Alike(p.recording, m.frameStamp[g + k], p.frameStamp[g]);
    }
  }

  lemma ActivateShadows(p: Auto, m: Auto, k: int)
    requires Shadows(p, m, k) && HasActive(p)
    ensures Shadows(p.(activeFrame := ReadRegister(p)), m.(activeFrame := ReadRegister(m)), k)
  {
  }

  lemma MoveShadows(p: Auto, m: Auto, k: int, processed: nat, state: State)
    requires Shadows(p, m, k) && HasActive(p) && (state == Running || state == Starting)
    ensures Shadows(MoveOn(p, NextOf(p, p.activeFrame)).(framesProcessed := processed, state := state),
                    MoveOn(m, NextOf(m, m.activeFrame)).(framesProcessed := processed, state := state), k)
  {
  }

  lemma CaptureStartingShadows(p: Auto, m: Auto, k: int, t: VBlank)
    requires Shadows(p, m, k) && p.recording && HasActive(p)
    ensures Shadows(CaptureStarting(p, t), CaptureStarting(m, t), k)
  {
    SetValidShadows(p, m, k, p.activeFrame, 0);
    var p1, m1 := SetValid(p, p.activeFrame, 0), SetValid(m, m.activeFrame, 0);
    SetFlagsShadows(p1, m1, k, p.activeFrame, FlagsOf(t));
    var p2, m2 := SetFlags(p1, p.activeFrame, FlagsOf(t)), SetFlags(m1, m.activeFrame, FlagsOf(t));
    MoveShadows(p2, m2, k, p2.framesProcessed, Running);
  }

  /** Both see the same at every slot of the ring. */
  lemma SameStamps(p: Auto, m: Auto, k: int, f: int)
    requires Shadows(p, m, k) && InRing(p, f)
    ensures Alike(p.recording, m.frameStamp[f + k], p.frameStamp[f])
  {
  }

  lemma CaptureAdvanceShadows(p: Auto, m: Auto, k: int, t: VBlank)
    requires Shadows(p, m, k) && p.recording && p.state == Running
    ensures Shadows(CaptureAdvance(p, t), CaptureAdvance(m, t), k)
  {
    var f := p.activeFrame;
    SameStamps(p, m, k, NextOf(p, f));
    SameStamps(p, m, k, PrevOf(p, f));
    SameStamps(p, m, k, f);
    if Valid(p, NextOf(p, f)) == 0 && !CaptureMustWait(p, t) {
      MoveShadows(p, m, k, p.framesProcessed + 1, Running);
    } else {
      SetValidShadows(p, m, k, f, Valid(p, f) + 1);
    }
  }

  lemma CaptureRunningShadows(p: Auto, m: Auto, k: int, last: int, t: VBlank)
    requires Shadows(p, m, k) && p.recording && p.state == Running && InRing(p, last)
    ensures Shadows(CaptureRunning(p, last, t), CaptureRunning(m, last + k, t), k)
  {
    SameStamps(p, m, k, last);
    if Valid(p, last) == 0 {
      SetValidShadows(p, m, k, last, 1);
    }
    var p1, m1 := CaptureMark(p, last), CaptureMark(m, last + k);
    SetFlagsShadows(p1, m1, k, p.activeFrame, FlagsOf(t));
    CaptureAdvanceShadows(SetFlags(p1, p.activeFrame, FlagsOf(t)), SetFlags(m1, m.activeFrame, FlagsOf(t)), k, t);
  }

  lemma CountDownShadows(p: Auto, m: Auto, k: int)
    requires Shadows(p, m, k) && HasActive(p)
    ensures Shadows(CountDown(p), CountDown(m), k)
  {
    SameStamps(p, m, k, p.activeFrame);
    SetValidShadows(p, m, k, p.activeFrame, Valid(p, p.activeFrame) - 1);
  }

  lemma RunningTickIs(a: Auto, t: VBlank)
    requires WellFormed(a) && a.recording && a.state == Running
    ensures Tick(a, t) == CaptureRunning(a.(activeFrame := ReadRegister(a)), a.activeFrame, t)
  {
  }

  lemma CaptureTickShadows(p: Auto, m: Auto, k: int, t: VBlank)
    requires Shadows(p, m, k) && HasActive(p) && p.recording
    ensures Shadows(Tick(p, t), Tick(m, t), k)
  {
    ActivateShadows(p, m, k);
    var p1, m1 := p.(activeFrame := ReadRegister(p)), m.(activeFrame := ReadRegister(m));
    if p.state == Running {
      RunningTickIs(p, t);
      RunningTickIs(m, t);
      CaptureRunningShadows(p1, m1, k, p.activeFrame, t);
    } else if p.state == Starting && t.timeReached {
      assert Tick(p, t) == CaptureStarting(p1, t) && Tick(m, t) == CaptureStarting(m1, t);
      CaptureStartingShadows(p1, m1, k, t);
    } else {
      assert Tick(p, t) == p1 && Tick(m, t) == m1;
    }
  }

  // ----- playback, where the members may part -----

  /** The interrupt finds the active slot spent and the next one filled. */
  predicate AtNext(a: Auto, t: VBlank)
    requires WellFormed(a) && HasActive(a)
  {
    var f := ReadRegister(a);
    && (a.state == Running || (a.state == Starting && t.timeReached))
    && f != NextOf(a, f) && 0 <= Valid(a, f) <= 1 && Valid(a, NextOf(a, f)) != 0
  }

  /** It is held there all the same, by the sync partner or by the field of the next slot. */
  predicate HeldBack(a: Auto, t: VBlank)
    requires WellFormed(a) && HasActive(a)
  {
    || (t.syncEnabled && t.syncDrop)
    || (t.fieldMode && t.field0 == a.frameStamp[NextOf(a, ReadRegister(a))].frameFlags.field0)
  }

  /** What an interrupt makes of a playback channel whose active slot has been read. */
  function PlaybackTick(a: Auto, t: VBlank): Auto
    requires WellFormed(a) && HasActive(a)
  {
    if a.state == Running then PlaybackRunning(a, t)
    else if a.state == Starting && t.timeReached then PlaybackStarting(a, t)
    else a
  }

  /** Whether a channel that stays counts a drop. */
  function Dropped(a: Auto, t: VBlank): nat
    requires WellFormed(a) && HasActive(a)
  {
    if Valid(a, a.activeFrame) != 0 && Valid(a, a.activeFrame) != 1 then 0
    else if a.state == Running || (a.state == Starting && t.timeReached && t.syncEnabled) then 1
    else 0
  }

  lemma PlaybackStays(a: Auto, t: VBlank)
    requires WellFormed(a) && HasActive(a) && !a.recording && a.activeFrame == ReadRegister(a)
    requires !AtNext(a, t) || HeldBack(a, t)
    ensures PlaybackTick(a, t) ==
      (if a.state == Running || (a.state == Starting && t.timeReached) then CountDown(a)
          else a).(droppedFrames := a.droppedFrames + Dropped(a, t))
  {
  }

  lemma PlaybackMoves(a: Auto, t: VBlank)
    requires WellFormed(a) && HasActive(a) && !a.recording && a.activeFrame == ReadRegister(a)
    requires AtNext(a, t) && !HeldBack(a, t)
    ensures PlaybackTick(a, t) ==
      MoveOn(CountDown(a), NextOf(a, a.activeFrame)).(framesProcessed := a.framesProcessed + 1, state := Running)
  {
  }

  lemma DropCountShadows(p: Auto, m: Auto, k: int, dropped: nat)
    requires Shadows(p, m, k)
    ensures Shadows(p.(droppedFrames := dropped), m.(droppedFrames := dropped), k)
  {
  }

  lemma AtNextShadows(p: Auto, m: Auto, k: int, t: VBlank, u: VBlank)
    requires Shadows(p, m, k) && HasActive(p) && !p.recording && u == t.(syncDrop := u.syncDrop)
    ensures AtNext(m, u) == AtNext(p, t) && Dropped(m, u) == Dropped(p, t)
  {
    SameStamps(p, m, k, p.activeFrame);
    SameStamps(p, m, k, ReadRegister(p));
    SameStamps(p, m, k, NextOf(p, ReadRegister(p)));
  }

  lemma BothStay(p: Auto, m: Auto, k: int, t: VBlank, u: VBlank)
    requires Shadows(p, m, k) && HasActive(p) && !p.recording && u == t.(syncDrop := u.syncDrop)
    requires p.activeFrame == ReadRegister(p)
    requires !AtNext(p, t) || (HeldBack(p, t) && HeldBack(m, u))
    ensures Shadows(PlaybackTick(p, t), PlaybackTick(m, u), k)
  {
    AtNextShadows(p, m, k, t, u);
    PlaybackStays(p, t);
    PlaybackStays(m, u);
    CountDownShadows(p, m, k);
    DropCountShadows(p, m, k, p.droppedFrames + Dropped(p, t));
    DropCountShadows(CountDown(p), CountDown(m), k, p.droppedFrames + Dropped(p, t));
  }

  lemma BothMove(p: Auto, m: Auto, k: int, t: VBlank, u: VBlank)
    requires Shadows(p, m, k) && HasActive(p) && !p.recording && u == t.(syncDrop := u.syncDrop)
    requires p.activeFrame == ReadRegister(p)
    requires AtNext(p, t) && !HeldBack(p, t) && !HeldBack(m, u)
    ensures Shadows(PlaybackTick(p, t), PlaybackTick(m, u), k)
  {
    AtNextShadows(p, m, k, t, u);
    PlaybackMoves(p, t);
    PlaybackMoves(m, u);
    CountDownShadows(p, m, k);
    MoveShadows(CountDown(p), CountDown(m), k, p.framesProcessed + 1, Running);
  }

  /** One held back, the other not: they part. */
  lemma TheyPart(p: Auto, m: Auto, k: int, t: VBlank, u: VBlank)
    requires Shadows(p, m, k) && HasActive(p) && !p.recording && u == t.(syncDrop := u.syncDrop)
    requires p.activeFrame == ReadRegister(p)
    requires AtNext(p, t) && HeldBack(p, t) != HeldBack(m, u)
    ensures !Shadows(PlaybackTick(p, t), PlaybackTick(m, u), k)
  {
    AtNextShadows(p, m, k, t, u);
    if HeldBack(p, t) {
      PlaybackStays(p, t);
      PlaybackMoves(m, u);
    } else {
      PlaybackMoves(p, t);
      PlaybackStays(m, u);
    }
  }

  lemma PlaybackTickIsTick(a: Auto, t: VBlank)
    requires WellFormed(a) && HasActive(a) && !a.recording
    ensures Tick(a, t) == PlaybackTick(a.(activeFrame := ReadRegister(a)), t)
  {
  }

  /** A playback interrupt keeps two members together exactly when the next slot is not
      reached, or the sync reports and field tests of the two agree on going there. */
  lemma PlaybackTickKeepsShadowIff(p: Auto, m: Auto, k: int, t: VBlank, u: VBlank)
    requires Shadows(p, m, k) && HasActive(p) && !p.recording && u == t.(syncDrop := u.syncDrop)
    ensures Shadows(Tick(p, t), Tick(m, u), k) <==> (!AtNext(p, t) || (HeldBack(p, t) <==> HeldBack(m, u)))
  {
    ActivateShadows(p, m, k);
    PlaybackTickIsTick(p, t);
    PlaybackTickIsTick(m, u);
    var p1, m1 := p.(activeFrame := ReadRegister(p)), m.(activeFrame := ReadRegister(m));
    assert AtNext(p1, t) == AtNext(p, t) && HeldBack(p1, t) == HeldBack(p, t) && HeldBack(m1, u) == HeldBack(m, u);
    if !AtNext(p, t) || (HeldBack(p, t) && HeldBack(m, u)) {
      BothStay(p1, m1, k, t, u);
    } else if !HeldBack(p, t) && !HeldBack(m, u) {
      BothMove(p1, m1, k, t, u);
    } else {
      TheyPart(p1, m1, k, t, u);
    }
  }

  /** Whether the interrupt keeps member `m` with the primary. */
  predicate Together(p: Auto, m: Auto, t: VBlank, u: VBlank)
    requires WellFormed(p) && WellFormed(m)
  {
    if p.recording then t.syncEnabled ==> t.syncDrop == u.syncDrop
    else HasActive(p) && HasActive(m) && AtNext(p, t) ==> (HeldBack(p, t) <==> HeldBack(m, u))
  }

  lemma SyncOff(a: Auto, t: VBlank, u: VBlank)
    requires WellFormed(a) && u == t.(syncDrop := u.syncDrop) && (t.syncEnabled ==> t.syncDrop == u.syncDrop)
    ensures Tick(a, u) == Tick(a, t)
  {
  }

  lemma TickShadows(p: Auto, m: Auto, k: int, t: VBlank, u: VBlank)
    requires Shadows(p, m, k) && u == t.(syncDrop := u.syncDrop) && Together(p, m, t, u)
    ensures Shadows(Tick(p, t), Tick(m, u), k)
  {
    if HasActive(p) && p.recording {
      CaptureTickShadows(p, m, k, t);
      SyncOff(m, t, u);
    } else if HasActive(p) {
      PlaybackTickKeepsShadowIff(p, m, k, t, u);
    }
  }

  lemma StartShadows(p: Auto, m: Auto, k: int)
    requires Shadows(p, m, k)
    ensures Shadows(Start(p), Start(m), k)
  {
  }

  lemma PauseShadows(p: Auto, m: Auto, k: int, play: bool, clear: bool)
    requires Shadows(p, m, k)
    ensures Shadows(Pause(p, play, clear), Pause(m, play, clear), k)
  {
  }

  function Moved(f: Option<int>, k: int): Option<int> {
    match f
    case Some(x) => Some(x + k)
    case None => None
  }

  lemma {:induction false} ScanShadows(p: Auto, m: Auto, k: int, f: int, n: nat)
    requires Shadows(p, m, k) && InRing(p, f) && n <= Size(p)
    ensures Scan(m, f + k, n) == Moved(Scan(p, f, n), k)
    decreases n
  {
    SameStamps(p, m, k, f);
    if n > 0 {
      ScanShadows(p, m, k, NextOf(p, f), n - 1);
    }
  }

  lemma ScanStartShadows(p: Auto, m: Auto, k: int)
    requires Shadows(p, m, k) && (HasActive(p) || p.state == Init)
    ensures InRing(p, ScanFrom(p)) && ScanFrom(m) == ScanFrom(p) + k
    ensures 0 <= ScanLength(p) == ScanLength(m) <= Size(p)
  {
  }

  lemma FindShadows(p: Auto, m: Auto, k: int)
    requires Shadows(p, m, k) && (HasActive(p) || p.state == Init)
    ensures FindNextAvail(m) == Moved(FindNextAvail(p), k)
  {
    ScanStartShadows(p, m, k);
    ScanShadows(p, m, k, ScanFrom(p), ScanLength(p));
    FindIsScan(p);
    FindIsScan(m);
  }

  lemma BeginShadows(p: Auto, m: Auto, k: int, f: int, r: Request)
    requires Shadows(p, m, k) && InRing(p, f)
    ensures Shadows(BeginTransfer(p, f, r), BeginTransfer(m, f + k, r), k)
  {
    var p', m' := BeginTransfer(p, f, r), BeginTransfer(m, f + k, r);
    forall g | InRing(p, g) ensures Alike(p.recording, m'.frameStamp[g + k], p'.frameStamp[g]) {
      SameStamps(p, m, k, g);
    }
  }

  /** Storing field flags on one channel or both keeps them alike but for those flags. */
  lemma TakeFieldShadows(p: Auto, m: Auto, k: int, f: int, r: Request)
    requires Shadows(p, m, k) && InRing(p, f)
    ensures Shadows(TakeField(p, f, r), m, k)
    ensures Shadows(TakeField(p, f, r), TakeField(m, f + k, r), k)
  {
    var p', m' := TakeField(p, f, r), TakeField(m, f + k, r);
    forall g | InRing(p, g)
      ensures Alike(p.recording, m.frameStamp[g + k], p'.frameStamp[g])
      ensures Alike(p.recording, m'.frameStamp[g + k], p'.frameStamp[g])
    {
      SameStamps(p, m, k, g);
    }
  }

  lemma CompleteShadows(p: Auto, m: Auto, k: int, f: int)
    requires Shadows(p, m, k)
    ensures Shadows(CompleteTransfer(p, f), CompleteTransfer(m, f + k), k)
  {
    if InRing(p, f) {
      SameStamps(p, m, k, f);
      SetValidShadows(p, m, k, f, if p.recording then 0 else p.frameStamp[f].repeatCount);
    }
  }

  lemma {:induction false} FlushBackShadows(p: Auto, m: Auto, k: int, f: int, stop: int)
    requires Shadows(p, m, k) && InRing(p, f) && InRing(p, stop)
    ensures Shadows(FlushBack(p, f, stop), FlushBack(m, f + k, stop + k), k)
    decreases DistOf(p, stop, f)
  {
    SameStamps(p, m, k, f);
    if f != stop && Valid(p, f) != 0 {
      SetValidShadows(p, m, k, f, 0);
      FlushBackShadows(SetValid(p, f, 0), SetValid(m, f + k, 0), k, PrevOf(p, f), stop);
    }
  }

  lemma {:induction false} FlushAheadShadows(p: Auto, m: Auto, k: int, f: int, stop: int)
    requires Shadows(p, m, k) && InRing(p, f) && InRing(p, stop)
    ensures Shadows(FlushAhead(p, f, stop), FlushAhead(m, f + k, stop + k), k)
    decreases DistOf(p, f, stop)
  {
    if f != stop {
      SetValidShadows(p, m, k, f, 0);
      FlushAheadShadows(SetValid(p, f, 0), SetValid(m, f + k, 0), k, NextOf(p, f), stop);
    }
  }

  lemma DropResetShadows(p: Auto, m: Auto, k: int, clear: bool)
    requires Shadows(p, m, k)
    ensures Shadows(if clear then p.(droppedFrames := 0) else p, if clear then m.(droppedFrames := 0) else m, k)
  {
  }

  /** Before the start each member's register holds whatever its device last held: all slots
      are emptied whichever it designates. */
  lemma FlushInitPlayback(a: Auto, clear: bool, g: int)
    requires WellFormed(a) && a.state == Init && !a.recording && InRing(a, g)
    ensures FlushMember(a, clear).frameStamp[g] == a.frameStamp[g].(validCount := 0)
  {
    var b := if clear then a.(droppedFrames := 0) else a;
    var stop := ReadRegister(a);
    assert g != stop ==> DistOf(b, NextOf(b, stop), g) < DistOf(b, NextOf(b, stop), stop);
    assert FlushAhead(b, NextOf(b, stop), stop).frameStamp[g] == FlushedStamp(b, NextOf(b, stop), stop, g);
  }

  lemma FlushInitShadows(p: Auto, m: Auto, k: int, clear: bool)
    requires Shadows(p, m, k) && p.state == Init && !p.recording
    ensures Shadows(FlushMember(p, clear), FlushMember(m, clear), k)
  {
    var p', m' := FlushMember(p, clear), FlushMember(m, clear);
    forall g | InRing(p, g) ensures Alike(p.recording, m'.frameStamp[g + k], p'.frameStamp[g]) {
      FlushInitPlayback(p, clear, g);
      FlushInitPlayback(m, clear, g + k);
      SameStamps(p, m, k, g);
    }
  }

  lemma FlushInitCapture(p: Auto, m: Auto, k: int, clear: bool)
    requires Shadows(p, m, k) && p.state == Init && p.recording
    ensures Shadows(FlushMember(p, clear), FlushMember(m, clear), k)
  {
    DropResetShadows(p, m, k, clear);
    var u, v := PrevOf(p, ReadRegister(p)), PrevOf(m, ReadRegister(m));
    SameStamps(p, m, k, v - k);
    assert Valid(p, u) == 0 && Valid(m, v) == 0;
  }

  lemma FlushCaptureShadows(p: Auto, m: Auto, k: int, clear: bool)
    requires Shadows(p, m, k) && HasActive(p) && p.recording
    ensures Shadows(FlushMember(p, clear), FlushMember(m, clear), k)
  {
    DropResetShadows(p, m, k, clear);
    FlushBackShadows(if clear then p.(droppedFrames := 0) else p, if clear then m.(droppedFrames := 0) else m,
                     k, PrevOf(p, p.register), p.register);
  }

  lemma FlushPlaybackShadows(p: Auto, m: Auto, k: int, clear: bool)
    requires Shadows(p, m, k) && HasActive(p) && !p.recording
    ensures Shadows(FlushMember(p, clear), FlushMember(m, clear), k)
  {
    DropResetShadows(p, m, k, clear);
    FlushAheadShadows(if clear then p.(droppedFrames := 0) else p, if clear then m.(droppedFrames := 0) else m,
                      k, NextOf(p, p.register), p.register);
  }

  lemma FlushShadows(p: Auto, m: Auto, k: int, clear: bool)
    requires Shadows(p, m, k) && (p.state == Init || HasActive(p))
    ensures Shadows(FlushMember(p, clear), FlushMember(m, clear), k)
  {
    if HasActive(p) && p.recording {
      FlushCaptureShadows(p, m, k, clear);
    } else if HasActive(p) {
      FlushPlaybackShadows(p, m, k, clear);
    } else if p.recording {
      FlushInitCapture(p, m, k, clear);
    } else {
      FlushInitShadows(p, m, k, clear);
    }
  }

  lemma ExtendShadows(p: Auto, m: Auto, k: int, f: int, count: int)
    requires Shadows(p, m, k) && HasActive(p) && InRing(p, f)
    ensures Shadows(Extend(p, f, count), Extend(m, f + k, count), k)
  {
    var p1 := if f == p.activeFrame then p.(state := Starting) else p;
    var m1 := if f == p.activeFrame then m.(state := Starting) else m;
    SameStamps(p, m, k, f);
    assert Shadows(p1, m1, k);
    SetValidShadows(p1, m1, k, f, Valid(p, f) + count);
  }

  lemma PrerollSlotShadows(p: Auto, m: Auto, k: int)
    requires Shadows(p, m, k) && HasActive(p)
    ensures PrerollSlot(m) == Moved(PrerollSlot(p), k)
  {
    FindShadows(p, m, k);
  }

  lemma PrerollShadows(p: Auto, m: Auto, k: int, count: int)
    requires Shadows(p, m, k) && HasActive(p)
    ensures Shadows(PrerollMember(p, count).0, PrerollMember(m, count).0, k)
    ensures PrerollMember(p, count).1 == PrerollMember(m, count).1
  {
    var f := PrerollSlot(p);
    if !p.recording {
      PrerollSlotShadows(p, m, k);
      if f.Some? {
        ExtendShadows(p, m, k, f.value, count);
      }
    }
  }
}
