/**
 What one interrupt, one transfer or one control call does to a channel, told from the
 record before it: when the device moves on, when a drop is counted, and what every slot
 then holds.
 */
module SingleSteps {
  import opened Basics
  import opened Ring

  // ----- capture -----

  /** The record in which a running capture decides: the last slot marked, the active one
      stamped with its field. */
  function Deciding(a: Auto, t: VBlank): Auto
    requires WellFormed(a) && a.state == Running
  {
    var f := ReadRegister(a);
    SetFlags(CaptureMark(a.(activeFrame := f), a.activeFrame), f, FlagsOf(t))
  }

  lemma DecidingHolds(a: Auto, t: VBlank, g: int)
    requires WellFormed(a) && a.state == Running && 0 <= g < MAX_FRAMEBUFFERS
    ensures var b, f := Deciding(a, t), ReadRegister(a);
      && WellFormed(b) && b == a.(activeFrame := f, frameStamp := b.frameStamp)
      && b.frameStamp[g] == a.frameStamp[g].(
        validCount := if g == a.activeFrame && Valid(a, g) == 0 then 1 else Valid(a, g),
        frameFlags := if g != f then a.frameStamp[g].frameFlags else FieldFlags(t.fieldMode && t.field0,
            t.fieldMode && !t.field0))
  {
  }

  lemma AdvanceHolds(b: Auto, t: VBlank)
    requires WellFormed(b) && HasActive(b)
    ensures var r, next := CaptureAdvance(b, t), NextOf(b, b.activeFrame);
      var moves :=
        && Valid(b, next) == 0 && !(t.syncEnabled && t.syncDrop)
        && (t.fieldMode ==>
              b.frameStamp[PrevOf(b, b.activeFrame)].frameFlags != b.frameStamp[b.activeFrame].frameFlags);
      && r == b.(register := if moves then next else b.register,
                 nextFrame := if moves then next else b.nextFrame,
                 framesProcessed := b.framesProcessed + if moves then 1 else 0,
                 droppedFrames := b.droppedFrames + if moves then 0 else 1,
                 frameStamp := r.frameStamp)
      && forall g :: 0 <= g < MAX_FRAMEBUFFERS ==>
        r.frameStamp[g] == b.frameStamp[g].(
          validCount := Valid(b, g) + if g == b.activeFrame && !moves then 1 else 0)
  {
  }

  /** A running capture moves on exactly when the slot after the register is empty, no synced
      partner asks for a drop and, circulating fields, the slot before the register holds the
      other field; otherwise it counts a drop, in the slot too. */
  lemma CaptureMovesOnIff(a: Auto, t: VBlank)
    requires WellFormed(a) && a.recording && a.state == Running && Acts(t) && !t.tooFast
    ensures var r, f := Interrupt(a, t), ReadRegister(a);
      var next := NextOf(a, f);
      var moves :=
        && next != a.activeFrame && Valid(a, next) == 0
        && !(t.syncEnabled && t.syncDrop)
        && (t.fieldMode ==> a.frameStamp[PrevOf(a, f)].frameFlags != FieldFlags(t.field0, !t.field0));
      && r == a.(activeFrame := f,
                 register := if moves then next else a.register,
                 nextFrame := if moves then next else a.nextFrame,
                 framesProcessed := a.framesProcessed + if moves then 1 else 0,
                 droppedFrames := a.droppedFrames + if moves then 0 else 1,
                 frameStamp := r.frameStamp)
      && forall g :: 0 <= g < MAX_FRAMEBUFFERS ==>
        r.frameStamp[g] == a.frameStamp[g].(
          validCount := (if g == a.activeFrame && Valid(a, g) == 0 then 1 else Valid(a, g))
            + if g == f && !moves then 1 else 0,
          frameFlags := if g != f then a.frameStamp[g].frameFlags else FieldFlags(t.fieldMode && t.field0,
            t.fieldMode && !t.field0))
  {
    var b, f := Deciding(a, t), ReadRegister(a);
    assert Interrupt(a, t) == CaptureAdvance(b, t);
    DecidingHolds(a, t, f);
    DecidingHolds(a, t, NextOf(a, f));
    DecidingHolds(a, t, PrevOf(a, f));
    AdvanceHolds(b, t);
    forall g | 0 <= g < MAX_FRAMEBUFFERS {
      DecidingHolds(a, t, g);
    }
  }

  /** One that comes too soon after the last only marks the slot just captured. */
  lemma EarlyInterruptMarks(a: Auto, t: VBlank)
    requires WellFormed(a) && a.recording && a.state == Running && Acts(t) && t.tooFast
    ensures var r := Interrupt(a, t);
      && r == a.(activeFrame := ReadRegister(a), frameStamp := r.frameStamp)
      && forall g :: 0 <= g < MAX_FRAMEBUFFERS ==>
        r.frameStamp[g] == a.frameStamp[g].(
          validCount := if g == a.activeFrame && Valid(a, g) == 0 then 1 else Valid(a, g))
  {
  }

  /** The capture begins at a field 0; whatever the first slot held is not counted. */
  lemma CaptureBeginsIff(a: Auto, t: VBlank)
    requires WellFormed(a) && a.recording && a.state == Starting && Acts(t)
    ensures var r, f := Interrupt(a, t), ReadRegister(a);
      var next := NextOf(a, f);
      && (!t.timeReached ==> r == a.(activeFrame := f))
      && (t.timeReached ==>
            r == a.(activeFrame := f,
                    state := if t.field0 then Running else Starting,
                    register := if t.field0 then next else a.register,
                    nextFrame := if t.field0 then next else a.nextFrame,
                    frameStamp := a.frameStamp[f := a.frameStamp[f].(validCount := 0,
                      frameFlags := FieldFlags(t.fieldMode && t.field0, t.fieldMode && !t.field0))]))
  {
  }

  // ----- playback -----

  /** A playback spends one showing of the slot on air.  Once that slot has none left, the
      channel moves on exactly when the next slot is filled, no synced partner asks for a drop
      and, circulating fields, the next slot is not of the field starting now; otherwise a
      running channel counts a drop, a starting one only when it is synced. */
  lemma PlaybackMovesOnIff(a: Auto, t: VBlank)
    requires WellFormed(a) && !a.recording && Acts(t)
    requires a.state == Running || (a.state == Starting && t.timeReached)
    ensures var r, f := Interrupt(a, t), ReadRegister(a);
      var next, left := NextOf(a, f), if Valid(a, f) > 0 then Valid(a, f) - 1 else Valid(a, f);
      var moves :=
        && left == 0 && next != f && Valid(a, next) != 0
        && !(t.syncEnabled && t.syncDrop)
        && (t.fieldMode ==> t.field0 != a.frameStamp[next].frameFlags.field0);
      var drops := left == 0 && !moves && (a.state == Running || t.syncEnabled);
      r == a.(activeFrame := f,
              state := if moves then Running else a.state,
              register := if moves then next else a.register,
              nextFrame := if moves then next else a.nextFrame,
              framesProcessed := a.framesProcessed + if moves then 1 else 0,
              droppedFrames := a.droppedFrames + if drops then 1 else 0,
              frameStamp := a.frameStamp[f := a.frameStamp[f].(validCount := left)])
  {
  }

  // ----- other states -----

  /** A stopping channel is disabled by the next interrupt; before the start and once disabled
      interrupts change nothing. */
  lemma OtherInterrupts(a: Auto, t: VBlank)
    requires WellFormed(a) && Acts(t)
    ensures a.state == Stopping ==> Interrupt(a, t) == a.(state := Disabled)
    ensures a.state == Init || a.state == Disabled ==> Interrupt(a, t) == a
  {
  }

  // ----- pausing -----

  /** While paused an interrupt only reads the register; outside the ring that counts as the
      first slot. */
  lemma PausedInterruptReads(a: Auto, t: VBlank)
    requires WellFormed(a) && a.state == Paused && Acts(t)
    ensures Interrupt(a, t) == a.(
      activeFrame := if a.startFrame <= a.register <= a.endFrame then a.register else a.startFrame)
  {
  }

  /** Only a running channel pauses and only a paused one resumes, as it was but for the drop
      count when that is to be cleared. */
  lemma PauseAndResume(a: Auto, t: VBlank, clear: bool, clearDropped: bool)
    requires WellFormed(a)
    ensures Pause(a, false, clear) == if a.state == Running then a.(state := Paused) else a
    ensures a.state != Paused ==> Pause(a, true, clear) == a
    ensures a.state == Running ==>
      var p := Interrupt(Pause(a, false, clear), t);
      Pause(p, true, clearDropped) == a.(
        activeFrame := if Acts(t) then ReadRegister(a) else a.activeFrame,
        droppedFrames := if clearDropped then 0 else a.droppedFrames)
  {
  }

  // ----- transfers -----

  /** A completed playback transfer leaves in its slot exactly what the host handed over, and
      nothing else changes; a captured slot is only emptied. */
  lemma TransferLoads(a: Auto, f: int, request: Request)
    requires WellFormed(a) && InRing(a, f)
    ensures forall g :: !InRing(a, g) ==> CompleteTransfer(a, g) == a
    ensures var r := CompleteTransfer(Load(a, f, request), f);
      && r == a.(frameStamp := a.frameStamp[f := r.frameStamp[f]])
      && r.frameStamp[f] ==
        if a.recording then a.frameStamp[f].(validCount := 0)
        else
          FrameStamp(request.repeatCount, request.repeatCount,
                     if request.field.Some? then request.field.value else a.frameStamp[f].frameFlags,
                     request.hUser)
  {
  }

  /** Which states let the driver choose a slot.  A capture that is starting, or runs with no
      filled slot, gets the first slot; a playback is refused exactly when no slot is empty,
      the active one not counting once it has started. */
  lemma ChoiceExactly(a: Auto)
    requires WellFormed(a)
    ensures a.recording ==> (ChooseSlot(a).Some? <==> a.state == Running || a.state == Starting)
    ensures a.recording && a.state == Starting ==> ChooseSlot(a) == Some(a.startFrame)
    ensures a.recording && a.state == Running && (forall g :: InRing(a, g) ==> Valid(a, g) <= 0) ==>
      ChooseSlot(a) == Some(a.startFrame)
    ensures !a.recording && a.state == Disabled ==> ChooseSlot(a).None?
    ensures !a.recording && (a.state == Init || HasActive(a)) ==>
      (ChooseSlot(a).None? <==>
        forall g :: InRing(a, g) ==> (HasActive(a) && g == a.activeFrame) || Valid(a, g) != 0)
  {
    if a.state == Init || HasActive(a) {
      FindIsScan(a);
      ScanTakesFirst(a, ScanFrom(a), ScanLength(a));
      forall g | InRing(a, g) && !(HasActive(a) && g == a.activeFrame)
        ensures DistOf(a, ScanFrom(a), g) < Size(a) - (if HasActive(a) then 1 else 0)
      {
      }
    }
  }

  // ----- flush and preroll -----

  /** Going back from `f` to `g` passes neither `stop` nor an empty slot. */
  ghost predicate FilledBack(a: Auto, f: int, stop: int, g: int)
    requires WellFormed(a)
  {
    && 0 < DistOf(a, stop, g) <= DistOf(a, stop, f)
    && forall h {:trigger Dist(a.startFrame, a.endFrame, stop, h)} :: InRing(a, h) ==>
      (DistOf(a, stop, g) <= DistOf(a, stop, h) <= DistOf(a, stop, f) ==> Valid(a, h) != 0)
  }

  lemma OneSlotLess(a: Auto, f: int, stop: int, g: int)
    requires WellFormed(a) && InRing(a, f) && InRing(a, stop) && InRing(a, g)
    requires f != g && f != stop && Valid(a, f) != 0
    ensures FilledBack(a, f, stop, g) <==> FilledBack(SetValid(a, f, 0), PrevOf(a, f), stop, g)
  {
    var b, p := SetValid(a, f, 0), PrevOf(a, f);
    assert DistOf(a, stop, p) == DistOf(a, stop, f) - 1;
    if FilledBack(b, p, stop, g) {
      forall h | InRing(a, h) && DistOf(a, stop, g) <= DistOf(a, stop, h) <= DistOf(a, stop, f)
        ensures Valid(a, h) != 0
      {
        assert h == f || (Valid(b, h) == Valid(a, h) && DistOf(b, stop, h) <= DistOf(b, stop, p));
      }
    }
    if FilledBack(a, f, stop, g) {
      forall h | InRing(b, h) && DistOf(b, stop, g) <= DistOf(b, stop, h) <= DistOf(b, stop, p)
        ensures Valid(b, h) != 0
      {
        assert h != f && Valid(b, h) == Valid(a, h) && DistOf(a, stop, h) <= DistOf(a, stop, f);
      }
    }
  }

  /** Walking back from `f` a flush empties a slot exactly when neither it nor any slot between
      it and `f` is empty and the walk has not come to `stop`. */
  lemma {:induction false} FlushBackEmpties(a: Auto, f: int, stop: int, g: int)
    requires WellFormed(a) && InRing(a, f) && InRing(a, stop) && 0 <= g < MAX_FRAMEBUFFERS
    ensures FlushBack(a, f, stop).frameStamp[g] ==
      if InRing(a, g) && FilledBack(a, f, stop, g) then a.frameStamp[g].(validCount := 0) else a.frameStamp[g]
    decreases DistOf(a, stop, f)
  {
    if f == stop || Valid(a, f) == 0 {
      assert DistOf(a, stop, f) >= 0;
    } else {
      var b, p := SetValid(a, f, 0), PrevOf(a, f);
      FlushBackEmpties(b, p, stop, g);
      if InRing(a, g) && g != f {
        OneSlotLess(a, f, stop, g);
      } else if g == f {
        forall h | InRing(a, h) && DistOf(a, stop, h) == DistOf(a, stop, f) ensures Valid(a, h) != 0 {
          assert h == f;
        }
        assert FilledBack(a, f, stop, f) && !FilledBack(b, p, stop, f);
      }
    }
  }

  lemma FilledAlike(a: Auto, b: Auto, f: int, stop: int, g: int)
    requires WellFormed(a) && WellFormed(b) && SameRing(a, b) && a.frameStamp == b.frameStamp
    requires FilledBack(a, f, stop, g)
    ensures FilledBack(b, f, stop, g)
  {
    forall h | InRing(b, h) && DistOf(b, stop, g) <= DistOf(b, stop, h) <= DistOf(b, stop, f)
      ensures Valid(b, h) != 0
    {
      assert DistOf(a, stop, g) <= DistOf(a, stop, h) <= DistOf(a, stop, f);
    }
  }

  /** A flush acts before the start, while running and while paused.  A capture gives up the
      unbroken row of filled slots that ends before the register's; a playback all slots but
      the register's, which before the start is emptied too.  The drop count is cleared when
      that is asked for, and nothing else changes. */
  lemma FlushEmptiesExactly(a: Auto, clearDropped: bool, g: int)
    requires WellFormed(a) && 0 <= g < MAX_FRAMEBUFFERS
    ensures var r, stop := Flush(a, clearDropped), ReadRegister(a);
      var acts := a.state == Init || a.state == Running || a.state == Paused;
      var empties := acts && InRing(a, g) &&
        if a.recording then FilledBack(a, PrevOf(a, stop), stop, g) else g != stop || a.state == Init;
      && r == a.(frameStamp := r.frameStamp, droppedFrames := if acts && clearDropped then 0 else a.droppedFrames)
      && r.frameStamp[g] == if empties then a.frameStamp[g].(validCount := 0) else a.frameStamp[g]
  {
    var b, stop := if clearDropped then a.(droppedFrames := 0) else a, ReadRegister(a);
    if a.recording {
      FlushBackEmpties(b, PrevOf(b, stop), stop, g);
      if FilledBack(a, PrevOf(a, stop), stop, g) {
        FilledAlike(a, b, PrevOf(a, stop), stop, g);
      } else if FilledBack(b, PrevOf(b, stop), stop, g) {
        FilledAlike(b, a, PrevOf(b, stop), stop, g);
      }
    }
  }

  /** Slot `n` is the first empty one after the active slot. */
  ghost predicate FirstEmpty(a: Auto, n: int)
    requires WellFormed(a)
  {
    && InRing(a, n) && n != a.activeFrame && Valid(a, n) == 0
    && forall g :: InRing(a, g) && 0 < DistOf(a, a.activeFrame, g) < DistOf(a, a.activeFrame, n) ==> Valid(a, g) != 0
  }

  /** A preroll of a capture, or of a channel that has not started, succeeds and does nothing;
      one of a playback that has started fails, and changes nothing, exactly when every slot
      but the active one is filled. */
  lemma PrerollFailsIff(a: Auto, count: int)
    requires WellFormed(a)
    ensures var (r, ok) := Preroll(a, count);
      && (a.recording || !HasActive(a) ==> ok && r == a)
      && (!a.recording && HasActive(a) ==>
            (!ok <==> forall g :: InRing(a, g) && g != a.activeFrame ==> Valid(a, g) != 0) && (!ok ==> r == a))
  {
    if !a.recording && HasActive(a) {
      var f := NextOf(a, a.activeFrame);
      ScanTakesFirst(a, f, Size(a) - 1);
      forall g | InRing(a, g) && g != a.activeFrame ensures DistOf(a, f, g) < Size(a) - 1 {}
    }
  }

  lemma FirstEmptyIsFound(a: Auto, n: int)
    requires WellFormed(a) && HasActive(a) && FirstEmpty(a, n) && !a.recording
    ensures FindNextAvail(a) == Some(n)
  {
    var f := NextOf(a, a.activeFrame);
    ScanTakesFirst(a, f, Size(a) - 1);
    DistFromNext(a.startFrame, a.endFrame, a.activeFrame);
    assert DistOf(a, f, n) < Size(a) - 1;
    assert Scan(a, f, Size(a) - 1) == Some(n);
  }

  /** Otherwise it adds the count to the slot before the first empty one after the active slot,
      and returns the channel to its starting state when that is the active slot itself. */
  lemma PrerollGoesBeforeGap(a: Auto, count: int, n: int)
    requires WellFormed(a) && HasActive(a) && FirstEmpty(a, n) && !a.recording
    ensures var f := PrevOf(a, n);
      Preroll(a, count) ==
        (a.(state := if f == a.activeFrame then Starting else a.state,
            frameStamp := a.frameStamp[f := a.frameStamp[f].(validCount := Valid(a, f) + count)]), true)
  {
    FirstEmptyIsFound(a, n);
  }
}
