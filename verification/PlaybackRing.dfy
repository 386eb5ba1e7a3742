/**
 A playback channel refines a first-in first-out queue: the frames go on air in the order
 in which the host transferred them, none skipped, whatever the order in which interrupts,
 drops, pauses, flushes, prerolls and the two halves of a transfer arrive.
 */
module PlaybackRing {
  import opened Basics
  import opened Ring

  /** The first slot of the queue: the active one until its count has run out. */
  function First(a: Auto): int
    requires WellFormed(a)
  {
    if !HasActive(a) then a.startFrame
    else if Valid(a, a.activeFrame) > 0 then a.activeFrame
    else NextOf(a, a.activeFrame)
  }

  /** The queue is an arc from there; once the active slot has run out the register may
      already designate its filled successor. */
  ghost predicate RingInv(a: Auto, level: int) {
    && WellFormed(a) && !a.recording && (a.state == Init || HasActive(a))
    && ArcFrom(a, First(a), level)
    && (HasActive(a) ==>
          a.register == a.activeFrame ||
          (a.register == NextOf(a, a.activeFrame) && Valid(a, a.activeFrame) == 0 && Valid(a, a.register) > 0))
    && (a.state == Starting ==> a.register == a.activeFrame)
  }

  /** The slot of a transfer in flight follows the queue.  Only a slot chosen before the
      start can have become the active one, and then nothing is queued behind it. */
  ghost predicate FlightInv(a: Auto, level: int, f: int)
    requires RingInv(a, level)
  {
    && InRing(a, f) && a.frameStamp[f].repeatCount >= 1
    && if a.state == Init || f != a.activeFrame then
         Valid(a, f) == 0 && DistOf(a, First(a), f) == level
       else
         a.state == Starting && EmptyBut(a, f)
  }

  // ----- the slots waiting behind the active one -----

  function PendingFrom(a: Auto): int {
    if HasActive(a) then NextOf(a, a.activeFrame) else a.startFrame
  }

  function PendingCount(a: Auto, level: nat): nat
    requires WellFormed(a)
  {
    if HasActive(a) && Valid(a, a.activeFrame) > 0 && level > 0 then level - 1 else level
  }

  /** Their owners' cookies, in the order in which they will go on air. */
  function Pending(a: Auto, level: nat): seq<int>
    requires WellFormed(a) && InRing(a, PendingFrom(a)) && PendingCount(a, level) <= Size(a)
  {
    seq(PendingCount(a, level), i requires 0 <= i < PendingCount(a, level) =>
      a.frameStamp[AheadOf(a, PendingFrom(a), i)].hUser)
  }

  // ----- interrupts -----

  /** An interrupt takes a slot off the queue when it spends its last count. */
  function TickedLevel(a: Auto, t: VBlank, level: nat): nat
    requires WellFormed(a)
  {
    var r := Tick(a, t);
    if HasActive(a) && level > 0 && Valid(a, r.activeFrame) > 0 && Valid(r, r.activeFrame) ==
      0 then level - 1 else level
  }

  /** All an interrupt does to the stamps is to spend one of the active slot's counts. */
  ghost predicate SpendsAtMostOne(a: Auto, r: Auto)
    requires WellFormed(a) && WellFormed(r)
  {
    && SameRing(a, r) && HasActive(r) && r.activeFrame == a.register
    && (forall g {:trigger r.frameStamp[g]} :: 0 <= g < MAX_FRAMEBUFFERS && g != r.activeFrame ==>
        r.frameStamp[g] == a.frameStamp[g])
    && r.frameStamp[r.activeFrame] == a.frameStamp[r.activeFrame].(validCount := Valid(r, r.activeFrame))
    && (Valid(r, r.activeFrame) == Valid(a, r.activeFrame) || Valid(r, r.activeFrame) == Valid(a,
        r.activeFrame) - 1 >= 0)
  }

  lemma TickSpends(a: Auto, t: VBlank)
    requires WellFormed(a) && !a.recording && HasActive(a) && InRing(a, a.register)
    ensures SpendsAtMostOne(a, Tick(a, t))
  {
  }

  /** It moves the device on only when the active slot has run out, onto a filled one. */
  lemma TickMoves(a: Auto, t: VBlank)
    requires WellFormed(a) && !a.recording && HasActive(a) && InRing(a, a.register)
    ensures var r := Tick(a, t);
      && (r.register == r.activeFrame ||
           (r.register == NextOf(r, r.activeFrame) && Valid(r, r.activeFrame) == 0 && Valid(r, r.register) != 0))
      && (r.state == Starting ==> r.register == a.register)
  {
  }

  lemma SpendingKeepsArc(a: Auto, r: Auto, level: nat)
    requires RingInv(a, level) && HasActive(a) && WellFormed(r) && SpendsAtMostOne(a, r)
    ensures ArcFrom(r, First(r),
      if level > 0 && Valid(a, r.activeFrame) > 0 && Valid(r, r.activeFrame) == 0 then level - 1 else level)
  {
    DistFromNext(a.startFrame, a.endFrame, r.activeFrame);
    assert Valid(a, r.activeFrame) > 0 ==> First(a) == r.activeFrame;
    assert Valid(a, r.activeFrame) <= 0 ==> First(a) == NextOf(a, r.activeFrame);
    assert 0 <= DistOf(a, First(a), r.activeFrame);
  }

  lemma TickKeepsRing(a: Auto, t: VBlank, level: nat)
    requires RingInv(a, level)
    ensures RingInv(Tick(a, t), TickedLevel(a, t, level))
  {
    if HasActive(a) {
      TickSpends(a, t);
      TickMoves(a, t);
      var r := Tick(a, t);
      SpendingKeepsArc(a, r, level);
      assert 0 <= DistOf(r, First(r), r.register);
    }
  }

  /** Interrupts neither reach nor fill the slot of a transfer in flight. */
  lemma TickKeepsFlight(a: Auto, t: VBlank, level: nat, f: int)
    requires RingInv(a, level) && FlightInv(a, level, f)
    ensures RingInv(Tick(a, t), TickedLevel(a, t, level))
    ensures FlightInv(Tick(a, t), TickedLevel(a, t, level), f)
  {
    TickKeepsRing(a, t, level);
    if HasActive(a) {
      TickSpends(a, t);
      TickMoves(a, t);
      var r := Tick(a, t);
      DistFromNext(a.startFrame, a.endFrame, r.activeFrame);
      if f != a.activeFrame {
        assert f != r.activeFrame;
        assert Valid(a, r.activeFrame) > 0 ==> First(a) == r.activeFrame;
        assert Valid(a, r.activeFrame) <= 0 ==> First(a) == NextOf(a, r.activeFrame);
      } else {
        assert NextOf(a, f) != f ==> Valid(a, NextOf(a, f)) == 0;
      }
    }
  }

  // ----- transfers -----

  /** There is a slot that is neither queued nor active. */
  predicate HasRoom(a: Auto, level: nat)
    requires WellFormed(a)
  {
    level < if HasActive(a) && Valid(a, a.activeFrame) <= 0 then Size(a) - 1 else Size(a)
  }

  lemma ScanFindsSlotAfterQueue(a: Auto, level: nat)
    requires RingInv(a, level) && HasRoom(a, level)
    ensures Scan(a, ScanFrom(a), ScanLength(a)) == Some(AheadOf(a, First(a), level))
  {
    var f := AheadOf(a, First(a), level);
    assert DistOf(a, First(a), f) == level;
    ScanTakesFirst(a, ScanFrom(a), ScanLength(a));
    DistFromNext(a.startFrame, a.endFrame, First(a));
    assert Transferable(a, f) && DistOf(a, ScanFrom(a), f) < ScanLength(a);
    var g := Scan(a, ScanFrom(a), ScanLength(a)).value;
    assert DistOf(a, First(a), g) >= level;
    assert DistOf(a, ScanFrom(a), g) <= DistOf(a, ScanFrom(a), f);
  }

  lemma ScanFindsNothing(a: Auto, level: nat)
    requires RingInv(a, level) && !HasRoom(a, level)
    ensures Scan(a, ScanFrom(a), ScanLength(a)) == None
  {
    ScanTakesFirst(a, ScanFrom(a), ScanLength(a));
    var c := Scan(a, ScanFrom(a), ScanLength(a));
    assert c.Some? ==> DistOf(a, First(a), c.value) < Size(a);
  }

  /** A transfer is given the slot after the queue, and fails exactly when there is none. */
  lemma ChoosesSlotAfterQueue(a: Auto, level: nat)
    requires RingInv(a, level)
    ensures ChooseSlot(a).Some? <==> HasRoom(a, level)
    ensures HasRoom(a, level) ==>
      var f := ChooseSlot(a).value;
      && InRing(a, f) && f == AheadOf(a, First(a), level) && DistOf(a, First(a), f) == level
      && Valid(a, f) == 0 && (HasActive(a) ==> f != a.activeFrame)
  {
    assert ChooseSlot(a) == FindNextAvail(a) == Scan(a, ScanFrom(a), ScanLength(a));
    if HasRoom(a, level) {
      ScanFindsSlotAfterQueue(a, level);
    } else {
      ScanFindsNothing(a, level);
    }
  }

  /** Loading a slot leaves its count and every other slot as they are. */
  lemma LoadChangesOne(a: Auto, f: int, r: Request)
    requires WellFormed(a) && !a.recording && InRing(a, f)
    ensures var x := Load(a, f, r);
      && x == a.(frameStamp := a.frameStamp[f := x.frameStamp[f]])
      && Valid(x, f) == Valid(a, f) && x.frameStamp[f].repeatCount == r.repeatCount && x.frameStamp[f].hUser == r.hUser
  {
  }

  lemma BeginKeepsRing(a: Auto, level: nat, f: int, r: Request)
    requires RingInv(a, level) && InRing(a, f)
    ensures RingInv(Load(a, f, r), level)
  {
  }

  /** When the slot in flight is the active one, nothing else is queued. */
  lemma ActiveSlotInFlight(a: Auto, level: nat)
    requires RingInv(a, level) && HasActive(a) && FlightInv(a, level, a.activeFrame)
    ensures level == if Valid(a, a.activeFrame) > 0 then 1 else 0
  {
    assert DistOf(a, First(a), First(a)) == 0;
    assert level > 0 ==> First(a) == a.activeFrame;
    assert level > 1 ==> DistOf(a, First(a), AheadOf(a, First(a), 1)) == 1;
  }

  lemma CompleteKeepsRing(a: Auto, level: nat, f: int)
    requires RingInv(a, level) && FlightInv(a, level, f)
    ensures RingInv(CompleteTransfer(a, f), if Valid(a, f) == 0 then level + 1 else level)
  {
    var r := CompleteTransfer(a, f);
    assert SameRing(a, r);
    assert 0 <= DistOf(a, First(a), f) < Size(a);
    if HasActive(a) && f == a.activeFrame {
      ActiveSlotInFlight(a, level);
      assert ArcFrom(r, f, 1);
    } else {
      assert First(r) == First(a);
    }
  }

  // ----- flush, preroll -----

  /** A flush leaves nothing before the start, and afterwards at most the slot the register
      designates. */
  function FlushedLevel(a: Auto, level: nat): nat
    requires WellFormed(a)
  {
    if a.state == Init then 0
    else if !(a.state == Running || a.state == Paused) then level
    else if Valid(a, ReadRegister(a)) > 0 then 1
    else 0
  }

  /** Every slot but one is emptied; before the start that one is emptied too. */
  lemma FlushEmpties(a: Auto, clear: bool)
    requires WellFormed(a) && !a.recording && (a.state == Init || a.state == Running || a.state == Paused)
    ensures var r, stop := Flush(a, clear), ReadRegister(a);
      && r == a.(frameStamp := r.frameStamp, droppedFrames := if clear then 0 else a.droppedFrames)
      && WellFormed(r) && EmptyBut(r, stop)
      && r.frameStamp[stop] == a.frameStamp[stop].(validCount := if a.state == Init then 0 else Valid(a, stop))
      && forall g :: 0 <= g < MAX_FRAMEBUFFERS ==> r.frameStamp[g].hUser == a.frameStamp[g].hUser
  {
    var stop := ReadRegister(a);
    forall g | InRing(a, g)
      ensures DistOf(a, NextOf(a, stop), g) < DistOf(a, NextOf(a, stop), stop) <==> g != stop
    {
    }
  }

  lemma FlushKeepsRing(a: Auto, level: nat, clear: bool)
    requires RingInv(a, level)
    ensures RingInv(Flush(a, clear), FlushedLevel(a, level))
  {
    if a.state == Init || a.state == Running || a.state == Paused {
      var r := Flush(a, clear);
      var stop := ReadRegister(a);
      FlushEmpties(a, clear);
      assert 0 <= DistOf(a, First(a), stop);
      SingleArc(r, stop, First(r));
    }
  }

  /** The last queued slot, or the active one when nothing is queued. */
  function LastQueued(a: Auto, level: nat): int
    requires WellFormed(a)
  {
    if level == 0 then a.activeFrame else AheadOf(a, First(a), level - 1)
  }

  /** A preroll extends that slot, and fails when there is no room for another frame. */
  lemma PrerollExtendsQueue(a: Auto, level: nat, count: nat)
    requires RingInv(a, level) && HasActive(a)
    ensures InRing(a, LastQueued(a, level))
    ensures level > 0 ==> Valid(a, LastQueued(a, level)) > 0
    ensures var (r, ok), f := Preroll(a, count), LastQueued(a, level);
      && (ok <==> HasRoom(a, level))
      && (!ok ==> r == a)
      && (ok ==> r == Extend(a, f, count))
  {
    ChoosesSlotAfterQueue(a, level);
    assert FindNextAvail(a) == ChooseSlot(a);
    assert level > 0 ==> DistOf(a, First(a), LastQueued(a, level)) == level - 1;
  }

  function PrerolledLevel(a: Auto, level: nat, count: nat): nat
    requires WellFormed(a)
  {
    if HasActive(a) && level == 0 && count > 0 && HasRoom(a, level) then 1 else level
  }

  /** Counting up the last queued slot, or the empty active one. */
  lemma ExtendedIsQueue(a: Auto, r: Auto, level: nat, f: int)
    requires RingInv(a, level) && HasActive(a) && WellFormed(r) && SameRing(a, r)
    requires f == LastQueued(a, level) && InRing(a, f) && (level > 0 ==> Valid(a, f) > 0)
    requires r == a.(state := r.state, frameStamp := r.frameStamp)
    requires r.state == if f == a.activeFrame then Starting else a.state
    requires r.frameStamp == a.frameStamp[f := r.frameStamp[f]] && Valid(r, f) >= Valid(a, f)
    ensures RingInv(r, if level == 0 && Valid(r, f) > 0 then 1 else level)
  {
    assert 0 <= DistOf(a, First(a), a.register) && 0 <= DistOf(a, First(a), f);
    if level == 0 {
      EmptyArc(a, First(a));
      SingleArc(r, f, First(a));
    } else {
      assert First(r) == First(a);
    }
  }

  lemma PrerollKeepsRing(a: Auto, level: nat, count: nat)
    requires RingInv(a, level)
    ensures RingInv(Preroll(a, count).0, PrerolledLevel(a, level, count))
  {
    if HasActive(a) {
      PrerollExtendsQueue(a, level, count);
      if HasRoom(a, level) {
        var f := LastQueued(a, level);
        var r := Extend(a, f, count);
        assert 0 <= DistOf(a, First(a), f);
        assert level == 0 ==> Valid(a, f) == 0;
        ExtendedIsQueue(a, r, level, f);
      }
    }
  }
}
