/**
 One AutoCirculate channel as the driver keeps it: a record updated in place.  Every
 method is proved against the function of the same step in `Ring`.
 */
module Circulators {
  import opened Basics
  import opened Ring

  class Circulator {
    var recording: bool
    var state: State
    var startFrame: int
    var endFrame: int
    var activeFrame: int
    var register: int
    var nextFrame: int
    var framesProcessed: nat
    var droppedFrames: nat
    var nextTransferFrame: int
    const frameStamp: array<FrameStamp>

    ghost function Model(): Auto
      reads this, frameStamp
    {
      Auto(recording, state, startFrame, endFrame, activeFrame, register, nextFrame,
           framesProcessed, droppedFrames, frameStamp[..])
    }

    ghost predicate Valid()
      reads this, frameStamp
    {
      WellFormed(Model())
    }

    /** AutoCircReset and AutoCircInit: the whole record is cleared. */
    constructor (recording: bool, s: int, e: int, register: int)
      requires 0 <= s <= e < MAX_FRAMEBUFFERS
      ensures Valid() && Model() == InitAuto(recording, s, e, register)
      ensures fresh(frameStamp)
    {
      this.recording, this.startFrame, this.endFrame, this.register := recording, s, e, register;
      nextFrame, framesProcessed, droppedFrames, nextTransferFrame := 0, 0, 0, 0;
      frameStamp := new FrameStamp[MAX_FRAMEBUFFERS](_ => EMPTY_STAMP);
      activeFrame, state := INVALID_FRAME, Init;
      new;
      assert frameStamp[..] == seq(MAX_FRAMEBUFFERS, _ => EMPTY_STAMP);
    }

    method StartUp()
      requires Valid()
      modifies this
      ensures Valid() && Model() == Start(old(Model()))
    {
      register := startFrame;
      activeFrame := startFrame;
      nextFrame := startFrame;
      state := Starting;
    }

    // ----- the vertical blank interrupt -----

    method AutoCirculate(t: VBlank)
      requires Valid()
      modifies this, frameStamp
      ensures Valid() && Model() == Interrupt(old(Model()), t)
      ensures !t.field0 && !t.fieldMode ==> Model() == old(Model())
    {
      if !(t.field0 || t.fieldMode) {
        return;
      }
      var lastActiveFrame := activeFrame;
      ghost var before := Model();
      if state == Running || state == Paused || state == Starting {
        ReadActiveFrame();
      }
      assert Model() == if HasActive(before) then before.(activeFrame := ReadRegister(before)) else before;
      match state
      case Starting =>
        if t.timeReached {
          if recording {
            StartCapture(t);
          } else {
            StartPlayback(t);
          }
        }
      case Running =>
        if recording {
          Capture(lastActiveFrame, t);
        } else {
          Playback(t);
        }
      case Stopping => state := Disabled;
      case _ =>
    }

    method ReadActiveFrame()
      requires Valid()
      modifies this`activeFrame
      ensures Model() == old(Model()).(activeFrame := ReadRegister(old(Model())))
      ensures startFrame <= activeFrame <= endFrame
    {
      activeFrame := register;
      if activeFrame < startFrame || activeFrame > endFrame {
        activeFrame := startFrame;
      }
    }

    method StartCapture(t: VBlank)
      requires Valid() && HasActive(Model())
      modifies this, frameStamp
      ensures Model() == CaptureStarting(old(Model()), t)
    {
      var next := Next(startFrame, endFrame, activeFrame);
      frameStamp[activeFrame] := frameStamp[activeFrame].(validCount := 0);
      frameStamp[activeFrame] := frameStamp[activeFrame].(frameFlags := FlagsOf(t));
      if t.field0 {
        register := next;
        nextFrame := next;
        state := Running;
      }
    }

    method Capture(last: int, t: VBlank)
      requires Valid() && HasActive(Model()) && startFrame <= last <= endFrame
      modifies this, frameStamp
      ensures Model() == CaptureRunning(old(Model()), last, t)
    {
      if frameStamp[last].validCount == 0 {
        frameStamp[last] := frameStamp[last].(validCount := 1);
      }
      assert Model() == CaptureMark(old(Model()), last);
      if t.tooFast {
        return;
      }
      frameStamp[activeFrame] := frameStamp[activeFrame].(frameFlags := FlagsOf(t));
      Record(t);
    }

    /** Move the device on, or drop. */
    method Record(t: VBlank)
      requires Valid() && HasActive(Model())
      modifies this, frameStamp
      ensures Model() == CaptureAdvance(old(Model()), t)
    {
      var dropSync := t.syncEnabled && t.syncDrop;
      if t.fieldMode {
        var prev := Prev(startFrame, endFrame, activeFrame);
        if frameStamp[prev].frameFlags == frameStamp[activeFrame].frameFlags {
          dropSync := true;
        }
      }
      assert dropSync == CaptureMustWait(Model(), t);
      var next := Next(startFrame, endFrame, activeFrame);
      if frameStamp[next].validCount == 0 && !dropSync {
        register := next;
        nextFrame := next;
        framesProcessed := framesProcessed + 1;
      } else {
        droppedFrames := droppedFrames + 1;
        frameStamp[activeFrame] := frameStamp[activeFrame].(validCount := frameStamp[activeFrame].validCount + 1);
      }
    }

    method StartPlayback(t: VBlank)
      requires Valid() && HasActive(Model())
      modifies this, frameStamp
      ensures Model() == PlaybackStarting(old(Model()), t)
    {
      var next := Next(startFrame, endFrame, activeFrame);
      if frameStamp[activeFrame].validCount > 0 {
        frameStamp[activeFrame] := frameStamp[activeFrame].(validCount := frameStamp[activeFrame].validCount - 1);
      }
      if frameStamp[activeFrame].validCount == 0 {
        var drop := frameStamp[next].validCount == 0;
        if !drop && t.syncEnabled && t.syncDrop {
          drop := true;
        }
        if t.fieldMode && t.field0 == frameStamp[next].frameFlags.field0 {
          drop := true;
        }
        if !drop {
          register := next;
          nextFrame := next;
          framesProcessed := framesProcessed + 1;
          state := Running;
        } else if t.syncEnabled {
          droppedFrames := droppedFrames + 1;
        }
      }
    }

    method Playback(t: VBlank)
      requires Valid() && HasActive(Model())
      modifies this, frameStamp
      ensures Model() == PlaybackRunning(old(Model()), t)
    {
      if frameStamp[activeFrame].validCount > 0 {
        frameStamp[activeFrame] := frameStamp[activeFrame].(validCount := frameStamp[activeFrame].validCount - 1);
      }
      if frameStamp[activeFrame].validCount == 0 {
        var next := Next(startFrame, endFrame, activeFrame);
        var drop := frameStamp[next].validCount == 0;
        if !drop && t.syncEnabled && t.syncDrop {
          drop := true;
        }
        if t.fieldMode && t.field0 == frameStamp[next].frameFlags.field0 {
          drop := true;
        }
        if !drop {
          register := next;
          nextFrame := next;
          framesProcessed := framesProcessed + 1;
        } else {
          droppedFrames := droppedFrames + 1;
        }
      }
    }

    // ----- transfers -----

    method FindNextAvailFrame() returns (found: bool)
      requires Valid()
      modifies this`nextTransferFrame
      ensures found <==> FindNextAvail(Model()).Some?
      ensures found ==> nextTransferFrame == FindNextAvail(Model()).value
      ensures !found ==> nextTransferFrame == old(nextTransferFrame)
    {
      ghost var m := Model();
      var range := endFrame - startFrame + 1;
      var cur, i;
      if state == Init {
        cur := startFrame - 1;
        i := 0;
      } else {
        cur := activeFrame;
        if cur < startFrame || cur > endFrame {
          return false;
        }
        i := 1;
      }
      if recording {
        if state != Running {
          return false;
        }
        i := 0;
      } else if state == Disabled {
        return false;
      }
      while i < range
        invariant 0 <= i <= range && startFrame - 1 <= cur <= endFrame
        invariant FindNextAvail(m) == Scan(m, Next(startFrame, endFrame, cur), range - i)
        invariant nextTransferFrame == old(nextTransferFrame)
      {
        cur := Next(startFrame, endFrame, cur);
        if (recording && frameStamp[cur].validCount > 0) || (!recording && frameStamp[cur].validCount == 0) {
          nextTransferFrame := cur;
          return true;
        }
        i := i + 1;
      }
      return false;
    }

    method Begin(frame: int, request: Request)
      requires Valid() && 0 <= frame < MAX_FRAMEBUFFERS
      modifies frameStamp
      ensures Valid() && Model() == BeginTransfer(old(Model()), frame, request)
    {
      if !recording {
        frameStamp[frame] := frameStamp[frame].(
          repeatCount := request.repeatCount, hUser := request.hUser);
      }
    }

    /** The transfer of a channel that circulates fields stores the field flags. */
    method TakeField(frame: int, request: Request)
      requires Valid() && 0 <= frame < MAX_FRAMEBUFFERS
      modifies frameStamp
      ensures Valid() && Model() == Ring.TakeField(old(Model()), frame, request)
    {
      if !recording && request.field.Some? {
        frameStamp[frame] := frameStamp[frame].(frameFlags := request.field.value);
      }
    }

    method Complete(frame: int)
      requires Valid()
      modifies frameStamp
      ensures Valid() && Model() == CompleteTransfer(old(Model()), frame)
    {
      if startFrame <= frame <= endFrame {
        if recording {
          frameStamp[frame] := frameStamp[frame].(validCount := 0);
        } else {
          frameStamp[frame] := frameStamp[frame].(validCount := frameStamp[frame].repeatCount);
        }
      }
    }

    // ----- the buffer level -----

    method GetBufferLevel() returns (level: int)
      requires Valid()
      ensures level == BufferLevel(Model())
      ensures recording && state != Running ==> level == 0
    {
      var range := endFrame - startFrame + 1;
      var cur := if state == Init then startFrame else activeFrame;
      if state != Init && (activeFrame < startFrame || activeFrame > endFrame) {
        return 0;
      }
      level := 0;
      if recording {
        if state != Running {
          return 0;
        }
        if frameStamp[cur].validCount != 0 {
          level := level + 1;
        }
        for i := 1 to range
          invariant startFrame <= cur <= endFrame
          invariant BufferLevel(Model()) == level + LevelBack(Model(), PrevOf(Model(), cur), range - i)
        {
          cur := Prev(startFrame, endFrame, cur);
          if frameStamp[cur].validCount == 0 {
            return;
          }
          level := level + 1;
        }
      } else {
        level := frameStamp[cur].validCount;
        for i := 1 to range
          invariant startFrame <= cur <= endFrame
          invariant BufferLevel(Model()) == level + LevelAhead(Model(), NextOf(Model(), cur), range - i)
        {
          cur := Next(startFrame, endFrame, cur);
          if frameStamp[cur].validCount == 0 {
            return;
          }
          level := level + frameStamp[cur].validCount;
        }
      }
    }

    // ----- a gang member's share of the control calls -----

    method PauseMember(play: bool, clearDropped: bool)
      requires Valid()
      modifies this
      ensures Valid() && Model() == Pause(old(Model()), play, clearDropped)
    {
      if !play && state == Running {
        state := State.Paused;
      } else if play && state == State.Paused {
        state := Running;
        if clearDropped {
          droppedFrames := 0;
        }
      }
    }

    method Flush(clearDropped: bool)
      requires Valid()
      modifies this, frameStamp
      ensures Valid() && Model() == FlushMember(old(Model()), clearDropped)
    {
      ghost var m := Model();
      if clearDropped {
        droppedFrames := 0;
      }
      var stop := register;
      if stop < startFrame || stop > endFrame {
        stop := startFrame;
      }
      if recording {
        FlushRecorded(stop);
      } else {
        FlushQueued(stop);
        if state == Init {
          frameStamp[stop] := frameStamp[stop].(validCount := 0);
        }
      }
    }

    /** Mark recorded frames as available for record, backwards from the current one. */
    method FlushRecorded(stop: int)
      requires Valid() && startFrame <= stop <= endFrame
      modifies frameStamp
      ensures Valid() && Model() == FlushBack(old(Model()), PrevOf(old(Model()), stop), stop)
    {
      var cur := Prev(startFrame, endFrame, stop);
      ghost var m := Model();
      ghost var goal := FlushBack(m, cur, stop);
      while cur != stop && frameStamp[cur].validCount != 0
        invariant startFrame <= cur <= endFrame && Valid()
        invariant FlushBack(Model(), cur, stop) == goal
        decreases Dist(startFrame, endFrame, stop, cur)
      {
        ghost var b := SetValid(Model(), cur, 0);
        frameStamp[cur] := frameStamp[cur].(validCount := 0);
        assert Model() == b;
        cur := Prev(startFrame, endFrame, cur);
      }
    }

    /** Mark every queued frame as empty, from the one after the current to the current. */
    method FlushQueued(stop: int)
      requires Valid() && startFrame <= stop <= endFrame
      modifies frameStamp
      ensures Valid() && Model() == FlushAhead(old(Model()), NextOf(old(Model()), stop), stop)
    {
      var cur := Next(startFrame, endFrame, stop);
      ghost var m := Model();
      ghost var goal := FlushAhead(m, cur, stop);
      while cur != stop
        invariant startFrame <= cur <= endFrame && Valid()
        invariant FlushAhead(Model(), cur, stop) == goal
        decreases Dist(startFrame, endFrame, cur, stop)
      {
        ghost var b := SetValid(Model(), cur, 0);
        frameStamp[cur] := frameStamp[cur].(validCount := 0);
        assert Model() == b;
        cur := Next(startFrame, endFrame, cur);
      }
    }

    method Preroll(count: int) returns (ok: bool)
      requires Valid()
      modifies this, frameStamp
      ensures Valid() && (Model(), ok) == PrerollMember(old(Model()), count)
    {
      var cur := activeFrame;
      if !recording {
        var found := FindNextAvailFrame();
        if !found {
          return false;
        }
        cur := nextTransferFrame;
        if cur != activeFrame {
          cur := Prev(startFrame, endFrame, cur);
        }
        if cur == activeFrame {
          state := Starting;
        }
        frameStamp[cur] := frameStamp[cur].(validCount := frameStamp[cur].validCount + count);
      }
      return true;
    }
  }
}
