/**
 The frame ring of one AutoCirculate channel, as a value: the bookkeeping of
 driver/ntv2autocirc.c without the device plumbing.  Every operation of the driver is
 a function from the record before the call to the record after it; `Circulator`
 proves the in-place code against these functions, and the other modules prove what
 the functions keep over whole runs.
 */
module Ring {
  import opened Basics

  const MAX_FRAMEBUFFERS := 512
  /** NTV2_INVALID_FRAME, as it reads back from the signed `activeFrame` field. */
  const INVALID_FRAME := -1

  datatype State = Disabled | Init | Starting | Paused | Stopping | Running

  /** The two field bits of `frameFlags`; a full frame carries neither. */
  datatype FieldFlags = FieldFlags(field0: bool, field1: bool)
  const FULL := FieldFlags(false, false)

  datatype FrameStamp = FrameStamp(
    validCount: int,        // capture: undelivered when > 0; playback: ticks still to air
    repeatCount: int,       // set when a transfer begins, copied to validCount when it ends
    frameFlags: FieldFlags,
    hUser: int)             // the cookie of the frame's owner

  const EMPTY_STAMP := FrameStamp(0, 0, FULL, 0)

  datatype Auto = Auto(
    recording: bool,
    state: State,
    startFrame: int,
    endFrame: int,
    activeFrame: int,
    register: int,          // the device register activeFrameRegister designates
    nextFrame: int,
    framesProcessed: nat,
    droppedFrames: nat,
    frameStamp: seq<FrameStamp>)

  /** What one vertical blank interrupt finds outside the record. */
  datatype VBlank = VBlank(
    field0: bool,           // the field starting now is field 0
    fieldMode: bool,        // circulating fields of an interlaced format
    timeReached: bool,      // the requested start time has come
    tooFast: bool,          // under a fifth of a frame period since the last interrupt
    syncEnabled: bool,      // kVRegSyncChannels is set
    syncDrop: bool)         // the partner channel asks for a drop

  // ----- ring arithmetic -----

  function Next(s: int, e: int, f: int): int {
    if f < e then f + 1 else s
  }

  function Prev(s: int, e: int, f: int): int {
    if f > s then f - 1 else e
  }

  /** How many steps of `Next` lead from slot `b` to slot `f`. */
  function Dist(s: int, e: int, b: int, f: int): int {
    if b <= f then f - b else f - b + (e - s + 1)
  }

  /** The slot `k` steps of `Next` after `b`. */
  function Ahead(s: int, e: int, b: int, k: int): int {
    if b + k <= e then b + k else b + k - (e - s + 1)
  }

  predicate InRing(a: Auto, f: int) {
    a.startFrame <= f <= a.endFrame
  }

  function Size(a: Auto): int {
    a.endFrame - a.startFrame + 1
  }

  predicate HasActive(a: Auto) {
    a.state == Starting || a.state == Running || a.state == Paused
  }

  /** What Init and Start establish and nothing below breaks. */
  predicate WellFormed(a: Auto) {
    && 0 <= a.startFrame <= a.endFrame < MAX_FRAMEBUFFERS
    && |a.frameStamp| == MAX_FRAMEBUFFERS
    && (HasActive(a) ==> InRing(a, a.activeFrame))
  }

  /** The configuration Init chose is still in force. */
  predicate SameRing(a: Auto, b: Auto) {
    a.recording == b.recording && a.startFrame == b.startFrame && a.endFrame == b.endFrame
  }

  function NextOf(a: Auto, f: int): int {
    Next(a.startFrame, a.endFrame, f)
  }

  function PrevOf(a: Auto, f: int): int {
    Prev(a.startFrame, a.endFrame, f)
  }

  function DistOf(a: Auto, b: int, f: int): int {
    Dist(a.startFrame, a.endFrame, b, f)
  }

  function AheadOf(a: Auto, b: int, k: int): int {
    Ahead(a.startFrame, a.endFrame, b, k)
  }

  function Valid(a: Auto, f: int): int
    requires 0 <= f < |a.frameStamp|
  {
    a.frameStamp[f].validCount
  }

  function SetValid(a: Auto, f: int, v: int): Auto
    requires 0 <= f < |a.frameStamp|
  {
    a.(frameStamp := a.frameStamp[f := a.frameStamp[f].(validCount := v)])
  }

  function SetFlags(a: Auto, f: int, flags: FieldFlags): Auto
    requires 0 <= f < |a.frameStamp|
  {
    a.(frameStamp := a.frameStamp[f := a.frameStamp[f].(frameFlags := flags)])
  }

  // ----- Init and Start -----

  /** One channel after Init; the register keeps whatever the device last held. */
  function InitAuto(recording: bool, s: int, e: int, register: int): Auto {
    Auto(recording, Init, s, e, INVALID_FRAME, register, 0, 0, 0,
         seq(MAX_FRAMEBUFFERS, _ => EMPTY_STAMP))
  }

  function Start(a: Auto): Auto {
    a.(register := a.startFrame, activeFrame := a.startFrame, nextFrame := a.startFrame, state := Starting)
  }

  // ----- the vertical blank interrupt -----

  /** Outside field mode the driver acts on field 0 only. */
  predicate Acts(t: VBlank) {
    t.field0 || t.fieldMode
  }

  /** AutoCirculate, called at every interrupt. */
  function Interrupt(a: Auto, t: VBlank): Auto
    requires WellFormed(a)
  {
    if Acts(t) then Tick(a, t) else a
  }

  /** The register, or the first slot when the register is outside the ring. */
  function ReadRegister(a: Auto): int {
    if InRing(a, a.register) then a.register else a.startFrame
  }

  function FlagsOf(t: VBlank): FieldFlags {
    if t.fieldMode then FieldFlags(t.field0, !t.field0) else FULL
  }

  /** An interrupt on which the driver acts. */
  function Tick(a: Auto, t: VBlank): (r: Auto)
    requires WellFormed(a)
    ensures WellFormed(r) && SameRing(a, r)
  {
    var b := if HasActive(a) then a.(activeFrame := ReadRegister(a)) else a;
    match a.state
    case Starting =>
      if !t.timeReached then b
      else if a.recording then CaptureStarting(b, t)
      else PlaybackStarting(b, t)
    case Running =>
      if a.recording then CaptureRunning(b, a.activeFrame, t) else PlaybackRunning(b, t)
    case Stopping => a.(state := Disabled)
    case _ => b
  }

  /** Point the device at `next`, where it goes at the following interrupt. */
  function MoveOn(a: Auto, next: int): Auto {
    a.(register := next, nextFrame := next)
  }

  function CaptureStarting(a: Auto, t: VBlank): Auto
    requires WellFormed(a) && HasActive(a)
  {
    var b := SetFlags(SetValid(a, a.activeFrame, 0), a.activeFrame, FlagsOf(t));
    if t.field0 then MoveOn(b, NextOf(b, b.activeFrame)).(state := Running) else b
  }

  /** `last` was just captured. */
  function CaptureMark(a: Auto, last: int): Auto
    requires 0 <= last < |a.frameStamp|
  {
    if Valid(a, last) == 0 then SetValid(a, last, 1) else a
  }

  function CaptureRunning(a: Auto, last: int, t: VBlank): Auto
    requires WellFormed(a) && HasActive(a) && InRing(a, last)
  {
    var b := CaptureMark(a, last);
    if t.tooFast then b else CaptureAdvance(SetFlags(b, b.activeFrame, FlagsOf(t)), t)
  }

  /** Move on when the next slot is empty; otherwise stay, which is a drop. */
  function CaptureAdvance(a: Auto, t: VBlank): Auto
    requires WellFormed(a) && HasActive(a)
  {
    var next := NextOf(a, a.activeFrame);
    if Valid(a, next) == 0 && !CaptureMustWait(a, t) then
      MoveOn(a, next).(framesProcessed := a.framesProcessed + 1)
    else
      SetValid(a, a.activeFrame, Valid(a, a.activeFrame) + 1).(droppedFrames := a.droppedFrames + 1)
  }

  /** A synced partner lags, or the slot before the active one holds the same field. */
  predicate CaptureMustWait(a: Auto, t: VBlank)
    requires WellFormed(a) && HasActive(a)
  {
    || (t.syncEnabled && t.syncDrop)
    || (t.fieldMode && a.frameStamp[PrevOf(a, a.activeFrame)].frameFlags == a.frameStamp[a.activeFrame].frameFlags)
  }

  function CountDown(a: Auto): Auto
    requires WellFormed(a) && HasActive(a)
  {
    if Valid(a, a.activeFrame) > 0 then SetValid(a, a.activeFrame, Valid(a, a.activeFrame) - 1) else a
  }

  /** The next frame is not there, the partner lags, or the next frame is the wrong field. */
  predicate PlaybackMustWait(a: Auto, t: VBlank)
    requires WellFormed(a) && HasActive(a)
  {
    var next := NextOf(a, a.activeFrame);
    || Valid(a, next) == 0
    || (t.syncEnabled && t.syncDrop)
    || (t.fieldMode && t.field0 == a.frameStamp[next].frameFlags.field0)
  }

  function PlaybackStarting(a: Auto, t: VBlank): Auto
    requires WellFormed(a) && HasActive(a)
  {
    var b := CountDown(a);
    if Valid(b, b.activeFrame) != 0 then b
    else if !PlaybackMustWait(b, t) then
      MoveOn(b, NextOf(b, b.activeFrame)).(framesProcessed := b.framesProcessed + 1, state := Running)
    else if t.syncEnabled then b.(droppedFrames := b.droppedFrames + 1)
    else b
  }

  function PlaybackRunning(a: Auto, t: VBlank): Auto
    requires WellFormed(a) && HasActive(a)
  {
    var b := CountDown(a);
    if Valid(b, b.activeFrame) != 0 then b
    else if !PlaybackMustWait(b, t) then
      MoveOn(b, NextOf(b, b.activeFrame)).(framesProcessed := b.framesProcessed + 1)
    else b.(droppedFrames := b.droppedFrames + 1)
  }

  // ----- choosing, beginning and completing a transfer -----

  /** Is slot `f` one the host may transfer: filled when capturing, empty when playing. */
  predicate Transferable(a: Auto, f: int)
    requires 0 <= f < |a.frameStamp|
  {
    if a.recording then Valid(a, f) > 0 else Valid(a, f) == 0
  }

  /** The first transferable slot among the `k` slots from `f` on. */
  function Scan(a: Auto, f: int, k: nat): (r: Option<int>)
    requires WellFormed(a) && InRing(a, f) && k <= Size(a)
    ensures r.Some? ==> InRing(a, r.value)
    decreases k
  {
    if k == 0 then None
    else if Transferable(a, f) then Some(f)
    else Scan(a, NextOf(a, f), k - 1)
  }

  /** It passes over none, and finds none only when there is none. */
  lemma {:induction false} ScanTakesFirst(a: Auto, f: int, k: nat)
    requires WellFormed(a) && InRing(a, f) && k <= Size(a)
    ensures var r := Scan(a, f, k);
      && (r.Some? ==> Transferable(a, r.value) && DistOf(a, f, r.value) < k)
      && forall g :: InRing(a, g) && DistOf(a, f, g) < (if r.Some? then DistOf(a, f, r.value) else k) ==>
        !Transferable(a, g)
    decreases k
  {
    if k > 0 && !Transferable(a, f) {
      ScanTakesFirst(a, NextOf(a, f), k - 1);
    }
  }

  /** AutoCircFindNextAvailFrame. */
  function FindNextAvail(a: Auto): Option<int>
    requires WellFormed(a)
  {
    if a.state != Init && !InRing(a, a.activeFrame) then None
    else if a.recording then
      if a.state != Running then None else Scan(a, NextOf(a, a.activeFrame), Size(a))
    else if a.state == Disabled then None
    else if a.state == Init then Scan(a, a.startFrame, Size(a))
    else Scan(a, NextOf(a, a.activeFrame), Size(a) - 1)
  }

  /** The slots FindNextAvail looks at. */
  function ScanFrom(a: Auto): int {
    if HasActive(a) then NextOf(a, a.activeFrame) else a.startFrame
  }

  function ScanLength(a: Auto): int {
    if HasActive(a) && !a.recording then Size(a) - 1 else Size(a)
  }

  lemma FindIsScan(a: Auto)
    requires WellFormed(a) && (HasActive(a) || a.state == Init)
    ensures InRing(a, ScanFrom(a)) && 0 <= ScanLength(a) <= Size(a)
    ensures FindNextAvail(a) ==
      if a.recording && a.state != Running then None else Scan(a, ScanFrom(a), ScanLength(a))
  {
  }

  /** The slot AutoCircTransfer picks when the host leaves the choice to the driver. */
  function ChooseSlot(a: Auto): Option<int>
    requires WellFormed(a)
  {
    if a.recording && a.state != Running && a.state != Starting then None
    else if !a.recording && a.state == Disabled then None
    else
      match FindNextAvail(a)
      case Some(f) => Some(f)
      case None => if a.recording then Some(a.startFrame) else None
  }

  /** What the host hands over with a playback frame; a channel that circulates fields also
      takes the field flags of the frame. */
  datatype Request = Request(repeatCount: int, hUser: int, field: Option<FieldFlags>)

  function BeginTransfer(a: Auto, f: int, r: Request): Auto
    requires 0 <= f < |a.frameStamp|
  {
    if a.recording then a
    else a.(frameStamp := a.frameStamp[f := a.frameStamp[f].(repeatCount := r.repeatCount, hUser := r.hUser)])
  }

  /** The field flags of a playback frame are stored by the transfer itself, which for ganged
      channels runs for the primary alone. */
  function TakeField(a: Auto, f: int, r: Request): Auto
    requires 0 <= f < |a.frameStamp|
  {
    if a.recording || r.field.None? then a else SetFlags(a, f, r.field.value)
  }

  /** Everything up to the DMA, on a channel that is not ganged. */
  function Load(a: Auto, f: int, r: Request): Auto
    requires 0 <= f < |a.frameStamp|
  {
    TakeField(BeginTransfer(a, f, r), f, r)
  }

  function CompleteTransfer(a: Auto, f: int): Auto
    requires |a.frameStamp| == MAX_FRAMEBUFFERS && 0 <= a.startFrame && a.endFrame < MAX_FRAMEBUFFERS
  {
    if !InRing(a, f) then a
    else SetValid(a, f, if a.recording then 0 else a.frameStamp[f].repeatCount)
  }

  // ----- the other control calls, on one channel -----

  function Pause(a: Auto, play: bool, clearDropped: bool): Auto {
    if !play && a.state == Running then a.(state := State.Paused)
    else if play && a.state == State.Paused then
      a.(state := Running, droppedFrames := if clearDropped then 0 else a.droppedFrames)
    else a
  }

  /** Empty filled slots backwards from `f`, stopping at `stop` or at the first empty one. */
  function FlushBack(a: Auto, f: int, stop: int): (r: Auto)
    requires WellFormed(a) && InRing(a, f) && InRing(a, stop)
    ensures r == a.(frameStamp := r.frameStamp) && WellFormed(r)
    decreases DistOf(a, stop, f)
  {
    if f == stop || Valid(a, f) == 0 then a
    else FlushBack(SetValid(a, f, 0), PrevOf(a, f), stop)
  }

  function FlushedStamp(a: Auto, f: int, stop: int, g: int): FrameStamp
    requires WellFormed(a) && 0 <= g < MAX_FRAMEBUFFERS
  {
    if InRing(a, g) && DistOf(a, f, g) < DistOf(a, f, stop)
    then a.frameStamp[g].(validCount := 0) else a.frameStamp[g]
  }

  /** Empty every slot from `f` up to, not including, `stop`. */
  function FlushAhead(a: Auto, f: int, stop: int): (r: Auto)
    requires WellFormed(a) && InRing(a, f) && InRing(a, stop)
    ensures r == a.(frameStamp := r.frameStamp) && WellFormed(r)
    ensures forall g | 0 <= g < MAX_FRAMEBUFFERS :: r.frameStamp[g] == FlushedStamp(a, f, stop, g)
    decreases DistOf(a, f, stop)
  {
    if f == stop then a else FlushAhead(SetValid(a, f, 0), NextOf(a, f), stop)
  }

  function FlushMember(a: Auto, clearDropped: bool): Auto
    requires WellFormed(a)
  {
    var b := if clearDropped then a.(droppedFrames := 0) else a;
    var stop := ReadRegister(a);
    if a.recording then FlushBack(b, PrevOf(b, stop), stop)
    else
      var c := FlushAhead(b, NextOf(b, stop), stop);
      if a.state == Init then SetValid(c, stop, 0) else c
  }

  function Flush(a: Auto, clearDropped: bool): Auto
    requires WellFormed(a)
  {
    if a.state == Init || a.state == Running || a.state == Paused then FlushMember(a, clearDropped) else a
  }

  /** The slot a playback preroll extends: the last queued one, or the active one. */
  function PrerollSlot(a: Auto): (r: Option<int>)
    requires WellFormed(a)
    ensures r.Some? ==> InRing(a, r.value)
  {
    match FindNextAvail(a)
    case None => None
    case Some(f) => Some(if f != a.activeFrame then PrevOf(a, f) else f)
  }

  function Extend(a: Auto, f: int, count: int): Auto
    requires 0 <= f < |a.frameStamp|
  {
    SetValid(if f == a.activeFrame then a.(state := Starting) else a, f, Valid(a, f) + count)
  }

  /** One member's share of a preroll, and whether it succeeded. */
  function PrerollMember(a: Auto, count: int): (r: (Auto, bool))
    requires WellFormed(a)
    ensures WellFormed(r.0) && SameRing(a, r.0)
  {
    if a.recording then (a, true)
    else
      match PrerollSlot(a)
      case None => (a, false)
      case Some(f) =>
        (Extend(a, f, count), true)
  }

  /** Preroll acts on a channel that has started. */
  function Preroll(a: Auto, count: int): (Auto, bool)
    requires WellFormed(a)
  {
    if !HasActive(a) then (a, true) else PrerollMember(a, count)
  }

  // ----- the buffer level -----

  function LevelBack(a: Auto, f: int, k: nat): nat
    requires WellFormed(a) && InRing(a, f)
    decreases k
  {
    if k == 0 || Valid(a, f) == 0 then 0 else 1 + LevelBack(a, PrevOf(a, f), k - 1)
  }

  function LevelAhead(a: Auto, f: int, k: nat): int
    requires WellFormed(a) && InRing(a, f)
    decreases k
  {
    if k == 0 || Valid(a, f) == 0 then 0 else Valid(a, f) + LevelAhead(a, NextOf(a, f), k - 1)
  }

  /** AutoCircGetBufferLevel: stops at the first gap. */
  function BufferLevel(a: Auto): int
    requires WellFormed(a)
  {
    if a.state != Init && !InRing(a, a.activeFrame) then 0
    else
      var f := if a.state == Init then a.startFrame else a.activeFrame;
      if a.recording then
        if a.state != Running then 0
        else (if Valid(a, f) != 0 then 1 else 0) + LevelBack(a, PrevOf(a, f), Size(a) - 1)
      else
        Valid(a, f) + LevelAhead(a, NextOf(a, f), Size(a) - 1)
  }

  // ----- arcs of filled slots -----

  /** The filled slots are exactly the `level` slots from `oldest` on. */
  ghost predicate ArcFrom(a: Auto, oldest: int, level: int)
    requires WellFormed(a)
  {
    && InRing(a, oldest) && 0 <= level <= Size(a)
    && (forall f {:trigger Dist(a.startFrame, a.endFrame, oldest, f)} :: a.startFrame <= f <= a.endFrame ==>
          if Dist(a.startFrame, a.endFrame, oldest, f) < level then Valid(a, f) > 0 else Valid(a, f) == 0)
  }

  /** Seen from the successor of slot `b`, every other slot is one step nearer. */
  lemma DistFromNext(s: int, e: int, b: int)
    requires s <= b <= e
    ensures forall f {:trigger Dist(s, e, Next(s, e, b), f)} :: s <= f <= e ==>
      Dist(s, e, Next(s, e, b), f) == if f == b then e - s else Dist(s, e, b, f) - 1
  {
  }

  ghost predicate EmptyBut(a: Auto, f: int)
    requires WellFormed(a)
  {
    forall g :: a.startFrame <= g <= a.endFrame && g != f ==> a.frameStamp[g].validCount == 0
  }

  lemma EmptyArc(a: Auto, oldest: int)
    requires WellFormed(a) && ArcFrom(a, oldest, 0)
    ensures forall f :: EmptyBut(a, f)
    ensures forall g :: a.startFrame <= g <= a.endFrame ==> a.frameStamp[g].validCount == 0
  {
    forall g | InRing(a, g) ensures a.frameStamp[g].validCount == 0 {
      assert DistOf(a, oldest, g) >= 0;
    }
  }

  /** One slot alone is an arc; so is none, wherever it is taken to begin. */
  lemma SingleArc(a: Auto, f: int, oldest: int)
    requires WellFormed(a) && EmptyBut(a, f) && InRing(a, f) && InRing(a, oldest) && Valid(a, f) >= 0
    ensures ArcFrom(a, f, if Valid(a, f) > 0 then 1 else 0)
    ensures Valid(a, f) == 0 ==> ArcFrom(a, oldest, 0)
  {
  }
}
