/**
 Two synced playback channels.  Each asks before moving on whether the other has fallen
 behind (AutoCircDropSyncFrame); the interrupts of the two arrive in any order.
 */
module SyncChannels {
  import opened Basics
  import opened SingleSteps
  import opened Ring

  /** Must channel `a` drop for the sake of its partner `b`?  Never while one of the two sync
      channels is the key channel, which is how the driver notes that none is chosen. */
  predicate DropSyncFrame(keyed: bool, a: Auto, b: Auto)
    requires WellFormed(b) && 0 <= b.nextFrame < MAX_FRAMEBUFFERS
  {
    !keyed && Lags(a, b)
  }

  predicate Lags(a: Auto, b: Auto)
    requires WellFormed(b) && 0 <= b.nextFrame < MAX_FRAMEBUFFERS
  {
    || a.droppedFrames < b.droppedFrames
    || a.framesProcessed > b.framesProcessed
    || (a.framesProcessed == b.framesProcessed && Valid(b, NextOf(b, b.nextFrame)) == 0)
  }

  /** The two records, and how many interrupts each has taken that played. */
  datatype World = World(a: Auto, b: Auto, ticksA: nat, ticksB: nat)

  datatype Op =
    | StartUp
    | Begin(frame: int, request: Request)
    | Complete(frame: int)
    | PauseAll(play: bool, clearDropped: bool)
    | FlushAll(clearDropped: bool)
    | PrerollBy(count: int)

  datatype Event = VBI(first: bool, t: VBlank) | Control(first: bool, op: Op)

  predicate ShapeOf(a: Auto) {
    WellFormed(a) && !a.recording && 0 <= a.nextFrame < MAX_FRAMEBUFFERS
  }

  predicate Shape(w: World) {
    ShapeOf(w.a) && ShapeOf(w.b)
  }

  predicate Enabled(w: World, e: Event) {
    match e
    case VBI(_, t) => t.syncEnabled
    case Control(first, op) =>
      var a := if first then w.a else w.b;
      match op
      case StartUp => a.state == Init
      case Begin(f, _) => 0 <= f < MAX_FRAMEBUFFERS
      case Complete(f) => 0 <= f < MAX_FRAMEBUFFERS
      case _ => true
  }

  function Do(a: Auto, op: Op): (r: Auto)
    requires ShapeOf(a) && (op.StartUp? ==> a.state == Init)
    requires op.Begin? || op.Complete? ==> 0 <= op.frame < MAX_FRAMEBUFFERS
    ensures ShapeOf(r) && r.framesProcessed == a.framesProcessed
  {
    match op
    case StartUp => Start(a)
    case Begin(f, request) => Load(a, f, request)
    case Complete(f) => CompleteTransfer(a, f)
    case PauseAll(play, clear) => Pause(a, play, clear)
    case FlushAll(clear) => Flush(a, clear)
    case PrerollBy(count) => Preroll(a, count).0
  }

  /** The interrupt of channel `a`, its partner `b` being as it stands. */
  function SyncedTick(a: Auto, b: Auto, t: VBlank): (r: Auto)
    requires ShapeOf(a) && ShapeOf(b)
    ensures ShapeOf(r)
  {
    Interrupt(a, t.(syncDrop := DropSyncFrame(false, a, b)))
  }

  /** The interrupt plays a frame: the driver acts on it, and the channel is running or its
      start time has come. */
  predicate Plays(a: Auto, t: VBlank) {
    Acts(t) && (a.state == Running || (a.state == Starting && t.timeReached))
  }

  function Apply(w: World, e: Event): (r: World)
    requires Shape(w) && Enabled(w, e)
    ensures Shape(r)
  {
    match e
    case VBI(true, t) => w.(a := SyncedTick(w.a, w.b, t), ticksA := w.ticksA + if Plays(w.a, t) then 1 else 0)
    case VBI(false, t) => w.(b := SyncedTick(w.b, w.a, t), ticksB := w.ticksB + if Plays(w.b, t) then 1 else 0)
    case Control(true, op) => w.(a := Do(w.a, op))
    case Control(false, op) => w.(b := Do(w.b, op))
  }

  predicate Legal(w: World, es: seq<Event>)
    requires Shape(w)
    decreases es
  {
    es == [] || (Enabled(w, es[0]) && Legal(Apply(w, es[0]), es[1..]))
  }

  function Run(w: World, es: seq<Event>): (r: World)
    requires Shape(w) && Legal(w, es)
    ensures Shape(r)
    decreases es
  {
    if es == [] then w else Run(Apply(w, es[0]), es[1..])
  }

  function Twins(s1: int, e1: int, r1: int, s2: int, e2: int, r2: int): World {
    World(InitAuto(false, s1, e1, r1), InitAuto(false, s2, e2, r2), 0, 0)
  }

  // ----- one interrupt -----

  /** A running channel with its active slot spent and its next slot filled moves on exactly
      when it has not fewer drops than its partner, and either the partner is ahead of it or
      the two have processed equally many frames and the partner's next slot is filled too;
      otherwise it is held back and counts a drop. */
  lemma SyncedMovesOnIff(a: Auto, b: Auto, t: VBlank)
    requires ShapeOf(a) && ShapeOf(b) && Acts(t) && t.syncEnabled && a.state == Running
    requires Valid(a, ReadRegister(a)) == 0 || Valid(a, ReadRegister(a)) == 1
    requires NextOf(a, ReadRegister(a)) != ReadRegister(a) && Valid(a, NextOf(a, ReadRegister(a))) != 0
    requires t.fieldMode ==> a.frameStamp[NextOf(a, ReadRegister(a))].frameFlags.field0 != t.field0
    ensures var r := SyncedTick(a, b, t);
      var moves :=
        && a.droppedFrames >= b.droppedFrames
        && (a.framesProcessed < b.framesProcessed ||
            (a.framesProcessed == b.framesProcessed && Valid(b, NextOf(b, b.nextFrame)) != 0));
      && r.framesProcessed == a.framesProcessed + (if moves then 1 else 0)
      && r.droppedFrames == a.droppedFrames + (if moves then 0 else 1)
      && r.register == if moves then NextOf(a, ReadRegister(a)) else a.register
  {
    PlaybackMovesOnIff(a, t.(syncDrop := DropSyncFrame(false, a, b)));
  }

  /** Of two channels the one with fewer drops is held back, until it has as many. */
  lemma FewerDropsIsHeld(a: Auto, b: Auto, t: VBlank)
    requires ShapeOf(a) && ShapeOf(b) && Acts(t) && t.syncEnabled && a.state == Running
    requires a.droppedFrames < b.droppedFrames
    ensures var r := SyncedTick(a, b, t);
      && r.framesProcessed == a.framesProcessed && r.register == a.register
      && r.droppedFrames == a.droppedFrames + if 0 <= Valid(a, ReadRegister(a)) <= 1 then 1 else 0
  {
    PlaybackMovesOnIff(a, t.(syncDrop := DropSyncFrame(false, a, b)));
  }

  /** With the key channel among the two nothing is held back. */
  lemma KeyedIsNeverHeld(a: Auto, b: Auto)
    requires ShapeOf(b)
    ensures !DropSyncFrame(true, a, b)
  {
  }

  /** A channel on air whose active slot has its last showing and whose next slot is filled. */
  predicate Supplied(a: Auto)
    requires ShapeOf(a)
  {
    && a.state == Running && InRing(a, a.register) && a.nextFrame == a.register
    && 0 <= Valid(a, a.register) <= 1
    && NextOf(a, a.register) != a.register && Valid(a, NextOf(a, a.register)) != 0
  }

  /** Two supplied channels with equal counts wait for neither: an interrupt of each, in either
      order, moves both on, and neither drops. */
  lemma SuppliedChannelsMoveOn(a: Auto, b: Auto, t: VBlank, u: VBlank)
    requires ShapeOf(a) && ShapeOf(b) && Supplied(a) && Supplied(b)
    requires a.framesProcessed == b.framesProcessed && a.droppedFrames == b.droppedFrames
    requires Acts(t) && t.syncEnabled && !t.fieldMode && Acts(u) && u.syncEnabled && !u.fieldMode
    ensures var r := SyncedTick(a, b, t);
      var s := SyncedTick(b, r, u);
      && r.framesProcessed == s.framesProcessed == a.framesProcessed + 1
      && r.droppedFrames == s.droppedFrames == a.droppedFrames
      && r.register == NextOf(a, a.register) && s.register == NextOf(b, b.register)
  {
    SyncedMovesOnIff(a, b, t);
    SyncedMovesOnIff(b, SyncedTick(a, b, t), u);
  }

  // ----- frames processed -----

  predicate InStep(w: World) {
    -1 <= w.a.framesProcessed - w.b.framesProcessed <= 1
  }

  /** An interrupt that moves a channel on was not told to drop. */
  lemma AdvancesOnlyWhenAllowed(a: Auto, t: VBlank)
    requires WellFormed(a) && !a.recording
    ensures var r := Interrupt(a, t);
      r.framesProcessed == a.framesProcessed ||
      (r.framesProcessed == a.framesProcessed + 1 && !(t.syncEnabled && t.syncDrop))
  {
  }

  lemma {:induction false} RunStaysInStep(w: World, es: seq<Event>)
    requires Shape(w) && Legal(w, es) && InStep(w)
    ensures InStep(Run(w, es))
    decreases es
  {
    if es != [] {
      match es[0] {
        case VBI(true, t) => AdvancesOnlyWhenAllowed(w.a, t.(syncDrop := DropSyncFrame(false, w.a, w.b)));
        case VBI(false, t) => AdvancesOnlyWhenAllowed(w.b, t.(syncDrop := DropSyncFrame(false, w.b, w.a)));
        case Control(_, _) =>
      }
      RunStaysInStep(Apply(w, es[0]), es[1..]);
    }
  }

  /** Whatever each channel is asked to do and in whatever order the interrupts arrive, the
      two never differ by more than one frame processed. */
  lemma SyncedChannelsStayInStep(s1: int, e1: int, r1: int, s2: int, e2: int, r2: int, es: seq<Event>)
    requires 0 <= s1 <= e1 < MAX_FRAMEBUFFERS && 0 <= s2 <= e2 < MAX_FRAMEBUFFERS
    requires Legal(Twins(s1, e1, r1, s2, e2, r2), es)
    ensures var w := Run(Twins(s1, e1, r1, s2, e2, r2), es);
      -1 <= w.a.framesProcessed - w.b.framesProcessed <= 1
  {
    RunStaysInStep(Twins(s1, e1, r1, s2, e2, r2), es);
  }

  // ----- frames dropped -----

  /** Every frame is shown once. */
  ghost predicate Single(a: Auto)
    requires WellFormed(a)
  {
    forall f :: 0 <= f < MAX_FRAMEBUFFERS ==> 0 <= Valid(a, f) <= 1 && 0 <= a.frameStamp[f].repeatCount <= 1
  }

  /** Frames are transferred for one showing, prerolls and resets of the drop count are not
      used, and the interrupts that play alternate, channel `a` first. */
  predicate Orderly(w: World, e: Event)
    requires Shape(w)
  {
    match e
    case VBI(true, t) => Plays(w.a, t) ==> w.ticksA == w.ticksB
    case VBI(false, t) => Plays(w.b, t) ==> w.ticksA == w.ticksB + 1
    case Control(_, Begin(_, request)) => 0 <= request.repeatCount <= 1
    case Control(_, PauseAll(_, clear)) => !clear
    case Control(_, FlushAll(clear)) => !clear
    case Control(_, PrerollBy(_)) => false
    case Control(_, _) => true
  }

  /** With single showings every interrupt that plays either moves on or counts a drop. */
  lemma PlayingTickCounts(a: Auto, t: VBlank)
    requires WellFormed(a) && !a.recording && Single(a) && t.syncEnabled
    ensures var r := Interrupt(a, t);
      && Single(r)
      && r.framesProcessed + r.droppedFrames == a.framesProcessed + a.droppedFrames + if Plays(a, t) then 1 else 0
  {
    if Plays(a, t) {
      PlaybackMovesOnIff(a, t);
    }
  }

  lemma ControlKeepsSingle(a: Auto, op: Op)
    requires ShapeOf(a) && Single(a) && (op.StartUp? ==> a.state == Init)
    requires op.Begin? || op.Complete? ==> 0 <= op.frame < MAX_FRAMEBUFFERS
    requires op.Begin? ==> 0 <= op.request.repeatCount <= 1
    requires !op.PrerollBy? && !(op.PauseAll? && op.clearDropped) && !(op.FlushAll? && op.clearDropped)
    ensures Single(Do(a, op)) && Do(a, op).droppedFrames == a.droppedFrames
  {
  }

  ghost predicate DropInv(w: World) {
    && Shape(w) && InStep(w) && Single(w.a) && Single(w.b)
    && w.a.framesProcessed + w.a.droppedFrames == w.ticksA
    && w.b.framesProcessed + w.b.droppedFrames == w.ticksB
    && w.ticksB <= w.ticksA <= w.ticksB + 1
  }

  lemma StepKeepsDropInv(w: World, e: Event)
    requires DropInv(w) && Enabled(w, e) && Orderly(w, e)
    ensures DropInv(Apply(w, e))
  {
    assert Run(w, [e]) == Run(Apply(w, e), []) == Apply(w, e);
    RunStaysInStep(w, [e]);
    match e
    case VBI(true, t) => PlayingTickCounts(w.a, t.(syncDrop := DropSyncFrame(false, w.a, w.b)));
    case VBI(false, t) => PlayingTickCounts(w.b, t.(syncDrop := DropSyncFrame(false, w.b, w.a)));
    case Control(true, op) => ControlKeepsSingle(w.a, op);
    case Control(false, op) => ControlKeepsSingle(w.b, op);
  }

  predicate AllOrderly(w: World, es: seq<Event>)
    requires Shape(w) && Legal(w, es)
    decreases es
  {
    es == [] || (Orderly(w, es[0]) && AllOrderly(Apply(w, es[0]), es[1..]))
  }

  lemma {:induction false} RunKeepsDropInv(w: World, es: seq<Event>)
    requires DropInv(w) && Legal(w, es) && AllOrderly(w, es)
    ensures DropInv(Run(w, es))
    decreases es
  {
    if es != [] {
      StepKeepsDropInv(w, es[0]);
      RunKeepsDropInv(Apply(w, es[0]), es[1..]);
    }
  }

  /** Two channels playing single showings in alternation never differ by more than two
      drops. */
  lemma DropsStayClose(s1: int, e1: int, r1: int, s2: int, e2: int, r2: int, es: seq<Event>)
    requires 0 <= s1 <= e1 < MAX_FRAMEBUFFERS && 0 <= s2 <= e2 < MAX_FRAMEBUFFERS
    requires Legal(Twins(s1, e1, r1, s2, e2, r2), es) && AllOrderly(Twins(s1, e1, r1, s2, e2, r2), es)
    ensures var w := Run(Twins(s1, e1, r1, s2, e2, r2), es);
      -2 <= w.a.droppedFrames - w.b.droppedFrames <= 2
  {
    RunKeepsDropInv(Twins(s1, e1, r1, s2, e2, r2), es);
  }
}
