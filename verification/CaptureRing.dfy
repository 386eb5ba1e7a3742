/**
 A capture channel refines a first-in first-out queue of slots, whatever the order in
 which interrupts, drops, early bails, flushes and the two halves of a transfer arrive.
 */
module CaptureRing {
  import opened Basics
  import opened Ring

  /** The arc ends at the active slot when that is filled, at its predecessor otherwise;
      the register designates the active slot or a free successor of it. */
  ghost predicate RingInv(a: Auto, oldest: int, level: int) {
    && WellFormed(a) && a.recording
    && (a.state == Init || a.state == Starting || a.state == Running)
    && ArcFrom(a, oldest, level)
    && (a.state != Running ==> level == 0)
    && (a.state == Init ==> oldest == a.startFrame)
    && (a.state == Starting ==> oldest == a.activeFrame == a.register)
    && (a.state == Running ==>
          && DistOf(a, oldest, a.activeFrame) == (if Valid(a, a.activeFrame) > 0 then level - 1 else level)
          && (a.register == a.activeFrame || (a.register == NextOf(a, a.activeFrame) && Valid(a, a.register) == 0)))
  }

  // ----- the channel in its environment -----

  /** `picture[f]` tells at which interrupt the device last began to record into slot f:
      at every interrupt it starts on the slot that is active from then on. */
  datatype World = World(
    a: Auto,
    inFlight: Option<int>,    // the slot of the transfer between its Begin and its Complete
    owned: bool,              // that slot was not active when the transfer began
    clock: nat,
    picture: seq<nat>,
    delivered: seq<nat>,      // the pictures handed to the host, in order
    past: Past,
    counted: nat,             // running interrupts that did not bail
    cleared: nat,             // drops forgotten by flushes
    oldest: int,              // the queue: `level` slots from `oldest` on
    level: nat)

  /** What became of the pictures, told from the guards alone.  A slot handed over while the
      device still records into it is left `open`; the device will then fill it `again` with
      the same picture if it moves on, and with a new one if it stays. */
  datatype Past = Past(
    closed: seq<nat>,         // the pictures the device finished, less those flushed
    handed: seq<nat>,         // the finished pictures handed to the host
    early: nat,               // how often an unfinished one was
    left: nat,                // the slots the device left while running
    overwritten: nat,         // how often it stayed, starting a new picture over the last
    bailed: nat,              // running interrupts that bailed
    open: bool,
    again: bool,              // the oldest slot of the queue is such a one
    repeats: nat)             // how often such a slot was handed over

  datatype Event = StartUp | VBI(t: VBlank) | Begin | Complete | Fail | FlushAll(clearDropped: bool)

  function InitWorld(s: int, e: int, register: int): World {
    World(InitAuto(true, s, e, register), None, true, 0, seq(MAX_FRAMEBUFFERS, _ => 0), [],
          Past([], [], 0, 0, 0, 0, false, false, 0), 0, 0, s, 0)
  }

  predicate Shape(w: World) {
    && WellFormed(w.a) && |w.picture| == MAX_FRAMEBUFFERS
    && (w.inFlight.Some? ==> InRing(w.a, w.inFlight.value))
  }

  /** A transfer is begun when none is in flight and a filled slot exists, and completes
      unless its DMA fails; a flush waits for the transfer in flight. */
  predicate Enabled(w: World, e: Event)
    requires Shape(w)
  {
    match e
    case StartUp => w.a.state == Init
    case VBI(_) => true
    case Begin => w.inFlight.None? && w.a.state == Running && w.level > 0
    case Complete => w.inFlight.Some?
    case Fail => w.inFlight.Some?
    case FlushAll(_) => w.inFlight.None?
  }

  function Apply(w: World, e: Event): (r: World)
    requires Shape(w) && Enabled(w, e)
    ensures Shape(r) && SameRing(w.a, r.a)
  {
    match e
    case StartUp => w.(a := Start(w.a))
    case VBI(t) =>
      var a := Interrupt(w.a, t);
      if !Acts(t) then w.(a := a)
      else
        w.(a := a,
           clock := w.clock + 1,
           picture := if HasActive(a) then w.picture[a.activeFrame := w.clock] else w.picture,
           past := PastTick(w, a, t.tooFast),
           counted := if w.a.state == Running && !t.tooFast then w.counted + 1 else w.counted,
           level := TickedLevel(w.a, t, w.level),
           oldest := TickedOldest(a, w.oldest))
    case Begin =>
      (match ChooseSlot(w.a)
       case None => w
       case Some(f) => w.(inFlight := Some(f), owned := f != w.a.activeFrame))
    case Complete =>
      var f := w.inFlight.value;
      w.(a := CompleteTransfer(w.a, f),
         inFlight := None,
         delivered := w.delivered + [w.picture[f]],
         past := PastComplete(w, f),
         level := if w.level > 0 then w.level - 1 else 0,
         oldest := if w.level <= 1 then w.a.activeFrame else NextOf(w.a, w.oldest))
    case Fail => w.(inFlight := None)
    case FlushAll(clear) =>
      var a := Flush(w.a, clear);
      w.(a := a,
         past := PastFlush(w, FlushedLevel(w.a, w.level) == w.level),
         cleared := w.cleared + w.a.droppedFrames - a.droppedFrames,
         level := FlushedLevel(w.a, w.level),
         oldest := if FlushedLevel(w.a, w.level) == w.level then w.oldest else w.a.activeFrame)
  }

  function PastTick(w: World, a: Auto, bails: bool): Past
    requires Shape(w)
  {
    if w.a.state != Running || !InRing(w.a, w.a.activeFrame) then w.past
    else
      var left := a.activeFrame != w.a.activeFrame;
      w.past.(closed := if left then w.past.closed + [w.picture[w.a.activeFrame]] else w.past.closed,
              left := w.past.left + if left then 1 else 0,
              overwritten := w.past.overwritten + if left then 0 else 1,
              bailed := w.past.bailed + if bails then 1 else 0,
              open := false,
              again := w.past.again || (w.past.open && left))
  }

  function PastComplete(w: World, f: int): Past
    requires Shape(w) && InRing(w.a, f)
  {
    w.past.(handed := if f != w.a.activeFrame then w.past.handed + [w.picture[f]] else w.past.handed,
            early := if f == w.a.activeFrame then w.past.early + 1 else w.past.early,
            open := f == w.a.activeFrame,
            again := false,
            repeats := if w.past.again then w.past.repeats + 1 else w.past.repeats)
  }

  /** A flush either leaves the queue alone or throws away all finished pictures in it. */
  function PastFlush(w: World, untouched: bool): Past {
    if untouched then w.past
    else w.past.(closed := Cut(w.past.closed, |w.past.handed|), again := false)
  }

  /** What a flush leaves: everything when the register already moved ahead of a slot not
      yet filled, else at most the slot the register designates. */
  function FlushedLevel(a: Auto, level: nat): nat
    requires WellFormed(a)
  {
    if a.state != Running then level
    else if a.register != a.activeFrame && Valid(a, a.activeFrame) == 0 then level
    else if a.register == a.activeFrame && Valid(a, a.activeFrame) > 0 then 1
    else 0
  }

  // ----- the ring invariant, operation by operation -----

  /** A running interrupt fills the slot just captured; when it drops, it also counts the
      slot it stays on. */
  function TickedLevel(a: Auto, t: VBlank, level: nat): nat
    requires WellFormed(a)
  {
    if a.state != Running then level
    else
      var m := CaptureMark(a, a.activeFrame);
      var r := Tick(a, t);
      level + (if Valid(a, a.activeFrame) == 0 then 1 else 0)
            + (if Valid(m, r.activeFrame) == 0 && Valid(r, r.activeFrame) > 0 then 1 else 0)
  }

  function TickedOldest(r: Auto, oldest: int): int {
    if r.state == Starting then r.activeFrame else oldest
  }

  lemma MarkKeepsArc(a: Auto, oldest: int, level: nat)
    requires RingInv(a, oldest, level) && a.state == Running
    ensures ArcFrom(CaptureMark(a, a.activeFrame), oldest,
                    level + if Valid(a, a.activeFrame) == 0 then 1 else 0)
  {
  }

  /** All a running interrupt does to the counts, once the captured slot is marked, is to
      count the slot that is active from then on once more. */
  lemma RunningTickCounts(a: Auto, t: VBlank)
    requires WellFormed(a) && a.state == Running && a.recording
    ensures var m, r := CaptureMark(a, a.activeFrame), Tick(a, t);
      && SameRing(a, r)
      && (forall f {:trigger Valid(r, f)} :: 0 <= f < MAX_FRAMEBUFFERS && f != r.activeFrame ==>
          Valid(r, f) == Valid(m, f))
      && Valid(m, r.activeFrame) <= Valid(r, r.activeFrame) <= Valid(m, r.activeFrame) + 1
  {
  }

  /** Counting up the slot that follows the arc extends the arc. */
  lemma BumpKeepsArc(m: Auto, r: Auto, oldest: int, level: nat, f: int)
    requires WellFormed(m) && WellFormed(r) && SameRing(m, r)
    requires ArcFrom(m, oldest, level) && InRing(m, f)
    requires DistOf(m, oldest, f) <= level
    requires forall g {:trigger Valid(r, g)} :: 0 <= g < MAX_FRAMEBUFFERS && g != f ==> Valid(r, g) == Valid(m, g)
    requires Valid(m, f) <= Valid(r, f)
    ensures ArcFrom(r, oldest, level + if Valid(m, f) == 0 && Valid(r, f) > 0 then 1 else 0)
  {
    assert 0 <= DistOf(m, oldest, f) < Size(m);
  }

  /** Filled slots stay filled, and the slots filled are those the level counts. */
  lemma RunningTickFills(a: Auto, oldest: int, level: nat, t: VBlank)
    requires RingInv(a, oldest, level) && a.state == Running
    ensures var r := Tick(a, t); ArcFrom(r, oldest, TickedLevel(a, t, level))
  {
    MarkKeepsArc(a, oldest, level);
    RunningTickCounts(a, t);
    var m, r := CaptureMark(a, a.activeFrame), Tick(a, t);
    assert r.activeFrame == ReadRegister(a) == a.register;
    BumpKeepsArc(m, r, oldest, level + if Valid(a, a.activeFrame) == 0 then 1 else 0, r.activeFrame);
  }

  /** An interrupt never empties a slot, and moves the device only onto an empty one. */
  lemma TickKeepsRing(a: Auto, oldest: int, level: nat, t: VBlank)
    requires RingInv(a, oldest, level) && Acts(t)
    ensures var r := Tick(a, t); RingInv(r, TickedOldest(r, oldest), TickedLevel(a, t, level))
    ensures a.state == Running ==> OnlyOntoFree(a, Tick(a, t))
  {
    if a.state == Running {
      RunningTickFills(a, oldest, level, t);
    } else {
      assert DistOf(a, oldest, NextOf(a, oldest)) >= level;
    }
  }

  predicate OnlyOntoFree(a: Auto, r: Auto)
    requires WellFormed(a) && WellFormed(r) && SameRing(a, r) && HasActive(a) && HasActive(r)
  {
    || r.activeFrame == a.activeFrame
    || (r.activeFrame == NextOf(a, a.activeFrame) && Valid(a, r.activeFrame) == 0)
  }

  /** A transfer begun on a channel with a filled slot is given the oldest one. */
  lemma ChoosesOldest(a: Auto, oldest: int, level: nat)
    requires RingInv(a, oldest, level) && a.state == Running && level > 0
    ensures ChooseSlot(a) == Some(oldest)
  {
    var from := NextOf(a, a.activeFrame);
    var found := Scan(a, from, Size(a));
    ScanTakesFirst(a, from, Size(a));
    assert DistOf(a, from, oldest) < Size(a);
    assert Transferable(a, oldest) by { assert DistOf(a, oldest, oldest) == 0; }
    var f := found.value;
    assert DistOf(a, oldest, f) < level;
    assert DistOf(a, from, f) <= DistOf(a, from, oldest);
  }

  /** Completing the transfer of the oldest slot takes exactly it off the queue. */
  lemma CompleteTakesOldest(a: Auto, oldest: int, level: nat)
    requires RingInv(a, oldest, level) && a.state == Running && level > 0
    ensures RingInv(CompleteTransfer(a, oldest), if level == 1 then a.activeFrame else NextOf(a, oldest), level - 1)
  {
    DistFromNext(a.startFrame, a.endFrame, oldest);
    var r := CompleteTransfer(a, oldest);
    if Valid(a, a.activeFrame) > 0 && level == 1 {
      assert a.activeFrame == oldest;
      assert ArcFrom(r, oldest, 0);
    } else {
      assert level == 1 ==> a.activeFrame == NextOf(a, oldest);
      assert ArcFrom(r, NextOf(a, oldest), level - 1);
    }
  }

  /** Walking back over the `k` slots from `oldest` on, all filled, empties them and
      leaves `stop`, the only other slot that may be filled. */
  lemma {:induction false} FlushBackEmpties(a: Auto, oldest: int, k: nat, f: int, stop: int, g: int)
    requires WellFormed(a) && InRing(a, oldest) && InRing(a, stop) && k <= DistOf(a, oldest, stop)
    requires f == if k == 0 then PrevOf(a, oldest) else AheadOf(a, oldest, k - 1)
    requires forall h {:trigger Dist(a.startFrame, a.endFrame, oldest, h)} :: InRing(a, h) && h != stop ==>
      if Dist(a.startFrame, a.endFrame, oldest, h) < k then Valid(a, h) > 0 else Valid(a, h) == 0
    requires InRing(a, g)
    ensures Valid(FlushBack(a, f, stop), g) == if g == stop then Valid(a, g) else 0
    decreases k
  {
    assert 0 <= DistOf(a, oldest, f);
    assert 0 <= DistOf(a, oldest, g);
    if k > 0 {
      FlushBackEmpties(SetValid(a, f, 0), oldest, k - 1, PrevOf(a, f), stop, g);
    }
  }

  /** A running flush of `k` slots back from the register. */
  lemma FlushEmpties(a: Auto, oldest: int, k: nat, clear: bool, g: int)
    requires WellFormed(a) && a.recording && a.state == Running && InRing(a, a.register) && InRing(a, oldest)
    requires InRing(a, g)
    requires k <= DistOf(a, oldest, a.register)
    requires PrevOf(a, a.register) == if k == 0 then PrevOf(a, oldest) else AheadOf(a, oldest, k - 1)
    requires forall h {:trigger Dist(a.startFrame, a.endFrame, oldest, h)} :: InRing(a, h) && h != a.register ==>
      if Dist(a.startFrame, a.endFrame, oldest, h) < k then Valid(a, h) > 0 else Valid(a, h) == 0
    ensures Flush(a, clear).frameStamp[g].validCount == if g == a.register then Valid(a, g) else 0
  {
    var b := if clear then a.(droppedFrames := 0) else a;
    FlushBackEmpties(b, oldest, k, PrevOf(b, a.register), a.register, g);
  }

  /** The flush that does nothing. */
  lemma FlushIdle(a: Auto, clear: bool)
    requires WellFormed(a) && a.recording && (a.state == Init || a.state == Running)
    requires Valid(a, PrevOf(a, ReadRegister(a))) == 0
    ensures Flush(a, clear) == if clear then a.(droppedFrames := 0) else a
  {
  }

  lemma FlushLeavesRegister(a: Auto, oldest: int, level: nat, clear: bool)
    requires RingInv(a, oldest, level) && a.state == Running
    requires a.register == a.activeFrame || Valid(a, a.activeFrame) > 0
    ensures var r := Flush(a, clear);
      EmptyBut(r, a.register) && Valid(r, a.register) == Valid(a, a.register)
  {
    var k := if a.register == a.activeFrame && Valid(a, a.activeFrame) > 0 then level - 1 else level;
    assert DistOf(a, oldest, a.activeFrame) >= 0 && DistOf(a, oldest, a.register) >= 0;
    forall g | InRing(a, g)
      ensures Flush(a, clear).frameStamp[g].validCount == if g == a.register then Valid(a, g) else 0
    {
      FlushEmpties(a, oldest, k, clear, g);
    }
  }

  /** Flush empties the queue but for the slot the register designates, except that it does
      nothing at all when the register is one ahead of an active slot not yet filled. */
  lemma FlushKeepsRing(a: Auto, oldest: int, level: nat, clear: bool)
    requires RingInv(a, oldest, level)
    ensures var k := FlushedLevel(a, level);
      RingInv(Flush(a, clear), if k == level then oldest else a.activeFrame, k)
  {
    if a.state == Init {
      EmptyArc(a, oldest);
      FlushIdle(a, clear);
    } else if a.state == Running && a.register != a.activeFrame && Valid(a, a.activeFrame) == 0 {
      FlushIdle(a, clear);
    } else if a.state == Running {
      FlushLeavesRegister(a, oldest, level, clear);
      RegisterAloneIsQueue(a, Flush(a, clear), oldest, level);
    }
  }

  lemma RegisterAloneIsQueue(a: Auto, r: Auto, oldest: int, level: nat)
    requires RingInv(a, oldest, level) && a.state == Running
    requires a.register == a.activeFrame || Valid(a, a.activeFrame) > 0
    requires r == a.(frameStamp := r.frameStamp, droppedFrames := r.droppedFrames) && WellFormed(r)
    requires EmptyBut(r, a.register) && Valid(r, a.register) == Valid(a, a.register)
    ensures var k := FlushedLevel(a, level);
      RingInv(r, if k == level then oldest else a.activeFrame, k)
  {
    assert DistOf(a, oldest, a.activeFrame) >= 0 && DistOf(a, oldest, a.register) >= 0;
    SingleArc(r, a.register, a.activeFrame);
    SingleArc(r, a.register, oldest);
  }

  // ----- whole runs -----

  predicate Legal(w: World, es: seq<Event>)
    requires Shape(w)
    decreases es
  {
    es == [] || (Enabled(w, es[0]) && Legal(Apply(w, es[0]), es[1..]))
  }

  function Run(w: World, es: seq<Event>): (r: World)
    requires Shape(w) && Legal(w, es)
    ensures Shape(r) && SameRing(w.a, r.a)
    decreases es
  {
    if es == [] then w else Run(Apply(w, es[0]), es[1..])
  }

  lemma {:induction false} RunAppends(w: World, es: seq<Event>, e: Event)
    requires Shape(w) && Legal(w, es) && Enabled(Run(w, es), e)
    ensures Legal(w, es + [e]) && Run(w, es + [e]) == Apply(Run(w, es), e)
    decreases es
  {
    if es == [] {
      assert Run(Apply(w, e), []) == Apply(w, e);
    } else {
      RunAppends(Apply(w, es[0]), es[1..], e);
      assert (es + [e])[1..] == es[1..] + [e];
    }
  }

  ghost predicate Reaches(w: World, r: World)
    requires Shape(w)
  {
    exists es :: Legal(w, es) && Run(w, es) == r
  }

  lemma ReachesNext(w: World, r: World, e: Event)
    requires Shape(w) && Shape(r) && Reaches(w, r) && Enabled(r, e)
    ensures Reaches(w, Apply(r, e))
  {
    var es :| Legal(w, es) && Run(w, es) == r;
    RunAppends(w, es, e);
  }

  /** The queue is a gapless arc, and the slot in flight is its oldest. */
  ghost predicate QueueInv(w: World) {
    && Shape(w) && RingInv(w.a, w.oldest, w.level)
    && (w.inFlight.Some? ==> w.level > 0 && w.a.state == Running && w.inFlight.value == w.oldest)
  }

  /** The device is not, and is not about to be, writing the slot in flight. */
  predicate OwnInv(w: World) {
    w.inFlight.Some? && w.owned ==> w.inFlight.value != w.a.activeFrame && w.inFlight.value != w.a.register
  }

  /** From the oldest slot to the active one the pictures get younger. */
  ghost predicate Aging(s: int, e: int, oldest: int, active: int, picture: seq<nat>)
    requires 0 <= s <= e < |picture|
  {
    && s <= oldest <= e && s <= active <= e
    && forall f, g {:trigger Dist(s, e, oldest, f), Dist(s, e, oldest, g)} ::
         s <= f <= e && s <= g <= e && Dist(s, e, oldest, f) < Dist(s, e, oldest, g) <= Dist(s, e, oldest, active)
         ==> picture[f] < picture[g]
  }

  /** How many entries repeat the one before. */
  function Repeats(s: seq<nat>): nat {
    if |s| <= 1 then 0
    else Repeats(s[..|s| - 1]) + if s[|s| - 1] == s[|s| - 2] then 1 else 0
  }

  ghost predicate Rising(s: seq<nat>) {
    forall i, j :: 0 <= i < j < |s| ==> s[i] <= s[j]
  }

  /** The last picture delivered is the oldest one in the ring exactly when its slot is open
      or was filled again. */
  predicate LastInv(w: World)
    requires Shape(w)
  {
    && (w.delivered == [] ==> !w.past.open && !w.past.again)
    && (w.past.open ==> w.level == 0)
    && (w.past.again ==> w.level > 0 && w.oldest != w.a.activeFrame)
    && (w.delivered != [] && InRing(w.a, w.oldest) ==>
          var last := w.delivered[|w.delivered| - 1];
          && last <= w.picture[w.oldest]
          && (last == w.picture[w.oldest] <==> w.past.open || w.past.again))
  }

  ghost predicate AgeInv(w: World)
    requires Shape(w)
  {
    && (w.a.state != Running ==> w.delivered == [] && !w.past.open && !w.past.again)
    && Rising(w.delivered) && Repeats(w.delivered) == w.past.repeats
    && (w.a.state == Running ==>
          && Aging(w.a.startFrame, w.a.endFrame, w.oldest, w.a.activeFrame, w.picture)
          && w.picture[w.a.activeFrame] < w.clock
          && LastInv(w))
  }

  /** On a second field outside field mode nothing happens. */
  lemma IdleInterrupt(w: World, t: VBlank)
    requires Shape(w) && !Acts(t)
    ensures Apply(w, VBI(t)) == w
  {
  }

  lemma StepKeepsQueue(w: World, e: Event)
    requires QueueInv(w) && Enabled(w, e)
    ensures QueueInv(Apply(w, e))
  {
    match e
    case StartUp =>
    case VBI(t) =>
      if Acts(t) {
        TickKeepsRing(w.a, w.oldest, w.level, t);
      } else {
        IdleInterrupt(w, t);
      }
    case Begin => ChoosesOldest(w.a, w.oldest, w.level);
    case Complete => CompleteTakesOldest(w.a, w.oldest, w.level);
    case Fail =>
    case FlushAll(clear) => FlushKeepsRing(w.a, w.oldest, w.level, clear);
  }

  lemma StepKeepsOwnership(w: World, e: Event)
    requires QueueInv(w) && OwnInv(w) && Enabled(w, e)
    ensures OwnInv(Apply(w, e))
  {
    match e
    case StartUp =>
    case VBI(t) =>
      if Acts(t) {
        TickKeepsRing(w.a, w.oldest, w.level, t);
        assert DistOf(w.a, w.oldest, w.oldest) == 0;
      } else {
        IdleInterrupt(w, t);
      }
    case Begin => ChoosesOldest(w.a, w.oldest, w.level);
      assert DistOf(w.a, w.oldest, w.oldest) == 0;
    case Complete =>
    case Fail =>
    case FlushAll(clear) =>
  }

  /** The device starts a younger picture on the active slot or on its successor. */
  lemma AgingTick(s: int, e: int, oldest: int, active: int, picture: seq<nat>, now: nat, active': int)
    requires 0 <= s <= e < |picture|
    requires Aging(s, e, oldest, active, picture) && picture[active] < now
    requires active' == active || (active' == Next(s, e, active) && active' != oldest)
    ensures Aging(s, e, oldest, active', picture[active' := now])
    ensures picture[oldest] <= picture[active' := now][oldest]
  {
    assert 0 == Dist(s, e, oldest, oldest) <= Dist(s, e, oldest, active);
    assert active' != active ==> Dist(s, e, oldest, active') == Dist(s, e, oldest, active) + 1;
  }

  lemma TickKeepsAging(w: World, t: VBlank)
    requires QueueInv(w) && AgeInv(w) && Acts(t) && w.a.state == Running
    ensures var r := Apply(w, VBI(t));
      && r.oldest == w.oldest && r.a.state == Running && SameRing(w.a, r.a)
      && (r.a.activeFrame == w.oldest ==> r.a.activeFrame == w.a.activeFrame)
      && r.picture == w.picture[r.a.activeFrame := w.clock]
      && Aging(r.a.startFrame, r.a.endFrame, r.oldest, r.a.activeFrame, r.picture)
  {
    TickKeepsRing(w.a, w.oldest, w.level, t);
    var a := Tick(w.a, t);
    assert DistOf(w.a, w.oldest, w.oldest) == 0;
    AgingTick(w.a.startFrame, w.a.endFrame, w.oldest, w.a.activeFrame, w.picture, w.clock, a.activeFrame);
  }

  lemma TickKeepsAge(w: World, t: VBlank)
    requires QueueInv(w) && OwnInv(w) && AgeInv(w) && Acts(t)
    ensures AgeInv(Apply(w, VBI(t)))
  {
    if w.a.state == Running {
      TickKeepsAging(w, t);
      TickKeepsLast(w, t);
    }
  }

  lemma TickKeepsLast(w: World, t: VBlank)
    requires QueueInv(w) && AgeInv(w) && Acts(t) && w.a.state == Running
    ensures LastInv(Apply(w, VBI(t)))
  {
    TickKeepsAging(w, t);
    RunningTickCounts(w.a, t);
    assert DistOf(w.a, w.oldest, w.oldest) == 0;
  }

  lemma RepeatsAppends(s: seq<nat>, x: nat)
    ensures Repeats(s + [x]) == Repeats(s) + if s != [] && s[|s| - 1] == x then 1 else 0
  {
    assert (s + [x])[..|s|] == s;
  }

  lemma RisingAppends(s: seq<nat>, x: nat)
    requires Rising(s) && (s != [] ==> s[|s| - 1] <= x)
    ensures Rising(s + [x])
  {
  }

  /** The successor of the oldest slot holds a younger picture. */
  lemma NextIsYounger(w: World)
    requires QueueInv(w) && AgeInv(w) && w.a.state == Running && w.oldest != w.a.activeFrame
    ensures w.picture[w.oldest] < w.picture[NextOf(w.a, w.oldest)]
    ensures DistOf(w.a, w.oldest, w.a.activeFrame) == 1 ==> NextOf(w.a, w.oldest) == w.a.activeFrame
  {
    assert 0 == DistOf(w.a, w.oldest, w.oldest) < DistOf(w.a, w.oldest, w.a.activeFrame);
    assert DistOf(w.a, w.oldest, NextOf(w.a, w.oldest)) == 1;
  }

  /** Dropping the oldest slot leaves the others in order of age. */
  lemma AgingFromNext(s: int, e: int, oldest: int, active: int, picture: seq<nat>)
    requires 0 <= s <= e < |picture| && Aging(s, e, oldest, active, picture) && oldest != active
    ensures Aging(s, e, Next(s, e, oldest), active, picture)
  {
    DistFromNext(s, e, oldest);
    assert Dist(s, e, oldest, active) >= 1;
    assert Dist(s, e, oldest, oldest) == 0;
  }

  /** What a completion does to everything the age of the pictures depends on. */
  lemma CompleteIs(w: World)
    requires QueueInv(w) && OwnInv(w) && Enabled(w, Complete)
    ensures var r := Apply(w, Complete);
      && w.a.state == r.a.state == Running && SameRing(w.a, r.a) && r.a.activeFrame == w.a.activeFrame
      && InRing(w.a, w.oldest) && r.past == PastComplete(w, w.oldest)
      && r.delivered == w.delivered + [w.picture[w.oldest]] && r.picture == w.picture && r.clock == w.clock
      && r.oldest == (if w.oldest == w.a.activeFrame then w.oldest else NextOf(w.a, w.oldest))
      && r.level == w.level - 1
  {
    CompleteTakesOldest(w.a, w.oldest, w.level);
    assert DistOf(w.a, w.oldest, w.a.activeFrame) >= 0;
  }

  lemma CompleteKeepsAging(w: World)
    requires QueueInv(w) && OwnInv(w) && AgeInv(w) && Enabled(w, Complete)
    ensures var r := Apply(w, Complete); Aging(r.a.startFrame, r.a.endFrame, r.oldest, r.a.activeFrame, r.picture)
  {
    CompleteIs(w);
    if w.oldest != w.a.activeFrame {
      AgingFromNext(w.a.startFrame, w.a.endFrame, w.oldest, w.a.activeFrame, w.picture);
    }
  }

  lemma CompleteKeepsLast(w: World)
    requires QueueInv(w) && OwnInv(w) && AgeInv(w) && Enabled(w, Complete)
    ensures LastInv(Apply(w, Complete))
  {
    CompleteIs(w);
    if w.oldest != w.a.activeFrame {
      NextIsYounger(w);
    }
  }

  lemma CompleteKeepsAge(w: World)
    requires QueueInv(w) && OwnInv(w) && AgeInv(w) && Enabled(w, Complete)
    ensures AgeInv(Apply(w, Complete))
  {
    CompleteIs(w);
    RepeatsAppends(w.delivered, w.picture[w.oldest]);
    RisingAppends(w.delivered, w.picture[w.oldest]);
    CompleteKeepsAging(w);
    CompleteKeepsLast(w);
  }

  lemma FlushKeepsAge(w: World, clear: bool)
    requires QueueInv(w) && OwnInv(w) && AgeInv(w) && Enabled(w, FlushAll(clear))
    ensures AgeInv(Apply(w, FlushAll(clear)))
  {
    FlushKeepsRing(w.a, w.oldest, w.level, clear);
    var r := Apply(w, FlushAll(clear));
    FlushKeepsDevice(w.a, clear);
    if w.a.state == Running && FlushedLevel(w.a, w.level) != w.level {
      assert w.level > 0 && r.oldest == w.a.activeFrame;
      YoungestIsActive(w);
    }
  }

  lemma FlushKeepsDevice(a: Auto, clear: bool)
    requires WellFormed(a) && a.recording
    ensures var r := Flush(a, clear);
      SameRing(a, r) && r.state == a.state && r.activeFrame == a.activeFrame && r.register == a.register
  {
  }

  /** The active slot alone is in order of age, and holds a picture younger than the oldest. */
  lemma YoungestIsActive(w: World)
    requires QueueInv(w) && AgeInv(w) && w.a.state == Running
    ensures Aging(w.a.startFrame, w.a.endFrame, w.a.activeFrame, w.a.activeFrame, w.picture)
    ensures w.oldest != w.a.activeFrame ==> w.picture[w.oldest] < w.picture[w.a.activeFrame]
  {
    assert 0 == DistOf(w.a, w.oldest, w.oldest) <= DistOf(w.a, w.oldest, w.a.activeFrame);
  }

  lemma StepKeepsAge(w: World, e: Event)
    requires QueueInv(w) && OwnInv(w) && AgeInv(w) && Enabled(w, e)
    ensures AgeInv(Apply(w, e))
  {
    match e
    case StartUp =>
    case VBI(t) =>
      if Acts(t) {
        TickKeepsAge(w, t);
      } else {
        IdleInterrupt(w, t);
      }
    case Begin => ChoosesOldest(w.a, w.oldest, w.level);
    case Complete => CompleteKeepsAge(w);
    case Fail =>
    case FlushAll(clear) => FlushKeepsAge(w, clear);
  }

  /** Every running interrupt that does not bail either processes a frame or drops one. */
  predicate CountInv(w: World) {
    w.counted == w.a.framesProcessed + w.a.droppedFrames + w.cleared
  }

  lemma StepKeepsCount(w: World, e: Event)
    requires Shape(w) && w.a.recording && CountInv(w) && Enabled(w, e)
    ensures CountInv(Apply(w, e))
  {
  }

  ghost predicate Inv(w: World) {
    QueueInv(w) && OwnInv(w) && AgeInv(w) && CountInv(w)
  }

  lemma StepKeepsInv(w: World, e: Event)
    requires Inv(w) && Enabled(w, e)
    ensures Inv(Apply(w, e))
  {
    StepKeepsQueue(w, e);
    StepKeepsOwnership(w, e);
    StepKeepsAge(w, e);
    StepKeepsCount(w, e);
  }

  lemma {:induction false} RunKeepsInv(w: World, es: seq<Event>)
    requires Inv(w) && Legal(w, es)
    ensures Inv(Run(w, es))
    decreases es
  {
    if es != [] {
      StepKeepsInv(w, es[0]);
      RunKeepsInv(Apply(w, es[0]), es[1..]);
    }
  }

  /** From Init on, through any interleaving: the queue is a gapless arc ending at the
      active slot or its predecessor, the frame in flight is its oldest, no interrupt goes
      uncounted, and frames are handed over in the order they were captured, each once but
      for the `repeats`: slots handed over while active, left by the device at the next
      interrupt, and handed over again. */
  lemma CaptureIsFifo(s: int, e: int, register: int, es: seq<Event>)
    requires 0 <= s <= e < MAX_FRAMEBUFFERS && Legal(InitWorld(s, e, register), es)
    ensures var w := Run(InitWorld(s, e, register), es);
      && Inv(w) && Rising(w.delivered) && Repeats(w.delivered) == w.past.repeats
      && (w.past.repeats == 0 <==> forall i, j :: 0 <= i < j < |w.delivered| ==> w.delivered[i] < w.delivered[j])
  {
    RunKeepsInv(InitWorld(s, e, register), es);
    StrictIff(Run(InitWorld(s, e, register), es).delivered);
  }

  lemma {:induction false} StrictIff(s: seq<nat>)
    requires Rising(s)
    ensures Repeats(s) == 0 <==> forall i, j :: 0 <= i < j < |s| ==> s[i] < s[j]
    decreases |s|
  {
    if |s| > 1 {
      var t := s[..|s| - 1];
      StrictIff(t);
      forall i, j | 0 <= i < j < |s| && Repeats(s) == 0 ensures s[i] < s[j] {
        if j < |s| - 1 {
          assert t[i] < t[j];
        } else {
          assert s[i] <= s[|s| - 2] < s[j];
        }
      }
      assert Repeats(s) > 0 && Repeats(t) == 0 ==> s[|s| - 2] == s[|s| - 1];
      assert Repeats(t) > 0 ==> exists i, j :: 0 <= i < j < |t| && t[i] >= t[j];
    }
  }

  ghost predicate SlotUntouched(w: World, r: World, f: int)
    requires Shape(w) && Shape(r) && 0 <= f < MAX_FRAMEBUFFERS
  {
    && r.inFlight == Some(f) && r.owned && r.a.activeFrame != f && r.a.register != f
    && r.picture[f] == w.picture[f] && r.a.frameStamp[f] == w.a.frameStamp[f]
  }

  lemma StepLeavesSlotInFlight(w: World, e: Event, f: int)
    requires Inv(w) && Enabled(w, e) && e != Complete && e != Fail
    requires w.inFlight == Some(f) && w.owned
    ensures SlotUntouched(w, Apply(w, e), f)
  {
    StepKeepsOwnership(w, e);
    if e.VBI? && Acts(e.t) {
      TickKeepsRing(w.a, w.oldest, w.level, e.t);
    }
  }

  /** However many interrupts, and whatever else short of its completion, come between the
      two halves of a transfer, the device neither writes the slot nor is sent there. */
  lemma {:induction false} SlotInFlightIsNotWritten(w: World, es: seq<Event>, f: int)
    requires Inv(w) && Legal(w, es) && w.inFlight == Some(f) && w.owned && Complete !in es && Fail !in es
    ensures SlotUntouched(w, Run(w, es), f)
    decreases es
  {
    if es != [] {
      StepLeavesSlotInFlight(w, es[0], f);
      StepKeepsInv(w, es[0]);
      SlotInFlightIsNotWritten(Apply(w, es[0]), es[1..], f);
    }
  }

  // ----- the queue as a sequence -----

  /** The filled slots, oldest first. */
  function Queue(w: World): seq<int> {
    seq(w.level, i => AheadOf(w.a, w.oldest, i))
  }

  lemma TickAppends(w: World, t: VBlank)
    requires Inv(w) && Acts(t)
    ensures Queue(w) <= Queue(Apply(w, VBI(t)))
  {
    var r := Apply(w, VBI(t));
    assert SameRing(w.a, r.a) && w.level <= r.level;
    assert w.level > 0 ==> r.oldest == w.oldest;
  }

  lemma CompleteTakesHead(w: World)
    requires Inv(w) && Enabled(w, Complete)
    ensures Queue(w) == [w.inFlight.value] + Queue(Apply(w, Complete))
  {
    var r := Apply(w, Complete);
    assert SameRing(w.a, r.a) && r.level == w.level - 1;
    assert w.level == 1 || r.oldest == NextOf(w.a, w.oldest);
    forall i | 0 < i < w.level ensures AheadOf(w.a, w.oldest, i) == AheadOf(w.a, NextOf(w.a, w.oldest), i - 1) {
    }
  }

  lemma FlushEmptiesQueue(w: World, clear: bool)
    requires Inv(w) && Enabled(w, FlushAll(clear))
    ensures var r := Apply(w, FlushAll(clear));
      Queue(r) == Queue(w) || Queue(r) == [] || Queue(r) == [r.a.register]
  {
    FlushKeepsDevice(w.a, clear);
    var r := Apply(w, FlushAll(clear));
    if r.level == w.level {
      assert Queue(r) == Queue(w);
    } else if r.level == 1 {
      assert r.oldest == r.a.register;
    }
  }

  /** Interrupts only append, and a completed transfer takes off the head. */
  lemma QueueSteps(w: World, e: Event)
    requires Inv(w) && Enabled(w, e)
    ensures var r := Apply(w, e);
      match e
      case StartUp => Queue(r) == Queue(w)
      case VBI(_) => Queue(w) <= Queue(r)
      case Begin => Queue(r) == Queue(w) && r.inFlight == Some(Queue(w)[0])
      case Complete => Queue(w) == [w.inFlight.value] + Queue(r)
      case Fail => Queue(r) == Queue(w)
      case FlushAll(_) => Queue(r) == Queue(w) || Queue(r) == [] || Queue(r) == [r.a.register]
  {
    match e
    case StartUp =>
    case VBI(t) =>
      if Acts(t) {
        TickAppends(w, t);
      } else {
        IdleInterrupt(w, t);
      }
    case Begin => ChoosesOldest(w.a, w.oldest, w.level);
    case Complete => CompleteTakesHead(w);
    case Fail =>
    case FlushAll(clear) => FlushEmptiesQueue(w, clear);
  }
}
