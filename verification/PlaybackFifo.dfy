/**
 Whole runs of a playback channel: the frames on air are the frames accepted, in order.
 */
module PlaybackFifo {
  import opened Basics
  import opened Ring
  import opened PlaybackRing

  /** `onAir` lists the cookies of the slots the device has shown, `accepted` those of the
      transfers completed; a flush cuts off the end of that list, past the slot it leaves. */
  datatype World = World(
    a: Auto,
    inFlight: Option<int>,    // the slot of the transfer between its Begin and its Complete
    level: nat,
    accepted: seq<int>,
    onAir: seq<int>)

  datatype Event =
    | StartUp
    | VBI(t: VBlank)
    | Begin(request: Request)
    | Complete
    | Fail
    | PauseAll(play: bool, clearDropped: bool)
    | FlushAll(clearDropped: bool)
    | PrerollBy(count: nat)

  function InitWorld(s: int, e: int, register: int): World {
    World(InitAuto(false, s, e, register), None, 0, [], [])
  }

  predicate Shape(w: World) {
    && WellFormed(w.a) && !w.a.recording && (w.a.state == Init || HasActive(w.a))
    && (w.inFlight.Some? ==> InRing(w.a, w.inFlight.value))
  }

  /** One transfer at a time, each for at least one showing; a flush waits for it. */
  predicate Enabled(w: World, e: Event) {
    match e
    case StartUp => w.a.state == Init
    case Begin(r) => w.inFlight.None? && r.repeatCount >= 1
    case Complete => w.inFlight.Some?
    case Fail => w.inFlight.Some?
    case FlushAll(_) => w.inFlight.None?
    case _ => true
  }

  /** The active slot goes on air. */
  function Shows(onAir: seq<int>, a: Auto): seq<int>
    requires 0 <= a.activeFrame < |a.frameStamp|
  {
    onAir + [a.frameStamp[a.activeFrame].hUser]
  }

  function Apply(w: World, e: Event): (r: World)
    requires Shape(w) && Enabled(w, e)
    ensures Shape(r) && SameRing(w.a, r.a)
  {
    match e
    case StartUp =>
      var a := Start(w.a);
      w.(a := a, onAir := if Valid(a, a.activeFrame) > 0 then Shows(w.onAir, a) else w.onAir)
    case VBI(t) =>
      var a := Interrupt(w.a, t);
      w.(a := a, level := if Acts(t) then TickedLevel(w.a, t, w.level) else w.level,
         onAir := if HasActive(a) && a.activeFrame != w.a.activeFrame then Shows(w.onAir, a) else w.onAir)
    case Begin(request) =>
      (match ChooseSlot(w.a)
       case None => w
       case Some(f) => if InRing(w.a, f) then w.(a := Load(w.a, f, request), inFlight := Some(f)) else w)
    case Complete =>
      var f := w.inFlight.value;
      var cookie := w.a.frameStamp[f].hUser;
      w.(a := CompleteTransfer(w.a, f), inFlight := None,
         level := if Valid(w.a, f) == 0 then w.level + 1 else w.level,
         accepted := w.accepted + [cookie],
         onAir := if HasActive(w.a) && f == w.a.activeFrame then w.onAir + [cookie] else w.onAir)
    case Fail => w.(inFlight := None)
    case PauseAll(play, clear) => w.(a := Pause(w.a, play, clear))
    case FlushAll(clear) =>
      var a := Flush(w.a, clear);
      var level := FlushedLevel(w.a, w.level);
      w.(a := a, level := level, accepted := Cut(w.accepted, |w.onAir| + PendingCount(a, level)))
    case PrerollBy(count) =>
      w.(a := Preroll(w.a, count).0, level := PrerolledLevel(w.a, w.level, count))
  }

  ghost predicate QueueInv(w: World) {
    && Shape(w) && RingInv(w.a, w.level)
    && (w.inFlight.Some? ==> FlightInv(w.a, w.level, w.inFlight.value))
  }

  /** What was accepted has been on air or is waiting, in that order. */
  ghost predicate FifoInv(w: World)
    requires QueueInv(w)
  {
    w.accepted == w.onAir + Pending(w.a, w.level)
  }

  ghost predicate Inv(w: World) {
    QueueInv(w) && FifoInv(w)
  }

  lemma StartKeepsQueue(w: World)
    requires QueueInv(w) && w.a.state == Init
    ensures QueueInv(Apply(w, StartUp))
  {
    assert DistOf(w.a, w.a.startFrame, w.a.startFrame) == 0;
    if w.level == 0 {
      EmptyArc(w.a, w.a.startFrame);
      SingleArc(w.a, w.a.startFrame, NextOf(w.a, w.a.startFrame));
    }
  }

  lemma BeginKeepsQueue(w: World, request: Request)
    requires QueueInv(w) && Enabled(w, Begin(request))
    ensures QueueInv(Apply(w, Begin(request)))
  {
    ChoosesSlotAfterQueue(w.a, w.level);
    var r := Apply(w, Begin(request));
    if r.inFlight.Some? {
      BeginKeepsRing(w.a, w.level, r.inFlight.value, request);
      assert First(r.a) == First(w.a);
    }
  }

  lemma PrerollKeepsQueue(w: World, count: nat)
    requires QueueInv(w)
    ensures QueueInv(Apply(w, PrerollBy(count)))
  {
    PrerollKeepsRing(w.a, w.level, count);
    if HasActive(w.a) && w.inFlight.Some? {
      PrerollExtendsQueue(w.a, w.level, count);
      var r := Apply(w, PrerollBy(count));
      var f := w.inFlight.value;
      if w.level == 0 && f != w.a.activeFrame {
        assert f == NextOf(w.a, w.a.activeFrame);
      }
    }
  }

  /** On a second field outside field mode nothing happens. */
  lemma IdleInterrupt(w: World, t: VBlank)
    requires Shape(w) && !Acts(t)
    ensures Apply(w, VBI(t)) == w
  {
  }

  lemma StepKeepsQueue(w: World, e: Event)
    requires QueueInv(w) && Enabled(w, e)
    ensures QueueInv(Apply(w, e))
  {
    match e
    case StartUp => StartKeepsQueue(w);
    case VBI(t) =>
      if Acts(t) {
        TickKeepsRing(w.a, t, w.level);
        if w.inFlight.Some? {
          TickKeepsFlight(w.a, t, w.level, w.inFlight.value);
        }
      } else {
        IdleInterrupt(w, t);
      }
    case Begin(request) => BeginKeepsQueue(w, request);
    case Complete => CompleteKeepsRing(w.a, w.level, w.inFlight.value);
    case Fail =>
    case PauseAll(_, _) =>
    case FlushAll(clear) => FlushKeepsRing(w.a, w.level, clear);
    case PrerollBy(count) => PrerollKeepsQueue(w, count);
  }

  lemma StartKeepsFifo(w: World)
    requires Inv(w) && w.a.state == Init
    ensures Inv(Apply(w, StartUp))
  {
    StartKeepsQueue(w);
    var r := Apply(w, StartUp);
    assert DistOf(w.a, w.a.startFrame, w.a.startFrame) == 0;
    if w.level > 0 {
      assert Pending(w.a, w.level) == [w.a.frameStamp[w.a.startFrame].hUser] + Pending(r.a, r.level);
    } else {
      assert Pending(w.a, w.level) == Pending(r.a, r.level) == [];
    }
  }

  /** When an interrupt shows the next slot, that slot leaves the head of the line. */
  lemma PendingOnTick(a: Auto, r: Auto, level: nat, level': nat)
    requires RingInv(a, level) && HasActive(a) && RingInv(r, level') && SpendsAtMostOne(a, r)
    requires level' ==
      if level > 0 && Valid(a, r.activeFrame) > 0 && Valid(r, r.activeFrame) == 0 then level - 1 else level
    ensures Pending(a, level) ==
      (if r.activeFrame != a.activeFrame then [r.frameStamp[r.activeFrame].hUser] else []) + Pending(r, level')
  {
    assert DistOf(a, First(a), First(a)) == 0;
    if r.activeFrame != a.activeFrame {
      assert level > 0 && First(a) == r.activeFrame;
    }
  }

  lemma TickMovesPending(a: Auto, t: VBlank, level: nat)
    requires RingInv(a, level) && HasActive(a)
    ensures var r := Tick(a, t);
      && RingInv(r, TickedLevel(a, t, level)) && HasActive(r)
      && Pending(a, level) ==
        (if r.activeFrame != a.activeFrame then [r.frameStamp[r.activeFrame].hUser]
            else []) + Pending(r, TickedLevel(a, t, level))
  {
    TickKeepsRing(a, t, level);
    TickSpends(a, t);
    PendingOnTick(a, Tick(a, t), level, TickedLevel(a, t, level));
  }

  lemma TickKeepsFifo(w: World, t: VBlank)
    requires Inv(w) && Acts(t)
    ensures Inv(Apply(w, VBI(t)))
  {
    StepKeepsQueue(w, VBI(t));
    if HasActive(w.a) {
      TickMovesPending(w.a, t, w.level);
      var r := Apply(w, VBI(t));
      var head := if r.a.activeFrame != w.a.activeFrame then [r.a.frameStamp[r.a.activeFrame].hUser] else [];
      Regroup(w.onAir, head, Pending(r.a, r.level));
      assert r.accepted == w.accepted && r.onAir == w.onAir + head;
    } else {
      assert Apply(w, VBI(t)) == w;
    }
  }

  lemma BeginKeepsFifo(w: World, request: Request)
    requires Inv(w) && Enabled(w, Begin(request))
    ensures Inv(Apply(w, Begin(request)))
  {
    StepKeepsQueue(w, Begin(request));
    ChoosesSlotAfterQueue(w.a, w.level);
    var r := Apply(w, Begin(request));
    if r.inFlight.Some? {
      LoadChangesOne(w.a, r.inFlight.value, request);
      PendingElsewhere(w.a, r.a, w.level, r.inFlight.value);
    }
  }

  /** What waits does not depend on the slot after the queue. */
  lemma PendingElsewhere(a: Auto, r: Auto, level: nat, f: int)
    requires RingInv(a, level) && WellFormed(r) && InRing(a, f)
    requires r == a.(frameStamp := a.frameStamp[f := r.frameStamp[f]])
    requires DistOf(a, First(a), f) == level && Valid(r, f) == Valid(a, f)
    ensures Pending(r, level) == Pending(a, level)
  {
    assert PendingCount(r, level) == PendingCount(a, level);
    forall i | 0 <= i < PendingCount(a, level) ensures AheadOf(a, PendingFrom(a), i) != f {
      assert DistOf(a, First(a), AheadOf(a, PendingFrom(a), i)) < level;
    }
  }

  lemma CompleteKeepsFifo(w: World)
    requires Inv(w) && Enabled(w, Complete)
    ensures Inv(Apply(w, Complete))
  {
    StepKeepsQueue(w, Complete);
    var r := Apply(w, Complete);
    var f := w.inFlight.value;
    var cookie := w.a.frameStamp[f].hUser;
    if HasActive(w.a) && f == w.a.activeFrame {
      ActiveSlotInFlight(w.a, w.level);
      assert Pending(w.a, w.level) == [] == Pending(r.a, r.level);
      assert w.accepted == w.onAir;
    } else {
      assert Pending(r.a, r.level) == Pending(w.a, w.level) + [cookie];
      assert r.accepted == w.onAir + (Pending(w.a, w.level) + [cookie]);
    }
  }

  /** What a flush leaves waiting is the front of what was waiting. */
  lemma FlushCutsPending(a: Auto, level: nat, clear: bool)
    requires RingInv(a, level)
    ensures RingInv(Flush(a, clear), FlushedLevel(a, level))
    ensures Pending(Flush(a, clear), FlushedLevel(a, level)) <= Pending(a, level)
  {
    FlushKeepsRing(a, level, clear);
    if a.state == Init || a.state == Running || a.state == Paused {
      FlushEmpties(a, clear);
      var r, stop := Flush(a, clear), ReadRegister(a);
      assert DistOf(a, First(a), First(a)) == 0;
      if PendingCount(r, FlushedLevel(a, level)) > 0 {
        assert stop == NextOf(a, a.activeFrame) && Valid(a, a.activeFrame) == 0;
        assert level > 0;
      }
    }
  }

  lemma FlushKeepsFifo(w: World, clear: bool)
    requires Inv(w) && Enabled(w, FlushAll(clear))
    ensures Inv(Apply(w, FlushAll(clear)))
  {
    StepKeepsQueue(w, FlushAll(clear));
    FlushCutsPending(w.a, w.level, clear);
    var r := Apply(w, FlushAll(clear));
    var before, after := Pending(w.a, w.level), Pending(r.a, r.level);
    assert |after| == PendingCount(r.a, r.level);
    assert (w.onAir + before)[..|w.onAir| + |after|] == w.onAir + after;
  }

  lemma PrerollKeepsFifo(w: World, count: nat)
    requires Inv(w)
    ensures Inv(Apply(w, PrerollBy(count)))
  {
    StepKeepsQueue(w, PrerollBy(count));
    var r := Apply(w, PrerollBy(count));
    if HasActive(w.a) {
      PrerollExtendsQueue(w.a, w.level, count);
      assert DistOf(w.a, First(w.a), First(w.a)) == 0;
      forall f | InRing(w.a, f) ensures r.a.frameStamp[f].hUser == w.a.frameStamp[f].hUser {}
      assert PendingCount(r.a, r.level) == PendingCount(w.a, w.level);
      assert Pending(w.a, w.level) == Pending(r.a, r.level);
    }
  }

  lemma StepKeepsInv(w: World, e: Event)
    requires Inv(w) && Enabled(w, e)
    ensures Inv(Apply(w, e))
  {
    match e
    case StartUp => StartKeepsFifo(w);
    case VBI(t) =>
      if Acts(t) {
        TickKeepsFifo(w, t);
      } else {
        IdleInterrupt(w, t);
      }
    case Begin(request) => BeginKeepsFifo(w, request);
    case Complete => CompleteKeepsFifo(w);
    case PauseAll(play, clear) => StepKeepsQueue(w, e);
    case Fail => StepKeepsQueue(w, e);
    case FlushAll(clear) => FlushKeepsFifo(w, clear);
    case PrerollBy(count) => PrerollKeepsFifo(w, count);
  }

  // ----- whole runs -----

  predicate Legal(w: World, es: seq<Event>)
    requires Shape(w)
    decreases es
  {
    es == [] || (Enabled(w, es[0]) && Legal(Apply(w, es[0]), es[1..]))
  }

  function Run(w: World, es: seq<Event>): (r: World)
    requires Shape(w) && Legal(w, es)
    ensures Shape(r) && SameRing(w.a, r.a)
    decreases es
  {
    if es == [] then w else Run(Apply(w, es[0]), es[1..])
  }

  lemma {:induction false} RunKeepsInv(w: World, es: seq<Event>)
    requires Inv(w) && Legal(w, es)
    ensures Inv(Run(w, es))
    decreases es
  {
    if es != [] {
      StepKeepsInv(w, es[0]);
      RunKeepsInv(Apply(w, es[0]), es[1..]);
    }
  }

  /** Through any interleaving the frames shown are a prefix of the frames accepted: they
      go on air in transfer order with none skipped, and the rest are the ones waiting. */
  lemma PlaybackIsFifo(s: int, e: int, register: int, es: seq<Event>)
    requires 0 <= s <= e < MAX_FRAMEBUFFERS && Legal(InitWorld(s, e, register), es)
    ensures var w := Run(InitWorld(s, e, register), es);
      && Inv(w) && w.onAir <= w.accepted
      && w.accepted[|w.onAir|..] == Pending(w.a, w.level)
  {
    RunKeepsInv(InitWorld(s, e, register), es);
  }

  /** A slot chosen once the channel has started stays empty, and is neither shown nor
      designated by the register, until its transfer ends. */
  lemma {:induction false} SlotInFlightIsNotShown(w: World, es: seq<Event>, f: int)
    requires Inv(w) && Legal(w, es) && Complete !in es && Fail !in es
    requires HasActive(w.a) && w.inFlight == Some(f) && f != w.a.activeFrame
    ensures var r := Run(w, es);
      && r.inFlight == Some(f) && r.a.activeFrame != f && r.a.register != f
      && r.a.frameStamp[f] == w.a.frameStamp[f]
    decreases es
  {
    if es != [] {
      StepLeavesSlotInFlight(w, es[0], f);
      StepKeepsInv(w, es[0]);
      SlotInFlightIsNotShown(Apply(w, es[0]), es[1..], f);
    }
  }

  lemma StepLeavesSlotInFlight(w: World, e: Event, f: int)
    requires Inv(w) && Enabled(w, e) && e != Complete && e != Fail
    requires HasActive(w.a) && w.inFlight == Some(f) && f != w.a.activeFrame
    ensures var r := Apply(w, e);
      && HasActive(r.a) && r.inFlight == Some(f) && f != r.a.activeFrame
      && r.a.frameStamp[f] == w.a.frameStamp[f]
  {
    match e
    case VBI(t) =>
      if Acts(t) {
        TickSpends(w.a, t);
      } else {
        IdleInterrupt(w, t);
      }
    case PrerollBy(count) =>
      PrerollExtendsQueue(w.a, w.level, count);
    case _ =>
  }
}
