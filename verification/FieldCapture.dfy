/**
 Capturing an interlaced input field by field: whatever fields the hardware reports, no
 two slots in a row are left holding the same field.
 */
module FieldCapture {
  import opened Basics
  import opened SingleSteps
  import opened Ring

  /** A field-mode capture and the field flags of the slots the register has moved past. */
  datatype World = World(a: Auto, passed: seq<FieldFlags>)

  datatype Event =
    | StartUp
    | VBI(t: VBlank)
    | Complete(frame: int)
    | PauseAll(play: bool, clearDropped: bool)
    | FlushAll(clearDropped: bool)

  predicate Shape(w: World) {
    WellFormed(w.a) && w.a.recording && (w.a.state == Init || HasActive(w.a))
  }

  predicate Enabled(w: World, e: Event) {
    match e
    case StartUp => w.a.state == Init
    case VBI(t) => t.fieldMode || !Acts(t)
    case Complete(f) => 0 <= f < MAX_FRAMEBUFFERS
    case _ => true
  }

  /** The interrupt sent the device on from the slot that is active now. */
  predicate MovesOn(a: Auto, r: Auto) {
    (a.state == Starting && r.state == Running) || r.framesProcessed > a.framesProcessed
  }

  function Apply(w: World, e: Event): (r: World)
    requires Shape(w) && Enabled(w, e)
    ensures Shape(r) && SameRing(w.a, r.a)
  {
    match e
    case StartUp => w.(a := Start(w.a))
    case VBI(t) =>
      var a := Interrupt(w.a, t);
      World(a, if MovesOn(w.a, a) then w.passed + [a.frameStamp[a.activeFrame].frameFlags] else w.passed)
    case Complete(f) => w.(a := CompleteTransfer(w.a, f))
    case PauseAll(play, clear) => w.(a := Pause(w.a, play, clear))
    case FlushAll(clear) => w.(a := Flush(w.a, clear))
  }

  predicate Opposite(x: FieldFlags, y: FieldFlags) {
    x.field0 == !x.field1 && y.field0 == !y.field1 && x.field0 == !y.field0
  }

  ghost predicate Alternates(fields: seq<FieldFlags>) {
    && (fields != [] ==> fields[0].field0)
    && (forall i :: 0 <= i < |fields| ==> fields[i].field0 == !fields[i].field1)
    && (forall i {:trigger fields[i]} :: 0 < i < |fields| ==> Opposite(fields[i - 1], fields[i]))
  }

  /** The last slot passed: the one before the active slot, or the active slot itself once
      the register is ahead of it. */
  function LastPassed(a: Auto): int {
    if a.register == a.activeFrame then PrevOf(a, a.activeFrame) else a.activeFrame
  }

  ghost predicate Inv(w: World) {
    && Shape(w) && Alternates(w.passed)
    && (w.a.state == Init || w.a.state == Starting ==> w.passed == [])
    && (w.a.state == Starting ==> w.a.register == w.a.activeFrame)
    && (w.a.state == Running || w.a.state == Paused ==>
          && (w.a.register == w.a.activeFrame || w.a.register == NextOf(w.a, w.a.activeFrame))
          && (Size(w.a) == 1 ==> |w.passed| == 1)
          && (Size(w.a) > 1 ==> EndsWith(w.passed, w.a.frameStamp[LastPassed(w.a)].frameFlags)))
  }

  predicate EndsWith(fields: seq<FieldFlags>, last: FieldFlags) {
    fields != [] && fields[|fields| - 1] == last
  }

  /** A running interrupt stamps the active slot with its field, unless it bails, and moves
      on only when the slot before the active one holds another. */
  lemma TickStampsField(a: Auto, t: VBlank)
    requires WellFormed(a) && a.recording && a.state == Running && InRing(a, a.register) && t.fieldMode
    ensures var r := Tick(a, t);
      && SameRing(a, r) && r.state == Running && r.activeFrame == a.register
      && (forall f {:trigger r.frameStamp[f]} :: 0 <= f < MAX_FRAMEBUFFERS && f != r.activeFrame ==>
            r.frameStamp[f].frameFlags == a.frameStamp[f].frameFlags)
      && (MovesOn(a, r) ==>
            && r.register == NextOf(r, r.activeFrame)
            && r.frameStamp[r.activeFrame].frameFlags == FieldFlags(t.field0, !t.field0)
            && r.frameStamp[PrevOf(r, r.activeFrame)].frameFlags != r.frameStamp[r.activeFrame].frameFlags)
      && (!MovesOn(a, r) ==> r.register == a.register)
  {
  }

  lemma AppendAlternates(fields: seq<FieldFlags>, x: FieldFlags)
    requires Alternates(fields) && x.field0 == !x.field1
    requires if fields == [] then x.field0 else fields[|fields| - 1] != x
    ensures Alternates(fields + [x])
  {
  }

  lemma RunningTickAlternates(w: World, t: VBlank)
    requires Inv(w) && t.fieldMode && w.a.state == Running
    ensures Inv(Apply(w, VBI(t)))
  {
    var r := Tick(w.a, t);
    TickStampsField(w.a, t);
    if Size(w.a) > 1 {
      assert LastPassed(w.a) == PrevOf(w.a, w.a.register) != w.a.register;
      if MovesOn(w.a, r) {
        AppendAlternates(w.passed, r.frameStamp[r.activeFrame].frameFlags);
      }
    }
  }

  lemma TickAlternates(w: World, t: VBlank)
    requires Inv(w) && t.fieldMode
    ensures Inv(Apply(w, VBI(t)))
  {
    if w.a.state == Running {
      RunningTickAlternates(w, t);
    }
  }

  lemma {:induction false} FlushKeepsFlags(a: Auto, f: int, stop: int, g: int)
    requires WellFormed(a) && InRing(a, f) && InRing(a, stop) && 0 <= g < MAX_FRAMEBUFFERS
    ensures FlushBack(a, f, stop).frameStamp[g].frameFlags == a.frameStamp[g].frameFlags
    decreases DistOf(a, stop, f)
  {
    if f != stop && Valid(a, f) != 0 {
      FlushKeepsFlags(SetValid(a, f, 0), PrevOf(a, f), stop, g);
    }
  }

  lemma StepAlternates(w: World, e: Event)
    requires Inv(w) && Enabled(w, e)
    ensures Inv(Apply(w, e))
  {
    match e
    case VBI(t) =>
      if Acts(t) {
        TickAlternates(w, t);
      }
    case FlushAll(clear) =>
      var b := if clear then w.a.(droppedFrames := 0) else w.a;
      var stop := ReadRegister(w.a);
      if HasActive(w.a) {
        FlushKeepsFlags(b, PrevOf(b, stop), stop, LastPassed(w.a));
      }
    case _ =>
  }

  predicate Legal(w: World, es: seq<Event>)
    requires Shape(w)
    decreases es
  {
    es == [] || (Enabled(w, es[0]) && Legal(Apply(w, es[0]), es[1..]))
  }

  function Run(w: World, es: seq<Event>): (r: World)
    requires Shape(w) && Legal(w, es)
    ensures Shape(r) && SameRing(w.a, r.a)
    decreases es
  {
    if es == [] then w else Run(Apply(w, es[0]), es[1..])
  }

  lemma {:induction false} RunAlternates(w: World, es: seq<Event>)
    requires Inv(w) && Legal(w, es)
    ensures Inv(Run(w, es))
    decreases es
  {
    if es != [] {
      StepAlternates(w, es[0]);
      RunAlternates(Apply(w, es[0]), es[1..]);
    }
  }

  /** Across drops, early bails, pauses, flushes, transfers and the end of the ring, any two
      slots the device left one after the other hold opposite fields, beginning with field 0. */
  lemma PassedSlotsAlternate(s: int, e: int, register: int, es: seq<Event>)
    requires 0 <= s <= e < MAX_FRAMEBUFFERS
    requires Legal(World(InitAuto(true, s, e, register), []), es)
    ensures var w := Run(World(InitAuto(true, s, e, register), []), es);
      && Alternates(w.passed)
      && (s < e && (w.a.state == Running || w.a.state == Paused) ==>
            EndsWith(w.passed, w.a.frameStamp[LastPassed(w.a)].frameFlags))
  {
    RunAlternates(World(InitAuto(true, s, e, register), []), es);
  }

  // ----- which fields are taken -----

  /** A running interrupt that does not bail takes its field exactly when there is room for
      another after it, no synced partner asks for a drop, and the last field taken was the
      other one; otherwise it is a drop. */
  lemma FieldIsTakenIff(w: World, t: VBlank)
    requires Inv(w) && w.a.state == Running && Size(w.a) > 1 && t.fieldMode && !t.tooFast
    ensures var r, next := Apply(w, VBI(t)), NextOf(w.a, w.a.register);
      var taken :=
        && next != w.a.activeFrame && Valid(w.a, next) == 0
        && !(t.syncEnabled && t.syncDrop)
        && w.passed[|w.passed| - 1].field0 != t.field0;
      && r.passed == (if taken then w.passed + [FieldFlags(t.field0, !t.field0)] else w.passed)
      && r.a.register == (if taken then next else w.a.register)
      && r.a.droppedFrames == w.a.droppedFrames + if taken then 0 else 1
  {
    CaptureMovesOnIff(w.a, t);
    var last := w.passed[|w.passed| - 1];
    assert last == w.a.frameStamp[PrevOf(w.a, w.a.register)].frameFlags && last.field0 == !last.field1;
    assert last == FieldFlags(t.field0, !t.field0) <==> last.field0 == t.field0;
  }

  /** The next `n` slots after the register are empty, and none of them is being left. */
  ghost predicate Room(a: Auto, n: int)
    requires WellFormed(a)
  {
    && n <= Size(a) - 2
    && forall g {:trigger Dist(a.startFrame, a.endFrame, a.register, g)} :: InRing(a, g) ==>
      (0 < Dist(a.startFrame, a.endFrame, a.register, g) <= n ==> Valid(a, g) == 0)
  }

  /** An interrupt for field 0, or for field 1, neither too soon nor with a partner in the way. */
  predicate Clear(t: VBlank, field0: bool) {
    t.fieldMode && !t.tooFast && !(t.syncEnabled && t.syncDrop) && t.field0 == field0
  }

  /** Such interrupts for alternating fields, the first for `field0`. */
  predicate Regular(ts: seq<VBlank>, field0: bool) {
    forall i :: 0 <= i < |ts| ==> Clear(ts[i], field0 == (i % 2 == 0))
  }

  function AsEvents(ts: seq<VBlank>): (r: seq<Event>)
    ensures |r| == |ts| && forall i :: 0 <= i < |ts| ==> r[i] == VBI(ts[i])
  {
    if ts == [] then [] else [VBI(ts[0])] + AsEvents(ts[1..])
  }

  /** A capture that runs, with room for `n` fields. */
  ghost predicate Ready(w: World, n: int) {
    Inv(w) && w.a.state == Running && Size(w.a) > 1 && Room(w.a, n)
  }

  lemma TakenLeavesRoom(w: World, t: VBlank, n: nat)
    requires Ready(w, n) && n > 0 && Clear(t, !w.passed[|w.passed| - 1].field0)
    ensures var r := Apply(w, VBI(t));
      && Ready(r, n - 1)
      && r.passed == w.passed + [FieldFlags(t.field0, !t.field0)]
      && r.a.droppedFrames == w.a.droppedFrames
  {
    assert DistOf(w.a, w.a.register, NextOf(w.a, w.a.register)) == 1;
    FieldIsTakenIff(w, t);
    StepAlternates(w, VBI(t));
    MovingLeavesRoom(w.a, t, n);
  }

  lemma MovingLeavesRoom(a: Auto, t: VBlank, n: nat)
    requires WellFormed(a) && a.recording && a.state == Running && Acts(t) && !t.tooFast && InRing(a, a.register)
    requires a.register == a.activeFrame || a.register == NextOf(a, a.activeFrame)
    requires n > 0 && Room(a, n) && Interrupt(a, t).register == NextOf(a, a.register) != a.register
    ensures var r := Interrupt(a, t); r.state == Running && Size(r) == Size(a) && Room(r, n - 1)
  {
    CaptureMovesOnIff(a, t);
    DistFromNext(a.startFrame, a.endFrame, a.register);
  }

  lemma RegularRest(ts: seq<VBlank>, field0: bool)
    requires ts != [] && Regular(ts, field0)
    ensures Clear(ts[0], field0) && Regular(ts[1..], !field0)
  {
    forall i | 0 <= i < |ts[1..]| ensures ts[1..][i] == ts[i + 1] {}
  }

  lemma RunFirst(w: World, e: Event, rest: seq<Event>)
    requires Shape(w) && Enabled(w, e) && Legal(Apply(w, e), rest)
    ensures Legal(w, [e] + rest) && Run(w, [e] + rest) == Run(Apply(w, e), rest)
  {
    assert ([e] + rest)[1..] == rest;
  }

  /** The flags of the fields that start at the interrupts. */
  function Fields(ts: seq<VBlank>): seq<FieldFlags> {
    seq(|ts|, i requires 0 <= i < |ts| => FieldFlags(ts[i].field0, !ts[i].field0))
  }

  lemma FieldsFirst(passed: seq<FieldFlags>, ts: seq<VBlank>)
    requires ts != []
    ensures passed + Fields(ts) == passed + [FieldFlags(ts[0].field0, !ts[0].field0)] + Fields(ts[1..])
  {
    assert Fields(ts) == [FieldFlags(ts[0].field0, !ts[0].field0)] + Fields(ts[1..]);
  }

  /** Fields that alternate are all taken while there is room: none is dropped, and each goes
      into a slot of its own. */
  lemma {:induction false} AlternatingFieldsAreTaken(w: World, ts: seq<VBlank>)
    requires Ready(w, |ts|) && Regular(ts, !w.passed[|w.passed| - 1].field0)
    ensures Legal(w, AsEvents(ts))
    ensures var r := Run(w, AsEvents(ts));
      r.passed == w.passed + Fields(ts) && r.a.droppedFrames == w.a.droppedFrames
    decreases |ts|
  {
    if ts != [] {
      RegularRest(ts, !w.passed[|w.passed| - 1].field0);
      TakenLeavesRoom(w, ts[0], |ts|);
      AlternatingFieldsAreTaken(Apply(w, VBI(ts[0])), ts[1..]);
      RunFirst(w, VBI(ts[0]), AsEvents(ts[1..]));
      FieldsFirst(w.passed, ts);
    }
  }
}
