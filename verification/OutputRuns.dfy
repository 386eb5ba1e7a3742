/**
 The audio output of a playback channel over whole runs: the ring decides when a frame has
 used up its showings, when the device moves on, which frame is active, and where a preroll
 goes; every transfer stores the address its frame is expected at.
 */
module OutputRuns {
  import opened Basics
  import opened Ring
  import opened PlaybackRing
  import opened SingleSteps
  import opened AudioCadence
  import opened AudioRing
  import P = PlaybackFifo
  import O = AudioOutput

  datatype Setup = Setup(system: AudioSystem, audio: AudioRate, tolerance: nat)

  /** The channel, its audio output, and the expected address stored with every slot. */
  datatype World = World(p: P.World, o: O.State, expected: seq<nat>)

  /** A transfer brings some bytes of audio; an interrupt learns where the output is, and how
      far the time since the last one is from a frame period. */
  datatype Event = Event(e: P.Event, bytes: nat, lastOut: nat, discontinuity: int)

  function InitWorld(s: int, e: int, register: int): World {
    World(P.InitWorld(s, e, register), O.INITIAL, seq(MAX_FRAMEBUFFERS, _ => 0))
  }

  predicate Shape(w: World) {
    P.Shape(w.p) && |w.expected| == MAX_FRAMEBUFFERS
  }

  predicate Enabled(u: Setup, w: World, e: Event) {
    P.Enabled(w.p, e.e) && e.bytes <= WrapAddress(u.system)
  }

  /** The output is too far from where the active frame should be. */
  predicate TooFar(u: Setup, expected: nat, lastOut: nat, discontinuity: int) {
    && Regular(u.tolerance, discontinuity)
    && DeltaTime(u.system, u.audio, Delta(WrapAddress(u.system), expected, lastOut)) > U32(u.tolerance * 10)
  }

  /** The starting interrupt moves the device on. */
  predicate MovesFirst(a: Auto, r: Auto) {
    a.state == Starting && r.framesProcessed > a.framesProcessed
  }

  /** What an interrupt the driver acts on is to the audio output of channel `a`, which it
      leaves as `r`. */
  function Heard(u: Setup, w: World, r: Auto, e: Event): O.Event
    requires Shape(w) && WellFormed(r)
  {
    var a := w.p.a;
    if a.state == Running && 0 <= r.activeFrame < MAX_FRAMEBUFFERS then
      var expected := w.expected[r.activeFrame];
      O.Running(O.Report(Valid(r, r.activeFrame) == 0, r.framesProcessed > a.framesProcessed, expected,
                         TooFar(u, expected, e.lastOut, e.discontinuity)))
    else if MovesFirst(a, r) then O.FirstMove(Valid(a, ReadRegister(a)) > 0)
    else O.Other
  }

  /** The preroll extends the active frame. */
  predicate PrerollsActive(a: Auto)
    requires WellFormed(a)
  {
    HasActive(a) && PrerollSlot(a) == Some(a.activeFrame)
  }

  function Apply(u: Setup, w: World, e: Event): (r: World)
    requires Shape(w) && Enabled(u, w, e)
    ensures Shape(r) && r.p == P.Apply(w.p, e.e)
  {
    var p := P.Apply(w.p, e.e);
    match e.e
    case VBI(t) =>
      if Acts(t) then World(p, O.Apply(u.system, w.o, Heard(u, w, p.a, e)), w.expected) else w.(p := p)
    case Begin(_) =>
      if p.inFlight.None? then w.(p := p)
      else
        World(p, O.Apply(u.system, w.o, O.Transfer(e.bytes)), w.expected[p.inFlight.value := O.PlacedAt(w.o)])
    case FlushAll(_) =>
      if w.p.a.state == Starting then w.(p := p)
      else
        World(p, O.Apply(u.system, w.o, O.Flush),
              seq(MAX_FRAMEBUFFERS, f requires 0 <= f < MAX_FRAMEBUFFERS => if InRing(p.a, f) then 1
                  else w.expected[f]))
    case PrerollBy(_) =>
      if PrerollsActive(w.p.a) then World(p, O.Apply(u.system, w.o, O.Preroll), w.expected) else w.(p := p)
    case _ => w.(p := p)
  }

  // ----- whole runs -----

  predicate Legal(u: Setup, w: World, es: seq<Event>)
    requires Shape(w)
    decreases es
  {
    es == [] || (Enabled(u, w, es[0]) && Legal(u, Apply(u, w, es[0]), es[1..]))
  }

  function Run(u: Setup, w: World, es: seq<Event>): (r: World)
    requires Shape(w) && Legal(u, w, es)
    ensures Shape(r)
    decreases es
  {
    if es == [] then w else Run(u, Apply(u, w, es[0]), es[1..])
  }

  /** The output counts as started exactly while the channel is past its starting state; its
      pointer is the bytes accepted since the last rewind, modulo the ring. */
  ghost predicate Inv(u: Setup, w: World) {
    && Shape(w) && P.Inv(w.p)
    && StartedTied(w)
    && O.PointerInv(u.system, w.o)
  }

  lemma TickTies(a: Auto, t: VBlank)
    requires WellFormed(a) && !a.recording && (a.state == Init || HasActive(a))
    ensures var r := Tick(a, t);
      && (a.state == Running || a.state == Paused ==> r.state == a.state)
      && (a.state == Starting ==> r.state == if MovesFirst(a, r) then Running else Starting)
      && (a.state == Init ==> r.state == Init)
  {
  }

  lemma PrerollTies(a: Auto, level: nat, count: nat)
    requires RingInv(a, level)
    ensures var r := Preroll(a, count).0;
      r.state == if PrerollsActive(a) then Starting else a.state
  {
    if HasActive(a) {
      PrerollExtendsQueue(a, level, count);
    }
  }

  predicate StartedTied(w: World) {
    w.o.started <==> w.p.a.state == Running || w.p.a.state == Paused
  }

  lemma InterruptKeepsStarted(u: Setup, w: World, e: Event)
    requires Shape(w) && StartedTied(w) && Enabled(u, w, e) && e.e.VBI?
    ensures StartedTied(Apply(u, w, e))
  {
    if Acts(e.e.t) {
      TickTies(w.p.a, e.e.t);
    } else {
      P.IdleInterrupt(w.p, e.e.t);
    }
  }

  lemma StepKeepsStarted(u: Setup, w: World, e: Event)
    requires Inv(u, w) && Enabled(u, w, e)
    ensures StartedTied(Apply(u, w, e))
  {
    match e.e
    case VBI(t) => InterruptKeepsStarted(u, w, e);
    case FlushAll(clear) => assert Flush(w.p.a, clear).state == w.p.a.state;
    case PrerollBy(count) => PrerollTies(w.p.a, w.p.level, count);
    case _ =>
  }

  /** What a step is to the audio output, if anything. */
  function OutputEvent(u: Setup, w: World, e: Event): Option<O.Event>
    requires Shape(w) && Enabled(u, w, e)
  {
    match e.e
    case VBI(t) => if Acts(t) then Some(Heard(u, w, P.Apply(w.p, e.e).a, e)) else None
    case Begin(_) => if P.Apply(w.p, e.e).inFlight.None? then None else Some(O.Transfer(e.bytes))
    case FlushAll(_) => if w.p.a.state == Starting then None else Some(O.Flush)
    case PrerollBy(_) => if PrerollsActive(w.p.a) then Some(O.Preroll) else None
    case _ => None
  }

  lemma OutputSteps(u: Setup, w: World, e: Event)
    requires Shape(w) && Enabled(u, w, e)
    ensures Apply(u, w, e).o ==
      match OutputEvent(u, w, e)
      case None => w.o
      case Some(x) => O.Apply(u.system, w.o, x)
    ensures OutputEvent(u, w, e).Some? && OutputEvent(u, w, e).value.Transfer? ==>
      OutputEvent(u, w, e).value.bytes <= WrapAddress(u.system)
    ensures OutputEvent(u, w, e) == Some(O.Preroll) ==> e.e.PrerollBy?
  {
  }

  lemma StepKeepsPointer(u: Setup, w: World, e: Event)
    requires Shape(w) && Enabled(u, w, e) && O.PointerInv(u.system, w.o)
    ensures O.PointerInv(u.system, Apply(u, w, e).o)
  {
    OutputSteps(u, w, e);
    var x := OutputEvent(u, w, e);
    if x.Some? {
      O.StepFollowsBytes(u.system, w.o, x.value);
    }
  }

  lemma StepKeepsInv(u: Setup, w: World, e: Event)
    requires Inv(u, w) && Enabled(u, w, e)
    ensures Inv(u, Apply(u, w, e))
  {
    P.StepKeepsInv(w.p, e.e);
    StepKeepsStarted(u, w, e);
    StepKeepsPointer(u, w, e);
  }

  lemma {:induction false} RunKeepsInv(u: Setup, w: World, es: seq<Event>)
    requires Inv(u, w) && Legal(u, w, es)
    ensures Inv(u, Run(u, w, es))
    decreases es
  {
    if es != [] {
      StepKeepsInv(u, w, es[0]);
      RunKeepsInv(u, Apply(u, w, es[0]), es[1..]);
    }
  }

  /** In every run from Init the write pointer is the bytes accepted since the last rewind,
      modulo the ring, and the output counts as started exactly when the channel runs. */
  lemma OutputFollowsChannel(u: Setup, s: int, e: int, register: int, es: seq<Event>)
    requires 0 <= s <= e < MAX_FRAMEBUFFERS && Legal(u, InitWorld(s, e, register), es)
    ensures Inv(u, Run(u, InitWorld(s, e, register), es))
  {
    P.RunKeepsInv(P.InitWorld(s, e, register), []);
    P.PlaybackIsFifo(s, e, register, []);
    RunKeepsInv(u, InitWorld(s, e, register), es);
  }

  /** A transfer stores with its slot the address the pointer then has: the bytes accepted
      since the rewind before it, modulo the ring. */
  lemma TransferStoresAddress(u: Setup, w: World, e: Event)
    requires Inv(u, w) && Enabled(u, w, e) && e.e.Begin? && Apply(u, w, e).p.inFlight.Some?
    ensures var r := Apply(u, w, e);
      r.expected[r.p.inFlight.value] == (r.o.sinceRewind - e.bytes) % WrapAddress(u.system)
  {
  }

  /** A flush leaves every slot an address that is not the rewound pointer, so that none of
      them can start a stopped output. */
  lemma FlushMarksAddresses(u: Setup, w: World, e: Event)
    requires Shape(w) && Enabled(u, w, e) && e.e.FlushAll?
    ensures var r := Apply(u, w, e);
      && |r.expected| == MAX_FRAMEBUFFERS
      && forall f :: 0 <= f < MAX_FRAMEBUFFERS ==>
        r.expected[f] == if w.p.a.state != Starting && InRing(w.p.a, f) then 1 else w.expected[f]
  {
  }

  /** What a running interrupt does to the output, told from the channel: it looks at the slot
      the register designates, whose frame is spent when at most one showing was left, and at
      the address stored with it. */
  lemma InterruptOutputIff(u: Setup, w: World, e: Event)
    requires Inv(u, w) && Enabled(u, w, e) && e.e.VBI? && Acts(e.e.t) && w.p.a.state == Running
    ensures var r, f, o := Apply(u, w, e), ReadRegister(w.p.a), w.o;
      var spent, moves := Valid(w.p.a, f) <= 1, r.p.a.register != w.p.a.register;
      var stopped := o.stopNext || (o.stopped && !o.startNext);
      var stays := stopped && !(spent && w.expected[f] == 0 && o.required == o.completed);
      var rewinds := spent && !stays && (!moves || TooFar(u, w.expected[f], e.lastOut, e.discontinuity));
      && r.expected == w.expected
      && r.o == o.(
        stopped := stays,
        required := o.required + if rewinds then 1 else 0,
        stopNext := rewinds,
        startNext := spent && stays && moves && w.expected[f] == 0 && o.required >= o.completed)
  {
    var a := w.p.a;
    PlaybackMovesOnIff(a, e.e.t);
    assert DistOf(a, First(a), ReadRegister(a)) >= 0;
    O.RunningOutputIff(u.system, w.o, Heard(u, w, Apply(u, w, e).p.a, e).r);
  }

  /** The output is too far away when the interrupt came regularly and the time between the
      two addresses, in ten-millionths of a second, is more than ten times the tolerance. */
  lemma TooFarIff(u: Setup, expected: nat, lastOut: nat, discontinuity: int)
    requires 10 * u.tolerance < UINT32
    ensures TooFar(u, expected, lastOut, discontinuity) <==>
      && -3 * u.tolerance < discontinuity < 3 * u.tolerance
      && DeltaTime(u.system, u.audio, Delta(WrapAddress(u.system), expected, lastOut)) > 10 * u.tolerance
  {
  }

  // ----- rewinds required and completed -----

  lemma StepKeepsBound(u: Setup, w: World, e: Event)
    requires Shape(w) && Enabled(u, w, e) && O.DropInv(w.o) && !e.e.PrerollBy?
    ensures O.DropInv(Apply(u, w, e).o)
  {
    OutputSteps(u, w, e);
    var x := OutputEvent(u, w, e);
    if x.Some? {
      O.StepKeepsBound(u.system, w.o, x.value);
    }
  }

  /** Without prerolls no more rewinds are made than were asked for. */
  lemma {:induction false} BoundHolds(u: Setup, w: World, es: seq<Event>)
    requires Shape(w) && Legal(u, w, es) && O.DropInv(w.o) && forall e :: e in es ==> !e.e.PrerollBy?
    ensures O.DropInv(Run(u, w, es).o)
    decreases es
  {
    if es != [] {
      assert es[0] in es;
      StepKeepsBound(u, w, es[0]);
      BoundHolds(u, Apply(u, w, es[0]), es[1..]);
    }
  }

  lemma RunsWithoutPrerollKeepBound(u: Setup, s: int, e: int, register: int, es: seq<Event>)
    requires 0 <= s <= e < MAX_FRAMEBUFFERS && Legal(u, InitWorld(s, e, register), es)
    requires forall e :: e in es ==> !e.e.PrerollBy?
    ensures var o := Run(u, InitWorld(s, e, register), es).o; o.completed <= o.required
  {
    BoundHolds(u, InitWorld(s, e, register), es);
  }

  /** One step breaks the bound exactly when the starting interrupt moves on from an empty
      frame after more than two rewinds were made. */
  lemma StepBreaksBoundIff(u: Setup, w: World, e: Event)
    requires Inv(u, w) && Enabled(u, w, e) && w.o.completed <= w.o.required
    ensures var r := Apply(u, w, e);
      r.o.completed > r.o.required <==>
        && e.e.VBI? && Acts(e.e.t) && w.o.completed > 2
        && w.p.a.state == Starting && e.e.t.timeReached
        && Valid(w.p.a, w.p.a.activeFrame) == 0 && !PlaybackMustWait(w.p.a, e.e.t)
  {
    OutputSteps(u, w, e);
    var x := OutputEvent(u, w, e);
    if x.Some? {
      O.BoundBreaksIff(u.system, w.o, x.value);
      if e.e.VBI? && w.p.a.state == Starting {
        StartingMoves(w.p.a, w.p.level, e.e.t);
      }
    }
  }

  /** The starting interrupt moves on from an empty frame exactly when its time has come and
      the next slot lets it. */
  lemma StartingMoves(a: Auto, level: nat, t: VBlank)
    requires RingInv(a, level) && a.state == Starting
    ensures MovesFirst(a, Tick(a, t)) && Valid(a, ReadRegister(a)) <= 0 <==>
      t.timeReached && Valid(a, a.activeFrame) == 0 && !PlaybackMustWait(a, t)
  {
    assert DistOf(a, First(a), a.activeFrame) >= 0;
  }

  // ----- a run that breaks the bound -----

  const BLANK := VBlank(true, false, true, false, false, false)
  const FRAME := Request(1, 0, None)

  /** An event with 64 bytes of audio; an interrupt that comes too irregularly to look at the
      drift. */
  function With(u: Setup, e: P.Event): Event {
    Event(e, 64, 0, 3 * u.tolerance)
  }

  ghost predicate Reaches(u: Setup, w: World, r: World)
    requires Shape(w)
  {
    exists es :: Legal(u, w, es) && Run(u, w, es) == r
  }

  lemma {:induction false} RunAppends(u: Setup, w: World, es: seq<Event>, e: Event)
    requires Shape(w) && Legal(u, w, es)
    ensures Enabled(u, Run(u, w, es), e) ==>
      Legal(u, w, es + [e]) && Run(u, w, es + [e]) == Apply(u, Run(u, w, es), e)
    decreases es
  {
    if es == [] {
      if Enabled(u, w, e) {
        var r := Apply(u, w, e);
        assert [] + [e] == [e] && [e][1..] == [] && Legal(u, r, []) && Run(u, r, []) == r;
      }
    } else {
      assert (es + [e])[1..] == es[1..] + [e];
      RunAppends(u, Apply(u, w, es[0]), es[1..], e);
    }
  }

  lemma ReachesNext(u: Setup, w: World, r: World, e: Event)
    requires Shape(w) && Shape(r) && Reaches(u, w, r) && Enabled(u, r, e)
    ensures Reaches(u, w, Apply(u, r, e))
  {
    var es :| Legal(u, w, es) && Run(u, w, es) == r;
    RunAppends(u, w, es, e);
  }

  /** A channel on a ring of three slots, and the counts of the slots. */
  ghost predicate Stands(a: Auto, state: State, active: int, register: int, v0: int, v1: int, v2: int) {
    && WellFormed(a) && !a.recording && a.startFrame == 0 && a.endFrame == 2
    && a.state == state && a.activeFrame == active && a.register == register
    && Valid(a, 0) == v0 && Valid(a, 1) == v1 && Valid(a, 2) == v2
  }

  /** Nothing in flight, and every expected address 0. */
  predicate Quiet(w: World) {
    w.p.inFlight == None && w.expected == seq(MAX_FRAMEBUFFERS, _ => 0)
  }

  ghost predicate Output(o: O.State, required: nat, completed: nat, started: bool, stopped: bool,
      startNext: bool, stopNext: bool) {
    && o.required == required && o.completed == completed
    && o.started == started && o.stopped == stopped && o.startNext == startNext && o.stopNext == stopNext
  }

  /** A whole transfer to the slot the driver chooses. */
  lemma Supply(u: Setup, w0: World, w: World, f: int) returns (r: World)
    requires Shape(w0) && Shape(w) && Reaches(u, w0, w) && Quiet(w) && O.PlacedAt(w.o) == 0
    requires ChooseSlot(w.p.a) == Some(f) && InRing(w.p.a, f) && !w.p.a.recording
    ensures Shape(r) && Reaches(u, w0, r) && Quiet(r) && r.o == O.OnTransfer(u.system, w.o, 64)
    ensures SameRing(w.p.a, r.p.a) && r.p.a.state == w.p.a.state
    ensures r.p.a.activeFrame == w.p.a.activeFrame && r.p.a.register == w.p.a.register
    ensures forall g :: InRing(w.p.a, g) ==> Valid(r.p.a, g) == if g == f then 1 else Valid(w.p.a, g)
  {
    var b := Apply(u, w, With(u, P.Begin(FRAME)));
    ReachesNext(u, w0, w, With(u, P.Begin(FRAME)));
    assert b.p.inFlight == Some(f) && b.p.a == Load(w.p.a, f, FRAME);
    assert b.expected == w.expected;
    r := Apply(u, b, With(u, P.Complete));
    ReachesNext(u, w0, b, With(u, P.Complete));
    assert r.p.a == SetValid(b.p.a, f, 1);
  }

  /** An interrupt, and what the channel and the output make of it. */
  lemma Blank(u: Setup, w0: World, w: World) returns (r: World)
    requires Shape(w0) && Shape(w) && Reaches(u, w0, w) && Quiet(w)
    ensures Shape(r) && Reaches(u, w0, r) && Quiet(r) && r.p.a == Tick(w.p.a, BLANK)
    ensures r.o == O.Apply(u.system, w.o, Heard(u, w, r.p.a, With(u, P.VBI(BLANK))))
  {
    r := Apply(u, w, With(u, P.VBI(BLANK)));
    ReachesNext(u, w0, w, With(u, P.VBI(BLANK)));
  }

  /** The active slot read from the register, one showing spent. */
  function Spent(a: Auto): Auto
    requires WellFormed(a) && HasActive(a)
  {
    CountDown(a.(activeFrame := ReadRegister(a)))
  }

  lemma BlankMoves(a: Auto)
    requires WellFormed(a) && !a.recording && (a.state == Running || a.state == Starting) && InRing(a, a.register)
    requires 0 <= Valid(a, a.register) <= 1 && NextOf(a, a.register) != a.register
    requires Valid(a, NextOf(a, a.register)) != 0
    ensures Tick(a, BLANK) ==
      MoveOn(Spent(a), NextOf(a, a.register)).(framesProcessed := a.framesProcessed + 1, state := Running)
  {
  }

  lemma BlankStays(a: Auto)
    requires WellFormed(a) && !a.recording && (a.state == Running || a.state == Starting) && InRing(a, a.register)
    requires 0 <= Valid(a, a.register) <= 1 && NextOf(a, a.register) != a.register
    requires Valid(a, NextOf(a, a.register)) == 0
    ensures Tick(a, BLANK) == Spent(a).(droppedFrames := a.droppedFrames + if a.state == Running then 1 else 0)
  {
  }

  /** Started before any frame was supplied: the first move is from an empty slot, and asks for
      two rewinds. */
  lemma StartedEmpty(u: Setup) returns (w: World)
    ensures Shape(w) && Reaches(u, InitWorld(0, 2, 0), w) && Quiet(w)
    ensures Stands(w.p.a, Running, 0, 1, 0, 1, 0) && Output(w.o, 2, 0, true, true, false, false)
  {
    var w0 := InitWorld(0, 2, 0);
    assert Legal(u, w0, []) && Run(u, w0, []) == w0;
    ReachesNext(u, w0, w0, With(u, P.StartUp));
    w := Apply(u, w0, With(u, P.StartUp));
    assert Stands(w.p.a, Starting, 0, 0, 0, 0, 0) && w.o == O.INITIAL && Quiet(w);
    assert Scan(w.p.a, 1, 2) == Some(1);
    w := Supply(u, w0, w, 1);
    BlankMoves(w.p.a);
    w := Blank(u, w0, w);
  }

  /** One rewind is made, and the output is about to start. */
  lemma OneRewind(u: Setup) returns (w: World)
    ensures Shape(w) && Reaches(u, InitWorld(0, 2, 0), w) && Quiet(w)
    ensures Stands(w.p.a, Running, 1, 2, 0, 0, 1) && Output(w.o, 2, 1, true, true, true, false)
  {
    var w0 := InitWorld(0, 2, 0);
    w := StartedEmpty(u);
    assert Scan(w.p.a, 1, 2) == Scan(w.p.a, 2, 1) == Some(2);
    w := Supply(u, w0, w, 2);
    BlankMoves(w.p.a);
    w := Blank(u, w0, w);
  }

  /** Both are made, and the output plays. */
  lemma TwoRewinds(u: Setup) returns (w: World)
    ensures Shape(w) && Reaches(u, InitWorld(0, 2, 0), w) && Quiet(w)
    ensures Stands(w.p.a, Running, 2, 0, 1, 0, 0) && Output(w.o, 2, 2, true, false, false, false)
  {
    var w0 := InitWorld(0, 2, 0);
    w := OneRewind(u);
    assert Scan(w.p.a, 2, 2) == Scan(w.p.a, 0, 1) == Some(0);
    w := Supply(u, w0, w, 0);
    BlankMoves(w.p.a);
    w := Blank(u, w0, w);
  }

  /** The queue runs dry, which asks for a third rewind. */
  lemma RunsDry(u: Setup) returns (w: World)
    ensures Shape(w) && Reaches(u, InitWorld(0, 2, 0), w) && Quiet(w)
    ensures Stands(w.p.a, Running, 0, 0, 0, 0, 0) && Output(w.o, 3, 2, true, false, false, true)
  {
    w := TwoRewinds(u);
    BlankStays(w.p.a);
    w := Blank(u, InitWorld(0, 2, 0), w);
  }

  /** The active frame is prerolled with one showing, which it then spends. */
  lemma DryAndPrerolled(u: Setup) returns (w: World)
    ensures Shape(w) && Reaches(u, InitWorld(0, 2, 0), w) && Quiet(w)
    ensures Stands(w.p.a, Starting, 0, 0, 0, 0, 0) && Output(w.o, 3, 2, false, true, false, false)
  {
    var w0 := InitWorld(0, 2, 0);
    w := RunsDry(u);
    assert Scan(w.p.a, 1, 2) == Some(1);
    assert PrerollsActive(w.p.a);
    ReachesNext(u, w0, w, With(u, P.PrerollBy(1)));
    w := Apply(u, w, With(u, P.PrerollBy(1)));
    assert Stands(w.p.a, Starting, 0, 0, 1, 0, 0) && Output(w.o, 3, 2, false, true, false, true) && Quiet(w);
    BlankStays(w.p.a);
    w := Blank(u, w0, w);
  }

  /** A run from Init: frames are supplied late, the queue runs dry, the active frame is
      prerolled, and the channel moves on from it once it is spent: two rewinds are now
      required and three were made. */
  lemma PrerollBreaksBound(u: Setup) returns (w: World)
    ensures Reaches(u, InitWorld(0, 2, 0), w) && w.o.completed == 3 && w.o.required == 2
  {
    var w0 := InitWorld(0, 2, 0);
    w := DryAndPrerolled(u);
    assert Scan(w.p.a, 1, 2) == Some(1);
    w := Supply(u, w0, w, 1);
    BlankMoves(w.p.a);
    w := Blank(u, w0, w);
  }
}
