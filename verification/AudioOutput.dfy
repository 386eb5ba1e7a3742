/**
 Where playback audio is written: a pointer that follows the bytes handed in, and is
 rewound once for every audio drop the interrupts ask for.
 */
module AudioOutput {
  import opened AudioRing
  import opened ModArith

  /** The write pointer, the rewinds asked for and made, the bytes accepted since the last
      one, whether the channel has moved on from its first frame, whether the hardware's audio
      output is stopped, and what the next interrupt is to do about that. */
  datatype State = State(
    next: nat, required: nat, completed: nat, sinceRewind: nat,
    started: bool, stopped: bool, startNext: bool, stopNext: bool)

  const INITIAL := State(0, 0, 0, 0, false, true, false, false)

  /** What a running interrupt finds: the active frame has used up its showings; the device
      moves on; the expected address stored with the active frame; the output is too far from
      it. */
  datatype Report = Report(spent: bool, moves: bool, expected: nat, outOfTolerance: bool)

  /** A transfer of some bytes, a running interrupt, the starting interrupt that moves on (from
      a frame that was shown or not), any other interrupt, a flush, or a preroll of the active
      frame, which returns the channel to its starting state. */
  datatype Event = Transfer(bytes: nat) | Running(r: Report) | FirstMove(frameShown: bool) | Other | Flush | Preroll

  /** What every interrupt does first. */
  function Begin(s: State): State {
    var t := if s.startNext then s.(stopped := false, startNext := false) else s;
    if t.stopNext then t.(stopped := true, stopNext := false) else t
  }

  /** A stopped output starts again at a frame placed at the rewound pointer, once every
      rewind asked for has been made. */
  function Restart(s: State, expected: nat): State {
    if s.stopped && expected == 0 && s.required == s.completed then s.(stopped := false) else s
  }

  function OnRunning(s: State, r: Report): State {
    if !r.spent then s
    else
      var t := Restart(s, r.expected);
      if r.moves then
        if t.stopped then (if r.expected == 0 && t.required >= t.completed then t.(startNext := true) else t)
        else if r.outOfTolerance then t.(stopNext := true, required := t.required + 1)
        else t
      else if !t.stopped then t.(stopNext := true, required := t.required + 1)
      else if r.expected == 0 && t.required == t.completed then t.(required := t.required + 1)
      else t
  }

  /** Where the next stretch goes: at the pointer, or at the start when a rewind is owed. */
  function PlacedAt(s: State): nat {
    if s.required > s.completed then 0 else s.next
  }

  function OnTransfer(a: AudioSystem, s: State, bytes: nat): State {
    var rewind := s.required > s.completed;
    s.(next := NextOffset(a, PlacedAt(s), bytes),
       completed := if rewind then s.completed + 1 else s.completed,
       sinceRewind := (if rewind then 0 else s.sinceRewind) + bytes)
  }

  function Apply(a: AudioSystem, s: State, e: Event): State {
    match e
    case Transfer(bytes) => OnTransfer(a, s, bytes)
    case Running(r) => if s.started then OnRunning(Begin(s), r) else Begin(s)
    case FirstMove(shown) =>
      var t := Begin(s);
      if s.started then t
      else if shown then t.(stopped := false, started := true)
      else t.(required := 2, started := true)
    case Other => Begin(s)
    case Flush => s.(next := 0, sinceRewind := 0, stopped := true)
    case Preroll => s.(next := 0, sinceRewind := 0, started := false, stopped := true)
  }

  predicate PointerInv(a: AudioSystem, s: State) {
    s.next == s.sinceRewind % WrapAddress(a)
  }

  class PlaybackAudio {
    const system: AudioSystem
    var started: bool               // the channel has moved on from its first frame
    var stopped: bool               // the audio output is held in reset
    var startAudioNextFrame: bool
    var stopAudioNextFrame: bool
    var nextAudioOutputAddress: nat
    var audioDropsRequired: nat
    var audioDropsCompleted: nat
    var audioExpectedAddress: seq<nat>   // stored with each transfer, in order
    ghost var sinceRewind: nat      // bytes accepted since the pointer was last rewound

    ghost function Model(): State
      reads this
    {
      State(nextAudioOutputAddress, audioDropsRequired, audioDropsCompleted, sinceRewind,
            started, stopped, startAudioNextFrame, stopAudioNextFrame)
    }

    /** AutoCircInit. */
    constructor (system: AudioSystem)
      ensures this.system == system && Model() == INITIAL && audioExpectedAddress == []
    {
      this.system := system;
      nextAudioOutputAddress, audioDropsRequired, audioDropsCompleted := 0, 0, 0;
      audioExpectedAddress, sinceRewind := [], 0;
      started, stopped, startAudioNextFrame, stopAudioNextFrame := false, true, false, false;
    }

    /** One rewind is owed: make it. */
    method Rewind()
      requires audioDropsRequired > audioDropsCompleted
      modifies this`nextAudioOutputAddress, this`audioDropsCompleted, this`sinceRewind
      ensures nextAudioOutputAddress == sinceRewind == 0 && audioDropsCompleted == old(audioDropsCompleted) + 1
    {
      nextAudioOutputAddress := 0;
      audioDropsCompleted := audioDropsCompleted + 1;
      sinceRewind := 0;
    }

    /** Place a stretch at the pointer, split where it wraps, and move the pointer past it. */
    method Place(bytes: nat) returns (offset: nat, pre: nat, post: nat)
      requires PointerInv(system, Model()) && bytes <= WrapAddress(system)
      modifies this`nextAudioOutputAddress, this`audioExpectedAddress, this`sinceRewind
      ensures offset == old(nextAudioOutputAddress)
      ensures nextAudioOutputAddress == NextOffset(system, offset, bytes)
      ensures sinceRewind == old(sinceRewind) + bytes
      ensures audioExpectedAddress == old(audioExpectedAddress) + [offset]
      ensures pre + post == bytes && offset + pre <= WrapAddress(system)
      ensures post > 0 ==> offset + pre == WrapAddress(system) && post <= offset
    {
      var wrap := WrapAddress(system);
      offset := nextAudioOutputAddress;
      audioExpectedAddress := audioExpectedAddress + [nextAudioOutputAddress];
      if nextAudioOutputAddress + bytes < wrap {
        nextAudioOutputAddress := nextAudioOutputAddress + bytes;
        pre := bytes;
        post := 0;
      } else {
        pre := wrap - nextAudioOutputAddress;
        post := bytes - pre;
        nextAudioOutputAddress := post;
      }
      sinceRewind := sinceRewind + bytes;
    }

    /** AutoCircDmaAudioSetup: the expected address is the bytes accepted since the last
        rewind, modulo the ring, and the pointer ends as far past it. */
    method DmaAudioSetup(bytes: nat) returns (offset: nat, pre: nat, post: nat)
      requires PointerInv(system, Model()) && bytes <= WrapAddress(system)
      modifies this
      ensures Model() == Apply(system, old(Model()), Transfer(bytes)) && PointerInv(system, Model())
      ensures audioExpectedAddress == old(audioExpectedAddress) + [offset]
      ensures offset == (sinceRewind - bytes) % WrapAddress(system)
      ensures var owed := old(audioDropsRequired > audioDropsCompleted);
        && sinceRewind == (if owed then 0 else old(sinceRewind)) + bytes
        && audioDropsCompleted == old(audioDropsCompleted) + if owed then 1 else 0
      ensures pre + post == bytes && offset + pre <= WrapAddress(system)
      ensures post > 0 ==> offset + pre == WrapAddress(system) && post <= offset
    {
      if audioDropsRequired > audioDropsCompleted {
        Rewind();
      }
      OneMoreStretch(system, sinceRewind, bytes);
      offset, pre, post := Place(bytes);
    }

    /** What an earlier interrupt left to be done. */
    method BeginInterrupt()
      modifies this`stopped, this`startAudioNextFrame, this`stopAudioNextFrame
      ensures Model() == Apply(system, old(Model()), Other)
    {
      if startAudioNextFrame {
        stopped := false;
        startAudioNextFrame := false;
      }
      if stopAudioNextFrame {
        stopped := true;
        stopAudioNextFrame := false;
      }
    }

    /** A running interrupt. */
    method Running(r: Report)
      requires started
      modifies this
      ensures Model() == Apply(system, old(Model()), Event.Running(r))
      ensures audioExpectedAddress == old(audioExpectedAddress)
    {
      BeginInterrupt();
      if r.spent {
        if stopped {
          if r.expected == 0 && audioDropsRequired == audioDropsCompleted {
            stopped := false;
          }
        }
        if r.moves {
          Advance(r);
        } else {
          Drop(r.expected);
        }
      }
    }

    method Advance(r: Report)
      modifies this`audioDropsRequired, this`startAudioNextFrame, this`stopAudioNextFrame
      ensures Model() ==
        if stopped then old(Model()).(startNext := startAudioNextFrame)
        else old(Model()).(required := audioDropsRequired, stopNext := stopAudioNextFrame)
      ensures stopped ==> (startAudioNextFrame <==>
        old(startAudioNextFrame) || (r.expected == 0 && audioDropsRequired >= audioDropsCompleted))
      ensures !stopped ==> (stopAudioNextFrame <==> old(stopAudioNextFrame) || r.outOfTolerance)
      ensures !stopped ==> audioDropsRequired == old(audioDropsRequired) + if r.outOfTolerance then 1 else 0
    {
      if stopped {
        if r.expected == 0 && audioDropsRequired >= audioDropsCompleted {
          startAudioNextFrame := true;
        }
      } else {
        if r.outOfTolerance {
          stopAudioNextFrame := true;
          audioDropsRequired := audioDropsRequired + 1;
        }
      }
    }

    method Drop(expected: nat)
      modifies this`audioDropsRequired, this`stopAudioNextFrame
      ensures stopAudioNextFrame == (old(stopAudioNextFrame) || !stopped)
      ensures audioDropsRequired == old(audioDropsRequired) +
        if !stopped || (expected == 0 && old(audioDropsRequired) == audioDropsCompleted) then 1 else 0
    {
      if !stopped {
        stopAudioNextFrame := true;
        audioDropsRequired := audioDropsRequired + 1;
      } else {
        if expected == 0 && audioDropsRequired == audioDropsCompleted {
          audioDropsRequired := audioDropsRequired + 1;
        }
      }
    }

    /** The starting interrupt that moves on; from an empty slot it asks for two rewinds. */
    method MoveFirst(frameShown: bool)
      requires !started
      modifies this
      ensures Model() == Apply(system, old(Model()), FirstMove(frameShown))
      ensures started && audioDropsRequired == if frameShown then old(audioDropsRequired) else 2
      ensures stopped <==> !frameShown && old(stopAudioNextFrame || (stopped && !startAudioNextFrame))
      ensures audioExpectedAddress == old(audioExpectedAddress)
    {
      BeginInterrupt();
      if frameShown {
        stopped := false;
      } else {
        audioDropsRequired := 2;
      }
      started := true;
    }

    /** Flush stops the output and rewinds the pointer without counting. */
    method FlushAudio()
      modifies this`nextAudioOutputAddress, this`sinceRewind, this`stopped
      ensures Model() == Apply(system, old(Model()), Flush)
      ensures stopped && nextAudioOutputAddress == 0
    {
      stopped := true;
      nextAudioOutputAddress := 0;
      sinceRewind := 0;
    }

    /** So does a preroll of the active frame, which also returns to the starting state. */
    method PrerollActive()
      modifies this`nextAudioOutputAddress, this`sinceRewind, this`started, this`stopped
      ensures Model() == Apply(system, old(Model()), Preroll)
      ensures stopped && !started && nextAudioOutputAddress == 0
    {
      if !stopped {
        stopped := true;
      }
      nextAudioOutputAddress := 0;
      sinceRewind := 0;
      started := false;
    }
  }

  // ----- whole runs -----

  function Run(a: AudioSystem, s: State, es: seq<Event>): State
    decreases es
  {
    if es == [] then s else Run(a, Apply(a, s, es[0]), es[1..])
  }

  predicate Fits(a: AudioSystem, es: seq<Event>) {
    forall e :: e in es && e.Transfer? ==> e.bytes <= WrapAddress(a)
  }

  predicate DropInv(s: State) {
    s.completed <= s.required && (!s.started ==> s.completed == 0 && s.required == 0)
  }

  lemma StepFollowsBytes(a: AudioSystem, s: State, e: Event)
    requires PointerInv(a, s) && (e.Transfer? ==> e.bytes <= WrapAddress(a))
    ensures PointerInv(a, Apply(a, s, e))
  {
    if e.Transfer? {
      TransferFollowsBytes(a, s, e.bytes);
    }
  }

  lemma TransferFollowsBytes(a: AudioSystem, s: State, bytes: nat)
    requires PointerInv(a, s) && bytes <= WrapAddress(a)
    ensures PointerInv(a, OnTransfer(a, s, bytes))
  {
    OneMoreStretch(a, if s.required > s.completed then 0 else s.sinceRewind, bytes);
  }

  /** Through any sequence, prerolls included, the pointer is the bytes accepted since the
      last rewind, modulo the ring. */
  lemma {:induction false} PointerFollowsBytes(a: AudioSystem, s: State, es: seq<Event>)
    requires PointerInv(a, s) && Fits(a, es)
    ensures PointerInv(a, Run(a, s, es))
    decreases es
  {
    if es != [] {
      StepFollowsBytes(a, s, es[0]);
      PointerFollowsBytes(a, Apply(a, s, es[0]), es[1..]);
    }
  }

  lemma StepKeepsBound(a: AudioSystem, s: State, e: Event)
    requires DropInv(s) && e != Preroll
    ensures DropInv(Apply(a, s, e))
  {
  }

  /** Without prerolls no more rewinds are completed than were required. */
  lemma {:induction false} CompletedNeverExceedsRequired(a: AudioSystem, s: State, es: seq<Event>)
    requires DropInv(s) && Preroll !in es
    ensures DropInv(Run(a, s, es))
    decreases es
  {
    if es != [] {
      StepKeepsBound(a, s, es[0]);
      CompletedNeverExceedsRequired(a, Apply(a, s, es[0]), es[1..]);
    }
  }

  /** A running interrupt that finds the active frame still in use only does what the one
      before left.  Otherwise a stopped output starts when its frame was placed at the rewound
      pointer and no rewind is owed; one that plays then stops at the next interrupt, and owes
      a rewind, exactly when the frame is dropped or is too far from its address; one that is
      still stopped is set to start at the next interrupt exactly when the device moves on and
      its frame was placed at the rewound pointer. */
  lemma RunningOutputIff(a: AudioSystem, s: State, r: Report)
    requires s.started
    ensures var stopped := s.stopNext || (s.stopped && !s.startNext);
      var stays := stopped && !(r.spent && r.expected == 0 && s.required == s.completed);
      var rewinds := r.spent && !stays && (!r.moves || r.outOfTolerance);
      Apply(a, s, Running(r)) == s.(
        stopped := stays,
        required := s.required + if rewinds then 1 else 0,
        stopNext := rewinds,
        startNext := r.spent && stays && r.moves && r.expected == 0 && s.required >= s.completed)
  {
  }

  /** A dropping interrupt asks for a rewind exactly when the output plays, or has just been
      restarted; the code's second case for a stopped output is never reached. */
  lemma DropAsksIff(a: AudioSystem, s: State, r: Report)
    requires s.started && r.spent && !r.moves
    ensures var t := Restart(Begin(s), r.expected);
      && (Apply(a, s, Running(r)).required == s.required + 1 <==> !t.stopped)
      && !(t.stopped && r.expected == 0 && t.required == t.completed)
  {
  }

  /** One step breaks the bound exactly when it is a first move without a frame shown, after
      a preroll, with more than two rewinds already completed. */
  lemma BoundBreaksIff(a: AudioSystem, s: State, e: Event)
    requires s.completed <= s.required
    ensures Apply(a, s, e).completed > Apply(a, s, e).required <==>
      e == FirstMove(false) && !s.started && s.completed > 2
  {
  }
}
