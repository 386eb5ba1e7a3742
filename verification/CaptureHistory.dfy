/**
 No captured picture is lost or handed over out of turn: the pictures the device finished are
 those handed over followed by those that wait, and a picture is handed over twice exactly
 when its slot was taken while active and the device then moved on.
 */
module CaptureHistory {
  import opened Basics
  import opened Ring
  import opened CaptureRing

  /** How many finished pictures wait: the slots before the active one. */
  function WaitingCount(w: World): nat
    requires Shape(w)
  {
    var d := DistOf(w.a, w.oldest, w.a.activeFrame);
    if w.a.state == Running && 0 <= d < Size(w.a) then d else 0
  }

  /** The pictures of `n` slots from `first` on. */
  function Pictures(s: int, e: int, first: int, n: nat, picture: seq<nat>): (r: seq<nat>)
    requires 0 <= s <= first <= e < |picture| && n <= e - s + 1
    ensures |r| == n
  {
    seq(n, i requires 0 <= i < n => picture[Ahead(s, e, first, i)])
  }

  lemma PicturesNext(s: int, e: int, first: int, n: nat, picture: seq<nat>)
    requires 0 <= s <= first <= e < |picture| && 0 < n <= e - s + 1
    ensures Pictures(s, e, first, n, picture) == [picture[first]] + Pictures(s, e, Next(s, e, first), n - 1, picture)
  {
  }

  /** A new picture outside those slots changes nothing, and one more slot appends its own. */
  lemma PicturesElsewhere(s: int, e: int, first: int, n: nat, picture: seq<nat>, f: int, now: nat)
    requires 0 <= s <= first <= e < |picture| && n <= e - s + 1 && s <= f <= e && n <= Dist(s, e, first, f)
    ensures Pictures(s, e, first, n, picture[f := now]) == Pictures(s, e, first, n, picture)
  {
    forall i | 0 <= i < n ensures Ahead(s, e, first, i) != f {
      assert Dist(s, e, first, Ahead(s, e, first, i)) == i;
    }
  }

  lemma PicturesAppend(s: int, e: int, first: int, n: nat, picture: seq<nat>)
    requires 0 <= s <= first <= e < |picture| && n < e - s + 1
    ensures Pictures(s, e, first, n + 1, picture) ==
      Pictures(s, e, first, n, picture) + [picture[Ahead(s, e, first, n)]]
  {
  }

  function Waiting(w: World): (r: seq<nat>)
    requires Shape(w) && InRing(w.a, w.oldest)
    ensures |r| == WaitingCount(w)
  {
    Pictures(w.a.startFrame, w.a.endFrame, w.oldest, WaitingCount(w), w.picture)
  }

  ghost predicate KeptInv(w: World)
    requires Shape(w) && InRing(w.a, w.oldest)
  {
    && w.past.closed == w.past.handed + Waiting(w)
    && (w.past.early == 0 ==> w.delivered == w.past.handed)
    && (w.a.state != Running ==> w.past.handed == [])
  }

  lemma RingDistances(a: Auto, oldest: int)
    requires WellFormed(a) && InRing(a, oldest) && HasActive(a)
    ensures 0 <= DistOf(a, oldest, a.activeFrame) < Size(a) && DistOf(a, oldest, oldest) == 0
    ensures AheadOf(a, oldest, DistOf(a, oldest, a.activeFrame)) == a.activeFrame
    ensures NextOf(a, a.activeFrame) != oldest ==>
      DistOf(a, oldest, NextOf(a, a.activeFrame)) == DistOf(a, oldest, a.activeFrame) + 1
  {
  }

  /** Where an interrupt leaves the queue and the device. */
  lemma TickMovesDevice(w: World, t: VBlank)
    requires Inv(w) && Acts(t) && w.a.state == Running
    ensures var r := Apply(w, VBI(t));
      && r.oldest == w.oldest && r.a.state == Running && SameRing(w.a, r.a)
      && r.picture == w.picture[r.a.activeFrame := w.clock]
      && (r.a.activeFrame != w.a.activeFrame ==> r.a.activeFrame == NextOf(w.a, w.a.activeFrame) != w.oldest)
  {
    TickKeepsRing(w.a, w.oldest, w.level, t);
    assert DistOf(w.a, w.oldest, w.oldest) == 0;
  }

  lemma TickKeepsWaiting(w: World, t: VBlank)
    requires Inv(w) && Acts(t) && w.a.state == Running
    ensures var r := Apply(w, VBI(t));
      InRing(r.a, r.oldest) &&
      Waiting(r) == Waiting(w) + if r.a.activeFrame != w.a.activeFrame then [w.picture[w.a.activeFrame]] else []
  {
    TickMovesDevice(w, t);
    RingDistances(w.a, w.oldest);
    var s, e, r := w.a.startFrame, w.a.endFrame, Apply(w, VBI(t));
    var d, d' := DistOf(w.a, w.oldest, w.a.activeFrame), DistOf(w.a, w.oldest, r.a.activeFrame);
    PicturesElsewhere(s, e, w.oldest, d', w.picture, r.a.activeFrame, w.clock);
    if r.a.activeFrame != w.a.activeFrame {
      PicturesAppend(s, e, w.oldest, d, w.picture);
    }
  }

  lemma TickKeepsPictures(w: World, t: VBlank)
    requires Inv(w) && Acts(t) && KeptInv(w)
    ensures InRing(Apply(w, VBI(t)).a, Apply(w, VBI(t)).oldest) && KeptInv(Apply(w, VBI(t)))
  {
    StepKeepsQueue(w, VBI(t));
    if w.a.state == Running {
      TickKeepsWaiting(w, t);
    } else if Apply(w, VBI(t)).a.state == Running {
      assert Waiting(Apply(w, VBI(t))) == [];
    }
  }

  lemma CompleteKeepsPictures(w: World)
    requires Inv(w) && KeptInv(w) && Enabled(w, Complete)
    ensures InRing(Apply(w, Complete).a, Apply(w, Complete).oldest) && KeptInv(Apply(w, Complete))
  {
    StepKeepsQueue(w, Complete);
    var r := Apply(w, Complete);
    assert SameRing(w.a, r.a) && r.a.activeFrame == w.a.activeFrame && r.picture == w.picture;
    RingDistances(w.a, w.oldest);
    if w.oldest == w.a.activeFrame {
      assert r.oldest == w.oldest;
    } else {
      NextIsYounger(w);
      DistFromNext(w.a.startFrame, w.a.endFrame, w.oldest);
      assert r.oldest == NextOf(w.a, w.oldest);
      PicturesNext(w.a.startFrame, w.a.endFrame, w.oldest, WaitingCount(w), w.picture);
      Regroup(w.past.handed, [w.picture[w.oldest]], Waiting(r));
    }
  }

  lemma FlushKeepsPictures(w: World, clear: bool)
    requires Inv(w) && KeptInv(w) && Enabled(w, FlushAll(clear))
    ensures InRing(Apply(w, FlushAll(clear)).a, Apply(w, FlushAll(clear)).oldest) && KeptInv(Apply(w, FlushAll(clear)))
  {
    StepKeepsQueue(w, FlushAll(clear));
    FlushKeepsDevice(w.a, clear);
    var r := Apply(w, FlushAll(clear));
    if FlushedLevel(w.a, w.level) == w.level {
      assert Waiting(r) == Waiting(w);
    } else {
      assert DistOf(w.a, w.a.activeFrame, w.a.activeFrame) == 0;
      assert Waiting(r) == [];
    }
  }

  lemma StepKeepsPictures(w: World, e: Event)
    requires Inv(w) && KeptInv(w) && Enabled(w, e)
    ensures InRing(Apply(w, e).a, Apply(w, e).oldest) && KeptInv(Apply(w, e))
  {
    match e
    case StartUp =>
    case VBI(t) =>
      if Acts(t) {
        TickKeepsPictures(w, t);
      } else {
        IdleInterrupt(w, t);
      }
    case Begin => ChoosesOldest(w.a, w.oldest, w.level);
      assert Waiting(Apply(w, Begin)) == Waiting(w);
    case Complete => CompleteKeepsPictures(w);
    case Fail => assert Waiting(Apply(w, Fail)) == Waiting(w);
    case FlushAll(clear) => FlushKeepsPictures(w, clear);
  }

  lemma {:induction false} RunKeepsPictures(w: World, es: seq<Event>)
    requires Inv(w) && KeptInv(w) && Legal(w, es)
    ensures Inv(Run(w, es)) && KeptInv(Run(w, es))
    decreases es
  {
    if es != [] {
      StepKeepsPictures(w, es[0]);
      StepKeepsInv(w, es[0]);
      RunKeepsPictures(Apply(w, es[0]), es[1..]);
    }
  }

  /** In every run the pictures the device finished, less those flushed, are the finished
      pictures handed over followed by the ones waiting, oldest first; and when no slot was
      handed over while active, those are all that was delivered. */
  lemma NoPictureIsLost(s: int, e: int, register: int, es: seq<Event>)
    requires 0 <= s <= e < MAX_FRAMEBUFFERS && Legal(InitWorld(s, e, register), es)
    ensures var w := Run(InitWorld(s, e, register), es);
      && InRing(w.a, w.oldest)
      && w.past.closed == w.past.handed + Waiting(w)
      && (w.past.early == 0 ==> w.delivered + Waiting(w) == w.past.closed)
  {
    RunKeepsPictures(InitWorld(s, e, register), es);
  }

  // ----- every picture begun -----

  /** In a ring of two or more, the device has left a slot once for the start and once for
      every frame processed, but for a move still to come; and it has stayed once for every
      drop and every bail, but for one still to come. */
  predicate PictureCounts(w: World)
    requires Shape(w)
  {
    var ahead := w.a.register != w.a.activeFrame;
    && (w.a.state != Running ==> w.past.left == w.past.overwritten == w.past.bailed == w.counted == 0)
    && (w.a.state == Running && Size(w.a) > 1 ==>
          && w.past.left + (if ahead then 1 else 0) == w.a.framesProcessed + 1
          && w.past.overwritten + (if ahead then 0 else 1) == w.a.droppedFrames + w.cleared + w.past.bailed)
    && (w.a.state == Running && Size(w.a) == 1 ==> w.past.left == 0)
    && w.past.left + w.past.overwritten == w.counted + w.past.bailed
  }

  /** A running interrupt bails, moves on, or drops. */
  lemma RunningOutcome(a: Auto, t: VBlank)
    requires WellFormed(a) && a.recording && a.state == Running && InRing(a, a.register)
    ensures var r := Tick(a, t);
      && r.state == Running && r.activeFrame == a.register
      && if t.tooFast then
           r.register == r.activeFrame && r.framesProcessed == a.framesProcessed && r.droppedFrames == a.droppedFrames
         else if r.framesProcessed == a.framesProcessed + 1 then
           r.register == NextOf(r, r.activeFrame) && r.droppedFrames == a.droppedFrames
         else
           r.register == r.activeFrame && r.framesProcessed == a.framesProcessed &&
           r.droppedFrames == a.droppedFrames + 1
  {
  }

  lemma RunningTickKeepsCounts(w: World, t: VBlank)
    requires QueueInv(w) && Acts(t) && PictureCounts(w) && w.a.state == Running
    ensures PictureCounts(Apply(w, VBI(t)))
  {
    RunningOutcome(w.a, t);
    var r := Apply(w, VBI(t));
    assert SameRing(w.a, r.a) && r.cleared == w.cleared;
  }

  lemma TickKeepsCounts(w: World, t: VBlank)
    requires Inv(w) && Acts(t) && PictureCounts(w)
    ensures PictureCounts(Apply(w, VBI(t)))
  {
    if w.a.state == Running {
      RunningTickKeepsCounts(w, t);
    } else {
      StartingTickKeepsCounts(w, t);
    }
  }

  lemma StartingTickKeepsCounts(w: World, t: VBlank)
    requires QueueInv(w) && CountInv(w) && Acts(t) && PictureCounts(w) && w.a.state != Running
    ensures PictureCounts(Apply(w, VBI(t)))
  {
  }

  lemma StepKeepsCounts(w: World, e: Event)
    requires Inv(w) && Enabled(w, e) && PictureCounts(w)
    ensures PictureCounts(Apply(w, e))
  {
    match e
    case VBI(t) =>
      if Acts(t) {
        TickKeepsCounts(w, t);
      } else {
        IdleInterrupt(w, t);
      }
    case FlushAll(clear) => FlushKeepsDevice(w.a, clear);
    case _ =>
  }

  lemma {:induction false} RunKeepsCounts(w: World, es: seq<Event>)
    requires Inv(w) && PictureCounts(w) && Legal(w, es)
    ensures PictureCounts(Run(w, es))
    decreases es
  {
    if es != [] {
      StepKeepsCounts(w, es[0]);
      StepKeepsInv(w, es[0]);
      RunKeepsCounts(Apply(w, es[0]), es[1..]);
    }
  }

  /** In every run the pictures begun while running, one at every interrupt, are those left
      by the device and those overwritten; and the overwritten ones are the drops and bails,
      the last of which may not have shown yet. */
  lemma EveryPictureIsAccounted(s: int, e: int, register: int, es: seq<Event>)
    requires 0 <= s < e < MAX_FRAMEBUFFERS && Legal(InitWorld(s, e, register), es)
    ensures var w := Run(InitWorld(s, e, register), es);
      && w.past.left + w.past.overwritten == w.counted + w.past.bailed
      && (w.a.state == Running ==>
            w.past.overwritten + (if w.a.register == w.a.activeFrame then 1 else 0) ==
              w.a.droppedFrames + w.cleared + w.past.bailed)
  {
    RunKeepsCounts(InitWorld(s, e, register), es);
  }

  // ----- delivered twice -----

  /** A slot handed over while active is filled again with the same picture exactly when the
      register is already ahead of it at the next interrupt. */
  lemma OpenSlotReturnsIff(w: World, t: VBlank)
    requires Inv(w) && Acts(t) && w.past.open
    ensures var f, r := w.a.activeFrame, Apply(w, VBI(t));
      && Valid(w.a, f) == 0 && r.oldest == f && Valid(r.a, f) > 0
      && (r.picture[f] == w.delivered[|w.delivered| - 1] <==> w.a.register != f)
  {
    StepKeepsQueue(w, VBI(t));
    assert DistOf(w.a, w.oldest, w.a.activeFrame) == 0;
    RunningTickCounts(w.a, t);
  }

  /** From such a slot to a second delivery: what is handed over is the picture last delivered
      exactly when its slot was filled again. */
  lemma DeliversAgainIff(w: World)
    requires Inv(w) && Enabled(w, Complete) && w.delivered != []
    ensures var r := Apply(w, Complete);
      r.delivered[|r.delivered| - 1] == w.delivered[|w.delivered| - 1] <==> w.past.again
  {
  }
}
