/**
 What a playback channel keeps account of: the buffer level is the sum of all counts, the
 counts supplied are the counts spent plus those left, and each slot stays on air for the
 showings loaded into it plus the interrupts charged against it.
 */
module PlaybackAccounts {
  import opened Basics
  import opened Ring
  import opened PlaybackRing
  import opened PlaybackFifo

  /** The counts of slots `lo` up to, not including, `hi`. */
  function Sum(fs: seq<FrameStamp>, lo: int, hi: int): int
    requires 0 <= lo <= hi <= |fs|
    decreases hi
  {
    if lo == hi then 0 else Sum(fs, lo, hi - 1) + fs[hi - 1].validCount
  }

  function Total(a: Auto): int
    requires WellFormed(a)
  {
    Sum(a.frameStamp, a.startFrame, a.endFrame + 1)
  }

  lemma {:induction false} SumSame(fs: seq<FrameStamp>, gs: seq<FrameStamp>, lo: int, hi: int)
    requires 0 <= lo <= hi <= |fs| == |gs|
    requires forall f :: lo <= f < hi ==> fs[f].validCount == gs[f].validCount
    ensures Sum(fs, lo, hi) == Sum(gs, lo, hi)
    decreases hi
  {
    if lo < hi {
      SumSame(fs, gs, lo, hi - 1);
    }
  }

  /** Changing one count changes the sum by as much. */
  lemma {:induction false} SumChanges(fs: seq<FrameStamp>, gs: seq<FrameStamp>, lo: int, hi: int, f: int)
    requires 0 <= lo <= f < hi <= |fs| == |gs|
    requires forall g :: lo <= g < hi && g != f ==> fs[g].validCount == gs[g].validCount
    ensures Sum(gs, lo, hi) == Sum(fs, lo, hi) + gs[f].validCount - fs[f].validCount
    decreases hi
  {
    if f == hi - 1 {
      SumSame(fs, gs, lo, hi - 1);
    } else {
      SumChanges(fs, gs, lo, hi - 1, f);
    }
  }

  lemma {:induction false} SumOfNone(fs: seq<FrameStamp>, lo: int, hi: int)
    requires 0 <= lo <= hi <= |fs|
    requires forall f :: lo <= f < hi ==> fs[f].validCount == 0
    ensures Sum(fs, lo, hi) == 0
    decreases hi
  {
    if lo < hi {
      SumOfNone(fs, lo, hi - 1);
    }
  }

  // ----- the buffer level -----

  /** The walk of `k` slots from `f` on sees only those slots. */
  lemma {:induction false} LevelAheadSees(a: Auto, b: Auto, f: int, k: nat)
    requires WellFormed(a) && WellFormed(b) && SameRing(a, b) && InRing(a, f) && k <= Size(a)
    requires forall g {:trigger Dist(a.startFrame, a.endFrame, f, g)} :: InRing(a, g) ==>
      if Dist(a.startFrame, a.endFrame, f, g) < k then Valid(a, g) == Valid(b, g) else true
    ensures LevelAhead(a, f, k) == LevelAhead(b, f, k)
    decreases k
  {
    if k > 0 {
      assert DistOf(a, f, f) == 0;
      DistFromNext(a.startFrame, a.endFrame, f);
      LevelAheadSees(a, b, NextOf(a, f), k - 1);
    }
  }

  lemma {:induction false} LevelAheadIsTotal(a: Auto, first: int, level: nat, k: nat)
    requires WellFormed(a) && ArcFrom(a, first, level) && level <= k <= Size(a)
    ensures LevelAhead(a, first, k) == Total(a)
    decreases level
  {
    if level == 0 {
      EmptyArc(a, first);
      SumOfNone(a.frameStamp, a.startFrame, a.endFrame + 1);
    } else {
      assert DistOf(a, first, first) == 0;
      var b := SetValid(a, first, 0);
      DistFromNext(a.startFrame, a.endFrame, first);
      assert SameRing(a, b) && ArcFrom(b, NextOf(a, first), level - 1);
      LevelAheadIsTotal(b, NextOf(a, first), level - 1, k - 1);
      LevelAheadSees(a, b, NextOf(a, first), k - 1);
      SumChanges(a.frameStamp, b.frameStamp, a.startFrame, a.endFrame + 1, first);
    }
  }

  /** The level reported to the host, which stops at the first gap, misses no count. */
  lemma BufferLevelIsTotal(a: Auto, level: nat)
    requires RingInv(a, level)
    ensures BufferLevel(a) == Total(a)
  {
    var f := if a.state == Init then a.startFrame else a.activeFrame;
    assert DistOf(a, First(a), First(a)) == 0;
    if Valid(a, f) > 0 {
      LevelAheadIsTotal(a, First(a), level, Size(a));
    } else if a.state == Init {
      EmptyArc(a, First(a));
      SumOfNone(a.frameStamp, a.startFrame, a.endFrame + 1);
    } else {
      assert DistOf(a, First(a), a.activeFrame) == Size(a) - 1;
      LevelAheadIsTotal(a, First(a), level, Size(a) - 1);
    }
  }

  /** A successful preroll raises the level by as many showings as were asked for, a failed
      one leaves it. */
  lemma PrerollRaisesLevel(a: Auto, level: nat, count: nat)
    requires RingInv(a, level) && HasActive(a)
    ensures var (r, ok) := Preroll(a, count);
      (ok <==> HasRoom(a, level)) && BufferLevel(r) == BufferLevel(a) + if ok then count else 0
  {
    PrerollKeepsRing(a, level, count);
    PrerollExtendsQueue(a, level, count);
    var r := Preroll(a, count).0;
    BufferLevelIsTotal(a, level);
    BufferLevelIsTotal(r, PrerolledLevel(a, level, count));
    if HasRoom(a, level) {
      SumChanges(a.frameStamp, r.frameStamp, a.startFrame, a.endFrame + 1, LastQueued(a, level));
    }
  }

  /** A flush leaves the showings of the slot the register designates, and none before the
      start. */
  lemma FlushLeavesLevel(a: Auto, level: nat, clear: bool)
    requires RingInv(a, level) && a.state != Starting
    ensures BufferLevel(Flush(a, clear)) == if a.state == Init then 0 else Valid(a, a.register)
  {
    FlushKeepsRing(a, level, clear);
    FlushEmpties(a, clear);
    var r, stop := Flush(a, clear), ReadRegister(a);
    BufferLevelIsTotal(r, FlushedLevel(a, level));
    var none := SetValid(r, stop, 0);
    SumOfNone(none.frameStamp, a.startFrame, a.endFrame + 1);
    SumChanges(none.frameStamp, r.frameStamp, a.startFrame, a.endFrame + 1, stop);
  }

  // ----- conservation -----

  /** Counts handed in by completed transfers and prerolls, counts spent by interrupts, and
      counts thrown away by flushes or written over by a completion. */
  datatype Ledger = Ledger(supplied: int, spent: int, lost: int)

  function Post(l: Ledger, w: World, e: Event): Ledger
    requires Shape(w) && Enabled(w, e)
  {
    var r := Apply(w, e);
    match e
    case VBI(_) =>
      if HasActive(w.a) then l.(spent := l.spent + Valid(w.a, r.a.activeFrame) - Valid(r.a, r.a.activeFrame)) else l
    case Complete =>
      var f := w.inFlight.value;
      l.(supplied := l.supplied + w.a.frameStamp[f].repeatCount, lost := l.lost + Valid(w.a, f))
    case FlushAll(_) => l.(lost := l.lost + Total(w.a) - Total(r.a))
    case PrerollBy(count) =>
      if Preroll(w.a, count).1 && HasActive(w.a) then l.(supplied := l.supplied + count) else l
    case _ => l
  }

  predicate Balanced(l: Ledger, w: World)
    requires Shape(w)
  {
    Total(w.a) == l.supplied - l.spent - l.lost
  }

  lemma TickKeepsBalance(l: Ledger, w: World, t: VBlank)
    requires Inv(w) && Acts(t) && Balanced(l, w)
    ensures Balanced(Post(l, w, VBI(t)), Apply(w, VBI(t)))
    ensures l.spent <= Post(l, w, VBI(t)).spent <= l.spent + 1 && Post(l, w, VBI(t)).lost == l.lost
  {
    if HasActive(w.a) {
      TickSpends(w.a, t);
      var r := Tick(w.a, t);
      SumChanges(w.a.frameStamp, r.frameStamp, w.a.startFrame, w.a.endFrame + 1, r.activeFrame);
    }
  }

  lemma PrerollKeepsBalance(l: Ledger, w: World, count: nat)
    requires Inv(w) && Balanced(l, w)
    ensures Balanced(Post(l, w, PrerollBy(count)), Apply(w, PrerollBy(count)))
  {
    if HasActive(w.a) {
      PrerollExtendsQueue(w.a, w.level, count);
      if HasRoom(w.a, w.level) {
        SumChanges(w.a.frameStamp, Preroll(w.a, count).0.frameStamp, w.a.startFrame, w.a.endFrame + 1, LastQueued(w.a,
            w.level));
      }
    }
  }

  lemma StepKeepsBalance(l: Ledger, w: World, e: Event)
    requires Inv(w) && Enabled(w, e) && Balanced(l, w)
    ensures Balanced(Post(l, w, e), Apply(w, e))
    ensures var r := Post(l, w, e); l.spent <= r.spent <= l.spent + 1 && (!e.FlushAll? && !e.Complete? ==>
        r.lost == l.lost)
  {
    var r := Apply(w, e);
    var s, h := w.a.startFrame, w.a.endFrame + 1;
    match e
    case StartUp =>
    case VBI(t) =>
      if Acts(t) {
        TickKeepsBalance(l, w, t);
      } else {
        IdleInterrupt(w, t);
      }
    case Begin(request) => SumSame(w.a.frameStamp, r.a.frameStamp, s, h);
    case Complete => SumChanges(w.a.frameStamp, r.a.frameStamp, s, h, w.inFlight.value);
    case Fail =>
    case PauseAll(_, _) =>
    case FlushAll(_) =>
    case PrerollBy(count) => PrerollKeepsBalance(l, w, count);
  }

  /** A completion writes over counts exactly when its slot is the active one and holds some:
      the transfer was begun before the start, and a preroll came in between. */
  lemma CompletionLosesIff(l: Ledger, w: World)
    requires Inv(w) && Enabled(w, Complete)
    ensures Post(l, w, Complete).lost != l.lost <==>
      HasActive(w.a) && w.inFlight == Some(w.a.activeFrame) && Valid(w.a, w.a.activeFrame) > 0
    ensures Post(l, w, Complete).lost >= l.lost
  {
    var f := w.inFlight.value;
    assert DistOf(w.a, First(w.a), f) >= 0;
  }

  function Books(l: Ledger, w: World, es: seq<Event>): Ledger
    requires Shape(w) && Legal(w, es)
    decreases es
  {
    if es == [] then l else Books(Post(l, w, es[0]), Apply(w, es[0]), es[1..])
  }

  lemma {:induction false} BooksBalance(l: Ledger, w: World, es: seq<Event>)
    requires Inv(w) && Legal(w, es) && Balanced(l, w)
    ensures Balanced(Books(l, w, es), Run(w, es))
    decreases es
  {
    if es != [] {
      StepKeepsBalance(l, w, es[0]);
      StepKeepsInv(w, es[0]);
      BooksBalance(Post(l, w, es[0]), Apply(w, es[0]), es[1..]);
    }
  }

  /** In every reachable state the reported level is what was supplied less what was spent
      and what flushes and overwriting completions discarded. */
  lemma LevelIsSuppliedLessSpent(s: int, e: int, register: int, es: seq<Event>)
    requires 0 <= s <= e < MAX_FRAMEBUFFERS && Legal(InitWorld(s, e, register), es)
    ensures var l := Books(Ledger(0, 0, 0), InitWorld(s, e, register), es);
      BufferLevel(Run(InitWorld(s, e, register), es).a) == l.supplied - l.spent - l.lost
  {
    var w := InitWorld(s, e, register);
    SumOfNone(w.a.frameStamp, s, e + 1);
    BooksBalance(Ledger(0, 0, 0), w, es);
    RunKeepsInv(w, es);
    BufferLevelIsTotal(Run(w, es).a, Run(w, es).level);
  }

  /** A slot chosen before the start and completed after a preroll: the preroll's counts are
      written over.  Here three showings are supplied and one is left. */
  lemma CompletionLosesPreroll(register: int)
    ensures var es := [Begin(Request(1, 0, None)), StartUp, PrerollBy(2), Complete];
      var w := InitWorld(0, 3, register);
      Legal(w, es) && Books(Ledger(0, 0, 0), w, es) == Ledger(3, 0, 2) && Total(Run(w, es).a) == 1
  {
    var w := InitWorld(0, 3, register);
    var b := Begin(Request(1, 0, None));
    ChoosesSlotAfterQueue(w.a, 0);
    var w1 := Apply(w, b);
    StepKeepsInv(w, b);
    var w2 := Apply(w1, StartUp);
    StepKeepsInv(w1, StartUp);
    PrerollExtendsQueue(w2.a, w2.level, 2);
    var w3 := Apply(w2, PrerollBy(2));
    StepKeepsInv(w2, PrerollBy(2));
    var w4 := Apply(w3, Complete);
    SumOfNone(w.a.frameStamp, 0, 4);
    BooksBalance(Ledger(0, 0, 0), w, []);
    assert Legal(w3, [Complete]);
    assert Legal(w2, [PrerollBy(2), Complete]);
    assert Legal(w1, [StartUp, PrerollBy(2), Complete]);
    var es := [b, StartUp, PrerollBy(2), Complete];
    assert Legal(w, es);
    BooksBalance(Ledger(0, 0, 0), w, es);
    assert Books(Ledger(0, 0, 0), w, es) == Books(Ledger(0, 0, 0), w1, [StartUp, PrerollBy(2), Complete])
      == Books(Ledger(0, 0, 0), w2, [PrerollBy(2), Complete]) == Books(Ledger(2, 0, 0), w3, [Complete])
      == Books(Ledger(3, 0, 2), w4, []);
  }

  // ----- time on air -----

  /** Interrupts since the active slot became active, those of them that dropped or were
      spent in pause, and the showings loaded into every slot; `known` from the first slot
      that became active while the account was kept. */
  datatype AirTime = AirTime(onAir: int, charged: int, loaded: seq<int>, known: bool)

  function Charge(w: World, r: World): int {
    if w.a.state == Paused || r.a.droppedFrames > w.a.droppedFrames then 1 else 0
  }

  function Log(t: AirTime, w: World, e: Event): (r: AirTime)
    requires Shape(w) && Enabled(w, e) && |t.loaded| == MAX_FRAMEBUFFERS
    ensures |r.loaded| == MAX_FRAMEBUFFERS
  {
    var r := Apply(w, e);
    match e
    case VBI(v) =>
      if !Acts(v) then t
      else if r.a.activeFrame == w.a.activeFrame then t.(onAir := t.onAir + 1, charged := t.charged + Charge(w, r))
      else t.(onAir := 1, charged := Charge(w, r), known := true)
    case Complete =>
      var f := w.inFlight.value;
      t.(loaded := t.loaded[f := w.a.frameStamp[f].repeatCount])
    case PrerollBy(count) =>
      (match PrerollSlot(w.a)
       case Some(f) => if HasActive(w.a) then t.(loaded := t.loaded[f := t.loaded[f] + count]) else t
       case None => t)
    case _ => t
  }

  /** On the air: started and past the starting phase. */
  predicate Live(w: World) {
    w.a.state == Running || w.a.state == Paused
  }

  /** Every waiting slot holds what was loaded.  The active slot has used one showing per
      interrupt not charged; the interrupt that spent its last showing is also charged when
      the device then had to stay. */
  ghost predicate AirInv(t: AirTime, w: World)
    requires Shape(w)
  {
    && |t.loaded| == MAX_FRAMEBUFFERS
    && (forall g :: w.a.startFrame <= g <= w.a.endFrame && g != w.a.activeFrame && Valid(w.a, g) > 0 ==>
        t.loaded[g] == Valid(w.a, g))
    && (t.known && Live(w) ==>
          t.onAir + Valid(w.a, w.a.activeFrame)
            + (if w.a.register == w.a.activeFrame && Valid(w.a, w.a.activeFrame) == 0 then 1 else 0)
          == t.loaded[w.a.activeFrame] + t.charged)
  }

  lemma TickKeepsAirTime(t: AirTime, w: World, v: VBlank)
    requires Inv(w) && AirInv(t, w) && Live(w) && Acts(v)
    ensures AirInv(Log(t, w, VBI(v)), Apply(w, VBI(v))) && Live(Apply(w, VBI(v)))
  {
    TickSpends(w.a, v);
    TickMoves(w.a, v);
    var r := Tick(w.a, v);
    assert Valid(w.a, r.activeFrame) >= 0 by { assert DistOf(w.a, First(w.a), r.activeFrame) >= 0; }
    assert r.state == w.a.state;
  }

  lemma BeginKeepsAirTime(t: AirTime, w: World, request: Request)
    requires Inv(w) && Enabled(w, Begin(request)) && AirInv(t, w) && Live(w)
    ensures AirInv(Log(t, w, Begin(request)), Apply(w, Begin(request)))
  {
    ChoosesSlotAfterQueue(w.a, w.level);
  }

  lemma CompleteKeepsAirTime(t: AirTime, w: World)
    requires Inv(w) && Enabled(w, Complete) && AirInv(t, w) && Live(w)
    ensures AirInv(Log(t, w, Complete), Apply(w, Complete))
  {
    assert w.inFlight.value != w.a.activeFrame;
  }

  lemma FlushKeepsAirTime(t: AirTime, w: World, clear: bool)
    requires Inv(w) && Enabled(w, FlushAll(clear)) && AirInv(t, w) && Live(w)
    ensures AirInv(Log(t, w, FlushAll(clear)), Apply(w, FlushAll(clear)))
  {
    FlushEmpties(w.a, clear);
  }

  lemma PrerollKeepsAirTime(t: AirTime, w: World, count: nat)
    requires Inv(w) && AirInv(t, w) && Live(w) && Live(Apply(w, PrerollBy(count)))
    ensures AirInv(Log(t, w, PrerollBy(count)), Apply(w, PrerollBy(count)))
  {
    PrerollExtendsQueue(w.a, w.level, count);
    if HasRoom(w.a, w.level) {
      var f := LastQueued(w.a, w.level);
      assert f != w.a.activeFrame && Valid(w.a, f) > 0;
      assert Apply(w, PrerollBy(count)).a == SetValid(w.a, f, Valid(w.a, f) + count);
    } else {
      assert Apply(w, PrerollBy(count)).a == w.a;
    }
  }

  lemma StepKeepsAirTime(t: AirTime, w: World, e: Event)
    requires Inv(w) && Enabled(w, e) && AirInv(t, w) && Live(w) && Live(Apply(w, e))
    ensures AirInv(Log(t, w, e), Apply(w, e))
  {
    match e
    case VBI(v) =>
      if Acts(v) {
        TickKeepsAirTime(t, w, v);
      } else {
        IdleInterrupt(w, v);
      }
    case Begin(request) => BeginKeepsAirTime(t, w, request);
    case Complete => CompleteKeepsAirTime(t, w);
    case Fail =>
    case PauseAll(_, _) =>
    case FlushAll(clear) => FlushKeepsAirTime(t, w, clear);
    case PrerollBy(count) => PrerollKeepsAirTime(t, w, count);
  }

  predicate StaysLive(w: World, es: seq<Event>)
    requires Shape(w) && Legal(w, es)
    decreases es
  {
    Live(w) && (es == [] || StaysLive(Apply(w, es[0]), es[1..]))
  }

  function LogRun(t: AirTime, w: World, es: seq<Event>): (r: AirTime)
    requires Shape(w) && Legal(w, es) && |t.loaded| == MAX_FRAMEBUFFERS
    ensures |r.loaded| == MAX_FRAMEBUFFERS
    decreases es
  {
    if es == [] then t else LogRun(Log(t, w, es[0]), Apply(w, es[0]), es[1..])
  }

  lemma {:induction false} RunKeepsAirTime(t: AirTime, w: World, es: seq<Event>)
    requires Inv(w) && AirInv(t, w) && Legal(w, es) && StaysLive(w, es)
    ensures AirInv(LogRun(t, w, es), Run(w, es)) && Live(Run(w, es))
    decreases es
  {
    if es != [] {
      StepKeepsAirTime(t, w, es[0]);
      StepKeepsInv(w, es[0]);
      RunKeepsAirTime(Log(t, w, es[0]), Apply(w, es[0]), es[1..]);
    }
  }

  lemma LeavesOnceAired(t: AirTime, w: World, es: seq<Event>)
    requires Inv(w) && AirInv(t, w) && Legal(w, es) && StaysLive(w, es)
    ensures Live(Run(w, es))
    ensures LogRun(t, w, es).known && Run(w, es).a.register != Run(w, es).a.activeFrame ==>
      LogRun(t, w, es).onAir == LogRun(t, w, es).loaded[Run(w, es).a.activeFrame] + LogRun(t, w, es).charged
  {
    RunKeepsAirTime(t, w, es);
    RunKeepsInv(w, es);
    var r := Run(w, es);
    assert r.a.register != r.a.activeFrame ==> Valid(r.a, r.a.activeFrame) == 0;
  }

  /** The account as it opens: what every slot holds, and nothing known of the active one. */
  function OpenAccount(w: World): (t: AirTime)
    requires Shape(w)
    ensures |t.loaded| == MAX_FRAMEBUFFERS
  {
    AirTime(0, 0, seq(MAX_FRAMEBUFFERS, f requires 0 <= f < MAX_FRAMEBUFFERS => Valid(w.a, f)), false)
  }

  lemma AccountOpens(w: World)
    requires Shape(w)
    ensures AirInv(OpenAccount(w), w)
  {
  }

  /** Watch a channel from any moment it is running.  When the device leaves a slot that
      became active since, the slot has been on air for the showings loaded into it plus the
      drops and the paused interrupts it sat through, no more and no fewer. */
  lemma SlotAirsForItsCount(w: World, es: seq<Event>)
    requires Inv(w) && Legal(w, es) && StaysLive(w, es)
    ensures var t, r := LogRun(OpenAccount(w), w, es), Run(w, es);
      && Live(r)
      && (t.known && r.a.register != r.a.activeFrame ==> t.onAir == t.loaded[r.a.activeFrame] + t.charged)
  {
    AccountOpens(w);
    LeavesOnceAired(OpenAccount(w), w, es);
  }
}
