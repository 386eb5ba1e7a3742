/**
 Whole runs of a gang: every member stays the image of the primary on its own frame
 buffers, and no two members share one.
 */
module GangRuns {
  import opened Basics
  import opened Ring
  import opened Gang
  import opened ChannelGangs

  datatype Event =
    | StartUp
    | VBI(t: VBlank, drops: seq<bool>)
    | Begin(request: Request)
    | Complete(frame: int)
    | PauseAll(play: bool, clearDropped: bool)
    | FlushAll(clearDropped: bool)
    | PrerollBy(count: int)

  /** AutoCircInit for `n` channels; each device's register holds something of its own. */
  function InitGang(recording: bool, s: int, e: int, registers: seq<int>): seq<Auto> {
    seq(|registers|, i requires 0 <= i < |registers| =>
      InitAuto(recording, s + i * (e - s + 1), e + i * (e - s + 1), registers[i]))
  }

  ghost predicate InGang(ms: seq<Auto>) {
    && ms != [] && (ms[0].state == Init || HasActive(ms[0]))
    && forall i :: 0 <= i < |ms| ==> Shadows(ms[0], ms[i], i * Size(ms[0]))
  }

  /** What one event does to member `i`, `k` frame buffers above the primary `p`. */
  function MemberStep(p: Auto, m: Auto, i: nat, k: int, e: Event): (r: Auto)
    requires WellFormed(p) && WellFormed(m)
    ensures WellFormed(r)
  {
    match e
    case StartUp => if p.state == Init then Start(m) else m
    case VBI(t, drops) => Interrupt(m, ReportTo(t, drops, i))
    case Begin(request) =>
      (match ChooseSlot(p)
       case None => m
       case Some(f) =>
         if !(0 <= f + k < MAX_FRAMEBUFFERS) then m
         else if i == 0 then Load(m, f + k, request)
         else BeginTransfer(m, f + k, request))
    case Complete(f) => CompleteTransfer(m, f + k)
    case PauseAll(play, clear) => Pause(m, play, clear)
    case FlushAll(clear) =>
      if p.state == Init || p.state == Running || p.state == Paused then FlushMember(m, clear) else m
    case PrerollBy(count) => if HasActive(p) then PrerollMember(m, count).0 else m
  }

  /** The interrupt keeps member `i` with the primary: for a playback gang the exact condition
      of PlaybackTickKeepsShadowIff. */
  predicate KeepsTogether(p: Auto, m: Auto, i: nat, e: Event)
    requires WellFormed(p) && WellFormed(m)
  {
    e.VBI? && Acts(e.t) ==> Together(p, m, ReportTo(e.t, e.drops, 0), ReportTo(e.t, e.drops, i))
  }

  lemma BeginStepShadows(p: Auto, m: Auto, i: nat, k: int, request: Request)
    requires Shadows(p, m, k) && (p.state == Init || HasActive(p))
    ensures Shadows(MemberStep(p, p, 0, 0, Begin(request)), MemberStep(p, m, i, k, Begin(request)), k)
  {
    var c := ChooseSlot(p);
    if c.Some? {
      ChosenInRing(p);
      ShadowHolds(p, m, k, c.value);
      BeginStep(p, p, 0, 0, c.value, request);
      BeginStep(p, m, i, k, c.value, request);
      BeginShadows(p, m, k, c.value, request);
      TakeFieldShadows(BeginTransfer(p, c.value, request), BeginTransfer(m, c.value + k, request), k, c.value, request);
    }
  }

  lemma ControlStepShadows(p: Auto, m: Auto, i: nat, k: int, e: Event)
    requires Shadows(p, m, k) && (p.state == Init || HasActive(p)) && !e.VBI? && !e.Begin?
    ensures Shadows(MemberStep(p, p, 0, 0, e), MemberStep(p, m, i, k, e), k)
  {
    match e
    case StartUp => StartShadows(p, m, k);
    case Complete(f) => CompleteShadows(p, m, k, f);
    case PauseAll(play, clear) => PauseShadows(p, m, k, play, clear);
    case FlushAll(clear) => FlushShadows(p, m, k, clear);
    case PrerollBy(count) =>
      if HasActive(p) {
        PrerollShadows(p, m, k, count);
      }
  }

  lemma StepShadows(p: Auto, m: Auto, i: nat, k: int, e: Event)
    requires Shadows(p, m, k) && (p.state == Init || HasActive(p)) && KeepsTogether(p, m, i, e)
    ensures Shadows(MemberStep(p, p, 0, 0, e), MemberStep(p, m, i, k, e), k)
  {
    match e
    case VBI(t, drops) =>
      if Acts(t) {
        TickShadows(p, m, k, ReportTo(t, drops, 0), ReportTo(t, drops, i));
      }
    case Begin(request) => BeginStepShadows(p, m, i, k, request);
    case _ => ControlStepShadows(p, m, i, k, e);
  }

  lemma GangIsWellFormed(ms: seq<Auto>)
    requires InGang(ms)
    ensures AllWellFormed(ms)
  {
    forall i | 0 <= i < |ms| ensures WellFormed(ms[i]) {
      assert Shadows(ms[0], ms[i], i * Size(ms[0]));
    }
  }

  ghost function Apply(ms: seq<Auto>, e: Event): (r: seq<Auto>)
    requires AllWellFormed(ms)
    ensures AllWellFormed(r) && |r| == |ms|
  {
    seq(|ms|, i requires 0 <= i < |ms| => MemberStep(ms[0], ms[i], i, i * Size(ms[0]), e))
  }

  ghost predicate AllKeepTogether(ms: seq<Auto>, e: Event)
    requires AllWellFormed(ms)
  {
    forall i :: 0 <= i < |ms| ==> KeepsTogether(ms[0], ms[i], i, e)
  }

  lemma StepKeepsGang(ms: seq<Auto>, e: Event)
    requires InGang(ms) && AllWellFormed(ms) && AllKeepTogether(ms, e)
    ensures InGang(Apply(ms, e)) && SameRing(ms[0], Apply(ms, e)[0])
  {
    var r := Apply(ms, e);
    assert r[0] == MemberStep(ms[0], ms[0], 0, 0, e);
    MemberStepKeepsRing(ms[0], e);
    forall i | 0 <= i < |r| ensures Shadows(r[0], r[i], i * Size(r[0])) {
      assert Shadows(ms[0], ms[i], i * Size(ms[0]));
      StepShadows(ms[0], ms[i], i, i * Size(ms[0]), e);
    }
  }

  lemma MemberStepKeepsRing(p: Auto, e: Event)
    requires WellFormed(p) && (p.state == Init || HasActive(p))
    ensures var r := MemberStep(p, p, 0, 0, e); SameRing(p, r) && (r.state == Init || HasActive(r))
  {
  }

  // ----- these are the steps the driver's loops take -----

  lemma PrerollKeepsWellFormed(ms: seq<Auto>, count: int, i: int)
    requires AllWellFormed(ms) && 0 <= i < |ms|
    ensures AllWellFormed(ms[i := PrerollMember(ms[i], count).0])
  {
  }

  /** When every member prerolls, the loop reaches them all. */
  lemma {:induction false} PrerollReachesAll(ms: seq<Auto>, count: int, i: nat)
    requires AllWellFormed(ms) && i <= |ms|
    requires forall j :: i <= j < |ms| ==> PrerollMember(ms[j], count).1
    ensures var r := PrerollFrom(ms, count, i).0;
      |r| == |ms| && forall j :: 0 <= j < |ms| ==> r[j] == if j < i then ms[j] else PrerollMember(ms[j], count).0
    decreases |ms| - i
  {
    if i < |ms| {
      PrerollKeepsWellFormed(ms, count, i);
      PrerollReachesAll(ms[i := PrerollMember(ms[i], count).0], count, i + 1);
    }
  }

  lemma FailedPrerollChangesNothing(a: Auto, count: int)
    requires WellFormed(a) && !PrerollMember(a, count).1
    ensures PrerollMember(a, count).0 == a
  {
  }

  lemma PrerollSucceedsAlike(ms: seq<Auto>, count: int, i: int)
    requires InGang(ms) && AllWellFormed(ms) && HasActive(ms[0]) && 0 <= i < |ms|
    ensures PrerollMember(ms[i], count).1 == PrerollMember(ms[0], count).1
  {
    PrerollShadows(ms[0], ms[i], i * Size(ms[0]), count);
  }

  /** A gang preroll succeeds for all members or for none: the early return of the loop
      never leaves the gang half prerolled. */
  lemma PrerollIsUniform(ms: seq<Auto>, count: int)
    requires InGang(ms) && AllWellFormed(ms)
    ensures Apply(ms, PrerollBy(count)) == PrerollEach(ms, count).0
  {
    var r := PrerollEach(ms, count).0;
    if HasActive(ms[0]) {
      forall i | 0 <= i < |ms| ensures PrerollMember(ms[i], count).1 == PrerollMember(ms[0], count).1 {
        PrerollSucceedsAlike(ms, count, i);
      }
      if PrerollMember(ms[0], count).1 {
        PrerollReachesAll(ms, count, 0);
      } else {
        FailedPrerollChangesNothing(ms[0], count);
        assert r == ms[0 := ms[0]];
      }
      assert |r| == |ms|;
      forall i | 0 <= i < |ms| ensures r[i] == PrerollMember(ms[i], count).0 {
        if !PrerollMember(ms[0], count).1 {
          FailedPrerollChangesNothing(ms[i], count);
        }
      }
    }
  }

  lemma OtherStepsAreUniform(ms: seq<Auto>, e: Event)
    requires InGang(ms) && AllWellFormed(ms)
    ensures e.StartUp? ==> Apply(ms, e) == if ms[0].state == Init then StartAll(ms) else ms
    ensures e.VBI? ==> Apply(ms, e) == InterruptAll(ms, e.t, e.drops)
    ensures e.Complete? ==> Apply(ms, e) == CompleteEach(ms, e.frame)
    ensures e.PauseAll? ==> Apply(ms, e) == PauseEach(ms, e.play, e.clearDropped)
    ensures e.FlushAll? ==> Apply(ms, e) == FlushEach(ms, e.clearDropped)
  {
    assert forall i :: i * Size(ms[0]) == Size(ms[0]) * i;
  }

  lemma ShadowHolds(p: Auto, m: Auto, k: int, f: int)
    requires Shadows(p, m, k) && InRing(p, f)
    ensures 0 <= f + k < |m.frameStamp|
  {
  }

  lemma ChosenInRing(a: Auto)
    requires WellFormed(a) && ChooseSlot(a).Some?
    ensures InRing(a, ChooseSlot(a).value)
  {
  }

  lemma ChosenSlotFits(ms: seq<Auto>)
    requires InGang(ms) && AllWellFormed(ms) && ChooseSlot(ms[0]).Some?
    ensures InRing(ms[0], ChooseSlot(ms[0]).value) && SlotFits(ms, ChooseSlot(ms[0]).value)
    ensures 0 <= ChooseSlot(ms[0]).value < MAX_FRAMEBUFFERS
  {
    ChosenInRing(ms[0]);
    var f := ChooseSlot(ms[0]).value;
    forall i | 0 <= i < |ms| ensures 0 <= f + Size(ms[0]) * i < |ms[i].frameStamp| {
      ShadowHolds(ms[0], ms[i], i * Size(ms[0]), f);
      assert Size(ms[0]) * i == i * Size(ms[0]);
    }
  }

  lemma BeginIsUniform(ms: seq<Auto>, request: Request)
    requires InGang(ms) && AllWellFormed(ms)
    ensures ChooseSlot(ms[0]).None? ==> Apply(ms, Begin(request)) == ms
    ensures ChooseSlot(ms[0]).Some? ==>
      SlotFits(ms, ChooseSlot(ms[0]).value) && 0 <= ChooseSlot(ms[0]).value < MAX_FRAMEBUFFERS &&
      Apply(ms, Begin(request)) == BeginEach(ms, ChooseSlot(ms[0]).value, request)
  {
    if ChooseSlot(ms[0]).Some? {
      ChosenSlotFits(ms);
      var f := ChooseSlot(ms[0]).value;
      forall i | 0 <= i < |ms| ensures Apply(ms, Begin(request))[i] == BeginEach(ms, f, request)[i] {
        var k := Size(ms[0]) * i;
        assert k == i * Size(ms[0]) && 0 <= f + Size(ms[0]) * i < |ms[i].frameStamp|;
        BeginOfMember(ms, request, f, i, k);
      }
    }
  }

  lemma BeginOfMember(ms: seq<Auto>, request: Request, f: int, i: nat, k: int)
    requires AllWellFormed(ms) && ChooseSlot(ms[0]) == Some(f) && SlotFits(ms, f) && 0 <= f < MAX_FRAMEBUFFERS
    requires i < |ms| && k == Size(ms[0]) * i && 0 <= f + k < MAX_FRAMEBUFFERS
    ensures MemberStep(ms[0], ms[i], i, k, Begin(request)) == BeginEach(ms, f, request)[i]
  {
    BeginStep(ms[0], ms[i], i, k, f, request);
    if i == 0 {
      assert k == 0;
    } else {
      assert BeginEach(ms, f, request)[i] == BeginShares(ms, f, request)[i];
    }
  }

  lemma BeginStep(p: Auto, m: Auto, i: nat, k: int, f: int, request: Request)
    requires WellFormed(p) && WellFormed(m) && ChooseSlot(p) == Some(f) && 0 <= f + k < MAX_FRAMEBUFFERS
    ensures MemberStep(p, m, i, k, Begin(request)) ==
      if i == 0 then Load(m, f + k, request) else BeginTransfer(m, f + k, request)
  {
  }

  // ----- whole runs -----

  ghost function Run(ms: seq<Auto>, es: seq<Event>): (r: seq<Auto>)
    requires AllWellFormed(ms)
    ensures AllWellFormed(r) && |r| == |ms|
    decreases es
  {
    if es == [] then ms else Run(Apply(ms, es[0]), es[1..])
  }

  /** Every interrupt of the run keeps the members together. */
  ghost predicate RunKeepsTogether(ms: seq<Auto>, es: seq<Event>)
    requires AllWellFormed(ms)
    decreases es
  {
    es == [] || (AllKeepTogether(ms, es[0]) && RunKeepsTogether(Apply(ms, es[0]), es[1..]))
  }

  lemma {:induction false} RunKeepsGang(ms: seq<Auto>, es: seq<Event>)
    requires AllWellFormed(ms) && InGang(ms) && RunKeepsTogether(ms, es)
    ensures InGang(Run(ms, es)) && SameRing(ms[0], Run(ms, es)[0])
    decreases es
  {
    if es != [] {
      StepKeepsGang(ms, es[0]);
      RunKeepsGang(Apply(ms, es[0]), es[1..]);
    }
  }

  /** No synced channels, and no fields circulated for playback. */
  predicate Plain(recording: bool, e: Event) {
    e.VBI? ==> !e.t.syncEnabled && (recording || !e.t.fieldMode)
  }

  /** Such interrupts always keep the members together. */
  lemma {:induction false} PlainRunKeepsTogether(ms: seq<Auto>, es: seq<Event>)
    requires AllWellFormed(ms) && InGang(ms) && forall e :: e in es ==> Plain(ms[0].recording, e)
    ensures RunKeepsTogether(ms, es)
    decreases es
  {
    if es != [] {
      assert es[0] in es;
      PlainStep(ms, es[0]);
      StepKeepsGang(ms, es[0]);
      assert forall e :: e in es[1..] ==> e in es;
      PlainRunKeepsTogether(Apply(ms, es[0]), es[1..]);
    }
  }

  lemma PlainStep(ms: seq<Auto>, e: Event)
    requires AllWellFormed(ms) && InGang(ms) && Plain(ms[0].recording, e)
    ensures AllKeepTogether(ms, e)
  {
    forall i | 0 <= i < |ms| ensures KeepsTogether(ms[0], ms[i], i, e) {
      assert Shadows(ms[0], ms[i], i * Size(ms[0]));
    }
  }

  lemma MembersApart(n: int, i: nat, j: nat)
    requires n >= 1 && i < j
    ensures i * n + n <= j * n
  {
    if i + 1 < j {
      MembersApart(n, i, j - 1);
    }
    assert j * n == (j - 1) * n + n;
  }

  lemma InitShadows(recording: bool, s: int, e: int, r0: int, r: int, k: int)
    requires 0 <= s <= e && 0 <= k && e + k < MAX_FRAMEBUFFERS
    ensures Shadows(InitAuto(recording, s, e, r0), InitAuto(recording, s + k, e + k, r), k)
  {
  }

  lemma InitMemberShadows(recording: bool, s: int, e: int, registers: seq<int>, i: nat)
    requires 0 <= s <= e && e + (|registers| - 1) * (e - s + 1) < MAX_FRAMEBUFFERS && i < |registers|
    ensures var ms := InitGang(recording, s, e, registers); Shadows(ms[0], ms[i], i * Size(ms[0]))
  {
    var n := e - s + 1;
    if i < |registers| - 1 {
      MembersApart(n, i, |registers| - 1);
    }
    if i > 0 {
      MembersApart(n, 0, i);
    }
    assert 0 * n == 0 <= i * n;
    InitShadows(recording, s, e, registers[0], registers[i], i * n);
  }

  lemma InitIsGang(recording: bool, s: int, e: int, registers: seq<int>)
    requires 0 <= s <= e && registers != [] && e + (|registers| - 1) * (e - s + 1) < MAX_FRAMEBUFFERS
    ensures InGang(InitGang(recording, s, e, registers)) && AllWellFormed(InitGang(recording, s, e, registers))
  {
    var ms := InitGang(recording, s, e, registers);
    forall i | 0 <= i < |ms| ensures Shadows(ms[0], ms[i], i * Size(ms[0])) {
      InitMemberShadows(recording, s, e, registers, i);
    }
    GangIsWellFormed(ms);
  }

  /** The members of a gang on shifted ranges, none of which share a frame buffer. */
  ghost predicate Shifted(ms: seq<Auto>, n: int) {
    && ms != []
    && (forall i :: 0 <= i < |ms| ==> Shadows(ms[0], ms[i], i * n))
    && (forall i, j :: 0 <= i < j < |ms| ==> ms[i].endFrame < ms[j].startFrame)
  }

  /** After any sequence of calls, transfers and interrupts that keep the members together,
      member `i` is the primary moved up by `i` ranges. */
  lemma MembersShadowPrimary(recording: bool, s: int, e: int, registers: seq<int>, es: seq<Event>)
    requires 0 <= s <= e && registers != [] && e + (|registers| - 1) * (e - s + 1) < MAX_FRAMEBUFFERS
    ensures AllWellFormed(InitGang(recording, s, e, registers))
    ensures RunKeepsTogether(InitGang(recording, s, e, registers), es) ==>
      Shifted(Run(InitGang(recording, s, e, registers), es), e - s + 1)
  {
    InitIsGang(recording, s, e, registers);
    var ms := InitGang(recording, s, e, registers);
    assert Size(ms[0]) == e - s + 1;
    GangStaysShifted(ms, es);
  }

  lemma GangStaysShifted(ms: seq<Auto>, es: seq<Event>)
    requires InGang(ms) && AllWellFormed(ms)
    ensures RunKeepsTogether(ms, es) ==> Shifted(Run(ms, es), Size(ms[0]))
  {
    if RunKeepsTogether(ms, es) {
      RunKeepsGang(ms, es);
      GangIsShifted(Run(ms, es));
    }
  }

  lemma GangIsShifted(ms: seq<Auto>)
    requires InGang(ms) && AllWellFormed(ms)
    ensures Shifted(ms, Size(ms[0]))
  {
    forall i, j | 0 <= i < j < |ms| ensures ms[i].endFrame < ms[j].startFrame {
      assert Shadows(ms[0], ms[i], i * Size(ms[0])) && Shadows(ms[0], ms[j], j * Size(ms[0]));
      MembersApart(Size(ms[0]), i, j);
    }
  }

  /** In particular after any sequence at all, as long as no channels are synced and a playback
      gang does not circulate fields. */
  lemma PlainGangStaysTogether(recording: bool, s: int, e: int, registers: seq<int>, es: seq<Event>)
    requires 0 <= s <= e && registers != [] && e + (|registers| - 1) * (e - s + 1) < MAX_FRAMEBUFFERS
    requires forall e :: e in es ==> Plain(recording, e)
    ensures AllWellFormed(InitGang(recording, s, e, registers))
    ensures Shifted(Run(InitGang(recording, s, e, registers), es), e - s + 1)
  {
    InitIsGang(recording, s, e, registers);
    PlainRunKeepsTogether(InitGang(recording, s, e, registers), es);
    MembersShadowPrimary(recording, s, e, registers, es);
  }

  /** An interrupt keeps a playback gang together exactly when, for every member that reaches
      a filled slot, sync report and field test agree with the primary's. */
  lemma InterruptKeepsGangIff(ms: seq<Auto>, e: Event)
    requires AllWellFormed(ms) && InGang(ms) && e.VBI? && !ms[0].recording
    ensures InGang(Apply(ms, e)) <==> AllKeepTogether(ms, e)
  {
    if AllKeepTogether(ms, e) {
      StepKeepsGang(ms, e);
    } else {
      var i :| 0 <= i < |ms| && !KeepsTogether(ms[0], ms[i], i, e);
      MemberParts(ms, e, i);
    }
  }

  lemma MemberParts(ms: seq<Auto>, e: Event, i: nat)
    requires AllWellFormed(ms) && InGang(ms) && e.VBI? && !ms[0].recording
    requires i < |ms| && !KeepsTogether(ms[0], ms[i], i, e)
    ensures !InGang(Apply(ms, e))
  {
    var r, t, u := Apply(ms, e), ReportTo(e.t, e.drops, 0), ReportTo(e.t, e.drops, i);
    assert Shadows(ms[0], ms[i], i * Size(ms[0]));
    PlaybackTickKeepsShadowIff(ms[0], ms[i], i * Size(ms[0]), t, u);
    assert r[0] == Tick(ms[0], t) && r[i] == Tick(ms[i], u);
    assert SameRing(ms[0], r[0]);
    assert !Shadows(r[0], r[i], i * Size(r[0]));
  }

  const FIELD0 := FieldFlags(true, false)
  const FIELD_BLANK := VBlank(true, true, true, false, false, false)

  /** A gang of two with rings of two slots: the second frame is a field 0, the interrupt that
      would show it comes on field 0, and only the primary waits. */
  lemma FieldGangParts(registers: seq<int>)
    requires |registers| == 2
    ensures var ms := InitGang(false, 0, 1, registers);
      var es := [StartUp, Begin(Request(1, 0, Some(FIELD0))), Complete(1), VBI(FIELD_BLANK, [])];
      AllWellFormed(ms) && Run(ms, es)[0].register == 0 && Run(ms, es)[1].register == 3
  {
    InitIsGang(false, 0, 1, registers);
    var ms := InitGang(false, 0, 1, registers);
    var begin, complete, blank := Begin(Request(1, 0, Some(FIELD0))), Complete(1), VBI(FIELD_BLANK, []);
    var ms1 := Apply(ms, StartUp);
    assert Scan(ms1[0], 1, 1) == Some(1);
    assert ChooseSlot(ms1[0]) == Some(1);
    var ms2 := Apply(ms1, begin);
    assert ms2[0].frameStamp[1] == FrameStamp(0, 1, FIELD0, 0) && ms2[1].frameStamp[3] == FrameStamp(0, 1, FULL, 0);
    var ms3 := Apply(ms2, complete);
    var ms4 := Apply(ms3, blank);
    assert ms4[0].register == 0 && ms4[1].register == 3;
    RunOfOne(ms3, blank);
    RunNext(ms2, complete, [blank]);
    RunNext(ms1, begin, [complete, blank]);
    RunNext(ms, StartUp, [begin, complete, blank]);
    assert [StartUp] + ([begin] + ([complete] + [blank])) == [StartUp, begin, complete, blank];
  }

  lemma RunOfOne(ms: seq<Auto>, e: Event)
    requires AllWellFormed(ms)
    ensures Run(ms, [e]) == Apply(ms, e)
  {
    assert Run(ms, [e]) == Run(Apply(ms, e), [e][1..]);
  }

  lemma RunNext(ms: seq<Auto>, e: Event, rest: seq<Event>)
    requires AllWellFormed(ms)
    ensures Run(ms, [e] + rest) == Run(Apply(ms, e), rest)
  {
    assert ([e] + rest)[1..] == rest;
  }
}
