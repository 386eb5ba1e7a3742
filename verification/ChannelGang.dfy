/**
 The control calls and transfers of a gang, looping over its members as the driver does,
 and whole runs of a gang.
 */
module ChannelGangs {
  import opened Basics
  import opened Ring
  import opened Circulators
  import opened Gang

  class ChannelGang {
    const members: seq<Circulator>

    ghost function Repr(): set<object> {
      (set i | 0 <= i < |members| :: members[i] as object) +
      (set i | 0 <= i < |members| :: members[i].frameStamp as object)
    }

    ghost predicate Separate() {
      && members != []
      && (forall i, j :: 0 <= i < j < |members| ==>
          members[i] != members[j] && members[i].frameStamp != members[j].frameStamp)
    }

    ghost predicate Valid()
      reads Repr()
    {
      Separate() && forall i :: 0 <= i < |members| ==> members[i].Valid()
    }

    ghost function Models(): seq<Auto>
      reads Repr()
    {
      seq(|members|, i requires 0 <= i < |members| reads Repr() => members[i].Model())
    }

    constructor (members: seq<Circulator>)
      requires members != []
      requires forall i, j :: 0 <= i < j < |members| ==>
        members[i] != members[j] && members[i].frameStamp != members[j].frameStamp
      requires forall i :: 0 <= i < |members| ==> members[i].Valid()
      ensures Valid() && this.members == members
    {
      this.members := members;
    }

    method StartUp() returns (ok: bool)
      requires Valid()
      modifies Repr()
      ensures Valid()
      ensures ok <==> old(members[0].Model()).state == Init
      ensures Models() == if ok then StartAll(old(Models())) else old(Models())
    {
      ghost var ms := Models();
      if members[0].state != Init {
        return false;
      }
      for i := 0 to |members|
        invariant Valid()
        invariant forall j :: 0 <= j < |members| ==> members[j].Model() == if j < i then Start(ms[j]) else ms[j]
      {
        members[i].StartUp();
      }
      return true;
    }

    /** The interrupts of one vertical blank, member after member; what the sync partner asks
        is answered for each channel by itself. */
    method AutoCirculate(t: VBlank, drops: seq<bool>)
      requires Valid()
      modifies Repr()
      ensures Valid() && Models() == InterruptAll(old(Models()), t, drops)
    {
      ghost var ms := Models();
      for i := 0 to |members|
        invariant Valid()
        invariant forall j :: 0 <= j < |members| ==>
          members[j].Model() == if j < i then Interrupt(ms[j], ReportTo(t, drops, j)) else ms[j]
      {
        members[i].AutoCirculate(ReportTo(t, drops, i));
      }
    }

    method PauseAll(play: bool, clear: bool)
      requires Valid()
      modifies Repr()
      ensures Valid() && Models() == PauseEach(old(Models()), play, clear)
    {
      ghost var ms := Models();
      for i := 0 to |members|
        invariant Valid()
        invariant forall j :: 0 <= j < |members| ==>
          members[j].Model() == if j < i then Pause(ms[j], play, clear) else ms[j]
      {
        members[i].PauseMember(play, clear);
      }
    }

    method FlushAll(clear: bool)
      requires Valid()
      modifies Repr()
      ensures Valid() && Models() == FlushEach(old(Models()), clear)
      ensures var primary := old(members[0].state);
        var acts := primary == Init || primary == Running || primary == Paused;
        forall i :: 0 <= i < |members| ==>
          members[i].Model() == if acts then FlushMember(old(members[i].Model()), clear) else old(members[i].Model())
    {
      ghost var ms := Models();
      if members[0].state != Init && members[0].state != Running && members[0].state != Paused {
        return;
      }
      for i := 0 to |members|
        invariant Valid()
        invariant forall j :: 0 <= j < |members| ==>
          members[j].Model() == if j < i then FlushMember(ms[j], clear) else ms[j]
      {
        members[i].Flush(clear);
      }
    }

    method PrerollOne(i: int, count: int) returns (ok: bool)
      requires Valid() && 0 <= i < |members|
      modifies Repr()
      ensures Valid() && ok == PrerollMember(old(members[i].Model()), count).1
      ensures Models() == old(Models())[i := PrerollMember(old(members[i].Model()), count).0]
    {
      ok := members[i].Preroll(count);
    }

    method PrerollAll(count: int) returns (ok: bool)
      requires Valid()
      modifies Repr()
      ensures Valid() && (Models(), ok) == PrerollEach(old(Models()), count)
    {
      ghost var ms := Models();
      if members[0].state != Running && members[0].state != Starting && members[0].state != Paused {
        return true;
      }
      ghost var goal := PrerollFrom(ms, count, 0);
      for i := 0 to |members|
        invariant Valid() && |Models()| == |members|
        invariant PrerollFrom(Models(), count, i) == goal
      {
        assert Models()[i] == members[i].Model();
        ok := PrerollOne(i, count);
        if !ok {
          return;
        }
      }
      return true;
    }

    /** The slot the primary chooses, or NTV2_INVALID_FRAME. */
    method ChooseFrame() returns (frame: int)
      requires Valid()
      modifies Repr()
      ensures Valid() && Models() == old(Models())
      ensures frame ==
        if ChooseSlot(members[0].Model()).Some? then ChooseSlot(members[0].Model()).value else INVALID_FRAME
      ensures frame != INVALID_FRAME ==> members[0].startFrame <= frame <= members[0].endFrame
    {
      var primary := members[0];
      if primary.recording && primary.state != Running && primary.state != Starting {
        return INVALID_FRAME;
      }
      if !primary.recording && primary.state == Disabled {
        return INVALID_FRAME;
      }
      var found := primary.FindNextAvailFrame();
      if found {
        frame := primary.nextTransferFrame;
      } else if primary.recording {
        frame := primary.startFrame;
      } else {
        return INVALID_FRAME;
      }
    }

    method BeginMembers(frame: int, request: Request)
      requires Valid() && SlotFits(Models(), frame)
      modifies Repr()
      ensures Valid() && Models() == BeginShares(old(Models()), frame, request)
    {
      ghost var ms := Models();
      var stride := members[0].endFrame - members[0].startFrame + 1;
      for i := 0 to |members|
        invariant Valid()
        invariant stride == Size(ms[0])
        invariant forall j :: 0 <= j < |members| ==>
          members[j].Model() == if j < i then BeginTransfer(ms[j], frame + stride * j, request) else ms[j]
      {
        members[i].Begin(frame + stride * i, request);
      }
    }

    /** The first half of a transfer, at the primary's slot moved by the stride; the field
        flags are stored for the primary alone. */
    method BeginAll(frame: int, request: Request)
      requires Valid() && SlotFits(Models(), frame) && 0 <= frame < MAX_FRAMEBUFFERS
      modifies Repr()
      ensures Valid() && Models() == BeginEach(old(Models()), frame, request)
    {
      BeginMembers(frame, request);
      ghost var ms := Models();
      assert ms[0] == members[0].Model();
      members[0].TakeField(frame, request);
      assert Models() == ms[0 := TakeField(ms[0], frame, request)];
    }

    /** The second half. */
    method CompleteAll(frame: int)
      requires Valid()
      modifies Repr()
      ensures Valid() && Models() == CompleteEach(old(Models()), frame)
      ensures forall i :: 0 <= i < |members| ==>
        members[i].Model() == CompleteTransfer(old(members[i].Model()),
                                               frame + old(members[0].endFrame - members[0].startFrame + 1) * i)
    {
      ghost var ms := Models();
      var stride := members[0].endFrame - members[0].startFrame + 1;
      for i := 0 to |members|
        invariant Valid()
        invariant stride == Size(ms[0])
        invariant forall j :: 0 <= j < |members| ==>
          members[j].Model() == if j < i then CompleteTransfer(ms[j], frame + stride * j) else ms[j]
      {
        members[i].Complete(frame + stride * i);
      }
    }
  }

  // ----- what each call does to the members -----

  ghost predicate AllWellFormed(ms: seq<Auto>) {
    ms != [] && forall i :: 0 <= i < |ms| ==> WellFormed(ms[i])
  }

  function StartAll(ms: seq<Auto>): seq<Auto> {
    seq(|ms|, i requires 0 <= i < |ms| => Start(ms[i]))
  }

  /** What member `i` finds at an interrupt. */
  function ReportTo(t: VBlank, drops: seq<bool>, i: nat): VBlank {
    t.(syncDrop := i < |drops| && drops[i])
  }

  ghost function InterruptAll(ms: seq<Auto>, t: VBlank, drops: seq<bool>): seq<Auto>
    requires AllWellFormed(ms)
  {
    seq(|ms|, i requires 0 <= i < |ms| => Interrupt(ms[i], ReportTo(t, drops, i)))
  }

  function PauseEach(ms: seq<Auto>, play: bool, clear: bool): seq<Auto> {
    seq(|ms|, i requires 0 <= i < |ms| => Pause(ms[i], play, clear))
  }

  /** The primary's state decides for all. */
  ghost function FlushEach(ms: seq<Auto>, clear: bool): seq<Auto>
    requires AllWellFormed(ms)
  {
    if ms[0].state == Init || ms[0].state == Running || ms[0].state == Paused then
      seq(|ms|, i requires 0 <= i < |ms| => FlushMember(ms[i], clear))
    else ms
  }

  /** Members preroll in turn until one fails. */
  ghost function PrerollFrom(ms: seq<Auto>, count: int, i: nat): (r: (seq<Auto>, bool))
    requires AllWellFormed(ms) && i <= |ms|
    decreases |ms| - i
  {
    if i == |ms| then (ms, true)
    else
      var (a, ok) := PrerollMember(ms[i], count);
      if ok then PrerollFrom(ms[i := a], count, i + 1) else (ms[i := a], false)
  }

  ghost function PrerollEach(ms: seq<Auto>, count: int): (seq<Auto>, bool)
    requires AllWellFormed(ms)
  {
    if !HasActive(ms[0]) then (ms, true) else PrerollFrom(ms, count, 0)
  }

  /** Every member before the first that fails is prerolled, and no other is changed. */
  lemma {:induction false} PrerollStopsAtFailure(ms: seq<Auto>, count: int, i: nat, f: nat)
    requires AllWellFormed(ms) && i <= f <= |ms|
    requires forall j :: i <= j < f ==> PrerollMember(ms[j], count).1
    requires f < |ms| ==> !PrerollMember(ms[f], count).1
    ensures var (r, ok) := PrerollFrom(ms, count, i);
      && |r| == |ms| && (ok <==> f == |ms|)
      && forall j :: 0 <= j < |ms| ==> r[j] == if i <= j < f then PrerollMember(ms[j], count).0 else ms[j]
    decreases |ms| - i
  {
    if i < f {
      PrerollStopsAtFailure(ms[i := PrerollMember(ms[i], count).0], count, i + 1, f);
    }
  }

  ghost predicate SlotFits(ms: seq<Auto>, frame: int)
    requires ms != []
  {
    forall i :: 0 <= i < |ms| ==> 0 <= frame + Size(ms[0]) * i < |ms[i].frameStamp|
  }

  ghost function BeginShares(ms: seq<Auto>, frame: int, request: Request): seq<Auto>
    requires ms != [] && SlotFits(ms, frame)
  {
    seq(|ms|, i requires 0 <= i < |ms| => BeginTransfer(ms[i], frame + Size(ms[0]) * i, request))
  }

  ghost function BeginEach(ms: seq<Auto>, frame: int, request: Request): seq<Auto>
    requires AllWellFormed(ms) && SlotFits(ms, frame) && 0 <= frame < MAX_FRAMEBUFFERS
  {
    BeginShares(ms, frame, request)[0 := Load(ms[0], frame, request)]
  }

  /** The primary takes the whole frame, every other member all but its field flags, each as
      many slots further on as the primary has times its place in the gang. */
  lemma BeginEachIs(ms: seq<Auto>, frame: int, request: Request, i: nat)
    requires AllWellFormed(ms) && SlotFits(ms, frame) && 0 <= frame < MAX_FRAMEBUFFERS && i < |ms|
    ensures var slot := frame + (ms[0].endFrame - ms[0].startFrame + 1) * i;
      && 0 <= slot < MAX_FRAMEBUFFERS
      && BeginEach(ms, frame, request)[i] ==
        if i == 0 then Load(ms[0], slot, request) else BeginTransfer(ms[i], slot, request)
  {
    assert 0 <= frame + Size(ms[0]) * i < |ms[i].frameStamp|;
  }

  ghost function CompleteEach(ms: seq<Auto>, frame: int): seq<Auto>
    requires AllWellFormed(ms)
  {
    seq(|ms|, i requires 0 <= i < |ms| => CompleteTransfer(ms[i], frame + Size(ms[0]) * i))
  }
}
