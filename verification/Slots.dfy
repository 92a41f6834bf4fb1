/**
  The command-slot engine: a stack of free tags, the five-state life of each
  slot and the count of slots inside dispatch that gates teardown.
 */
module Slots {
  import opened Common

  datatype SlotState = Free | Receiving | Ready | Executing | Responding

  function CountOf(state: seq<SlotState>, s: SlotState): nat {
    if state == [] then 0 else (if state[0] == s then 1 else 0) + CountOf(state[1..], s)
  }

  ghost predicate Distinct(s: seq<nat>) {
    forall i, j :: 0 <= i < j < |s| ==> s[i] != s[j]
  }

  datatype SlotsView = SlotsView(state: seq<SlotState>, free: seq<nat>, executing: nat) {
    predicate Is(tag: nat, s: SlotState) {
      tag < |state| && state[tag] == s
    }

    /** A tag is on the freelist exactly when its slot is free, and there once; the gate counts what executes. */
    ghost predicate Sound() {
      && Distinct(free)
      && (forall t :: t in free <==> Is(t, Free))
      && executing == CountOf(state, Executing)
    }

    /** Pop a free tag. */
    function Claim(): (SlotsView, Option<nat>) {
      if free == [] then (this, None)
      else
        var tag := free[|free| - 1];
        (SlotsView(if tag < |state| then state[tag := Receiving] else state, free[..|free| - 1], executing), Some(tag))
    }

    function Submit(tag: nat): SlotsView
      requires Is(tag, Receiving)
    {
      this.(state := state[tag := Ready])
    }

    function Start(tag: nat): SlotsView
      requires Is(tag, Ready)
    {
      this.(state := state[tag := Executing], executing := executing + 1)
    }

    function BeginRespond(tag: nat): SlotsView
      requires Is(tag, Executing)
    {
      this.(state := state[tag := Responding], executing := if executing > 0 then executing - 1 else 0)
    }

    function RespondReceiving(tag: nat): SlotsView
      requires Is(tag, Receiving)
    {
      this.(state := state[tag := Responding])
    }

    function Release(tag: nat): SlotsView
      requires Is(tag, Responding)
    {
      this.(state := state[tag := Free], free := free + [tag])
    }
  }

  lemma {:induction false} CountUpdate(state: seq<SlotState>, tag: nat, v: SlotState, s: SlotState)
    requires tag < |state|
    ensures CountOf(state[tag := v], s) + (if state[tag] == s then 1 else 0) ==
            CountOf(state, s) + (if v == s then 1 else 0)
  {
    if tag == 0 {
      assert state[tag := v][1..] == state[1..];
    } else {
      assert state[tag := v][1..] == state[1..][tag - 1 := v];
      CountUpdate(state[1..], tag - 1, v, s);
    }
  }

  lemma ClaimSound(s: SlotsView)
    requires s.Sound()
    ensures s.Claim().0.Sound()
    ensures s.Claim().1.Some? <==> s.free != []
    ensures s.Claim().1.Some? ==>
      var tag := s.Claim().1.value;
      s.Is(tag, Free) && s.Claim().0.state == s.state[tag := Receiving]
  {
    if s.free != [] {
      var tag := s.free[|s.free| - 1];
      assert tag in s.free;
      CountUpdate(s.state, tag, Receiving, Executing);
      var r := s.Claim().0;
      forall t ensures t in r.free <==> r.Is(t, Free) {
        if t in r.free {
          assert t in s.free;
        }
        if r.Is(t, Free) {
          assert s.Is(t, Free);
          assert t in s.free;
        }
      }
    }
  }

  /** Moving a busy slot between busy states keeps the freelist exact; `executing` follows the count. */
  lemma MoveSound(s: SlotsView, tag: nat, v: SlotState, executing: nat)
    requires s.Sound() && tag < |s.state| && s.state[tag] != Free && v != Free
    requires executing + (if s.state[tag] == Executing then 1 else 0) == s.executing + if v == Executing then 1 else 0
    ensures SlotsView(s.state[tag := v], s.free, executing).Sound()
  {
    CountUpdate(s.state, tag, v, Executing);
    var r := SlotsView(s.state[tag := v], s.free, executing);
    forall t ensures t in r.free <==> r.Is(t, Free) {
      assert t in s.free <==> s.Is(t, Free);
    }
  }

  lemma {:induction false} CountPositive(state: seq<SlotState>, tag: nat, s: SlotState)
    requires tag < |state| && state[tag] == s
    ensures CountOf(state, s) > 0
  {
    if tag > 0 {
      CountPositive(state[1..], tag - 1, s);
    }
  }

  lemma ReleaseSound(s: SlotsView, tag: nat)
    requires s.Sound() && s.Is(tag, Responding)
    ensures s.Release(tag).Sound()
  {
    var r := s.Release(tag);
    CountUpdate(s.state, tag, Free, Executing);
    assert tag !in s.free by {
      assert !s.Is(tag, Free);
    }
    forall t ensures t in r.free <==> r.Is(t, Free) {
      assert t in s.free <==> s.Is(t, Free);
    }
  }

  /** Every step of the slot life keeps the engine sound. */
  lemma LifeSound(s: SlotsView, tag: nat)
    requires s.Sound()
    ensures s.Is(tag, Receiving) ==> s.Submit(tag).Sound() && s.RespondReceiving(tag).Sound()
    ensures s.Is(tag, Ready) ==> s.Start(tag).Sound()
    ensures s.Is(tag, Executing) ==> s.executing > 0 && s.BeginRespond(tag).Sound()
    ensures s.Is(tag, Responding) ==> s.Release(tag).Sound()
  {
    if s.Is(tag, Receiving) {
      MoveSound(s, tag, Ready, s.executing);
      MoveSound(s, tag, Responding, s.executing);
    } else if s.Is(tag, Ready) {
      MoveSound(s, tag, Executing, s.executing + 1);
    } else if s.Is(tag, Executing) {
      CountPositive(s.state, tag, Executing);
      MoveSound(s, tag, Responding, s.executing - 1);
    } else if s.Is(tag, Responding) {
      ReleaseSound(s, tag);
    }
  }

  /** The slots of one connection. */
  class SlotArray {
    var state: seq<SlotState>
    var free: seq<nat>
    var executing: nat

    ghost function View(): SlotsView
      reads this
    {
      SlotsView(state, free, executing)
    }

    ghost predicate Valid()
      reads this
    {
      View().Sound()
    }

    constructor (nslots: nat)
      ensures Valid() && |state| == nslots && executing == 0
      ensures forall t :: 0 <= t < nslots ==> state[t] == Free
    {
      state := seq(nslots, _ => Free);
      free := seq(nslots, i requires 0 <= i < nslots => nslots - 1 - i);
      executing := 0;
      new;
      AllFreeCount(nslots);
      forall t: nat ensures t in free <==> View().Is(t, Free) {
        if 0 <= t < nslots {
          assert free[nslots - 1 - t] == t;
        }
      }
    }

    method ClaimTag() returns (tag: Option<nat>)
      requires Valid()
      modifies this
      ensures Valid() && (View(), tag) == old(View().Claim())
    {
      ClaimSound(View());
      if free == [] {
        return None;
      }
      var t := free[|free| - 1];
      assert t in free && View().Is(t, Free);
      free := free[..|free| - 1];
      state := state[t := Receiving];
      return Some(t);
    }

    method Submit(tag: nat)
      requires Valid() && View().Is(tag, Receiving)
      modifies this
      ensures Valid() && View() == old(View().Submit(tag))
    {
      LifeSound(View(), tag);
      state := state[tag := Ready];
    }

    /** One poll of `await_command`: the slot task starts if the command is there. */
    method PollCommand(tag: nat) returns (started: bool)
      requires Valid() && tag < |state|
      modifies this
      ensures Valid() && started == (old(state[tag]) == Ready)
      ensures View() == if started then old(View().Start(tag)) else old(View())
    {
      LifeSound(View(), tag);
      started := state[tag] == Ready;
      if started {
        state := state[tag := Executing];
        executing := executing + 1;
      }
    }

    method BeginRespond(tag: nat)
      requires Valid() && View().Is(tag, Executing)
      modifies this
      ensures Valid() && View() == old(View().BeginRespond(tag))
    {
      LifeSound(View(), tag);
      state := state[tag := Responding];
      executing := executing - 1;
    }

    method RespondReceiving(tag: nat)
      requires Valid() && View().Is(tag, Receiving)
      modifies this
      ensures Valid() && View() == old(View().RespondReceiving(tag))
    {
      LifeSound(View(), tag);
      state := state[tag := Responding];
    }

    method ReleaseTag(tag: nat)
      requires Valid() && View().Is(tag, Responding)
      modifies this
      ensures Valid() && View() == old(View().Release(tag))
    {
      LifeSound(View(), tag);
      state := state[tag := Free];
      free := free + [tag];
    }
  }

  lemma {:induction false} AllFreeCount(n: nat)
    ensures CountOf(seq(n, _ => Free), Executing) == 0
  {
    if n > 0 {
      AllFreeCount(n - 1);
      assert seq(n, _ => Free)[1..] == seq(n - 1, _ => Free);
    }
  }
}
