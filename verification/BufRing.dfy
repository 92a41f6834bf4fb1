/**
  The provided-buffer ring of one connection: two receive sub-buffers that
  circulate between the kernel and the receive loop, with borrow counts that
  hold a sub-buffer back while a zero-copy write still reads from it.
  (`BufRing` in the repository's io_uring crate.)
 */
module BufRings {

  /** The shared ring tail is a wrapping 16-bit counter. */
  const TAIL_MOD: nat := 0x1_0000

  type Bid = b: nat | b < 2

  /**
    The user-space half of the ring as a value. `log` is every buffer id
    provided so far, in order; `waker` says that the receive loop's waker is
    registered and `woken` that it has been fired since.
   */
  datatype RingView = RingView(
    log: seq<Bid>,
    pending: seq<nat>,
    awaiting: seq<bool>,
    recvOff: seq<nat>,
    gen: nat,
    waker: bool,
    woken: bool)
  {
    ghost predicate Shape() {
      |pending| == 2 && |awaiting| == 2 && |recvOff| == 2
    }

    /** Hand sub-buffer `b` (back) to the kernel and fire a registered waker. */
    ghost function Provide(b: Bid): RingView
      requires Shape()
    {
      this.(log := log + [b],
            awaiting := awaiting[b := false],
            recvOff := recvOff[b := 0],
            gen := gen + 1,
            woken := woken || waker,
            waker := false)
    }

    ghost function Borrow(b: Bid): RingView
      requires Shape()
    {
      this.(pending := pending[b := pending[b] + 1])
    }

    /** One borrow ends; the last one returns a sub-buffer the receive loop is done with. */
    ghost function Release(b: Bid): RingView
      requires Shape() && pending[b] > 0
    {
      var v := this.(pending := pending[b := pending[b] - 1]);
      if v.pending[b] == 0 && awaiting[b] then v.Provide(b) else v
    }

    ghost function Advance(b: Bid, len: nat): RingView
      requires Shape()
    {
      this.(recvOff := recvOff[b := recvOff[b] + len])
    }

    /** The receive loop is done with `b`: return it now, or once its borrows end. */
    ghost function RecvDone(b: Bid): RingView
      requires Shape()
    {
      if pending[b] == 0 then Provide(b) else this.(awaiting := awaiting[b := true])
    }
  }

  /** The two shared slots and the 16-bit tail hold the last two provides of `log`. */
  ghost predicate Slots(log: seq<Bid>, entries: seq<Bid>, tail: nat) {
    && |entries| == 2
    && tail == |log| % TAIL_MOD
    && (forall j :: |log| - 2 <= j < |log| && 0 <= j ==> entries[j % 2] == log[j])
  }

  lemma PublishSlots(log: seq<Bid>, entries: seq<Bid>, tail: nat, b: Bid)
    requires Slots(log, entries, tail)
    ensures Slots(log + [b], entries[tail % 2 := b], (tail + 1) % TAIL_MOD)
  {
    assert tail % 2 == |log| % 2;
  }

  lemma HeadParity(n: nat)
    ensures n % TAIL_MOD % 2 == n % 2
  {
  }

  /**
    A kernel that has taken the first `taken` provides, at most two behind,
    reads each later provide `j` through its own wrapping head: no slot it has
    yet to read was overwritten, and the counters' difference is the exact
    number left.
   */
  lemma KernelReadsLog(log: seq<Bid>, entries: seq<Bid>, tail: nat, taken: nat, j: nat)
    requires Slots(log, entries, tail)
    requires taken <= j < |log| <= taken + 2
    ensures (tail - taken % TAIL_MOD) % TAIL_MOD == |log| - taken
    ensures entries[j % TAIL_MOD % 2] == log[j]
  {
    HeadParity(j);
    assert |log| - taken == 1 || |log| - taken == 2;
  }

  class BufRing {
    var entries: seq<Bid>
    var tail: nat
    var pending: seq<nat>
    var awaiting: seq<bool>
    var recvOff: seq<nat>
    var provideGen: nat
    var waker: bool
    var woken: bool
    ghost var log: seq<Bid>

    ghost function View(): RingView
      reads this
    {
      RingView(log, pending, awaiting, recvOff, provideGen, waker, woken)
    }

    ghost predicate Valid()
      reads this
    {
      View().Shape() && Slots(log, entries, tail)
    }

    /** Both sub-buffers are provided up front, in id order. */
    constructor ()
      ensures Valid()
      ensures View() == RingView([0, 1], [0, 0], [false, false], [0, 0], 2, false, false)
    {
      log := [];
      entries := [0, 0];
      tail := 0;
      pending := [0, 0];
      awaiting := [false, false];
      recvOff := [0, 0];
      provideGen := 0;
      waker := false;
      woken := false;
      new;
      for b := 0 to 2
        invariant Valid() && !waker && !woken
        invariant provideGen == b && log == [0, 1][..b]
        invariant pending == [0, 0] && awaiting == [false, false] && recvOff == [0, 0]
      {
        KernelProvide(b);
      }
    }

    /** A borrowed sub-buffer never goes back to the kernel. */
    method KernelProvide(b: Bid)
      requires Valid() && pending[b] == 0
      modifies this
      ensures Valid() && View() == old(View()).Provide(b)
    {
      var idx := tail % 2;
      PublishSlots(log, entries, tail, b);
      log := log + [b];
      entries := entries[idx := b];
      tail := (tail + 1) % TAIL_MOD;
      awaiting := awaiting[b := false];
      recvOff := recvOff[b := 0];
      provideGen := provideGen + 1;
      if waker {
        waker := false;
        woken := true;
      }
    }

    /** One poll of the park future: ready once any provide happened since `since`. */
    method PollProvide(since: nat) returns (ready: bool)
      requires Valid()
      modifies this
      ensures Valid()
      ensures ready <==> old(provideGen) != since
      ensures View() == if ready then old(View()) else old(View()).(waker := true)
    {
      ready := provideGen != since;
      if !ready {
        waker := true;
      }
    }

    method Borrow(b: Bid)
      requires Valid()
      modifies this
      ensures Valid() && View() == old(View()).Borrow(b)
    {
      pending := pending[b := pending[b] + 1];
    }

    method Release(b: Bid)
      requires Valid() && pending[b] > 0
      modifies this
      ensures Valid() && View() == old(View()).Release(b)
    {
      var n := pending[b] - 1;
      pending := pending[b := n];
      if n == 0 && awaiting[b] {
        KernelProvide(b);
      }
    }

    method RecvAdvance(b: Bid, len: nat)
      requires Valid()
      modifies this
      ensures Valid() && View() == old(View()).Advance(b, len)
    {
      recvOff := recvOff[b := recvOff[b] + len];
    }

    method RecvDone(b: Bid)
      requires Valid()
      modifies this
      ensures Valid() && View() == old(View()).RecvDone(b)
    {
      if pending[b] == 0 {
        KernelProvide(b);
      } else {
        awaiting := awaiting[b := true];
      }
    }
  }
}
