/**
  Ring-mode receive as a step system: the kernel's multishot receive, the
  reader's `fill_bid` loop and the slot tasks that end zero-copy borrows, in
  every interleaving. The socket's bytes are `stream`; the kernel may split
  them, run ahead, terminate the multishot and run out of buffers at will.
 */
module RingReceive {
  import opened Common
  import opened BufRings

  /**
    A completion. The reader sees `bid`, `len`, `more` and `bufMore`; `at`
    (where the bytes landed) and `pos` (which stream bytes they are) are known
    to the kernel only.
   */
  datatype Cqe =
    | Chunk(bid: Bid, len: nat, more: bool, bufMore: bool, at: nat, pos: nat)
    | NoBufs
    | Eof
    | Failed

  datatype Cur = Cur(bid: Bid, off: nat, len: nat, pos: nat, bufMore: bool)

  /** Idle: the caller owns the window. Waiting/Parked: the two await points of `fill_bid`. */
  datatype Mode = Idle | Waiting | Parked | Closed

  /** Everything the reader task owns: its ring, the chunk in hand, the armed multishot. */
  datatype Endpoint = Endpoint(ring: RingView, cur: Option<Cur>, op: bool, armedGen: nat, mode: Mode)

  /** A reader step and whether it submitted a fresh multishot receive. */
  datatype Did = Did(u: Endpoint, submits: bool)

  ghost function Arm(u: Endpoint): Did {
    if u.op then Did(u.(mode := Waiting), false)
    else Did(u.(op := true, armedGen := u.ring.gen, mode := Waiting), true)
  }

  /** `fill_bid` up to its first await. */
  ghost function BeginFill(u: Endpoint): Did
    requires u.ring.Shape()
  {
    match u.cur
    case None => Arm(u)
    case Some(c) =>
      if c.pos < c.len then Did(u, false)
      else Arm(u.(ring := if c.bufMore then u.ring else u.ring.RecvDone(c.bid), cur := None))
  }

  /** A data completion arrives: its bytes start at the ring's running offset. */
  ghost function TakeChunk(u: Endpoint, bid: Bid, len: nat, more: bool, bufMore: bool): Endpoint
    requires u.ring.Shape()
  {
    u.(ring := if bufMore then u.ring.Advance(bid, len) else u.ring,
       cur := Some(Cur(bid, u.ring.recvOff[bid], len, 0, bufMore)),
       op := more,
       mode := Idle)
  }

  /** ENOBUFS: park unless a sub-buffer came back since the receive was armed. */
  ghost function TakeNoBufs(u: Endpoint): Did {
    if u.ring.gen != u.armedGen then Arm(u.(op := false))
    else Did(u.(op := false, mode := Parked, ring := u.ring.(waker := true)), false)
  }

  ghost function TakeEnd(u: Endpoint): Endpoint {
    u.(op := false, mode := Closed)
  }

  /** The scheduler polls a parked reader whose waker fired. */
  ghost function Repoll(u: Endpoint): Did {
    var v := u.(ring := u.ring.(woken := false));
    if v.ring.gen != v.armedGen then Arm(v) else Did(v.(ring := v.ring.(waker := true)), false)
  }

  /** The ring reader, with the fields of the source's `RingMode`. */
  class RingMode {
    const ring: BufRing
    var cur: Option<Cur>
    var op: bool
    var armedGen: nat
    var mode: Mode

    ghost function View(): Endpoint
      reads this, ring
    {
      Endpoint(ring.View(), cur, op, armedGen, mode)
    }

    ghost predicate Valid()
      reads this, ring
    {
      ring.Valid()
    }

    constructor (ring: BufRing)
      requires ring.Valid()
      ensures Valid() && this.ring == ring
      ensures View() == Endpoint(ring.View(), None, false, 0, Idle)
    {
      this.ring := ring;
      cur, op, armedGen, mode := None, false, 0, Idle;
    }

    method ArmRecv() returns (submits: bool)
      requires Valid()
      modifies this
      ensures Valid() && Did(View(), submits) == Arm(old(View()))
    {
      submits := !op;
      if !op {
        armedGen := ring.provideGen;
        op := true;
      }
      mode := Waiting;
    }

    method Fill() returns (submits: bool)
      requires Valid()
      modifies this, ring
      ensures Valid() && Did(View(), submits) == BeginFill(old(View()))
    {
      if cur.Some? {
        var c := cur.value;
        if c.pos < c.len {
          return false;
        }
        if !c.bufMore {
          ring.RecvDone(c.bid);
        }
        cur := None;
      }
      submits := ArmRecv();
    }

    method OnChunk(bid: Bid, len: nat, more: bool, bufMore: bool)
      requires Valid()
      modifies this, ring
      ensures Valid() && View() == TakeChunk(old(View()), bid, len, more, bufMore)
    {
      op := more;
      var off := ring.recvOff[bid];
      if bufMore {
        ring.RecvAdvance(bid, len);
      }
      cur := Some(Cur(bid, off, len, 0, bufMore));
      mode := Idle;
    }

    method OnNoBufs() returns (submits: bool)
      requires Valid()
      modifies this, ring
      ensures Valid() && Did(View(), submits) == TakeNoBufs(old(View()))
    {
      op := false;
      var ready := ring.PollProvide(armedGen);
      if ready {
        submits := ArmRecv();
      } else {
        mode := Parked;
        submits := false;
      }
    }

    /** End of stream or a failed receive: the reader is done. */
    method OnEnd()
      requires Valid()
      modifies this
      ensures Valid() && View() == TakeEnd(old(View()))
    {
      op := false;
      mode := Closed;
    }

    method OnWake() returns (submits: bool)
      requires Valid()
      modifies this, ring
      ensures Valid() && Did(View(), submits) == Repoll(old(View()))
    {
      ring.woken := false;
      var ready := ring.PollProvide(armedGen);
      if ready {
        submits := ArmRecv();
      } else {
        submits := false;
      }
    }
  }

  // ----- the whole system -----

  /** A payload kept in place: `len` bytes of sub-buffer `bid` from `off`, which are the stream's from `pos`. */
  datatype Region = Region(bid: Bid, off: nat, len: nat, pos: int)

  /**
    `taken` and `koff` are the kernel's: how many provided buffers it has
    retired and how much of the next one is filled. `base[b]` is the stream position of byte 0 of
    sub-buffer `b`'s current fill; `fed` counts stream bytes received and
    `popped` those whose completion the reader has taken. `out` is every byte
    the caller has consumed; `pinned` the retained payloads by slot tag.
   */
  datatype Sys = Sys(
    stream: seq<byte>,
    cap: nat,
    u: Endpoint,
    taken: nat,
    koff: nat,
    armed: bool,
    cq: seq<Cqe>,
    mem: seq<seq<byte>>,
    base: seq<nat>,
    fed: nat,
    popped: nat,
    out: seq<byte>,
    pinned: map<nat, Region>)
}
