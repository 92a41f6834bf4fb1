/**
  The receive loop of a connection, end to end: windows from the reader, each
  worked through phase by phase, and large payload tails received straight into
  their slots in between.
 */
module RecvServe {
  import opened Common
  import opened Digest
  import opened Pdu
  import opened RecvMachine
  import opened RecvLoops
  import HostStream

  /** A solicited payload with at least this much to come is received directly. */
  const H2C_DIRECT_MIN: nat := 0x4000

  /** Why the loop stopped: nothing more was received, the host closed, or it closed in the middle of a payload. */
  datatype Stop = Waiting | Eof | Closed

  /** What the receive calls brought, in order: a window, then the tail received behind it. */
  ghost function Interleave(windows: seq<seq<byte>>, tails: seq<seq<byte>>): seq<byte>
    requires |tails| <= |windows|
  {
    if tails == [] then [] else windows[0] + tails[0] + Interleave(windows[1..], tails[1..])
  }

  lemma {:induction false} InterleaveSnoc(windows: seq<seq<byte>>, tails: seq<seq<byte>>, t: seq<byte>)
    requires |tails| < |windows|
    ensures Interleave(windows, tails + [t]) == Interleave(windows, tails) + windows[|tails|] + t
    decreases |tails|
  {
    if tails == [] {
      assert ([] + [t])[1..] == [];
    } else {
      assert (tails + [t])[1..] == tails[1..] + [t];
      InterleaveSnoc(windows[1..], tails[1..], t);
    }
  }

  // ----- without a ring nothing is kept in place -----

  ghost predicate NeverKeeps(env: Env) {
    forall n: nat :: !env.keep(n)
  }

  ghost predicate Retaining(st: St) {
    st.phase.Data? && st.phase.retained
  }

  lemma {:induction false} NeverRetains(env: Env, st: St, bytes: seq<byte>)
    requires NeverKeeps(env) && !Retaining(st)
    ensures !Retaining(Feed(env, st, bytes))
    decreases |bytes|
  {
    if bytes != [] {
      StepNeverRetains(env, st, bytes[0]);
      NeverRetains(env, StepByte(env, st, bytes[0]), bytes[1..]);
    }
  }

  lemma StepNeverRetains(env: Env, st: St, b: byte)
    requires NeverKeeps(env) && !Retaining(st)
    ensures !Retaining(StepByte(env, st, b))
  {
    if st.phase.Header? {
      HeaderNeverRetains(env, st.(seen := st.seen + [b], phase := Header([])), st.phase.got + [b]);
    }
  }

  lemma HeaderNeverRetains(env: Env, st: St, g: seq<byte>)
    requires NeverKeeps(env) && !Retaining(st)
    ensures !Retaining(AfterHeader(env, st, g))
  {
    if Complete(env.hdrDigest, g) && Take(env.crc, env.hdrDigest, g).Ok? {
      PduNeverRetains(env, st, Take(env.crc, env.hdrDigest, g).value);
    }
  }

  lemma PduNeverRetains(env: Env, st: St, d: Decoded)
    requires NeverKeeps(env) && !Retaining(st)
    ensures !Retaining(HandlePdu(env, st, d))
  {
  }

  // ----- the loop -----

  /** The kernel never delivers more of a direct receive than was asked for. */
  ghost predicate Asked(direct: (nat, nat) -> seq<seq<byte>>) {
    forall i: nat, n: nat :: |Flatten(direct(i, n))| <= n
  }

  /** The connection is inside a solicited payload with a large tail to come, and there is no ring. */
  ghost predicate GoesDirect(ring: bool, st: St) {
    !ring && st.phase.Data? && st.phase.kind.H2c? && st.phase.remaining >= 0x4000
  }

  /** What a direct receive, if there is one, brings. */
  ghost function TailOf(ring: bool, st: St, direct: nat -> seq<seq<byte>>): seq<byte> {
    if GoesDirect(ring, st) then Flatten(direct(st.phase.remaining)) else []
  }

  /** The host closed before the payload being received directly was complete. */
  ghost predicate CutShort(ring: bool, st: St, direct: nat -> seq<seq<byte>>) {
    GoesDirect(ring, st) && |TailOf(ring, st, direct)| < st.phase.remaining
  }

  /** A window, and the tail of a large solicited payload if it ends inside one. */
  method Turn(loop: RecvLoop, ring: bool, window: seq<byte>, direct: nat -> seq<seq<byte>>)
    returns (closed: bool, ghost tail: seq<byte>)
    requires loop.Valid() && (forall n: nat :: |Flatten(direct(n))| <= n)
    requires !ring ==> NeverKeeps(loop.env) && !Retaining(loop.View())
    modifies loop, loop.decoder, loop.decoder.buf
    ensures closed <==> CutShort(ring, Feed(loop.env, old(loop.View()), window), direct)
    ensures tail == TailOf(ring, Feed(loop.env, old(loop.View()), window), direct)
    ensures !closed ==> loop.Valid() && loop.View() == Feed(loop.env, old(loop.View()), window + tail)
    ensures !closed && !ring ==> !Retaining(loop.View())
  {
    ghost var st := loop.View();
    tail := [];
    closed := false;
    loop.Drive(window);
    ghost var mid := loop.View();
    if !ring {
      NeverRetains(loop.env, st, window);
    }
    if loop.phase.Data? && !ring && loop.phase.kind.H2c? && loop.phase.remaining >= H2C_DIRECT_MIN {
      var arrivals := direct(loop.phase.remaining);
      tail := Flatten(arrivals);
      closed := loop.TailDirect(arrivals);
      NeverRetains(loop.env, mid, tail);
    }
    FeedAppend(loop.env, st, window, tail);
    assert Feed(loop.env, mid, []) == mid;
  }

  /** Why the loop stopped, and where the connection was. */
  ghost predicate StopsIff(env: Env, st: St, ring: bool, windows: seq<seq<byte>>, direct: (nat, nat) -> seq<seq<byte>>,
                           tails: seq<seq<byte>>, stop: Stop)
  {
    && |tails| <= |windows|
    && var now := Feed(env, st, Interleave(windows, tails));
       if now.phase.Ended? || |tails| == |windows| then stop == Waiting
       else if windows[|tails|] == [] then stop == Eof
       else stop == Closed && CutShort(ring, Feed(env, now, windows[|tails|]), n => direct(|tails|, n))
  }

  /**
    `drive_recv`: however the stream is cut, and whichever tails were received
    directly, the connection is where the bytes received put the byte machine.
    It stops once the connection ended, at the end of the stream, or when the
    host closes inside a payload being received directly.
   */
  method Serve(loop: RecvLoop, ring: bool, windows: seq<seq<byte>>, direct: (nat, nat) -> seq<seq<byte>>)
    returns (stop: Stop, ghost tails: seq<seq<byte>>)
    requires loop.Valid() && Asked(direct)
    requires !ring ==> NeverKeeps(loop.env) && !Retaining(loop.View())
    modifies loop, loop.decoder, loop.decoder.buf
    ensures StopsIff(loop.env, old(loop.View()), ring, windows, direct, tails, stop)
    ensures stop != Closed ==> loop.Valid() && loop.View() == Feed(loop.env, old(loop.View()), Interleave(windows, tails))
  {
    tails := [];
    var i := 0;
    while i < |windows| && !loop.phase.Ended?
      invariant i == |tails| <= |windows| && loop.Valid()
      invariant !ring ==> !Retaining(loop.View())
      invariant ServedTo(loop.env, old(loop.View()), windows, tails, loop.View())
    {
      if windows[i] == [] {
        return Eof, tails;
      }
      var closed;
      ghost var tail;
      ghost var mid := loop.View();
      closed, tail := Turn(loop, ring, windows[i], n => direct(i, n));
      if closed {
        return Closed, tails;
      }
      ServedMore(loop.env, old(loop.View()), windows, tails, mid, tail);
      tails := tails + [tail];
      i := i + 1;
    }
    return Waiting, tails;
  }

  /** The connection went from `st` to `now` on these windows and tails. */
  ghost predicate ServedTo(env: Env, st: St, windows: seq<seq<byte>>, tails: seq<seq<byte>>, now: St) {
    |tails| <= |windows| && now == Feed(env, st, Interleave(windows, tails))
  }

  lemma ServedMore(env: Env, st: St, windows: seq<seq<byte>>, tails: seq<seq<byte>>, mid: St, tail: seq<byte>)
    requires |tails| < |windows| && ServedTo(env, st, windows, tails, mid)
    ensures ServedTo(env, st, windows, tails + [tail], Feed(env, mid, windows[|tails|] + tail))
  {
    var was, next := Interleave(windows, tails), windows[|tails|] + tail;
    InterleaveSnoc(windows, tails, tail);
    assert was + windows[|tails|] + tail == was + next;
    FeedAppend(env, st, was, next);
  }

  /**
    A new connection to any host: once the bytes received, through windows and
    direct tails, are what the host sent, or as much of it as ended the
    connection, the outcome is the one its PDUs call for.
   */
  method ServeHost(env: Env, ring: bool, windows: seq<seq<byte>>, direct: (nat, nat) -> seq<seq<byte>>,
                   ghost pdus: seq<HostStream.HostPdu>)
    returns (stop: Stop, end: Option<End>, events: seq<Event>, ghost tails: seq<seq<byte>>)
    requires Composes(env.crc) && Asked(direct) && (!ring ==> NeverKeeps(env))
    requires HostStream.AllEncodable(env, pdus)
    ensures StopsIff(env, Start, ring, windows, direct, tails, stop)
    ensures var got, sent := Interleave(windows, tails), HostStream.Wire(env, pdus);
            var v := HostStream.AfterAll(env, HostStream.Fresh, pdus);
            stop != Closed && got <= sent && (got == sent || end.Some?) ==>
              end == v.end && HostStream.EffectsAre(events, v.effects)
  {
    var loop := new RecvLoop(env);
    stop, tails := Serve(loop, ring, windows, direct);
    end, events := if loop.phase.Ended? then Some(loop.phase.end) else None, loop.events;
    ghost var got, sent := Interleave(windows, tails), HostStream.Wire(env, pdus);
    if stop != Closed && got <= sent && (got == sent || end.Some?) {
      HostStream.StreamIsServed(env, got, pdus);
    }
  }
}
