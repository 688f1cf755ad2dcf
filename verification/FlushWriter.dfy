/**
 The cancellable socket flush of `PacketWriter` (russh/src/sshbuffer.rs): progress
 lives in the writer, one socket write per await point, so a flush that is dropped
 half way loses nothing.
 */
module FlushWriter {
  import opened Common
  import opened Wire

  const U64_MAX: nat := 0xFFFF_FFFF_FFFF_FFFF

  /** A socket that takes any non-empty part of what it is offered, or nothing at all. */
  class Socket {
    var bytes: Bytes

    constructor ()
      ensures bytes == []
    {
      bytes := [];
    }

    method Write(offered: Bytes, appetite: nat) returns (n: nat)
      modifies this
      ensures n == Min(appetite, |offered|)
      ensures bytes == old(bytes) + offered[..n]
    {
      n := Min(appetite, |offered|);
      bytes := bytes + offered[..n];
    }
  }

  datatype Outcome = Done(written: nat) | Cancelled | WriteZero

  /** How many bytes a flush moves, and how it ends. */
  datatype Drained = Drained(taken: nat, outcome: Outcome)

  /** A flush of `left` bytes against a socket with these appetites, one per await, from the `i`-th on;
      `held` says whether the buffer is non-empty, in which case the socket itself is flushed last. */
  function Drains(left: nat, held: bool, appetites: seq<nat>, i: nat): Drained
    requires i <= |appetites|
    decreases |appetites| - i
  {
    if left == 0 then Drained(0, if held && i == |appetites| then Cancelled else Done(0))
    else if i == |appetites| then Drained(0, Cancelled)
    else
      var n := Min(appetites[i], left);
      if n == 0 then Drained(0, WriteZero) else Ahead(n, Drains(left - n, held, appetites, i + 1))
  }

  /** `n` bytes more before the rest. */
  function Ahead(n: nat, d: Drained): Drained {
    Drained(n + d.taken, if d.outcome.Done? then Done(n + d.outcome.written) else d.outcome)
  }

  lemma {:induction false} DrainsWithin(left: nat, held: bool, appetites: seq<nat>, i: nat)
    requires i <= |appetites|
    ensures
      var d := Drains(left, held, appetites, i);
      d.taken <= left && (d.outcome.Done? ==> d.taken == left == d.outcome.written)
    decreases |appetites| - i
  {
    if left > 0 && i < |appetites| && appetites[i] > 0 {
      DrainsWithin(left - Min(appetites[i], left), held, appetites, i + 1);
    }
  }

  /** A socket that always takes something finishes the flush if it is not dropped too early. */
  lemma {:induction false} DrainsAll(left: nat, held: bool, appetites: seq<nat>, i: nat)
    requires i + left < |appetites| && forall k :: i <= k < |appetites| ==> appetites[k] > 0
    ensures Drains(left, held, appetites, i) == Drained(left, Done(left))
    decreases |appetites| - i
  {
    if left > 0 {
      DrainsAll(left - Min(appetites[i], left), held, appetites, i + 1);
    }
  }

  class Writer {
    var buffer: Bytes
    var flushCursor: nat
    var drainedTotal: nat
    ghost var sealed: Bytes
    const socket: Socket

    /** Bytes on the socket, then the buffer from the cursor on, are everything sealed, in order; and
        the counter is the number of bytes on the socket. */
    ghost predicate Valid()
      reads this, socket
    {
      && flushCursor <= |buffer|
      && socket.bytes + buffer[flushCursor..] == sealed
      && drainedTotal == Min(|socket.bytes|, U64_MAX)
    }

    constructor ()
      ensures Valid() && sealed == [] && buffer == [] && fresh(socket)
    {
      buffer, flushCursor, drainedTotal, sealed := [], 0, 0, [];
      socket := new Socket();
    }

    /** A packet is sealed at any time, also between two interrupted flushes. */
    method Append(packet: Bytes)
      requires Valid()
      modifies this`buffer, this`sealed
      ensures Valid() && sealed == old(sealed) + packet && buffer == old(buffer) + packet
    {
      assert (buffer + packet)[flushCursor..] == buffer[flushCursor..] + packet;
      buffer := buffer + packet;
      sealed := sealed + packet;
    }

    /** The write loop of `flush_into`: stops early when cancelled or when the socket takes nothing. */
    method WriteAll(appetites: seq<nat>) returns (stopped: Option<Outcome>, written: nat, i: nat)
      requires Valid()
      modifies this`flushCursor, this`drainedTotal, socket
      ensures Valid() && |socket.bytes| == |old(socket.bytes)| + written
      ensures Stands(old(|buffer| - flushCursor), buffer != [], appetites, stopped, written, i)
      ensures stopped.None? ==> flushCursor == |buffer|
    {
      ghost var left, held := |buffer| - flushCursor, buffer != [];
      written, i, stopped := 0, 0, None;
      while flushCursor < |buffer|
        invariant Valid() && |socket.bytes| == |old(socket.bytes)| + written
        invariant flushCursor == old(flushCursor) + written
        invariant Partway(left, held, appetites, written, i)
        decreases |appetites| - i
      {
        PartwayNext(left, held, appetites, written, i);
        if i == |appetites| {
          return Some(Cancelled), written, i;
        }
        var n := WriteOnce(appetites[i]);
        if n == 0 {
          return Some(WriteZero), written, i;
        }
        written, i := written + n, i + 1;
      }
    }

    /** `flush_into`, given how much the socket takes at each write: the future is dropped once the
        list runs out. */
    method FlushInto(appetites: seq<nat>) returns (r: Outcome)
      requires Valid()
      modifies this`buffer, this`flushCursor, this`drainedTotal, socket
      ensures Valid()
      ensures
        var d := Drains(old(|buffer| - flushCursor), old(buffer) != [], appetites, 0);
        && r == d.outcome
        && |socket.bytes| == |old(socket.bytes)| + d.taken
        && buffer == if r.Done? then [] else old(buffer)
    {
      DrainsWithin(|buffer| - flushCursor, buffer != [], appetites, 0);
      var stopped, written, i := WriteAll(appetites);
      if stopped.Some? {
        return stopped.value;
      }
      if buffer != [] {
        if i == |appetites| {
          return Cancelled;
        }
        ClearDrained();
      }
      return Done(written);
    }

    /** One socket write; the progress is recorded before anything else can happen. */
    method WriteOnce(appetite: nat) returns (n: nat)
      requires Valid() && flushCursor < |buffer|
      modifies this`flushCursor, this`drainedTotal, socket
      ensures Valid() && n == Min(appetite, old(|buffer| - flushCursor)) && flushCursor == old(flushCursor) + n
      ensures |socket.bytes| == |old(socket.bytes)| + n
    {
      ghost var before, left := socket.bytes, buffer[flushCursor..];
      n := socket.Write(buffer[flushCursor..], appetite);
      flushCursor := flushCursor + n;
      drainedTotal := Min(drainedTotal + n, U64_MAX);
      assert buffer[flushCursor..] == left[n..] && left[..n] + left[n..] == left;
      Assoc(before, left[..n], left[n..]);
    }

    method ClearDrained()
      requires Valid() && flushCursor == |buffer|
      modifies this`buffer, this`flushCursor
      ensures Valid() && buffer == []
    {
      assert buffer[flushCursor..] == [];
      buffer := [];
      flushCursor := 0;
    }
  }

  /** After `i` awaits and `written` bytes, the rest of the flush is the flush of the rest. */
  ghost predicate Partway(left: nat, held: bool, appetites: seq<nat>, written: nat, i: nat) {
    && i <= |appetites| && written <= left
    && Drains(left, held, appetites, 0) == Ahead(written, Drains(left - written, held, appetites, i))
  }

  /** Where the write loop stands when it ends. */
  ghost predicate Stands(left: nat, held: bool, appetites: seq<nat>, stopped: Option<Outcome>, written: nat, i: nat) {
    if stopped.Some? then Drains(left, held, appetites, 0) == Drained(written, stopped.value) && !stopped.value.Done?
    else written == left && Partway(left, held, appetites, written, i)
  }

  lemma PartwayNext(left: nat, held: bool, appetites: seq<nat>, written: nat, i: nat)
    requires Partway(left, held, appetites, written, i) && written < left
    ensures i == |appetites| ==> Drains(left, held, appetites, 0) == Drained(written, Cancelled)
    ensures i < |appetites| && appetites[i] == 0 ==> Drains(left, held, appetites, 0) == Drained(written, WriteZero)
    ensures i < |appetites| && appetites[i] > 0 ==>
      Partway(left, held, appetites, written + Min(appetites[i], left - written), i + 1)
  {
  }

  /** What can happen to a writer, in any interleaving. */
  datatype Op = Seal(packet: Bytes) | Try(appetites: seq<nat>)

  function SealedBy(ops: seq<Op>): Bytes {
    if ops == [] then [] else (if ops[0].Seal? then ops[0].packet else []) + SealedBy(ops[1..])
  }

  lemma {:induction false} SealedByStep(ops: seq<Op>, k: nat)
    requires k < |ops|
    ensures SealedBy(ops[..k + 1]) == SealedBy(ops[..k]) + if ops[k].Seal? then ops[k].packet else []
    decreases k
  {
    if k == 0 {
      assert ops[..1] == [ops[0]] && ops[..1][1..] == [];
    } else {
      SealedByStep(ops[1..], k - 1);
      assert ops[..k + 1][1..] == ops[1..][..k] && ops[..k][1..] == ops[1..][..k - 1];
      assert ops[1..][k - 1] == ops[k];
      var head := if ops[0].Seal? then ops[0].packet else [];
      assert SealedBy(ops[..k + 1]) == head + SealedBy(ops[1..][..k]);
    }
  }

  /** A writer seen from outside: how many of the sealed bytes have left, whether its buffer is non-empty,
      and how the last flush ended. */
  datatype Seen = Seen(sealed: nat, sent: nat, held: bool, last: Outcome)

  /** What one operation amounts to. */
  function Stepped(s: Seen, op: Op): (r: Seen)
    requires s.sent <= s.sealed
    ensures r.sent <= r.sealed
  {
    match op
    case Seal(packet) => s.(sealed := s.sealed + |packet|, held := s.held || packet != [])
    case Try(appetites) =>
      DrainsWithin(s.sealed - s.sent, s.held, appetites, 0);
      var d := Drains(s.sealed - s.sent, s.held, appetites, 0);
      s.(sent := s.sent + d.taken, held := s.held && !d.outcome.Done?, last := d.outcome)
  }

  /** What a run amounts to. */
  function Run(ops: seq<Op>): (r: Seen)
    ensures r.sent <= r.sealed
  {
    if ops == [] then Seen(0, 0, false, Cancelled) else Stepped(Run(ops[..|ops| - 1]), ops[|ops| - 1])
  }

  /** A run that ends with a completed flush has sent everything sealed. */
  lemma DoneMeansSent(ops: seq<Op>)
    requires ops != [] && ops[|ops| - 1].Try? && Run(ops).last.Done?
    ensures Run(ops).sent == Run(ops).sealed
  {
    var s := Run(ops[..|ops| - 1]);
    DrainsWithin(s.sealed - s.sent, s.held, ops[|ops| - 1].appetites, 0);
  }

  ghost predicate Sees(w: Writer, last: Outcome, s: Seen)
    reads w, w.socket
  {
    && w.Valid() && |w.sealed| == s.sealed && |w.socket.bytes| == s.sent
    && s.held == (w.buffer != []) && last == s.last
  }

  /** Bytes sealed and not yet on the socket. */
  lemma Left(w: Writer)
    requires w.Valid()
    ensures |w.buffer| - w.flushCursor == |w.sealed| - |w.socket.bytes|
  {
    assert |w.socket.bytes + w.buffer[w.flushCursor..]| == |w.sealed|;
  }

  method DoSeal(w: Writer, packet: Bytes, last: Outcome, ghost s: Seen)
    requires s.sent <= s.sealed && Sees(w, last, s)
    modifies w
    ensures Sees(w, last, Stepped(s, Seal(packet))) && w.sealed == old(w.sealed) + packet
  {
    w.Append(packet);
  }

  method DoTry(w: Writer, appetites: seq<nat>, before: Outcome, ghost s: Seen) returns (last: Outcome)
    requires s.sent <= s.sealed && Sees(w, before, s)
    modifies w, w.socket
    ensures Sees(w, last, Stepped(s, Try(appetites))) && w.sealed == old(w.sealed)
  {
    Left(w);
    last := w.FlushInto(appetites);
  }

  /** One operation of a run. */
  method Do(w: Writer, op: Op, before: Outcome, ghost s: Seen) returns (last: Outcome)
    requires s.sent <= s.sealed && Sees(w, before, s)
    modifies w, w.socket
    ensures Sees(w, last, Stepped(s, op))
    ensures w.sealed == old(w.sealed) + if op.Seal? then op.packet else []
  {
    last := before;
    match op {
      case Seal(packet) => DoSeal(w, packet, before, s);
      case Try(appetites) =>
        last := DoTry(w, appetites, before, s);
        assert w.sealed + [] == w.sealed;
    }
  }

  lemma RunStep(ops: seq<Op>, k: nat)
    requires k < |ops|
    ensures Run(ops[..k + 1]) == Stepped(Run(ops[..k]), ops[k])
  {
    assert ops[..k + 1][..k] == ops[..k];
  }

  /** Over any interleaving of new packets, partial writes and abandoned flushes, the socket holds the
      first so many bytes of everything sealed, in order, and nothing else. */
  method RunAll(ops: seq<Op>) returns (w: Writer, last: Outcome)
    ensures fresh(w) && fresh(w.socket) && w.Valid() && w.sealed == SealedBy(ops)
    ensures |SealedBy(ops)| == Run(ops).sealed && w.socket.bytes == SealedBy(ops)[..Run(ops).sent]
    ensures last == Run(ops).last
  {
    w := new Writer();
    last := Cancelled;
    var k := 0;
    assert ops[..0] == [];
    while k < |ops|
      invariant k <= |ops| && fresh(w) && fresh(w.socket)
      invariant w.sealed == SealedBy(ops[..k]) && Sees(w, last, Run(ops[..k]))
    {
      SealedByStep(ops, k);
      RunStep(ops, k);
      last := Do(w, ops[k], last, Run(ops[..k]));
      k := k + 1;
    }
    assert ops[..k] == ops;
    assert w.socket.bytes == w.sealed[..|w.socket.bytes|];
  }
}
