/**
 `Encrypted` of russh/src/session.rs as it runs: a map of channels, the staging
 buffer, and the packet writer that seals packets in order. Its operations are
 proved against the functions of `Outbound`; the byte form of the staging buffer
 is the subject of `Staging`.
 */
module EncryptedSession {
  import opened Common
  import opened Protocol
  import opened Wire
  import opened Messages
  import Outbound
  import opened Sending

  type Params = Outbound.Params

  /** Packets for one recipient, in order. */
  function Addressed(recipient: nat, ps: seq<Packet>): seq<Envelope> {
    seq(|ps|, i requires 0 <= i < |ps| => Envelope(recipient, ps[i]))
  }

  lemma AddressedConcat(recipient: nat, a: seq<Packet>, b: seq<Packet>)
    ensures Addressed(recipient, a + b) == Addressed(recipient, a) + Addressed(recipient, b)
  {
  }

  lemma IssuedMore(issued: seq<Envelope>, recipient: nat, a: seq<Packet>, b: seq<Packet>)
    ensures issued + Addressed(recipient, a) + Addressed(recipient, b) == issued + Addressed(recipient, a + b)
  {
    AddressedConcat(recipient, a, b);
    Assoc(issued, Addressed(recipient, a), Addressed(recipient, b));
  }

  lemma NextPiece(recipient: nat, stream: Stream, buf: Bytes, max: nat)
    requires max > 0 && buf != []
    ensures
      var n := Min(|buf|, max);
      Addressed(recipient, Outbound.Pieces(stream, buf, max))
      == [Envelope(recipient, Data(stream, buf[..n]))] + Addressed(recipient, Outbound.Pieces(stream, buf[n..], max))
  {
  }

  /** The channel after a send, and how many bytes were taken. */
  datatype Taken = Taken(params: Params, size: nat)

  /** A run of `data_noqueue` or its direct twin that agrees with the specification. */
  predicate Sends(r: Result<Taken, Outbound.Error>, spec: Result<Outbound.Sent, Outbound.Error>) {
    match spec
    case Err(e) => r.Err? && r.error == e
    case Ok(s) => r.Ok? && r.value.params == s.params && r.value.size == s.size
  }

  /** Seals messages in the order they are given; sealing itself is the subject of `Framing`. */
  class PacketWriter {
    var sealed: seq<Envelope>

    constructor ()
      ensures sealed == []
    {
      sealed := [];
    }

    /** `packet_raw`, and `write_packet` once its closure has filled the payload. */
    method PacketRaw(m: Envelope)
      modifies this
      ensures sealed == old(sealed) + [m]
    {
      sealed := sealed + [m];
    }
  }

  class Encrypted {
    var channels: map<nat, Params>
    var write: seq<Envelope>
    const writer: PacketWriter

    constructor ()
      ensures channels == map[] && Issued() == [] && fresh(writer)
    {
      channels, write := map[], [];
      writer := new PacketWriter();
    }

    /** Everything issued so far, in order: sealed packets, then staged ones. */
    ghost function Issued(): seq<Envelope>
      reads this, writer
    {
      writer.sealed + write
    }

    /** The packet loop of `data_noqueue`: one staged frame per piece. */
    method SendPieces(channel: Params, all: Bytes, stream: Stream) returns (c: Params)
      requires |all| <= channel.recipientWindow && channel.recipientMax > 0
      modifies this`write
      ensures c == channel.(recipientWindow := channel.recipientWindow - |all|)
      ensures write == old(write) + Addressed(channel.recipientChannel, Outbound.Pieces(stream, all, channel.recipientMax))
    {
      var max, to := channel.recipientMax, channel.recipientChannel;
      var buf := all;
      c := channel;
      while buf != []
        invariant |buf| <= |all|
        invariant c == channel.(recipientWindow := channel.recipientWindow - (|all| - |buf|))
        invariant write + Addressed(to, Outbound.Pieces(stream, buf, max))
               == old(write) + Addressed(to, Outbound.Pieces(stream, all, max))
        decreases |buf|
      {
        var off := Min(|buf|, max);
        var m := Envelope(to, Data(stream, buf[..off]));
        NextPiece(to, stream, buf, max);
        Assoc(write, [m], Addressed(to, Outbound.Pieces(stream, buf[off..], max)));
        write := write + [m];
        c := c.(recipientWindow := c.recipientWindow - off);
        buf := buf[off..];
      }
      NoneAdded(write);
    }

    /** The packet loop of `data_noqueue_direct`: one sealed packet per piece. */
    method SendPiecesDirect(channel: Params, all: Bytes, stream: Stream) returns (c: Params)
      requires |all| <= channel.recipientWindow && channel.recipientMax > 0
      modifies writer
      ensures c == channel.(recipientWindow := channel.recipientWindow - |all|)
      ensures writer.sealed
           == old(writer.sealed) + Addressed(channel.recipientChannel, Outbound.Pieces(stream, all, channel.recipientMax))
    {
      var max, to := channel.recipientMax, channel.recipientChannel;
      var buf := all;
      c := channel;
      while buf != []
        invariant |buf| <= |all|
        invariant c == channel.(recipientWindow := channel.recipientWindow - (|all| - |buf|))
        invariant writer.sealed + Addressed(to, Outbound.Pieces(stream, buf, max))
               == old(writer.sealed) + Addressed(to, Outbound.Pieces(stream, all, max))
        decreases |buf|
      {
        var off := Min(|buf|, max);
        var m := Envelope(to, Data(stream, buf[..off]));
        NextPiece(to, stream, buf, max);
        Assoc(writer.sealed, [m], Addressed(to, Outbound.Pieces(stream, buf[off..], max)));
        writer.PacketRaw(m);
        c := c.(recipientWindow := c.recipientWindow - off);
        buf := buf[off..];
      }
      NoneAdded(writer.sealed);
    }

    /** `data_noqueue`: stage as much of `buf0[from..]` as the window admits. */
    method DataNoQueue(channel: Params, buf0: Bytes, stream: Stream, from: nat)
      returns (r: Result<Taken, Outbound.Error>)
      modifies this`write
      ensures Sends(r, Outbound.DataNoQueue(channel, buf0, stream, from))
      ensures r.Err? ==> write == old(write)
      ensures r.Ok? ==>
        write == old(write) + Addressed(channel.recipientChannel, Outbound.DataNoQueue(channel, buf0, stream, from).value.out)
    {
      if from >= |buf0| {
        NoneAdded(write);
        return Ok(Taken(channel, 0));
      }
      var end := Min(|buf0|, from + channel.recipientWindow);
      if channel.recipientMax == 0 {
        return Err(Outbound.Inconsistent);
      }
      var c := SendPieces(channel, buf0[from..end], stream);
      r := Ok(Taken(c, end - from));
    }

    /** `data_noqueue_direct`: the same, sealed at once. */
    method DataNoQueueDirect(channel: Params, buf0: Bytes, stream: Stream, from: nat)
      returns (r: Result<Taken, Outbound.Error>)
      modifies writer
      ensures Sends(r, Outbound.DataNoQueue(channel, buf0, stream, from))
      ensures r.Err? ==> writer.sealed == old(writer.sealed)
      ensures r.Ok? ==>
        writer.sealed == old(writer.sealed)
                         + Addressed(channel.recipientChannel, Outbound.DataNoQueue(channel, buf0, stream, from).value.out)
    {
      if from >= |buf0| {
        NoneAdded(writer.sealed);
        return Ok(Taken(channel, 0));
      }
      var end := Min(|buf0|, from + channel.recipientWindow);
      if channel.recipientMax == 0 {
        return Err(Outbound.Inconsistent);
      }
      var c := SendPiecesDirect(channel, buf0[from..end], stream);
      r := Ok(Taken(c, end - from));
    }

    /** Send on the direct path if a writer is at hand and nothing is staged, on the staged path otherwise. */
    method Transmit(useWriter: bool, channel: Params, buf0: Bytes, stream: Stream, from: nat)
      returns (r: Result<Taken, Outbound.Error>)
      modifies this`write, writer
      ensures Sends(r, Outbound.DataNoQueue(channel, buf0, stream, from))
      ensures r.Err? ==> Issued() == old(Issued())
      ensures r.Ok? ==>
        Issued() == old(Issued()) + Addressed(channel.recipientChannel, Outbound.DataNoQueue(channel, buf0, stream, from).value.out)
    {
      ghost var before := Issued();
      if useWriter && write == [] {
        r := DataNoQueueDirect(channel, buf0, stream, from);
        assert before == old(writer.sealed);
      } else {
        r := DataNoQueue(channel, buf0, stream, from);
        if r.Ok? {
          ghost var out := Outbound.DataNoQueue(channel, buf0, stream, from).value.out;
          Assoc(writer.sealed, old(write), Addressed(channel.recipientChannel, out));
        }
      }
    }

    /** One round of the flush loop: send what fits of the oldest chunk, and put back what does not. */
    method FlushHead(useWriter: bool, c: Params) returns (r: Result<Flush, Outbound.Error>)
      requires c.pending != []
      modifies this`write, writer
      ensures Heads(r, c)
      ensures r.Err? ==> Issued() == old(Issued())
      ensures r.Ok? ==> Issued() == old(Issued()) + Addressed(c.recipientChannel, HeadSent(c).value.out)
    {
      var head := c.pending[0];
      var popped := c.(pending := c.pending[1..]);
      var sent := Transmit(useWriter, popped, head.bytes, head.stream, head.from);
      if sent.Err? {
        return Err(sent.error);
      }
      var size: nat := sent.value.size;
      if head.from + size < |head.bytes| {
        var rest := head.(from := head.from + size);
        return Ok(Flush(sent.value.params.(pending := [rest] + sent.value.params.pending), false, size));
      }
      return Ok(Flush(sent.value.params, true, size));
    }

    /** `flush_channel` and `flush_channel_with_writer`: replay parked chunks until the window runs dry. */
    method FlushChannel(useWriter: bool, channel: Params) returns (r: Result<Flush, Outbound.Error>, c: Params)
      modifies this`write, writer
      ensures FlushedAs(channel, r, c, old(Issued()), Issued())
    {
      c := channel;
      var wrote: nat := 0;
      ghost var out: seq<Packet> := [];
      NoneAdded(Issued());
      ResumesStart(Outbound.FlushData(channel));
      while c.pending != []
        invariant Midflush(channel, c, out, wrote, old(Issued()), Issued())
        decreases |c.pending|
      {
        ghost var issued := Issued();
        r := FlushHead(useWriter, c);
        MidflushStep(channel, c, out, wrote, old(Issued()), issued, r, Issued());
        if r.Err? {
          c := c.(pending := c.pending[1..]);
          return;
        }
        wrote := wrote + r.value.wrote;
        if !r.value.complete {
          c := r.value.params;
          return Ok(r.value.(wrote := wrote)), c;
        }
        out := out + HeadSent(c).value.out;
        c := r.value.params;
      }
      NoneAdded(out);
      return Ok(Flush(c, true, wrote)), c;
    }

    /** `byte`: a one-number message for a channel, if it still has an entry. */
    method ByteMessage(id: nat, p: Packet)
      modifies this`write
      ensures Issued() == old(Issued()) + if id in channels then [Envelope(channels[id].recipientChannel, p)] else []
    {
      if id in channels {
        Assoc(writer.sealed, write, [Envelope(channels[id].recipientChannel, p)]);
        write := write + [Envelope(channels[id].recipientChannel, p)];
      } else {
        NoneAdded(Issued());
      }
    }

    /** `eof`. */
    method SendEof(id: nat)
      modifies this`write, this`channels
      ensures Does(id, Outbound.EofOp(Lookup(old(channels), id)), old(channels), channels, old(Issued()), Issued())
    {
      if id in channels && channels[id].pending != [] {
        channels := channels[id := channels[id].(pendingEof := true)];
      } else {
        ByteMessage(id, Eof);
      }
    }

    /** `close`. */
    method SendClose(id: nat)
      modifies this`write, this`channels
      ensures Does(id, Outbound.CloseOp(Lookup(old(channels), id)), old(channels), channels, old(Issued()), Issued())
    {
      if id in channels && channels[id].pending != [] {
        channels := channels[id := channels[id].(pendingClose := true)];
      } else {
        ByteMessage(id, Close);
        channels := channels - {id};
      }
    }

    /** `close_discarding_pending`. */
    method CloseDiscardingPending(id: nat)
      modifies this`write, this`channels
      ensures Does(id, Outbound.CloseDiscarding(Lookup(old(channels), id)), old(channels), channels, old(Issued()), Issued())
    {
      if id in channels {
        channels := channels[id := channels[id].(pending := [], pendingEof := false, pendingClose := false)];
      }
      ByteMessage(id, Close);
      channels := channels - {id};
    }

    /** `consume_recv_window`. */
    method ConsumeRecvWindow(id: nat, len: nat)
      modifies this`channels
      ensures channels == if id in old(channels) then old(channels)[id := Outbound.Consume(old(channels)[id], len)] else old(channels)
    {
      if id in channels {
        var wrapped := len % (U32_MAX + 1);
        if wrapped <= channels[id].senderWindow {
          channels := channels[id := channels[id].(senderWindow := channels[id].senderWindow - wrapped)];
        }
      }
    }

    /** `maybe_grant_recv_window`. */
    method MaybeGrantRecvWindow(id: nat, target: nat, undelivered: nat) returns (granted: bool)
      modifies this`write, this`channels
      ensures Does(id, Outbound.Grant(Lookup(old(channels), id), target, undelivered),
                   old(channels), channels, old(Issued()), Issued())
      ensures granted <==> Issued() != old(Issued())
    {
      var ceiling := SaturatingSub(target, undelivered);
      if id in channels && channels[id].senderWindow < ceiling / 2 {
        ByteMessage(id, Adjust(ceiling - channels[id].senderWindow));
        channels := channels[id := channels[id].(senderWindow := ceiling)];
        return true;
      }
      NoneAdded(Issued());
      return false;
    }

    /** `handle_flushed_channel`: the deferred controls, now that the backlog is gone. */
    method HandleFlushed(id: nat, eof: bool, close: bool)
      modifies this`write, this`channels
      ensures
        var first := if eof then Outbound.EofOp(Lookup(old(channels), id)) else Outbound.Emitted(Lookup(old(channels), id), []);
        var next := if close then Outbound.CloseOp(first.entry) else Outbound.Emitted(first.entry, []);
        Does(id, Outbound.Emitted(next.entry, first.out + next.out), old(channels), channels, old(Issued()), Issued())
    {
      ghost var m0, i0 := channels, Issued();
      ghost var first := if eof then Outbound.EofOp(Lookup(m0, id)) else Outbound.Emitted(Lookup(m0, id), []);
      DoesNothing(id, m0, i0);
      if eof {
        SendEof(id);
      }
      ghost var m1, i1 := channels, Issued();
      ghost var next := if close then Outbound.CloseOp(first.entry) else Outbound.Emitted(first.entry, []);
      DoesNothing(id, m1, i1);
      if close {
        SendClose(id);
      }
      DoesBoth(id, first, next, m0, m1, channels, i0, i1, Issued());
    }

    /** `flush_pending` and `flush_pending_with_writer`. */
    method FlushPending(useWriter: bool, id: nat) returns (r: Result<bool, Outbound.Error>, wrote: nat)
      modifies this`write, this`channels, writer
      ensures r.Ok? && id in old(channels) ==>
        Outbound.FlushOp(Some(old(channels)[id])).Ok?
        && wrote == DataLength(Outbound.FlushOp(Some(old(channels)[id])).value.out)
      ensures Attempts(r, id, Outbound.FlushOp(Lookup(old(channels), id)), old(channels), channels, old(Issued()), Issued())
      ensures r.Err? ==> id in old(channels) && channels == old(channels)[id := Outbound.AfterFailure(old(channels)[id])]
    {
      ghost var m0, i0 := channels, Issued();
      if id !in channels {
        DoesNothing(id, m0, i0);
        return Ok(false), 0;
      }
      var flushed, c := FlushChannel(useWriter, channels[id]);
      if flushed.Err? {
        channels := channels[id := c];
        return Err(flushed.error), 0;
      }
      FlushOpLength(channels[id]);
      if flushed.value.complete {
        channels := channels[id := c.(pendingEof := false, pendingClose := false)];
        ghost var m1, i1 := channels, Issued();
        HandleFlushed(id, c.pendingEof, c.pendingClose);
        FlushedThen(id, m0, m1, channels, i0, i1, Issued());
      } else {
        channels := channels[id := c];
      }
      return Ok(true), flushed.value.wrote;
    }

    /** `data`, `extended_data` and their twins with a writer. */
    method SendData(useWriter: bool, id: nat, stream: Stream, buf0: Bytes, rekeying: bool)
      returns (r: Result<bool, Outbound.Error>)
      modifies this`write, this`channels, writer
      ensures Attempts(r, id, Outbound.DataOp(Lookup(old(channels), id), stream, buf0, rekeying),
                       old(channels), channels, old(Issued()), Issued())
      ensures r.Err? ==> channels == old(channels)
    {
      if id !in channels {
        DoesNothing(id, channels, Issued());
        return Ok(false);
      }
      var c := channels[id];
      if !c.confirmed {
        return Err(Outbound.WrongChannel);
      }
      if c.pending != [] || rekeying {
        channels := channels[id := c.(pending := c.pending + [Outbound.Chunk(buf0, stream, 0)])];
        NoneAdded(Issued());
        return Ok(true);
      }
      Outbound.DataNoQueueWindow(c, buf0, stream, 0);
      var sent := Transmit(useWriter, c, buf0, stream, 0);
      if sent.Err? {
        return Err(sent.error);
      }
      var d := sent.value.params;
      if sent.value.size < |buf0| {
        assert d.pending + [Outbound.Chunk(buf0, stream, sent.value.size)] == [Outbound.Chunk(buf0, stream, sent.value.size)];
        d := d.(pending := d.pending + [Outbound.Chunk(buf0, stream, sent.value.size)]);
      }
      channels := channels[id := d];
      return Ok(true);
    }

    /** `flush`: seal everything staged, in order. */
    method SealStaged()
      modifies this`write, writer
      ensures write == [] && writer.sealed == old(Issued())
    {
      var cursor := 0;
      while cursor < |write|
        invariant cursor <= |write| && write == old(write)
        invariant writer.sealed == old(writer.sealed) + write[..cursor]
      {
        writer.PacketRaw(write[cursor]);
        cursor := cursor + 1;
      }
      write := [];
    }

    /** `flush_all_pending_with_writer` over the channel numbers, in whatever order they come. */
    method FlushAllPending(useWriter: bool, ids: seq<nat>) returns (r: Result<bool, Outbound.Error>)
      modifies this`write, this`channels, writer
      ensures
        var all := FlushAllOp(ids, old(channels));
        && channels == all.channels && Issued() == old(Issued()) + all.out
        && r == if all.failed.Some? then Err(all.failed.value) else Ok(true)
    {
      ghost var whole := FlushAllOp(ids, channels);
      ghost var out: seq<Envelope> := [];
      var k := 0;
      NoneAdded(Issued());
      AllResumesStart(whole);
      while k < |ids|
        invariant k <= |ids|
        invariant AllResumes(whole, out, FlushAllOp(ids[k..], channels))
        invariant Issued() == old(Issued()) + out
      {
        ghost var m := channels;
        var wrote: nat;
        r, wrote := FlushPending(useWriter, ids[k]);
        if r.Err? {
          NoneAdded(out);
          return;
        }
        ghost var e := Outbound.FlushOp(Lookup(m, ids[k])).value;
        assert ids[k..][1..] == ids[k + 1..];
        AllResumesOne(whole, out, ids[k..], m);
        Assoc(old(Issued()), out, Addressed(Recipient(m, ids[k]), e.out));
        out := out + Addressed(Recipient(m, ids[k]), e.out);
        k := k + 1;
      }
      NoneAdded(out);
      r := Ok(true);
    }

    /** `new_channel`: the next free number after `lastId`, wrapping at 32 bits. */
    method NewChannel(lastId: nat, window: nat) returns (id: nat, ghost steps: nat)
      requires lastId <= U32_MAX && |channels| <= U32_MAX
      modifies this`channels
      ensures id !in old(channels) && steps >= 1 && id == After(lastId, steps)
      ensures forall k :: 1 <= k < steps ==> After(lastId, k) in old(channels)
      ensures channels == old(channels)[id := Outbound.Params(0, 0, window, 0, false, [], false, false)]
    {
      ghost var free := FreeNumber(channels.Keys);
      id, steps := After(lastId, 1), 1;
      while id in channels
        invariant steps >= 1 && id == After(lastId, steps) && channels == old(channels)
        invariant forall k :: 1 <= k < steps ==> After(lastId, k) in channels
        decreases Wrap(free - id)
      {
        NextNumber(lastId, steps, free);
        id, steps := Wrap(id + 1), steps + 1;
      }
      channels := channels[id := Outbound.Params(0, 0, window, 0, false, [], false, false)];
    }
  }

  /** The direct path refines the staged one: after a flush, whether or not data could bypass staging,
      what was sealed is what had been issued and then what `DataOp` sends, and the same window and backlog are left. */
  method DirectRefinesStaged(direct: Encrypted, staged: Encrypted, id: nat, stream: Stream, buf: Bytes, rekeying: bool)
    returns (ok: bool)
    requires direct != staged && direct.writer != staged.writer
    requires direct.channels == staged.channels && direct.Issued() == staged.Issued()
    modifies direct, staged, direct.writer, staged.writer
    ensures ok <==> Outbound.DataOp(Lookup(old(direct.channels), id), stream, buf, rekeying).Ok?
    ensures direct.channels == staged.channels && direct.writer.sealed == staged.writer.sealed
    ensures direct.write == [] && staged.write == []
    ensures
      match Outbound.DataOp(Lookup(old(direct.channels), id), stream, buf, rekeying)
      case Err(_) => direct.channels == old(direct.channels) && direct.writer.sealed == old(direct.Issued())
      case Ok(e) =>
        && direct.channels == Store(old(direct.channels), id, e.entry)
        && direct.writer.sealed == old(direct.Issued()) + Addressed(Recipient(old(direct.channels), id), e.out)
  {
    var a := direct.SendData(true, id, stream, buf, rekeying);
    direct.SealStaged();
    var b := staged.SendData(false, id, stream, buf, rekeying);
    staged.SealStaged();
    ok := a.Ok?;
  }

  // ------------------------------------------------------------ all channels

  datatype AllFlushed = AllFlushed(channels: map<nat, Params>, out: seq<Envelope>, failed: Option<Outbound.Error>)

  /** Flushing one channel after another, up to the first that fails. */
  function FlushAllOp(ids: seq<nat>, m: map<nat, Params>): AllFlushed {
    if ids == [] then AllFlushed(m, [], None)
    else
      match Outbound.FlushOp(Lookup(m, ids[0]))
      case Err(e) => AllFlushed(if ids[0] in m then m[ids[0] := Outbound.AfterFailure(m[ids[0]])] else m, [], Some(e))
      case Ok(f) =>
        var rest := FlushAllOp(ids[1..], Store(m, ids[0], f.entry));
        rest.(out := Addressed(Recipient(m, ids[0]), f.out) + rest.out)
  }

  /** How many channels are flushed before the first that fails. */
  function Progress(ids: seq<nat>, m: map<nat, Params>): (k: nat)
    ensures k <= |ids|
  {
    if ids == [] || Outbound.FlushOp(Lookup(m, ids[0])).Err? then 0 else 1 + Progress(ids[1..], m)
  }

  lemma {:induction false} ProgressElsewhere(ids: seq<nat>, m: map<nat, Params>, id: nat, entry: Option<Params>)
    requires id !in ids
    ensures Progress(ids, Store(m, id, entry)) == Progress(ids, m)
  {
    if ids != [] {
      assert Lookup(Store(m, id, entry), ids[0]) == Lookup(m, ids[0]);
      ProgressElsewhere(ids[1..], m, id, entry);
    }
  }

  /** After a rekey every channel before the first failing one has been flushed on its own terms, that one has
      lost the chunk it could not send, and every other is as it was, whatever the order. */
  lemma {:induction false} FlushAllEach(ids: seq<nat>, m: map<nat, Params>, id: nat)
    requires forall i, j :: 0 <= i < j < |ids| ==> ids[i] != ids[j]
    ensures FlushAllOp(ids, m).failed.None? <==> Progress(ids, m) == |ids|
    ensures id in ids[..Progress(ids, m)] ==>
      && Outbound.FlushOp(Lookup(m, id)).Ok?
      && Lookup(FlushAllOp(ids, m).channels, id) == Outbound.FlushOp(Lookup(m, id)).value.entry
    ensures Progress(ids, m) < |ids| && id == ids[Progress(ids, m)] ==>
      && id in m && Outbound.FlushOp(Some(m[id])).Err? && FlushAllOp(ids, m).failed == Some(Outbound.FlushOp(Some(m[id])).error)
      && Lookup(FlushAllOp(ids, m).channels, id) == Some(Outbound.AfterFailure(m[id]))
    ensures id !in ids[..Progress(ids, m)] && (Progress(ids, m) == |ids| || id != ids[Progress(ids, m)]) ==>
      Lookup(FlushAllOp(ids, m).channels, id) == Lookup(m, id)
  {
    if ids != [] && Outbound.FlushOp(Lookup(m, ids[0])).Ok? {
      var f := Outbound.FlushOp(Lookup(m, ids[0])).value;
      var n := Store(m, ids[0], f.entry);
      var k := Progress(ids[1..], m);
      FlushAllEach(ids[1..], n, id);
      ProgressElsewhere(ids[1..], m, ids[0], f.entry);
      assert ids[..k + 1] == [ids[0]] + ids[1..][..k];
      assert ids[0] !in ids[1..];
      assert id != ids[0] ==> Lookup(n, id) == Lookup(m, id);
      assert Lookup(n, ids[0]) == f.entry;
    }
  }

  /** What is left of a flush of all channels once `out` has been issued. */
  predicate AllResumes(whole: AllFlushed, out: seq<Envelope>, rest: AllFlushed) {
    whole == rest.(out := out + rest.out)
  }

  lemma AllResumesStart(whole: AllFlushed)
    ensures AllResumes(whole, [], whole)
  {
    assert [] + whole.out == whole.out;
  }

  lemma AllResumesOne(whole: AllFlushed, out: seq<Envelope>, ids: seq<nat>, m: map<nat, Params>)
    requires AllResumes(whole, out, FlushAllOp(ids, m)) && ids != [] && Outbound.FlushOp(Lookup(m, ids[0])).Ok?
    ensures
      var f := Outbound.FlushOp(Lookup(m, ids[0])).value;
      AllResumes(whole, out + Addressed(Recipient(m, ids[0]), f.out), FlushAllOp(ids[1..], Store(m, ids[0], f.entry)))
  {
    var f := Outbound.FlushOp(Lookup(m, ids[0])).value;
    Assoc(out, Addressed(Recipient(m, ids[0]), f.out), FlushAllOp(ids[1..], Store(m, ids[0], f.entry)).out);
  }

  // --------------------------------------------------------- channel numbers

  function Wrap(n: int): (r: nat)
    ensures r <= U32_MAX
  {
    n % (U32_MAX + 1)
  }

  /** The `k`-th number after `last`. */
  function After(last: nat, k: nat): nat {
    Wrap(last + k)
  }

  /** One step further from `last`, and one step closer to a number not yet reached. */
  lemma NextNumber(last: nat, k: nat, free: nat)
    requires free <= U32_MAX && After(last, k) != free
    ensures Wrap(After(last, k) + 1) == After(last, k + 1)
    ensures Wrap(free - After(last, k + 1)) < Wrap(free - After(last, k))
  {
    var here := After(last, k);
    assert Wrap(here + 1) == if here == U32_MAX then 0 else here + 1;
    assert Wrap(free - here) == if free >= here then free - here else free - here + U32_MAX + 1;
  }

  function Below(n: nat): (r: set<nat>)
    ensures forall k :: k in r ==> k < n
    ensures |r| == n
  {
    if n == 0 then {} else Below(n - 1) + {n - 1}
  }

  /** Fewer than 2^32 channels leave a number free. */
  lemma FreeNumber(used: set<nat>) returns (free: nat)
    requires |used| <= U32_MAX
    ensures free <= U32_MAX && free !in used
  {
    var all := Below(U32_MAX + 1);
    if all <= used {
      SubsetSize(all, used);
      assert false;
    }
    free :| free in all && free !in used;
  }

  lemma {:induction false} SubsetSize(a: set<nat>, b: set<nat>)
    requires a <= b
    ensures |a| <= |b|
  {
    if a != {} {
      var x :| x in a;
      SubsetSize(a - {x}, b - {x});
    }
  }

  function Lookup(m: map<nat, Params>, id: nat): Option<Params> {
    if id in m then Some(m[id]) else None
  }

  function Store(m: map<nat, Params>, id: nat, entry: Option<Params>): map<nat, Params> {
    if entry.Some? then m[id := entry.value] else m - {id}
  }

  function Recipient(m: map<nat, Params>, id: nat): nat {
    if id in m then m[id].recipientChannel else 0
  }

  /** An operation on one channel: its entry becomes `e.entry`, `e.out` is issued for it, nothing else changes. */
  ghost predicate Does(id: nat, e: Outbound.Emitted, before: map<nat, Params>, after: map<nat, Params>,
                       issued: seq<Envelope>, now: seq<Envelope>) {
    && after == Store(before, id, e.entry)
    && now == issued + Addressed(Recipient(before, id), e.out)
  }

  ghost predicate Attempts(r: Result<bool, Outbound.Error>, id: nat, spec: Result<Outbound.Emitted, Outbound.Error>,
                           before: map<nat, Params>, after: map<nat, Params>,
                           issued: seq<Envelope>, now: seq<Envelope>) {
    match spec
    case Err(e) => r.Err? && r.error == e && now == issued
    case Ok(e) => r.Ok? && Does(id, e, before, after, issued, now)
  }

  lemma DoesNothing(id: nat, m: map<nat, Params>, issued: seq<Envelope>)
    ensures Does(id, Outbound.Emitted(Lookup(m, id), []), m, m, issued, issued)
  {
    NoneAdded(issued);
    assert m == Store(m, id, Lookup(m, id));
  }

  /** Two operations on one channel, one after the other. */
  lemma DoesBoth(id: nat, a: Outbound.Emitted, b: Outbound.Emitted,
                 m0: map<nat, Params>, m1: map<nat, Params>, m2: map<nat, Params>,
                 i0: seq<Envelope>, i1: seq<Envelope>, i2: seq<Envelope>)
    requires Does(id, a, m0, m1, i0, i1) && Does(id, b, m1, m2, i1, i2)
    requires b.out == [] || Recipient(m1, id) == Recipient(m0, id)
    ensures Does(id, Outbound.Emitted(b.entry, a.out + b.out), m0, m2, i0, i2)
  {
    var to := Recipient(m0, id);
    AddressedConcat(to, a.out, b.out);
    assert b.out == [] ==> Addressed(Recipient(m1, id), b.out) == Addressed(to, b.out);
    Assoc(i0, Addressed(to, a.out), Addressed(to, b.out));
    assert m2 == Store(m0, id, b.entry);
  }

  /** Deferred controls carry no data. */
  lemma FlushOpLength(c: Params)
    requires Outbound.FlushData(c).Ok?
    ensures Outbound.FlushOp(Some(c)).Ok?
    ensures DataLength(Outbound.FlushOp(Some(c)).value.out) == DataLength(Outbound.FlushData(c).value.out)
  {
    var f := Outbound.FlushData(c).value;
    if f.complete {
      var taken := f.params.(pendingEof := false, pendingClose := false);
      var eof := if f.params.pendingEof then Outbound.EofOp(Some(taken)) else Outbound.Emitted(Some(taken), []);
      var close := if f.params.pendingClose then Outbound.CloseOp(eof.entry) else Outbound.Emitted(eof.entry, []);
      ControlFolds(eof.out);
      ControlFolds(close.out);
      PayloadsConcat(f.out, eof.out);
      PayloadsConcat(f.out + eof.out, close.out);
    }
  }

  /** The flush, then the deferred controls: together `FlushOp`. */
  lemma FlushedThen(id: nat, m0: map<nat, Params>, m1: map<nat, Params>, m2: map<nat, Params>,
                    i0: seq<Envelope>, i1: seq<Envelope>, i2: seq<Envelope>)
    requires id in m0 && Outbound.FlushData(m0[id]).Ok? && Outbound.FlushData(m0[id]).value.complete
    requires
      var f := Outbound.FlushData(m0[id]).value;
      var taken := f.params.(pendingEof := false, pendingClose := false);
      var first := if f.params.pendingEof then Outbound.EofOp(Some(taken)) else Outbound.Emitted(Some(taken), []);
      var next := if f.params.pendingClose then Outbound.CloseOp(first.entry) else Outbound.Emitted(first.entry, []);
      && Does(id, Outbound.Emitted(Some(taken), f.out), m0, m1, i0, i1)
      && Does(id, Outbound.Emitted(next.entry, first.out + next.out), m1, m2, i1, i2)
      && f.params.recipientChannel == m0[id].recipientChannel
    ensures Does(id, Outbound.FlushOp(Some(m0[id])).value, m0, m2, i0, i2)
  {
    var f := Outbound.FlushData(m0[id]).value;
    var taken := f.params.(pendingEof := false, pendingClose := false);
    var first := if f.params.pendingEof then Outbound.EofOp(Some(taken)) else Outbound.Emitted(Some(taken), []);
    var next := if f.params.pendingClose then Outbound.CloseOp(first.entry) else Outbound.Emitted(first.entry, []);
    DoesBoth(id, Outbound.Emitted(Some(taken), f.out), Outbound.Emitted(next.entry, first.out + next.out), m0, m1, m2, i0, i1, i2);
    Assoc(f.out, first.out, next.out);
  }

  /** The bytes counted as written are the bytes in the packets. */
  lemma WroteMore(out: seq<Packet>, c: Params, head: Outbound.Chunk)
    requires Outbound.DataNoQueue(c, head.bytes, head.stream, head.from).Ok?
    ensures
      var s := Outbound.DataNoQueue(c, head.bytes, head.stream, head.from).value;
      DataLength(out + s.out) == DataLength(out) + s.size
  {
    Outbound.DataNoQueuePackets(c, head.bytes, head.stream, head.from);
    PayloadsConcat(out, Outbound.DataNoQueue(c, head.bytes, head.stream, head.from).value.out);
  }

  /** The channel after `flush_channel`, whether the whole backlog went out, and how many bytes did. */
  datatype Flush = Flush(params: Params, complete: bool, wrote: nat)

  predicate Flushes(r: Result<Flush, Outbound.Error>, spec: Result<Outbound.Flushed, Outbound.Error>) {
    match spec
    case Err(e) => r.Err? && r.error == e
    case Ok(f) => r.Ok? && r.value.params == f.params && r.value.complete == f.complete
  }

  /** What the oldest chunk of a channel sends. */
  function HeadSent(c: Params): Result<Outbound.Sent, Outbound.Error>
    requires c.pending != []
  {
    Outbound.DataNoQueue(c.(pending := c.pending[1..]), c.pending[0].bytes, c.pending[0].stream, c.pending[0].from)
  }

  lemma HeadKeeps(c: Params)
    requires c.pending != [] && HeadSent(c).Ok?
    ensures HeadSent(c).value.params.recipientChannel == c.recipientChannel
    ensures HeadSent(c).value.params.recipientMax == c.recipientMax
    ensures |HeadSent(c).value.params.pending| < |c.pending|
  {
  }

  /** One round of the flush loop that agrees with the specification. */
  predicate Heads(r: Result<Flush, Outbound.Error>, c: Params)
    requires c.pending != []
  {
    match HeadSent(c)
    case Err(e) => r.Err? && r.error == e
    case Ok(s) =>
      && r.Ok? && r.value.wrote == s.size
      && (r.value.complete <==> c.pending[0].from + s.size >= |c.pending[0].bytes|)
      && (r.value.complete ==> r.value.params == s.params)
      && (!r.value.complete ==>
            r.value.params == s.params.(pending := [c.pending[0].(from := c.pending[0].from + s.size)] + c.pending[1..]))
  }

  /** A finished flush: state, result and packets are those of the specification. */
  ghost predicate FlushedAs(channel: Params, r: Result<Flush, Outbound.Error>, c: Params,
                            before: seq<Envelope>, after: seq<Envelope>) {
    && Flushes(r, Outbound.FlushData(channel))
    && (r.Err? ==> c == Outbound.AfterFailure(channel) && after == before)
    && (r.Ok? ==>
          && r.value.params == c && c.recipientChannel == channel.recipientChannel
          && r.value.wrote == DataLength(Outbound.FlushData(channel).value.out)
          && after == before + Addressed(channel.recipientChannel, Outbound.FlushData(channel).value.out))
  }

  /** As long as the peer takes packets of no size, only chunks without unsent bytes have been popped. */
  predicate Fruitless(channel: Params, c: Params, out: seq<Packet>) {
    channel.recipientMax == 0 ==> out == [] && Outbound.AfterFailure(c) == Outbound.AfterFailure(channel)
  }

  /** Between two rounds: `out` went out so far, and `c` is left to flush. */
  ghost predicate Midflush(channel: Params, c: Params, out: seq<Packet>, wrote: nat, before: seq<Envelope>, now: seq<Envelope>) {
    && c.recipientChannel == channel.recipientChannel && c.recipientMax == channel.recipientMax
    && wrote == DataLength(out)
    && Fruitless(channel, c, out)
    && Resumes(Outbound.FlushData(channel), out, Outbound.FlushData(c))
    && now == before + Addressed(channel.recipientChannel, out)
  }

  lemma FruitlessStep(channel: Params, c: Params, out: seq<Packet>)
    requires c.recipientMax == channel.recipientMax && Fruitless(channel, c, out) && c.pending != []
    ensures HeadSent(c).Err? ==> out == [] && c.(pending := c.pending[1..]) == Outbound.AfterFailure(channel)
    ensures HeadSent(c).Ok? ==> Fruitless(channel, HeadSent(c).value.params, out + HeadSent(c).value.out)
  {
  }

  /** One round leads on, or to the end. */
  lemma MidflushStep(channel: Params, c: Params, out: seq<Packet>, wrote: nat, before: seq<Envelope>, now: seq<Envelope>,
                     r: Result<Flush, Outbound.Error>, after: seq<Envelope>)
    requires Midflush(channel, c, out, wrote, before, now) && c.pending != [] && Heads(r, c)
    requires r.Err? ==> after == now
    requires r.Ok? ==> after == now + Addressed(c.recipientChannel, HeadSent(c).value.out)
    ensures r.Err? ==> FlushedAs(channel, r, c.(pending := c.pending[1..]), before, after)
    ensures r.Ok? && !r.value.complete ==>
      FlushedAs(channel, Ok(r.value.(wrote := wrote + r.value.wrote)), r.value.params, before, after)
    ensures r.Ok? && r.value.complete ==>
      && Midflush(channel, r.value.params, out + HeadSent(c).value.out, wrote + r.value.wrote, before, after)
      && |r.value.params.pending| < |c.pending|
  {
    FruitlessStep(channel, c, out);
    if r.Ok? {
      HeadKeeps(c);
      WroteMore(out, c.(pending := c.pending[1..]), c.pending[0]);
      IssuedMore(before, channel.recipientChannel, out, HeadSent(c).value.out);
      if r.value.complete {
        ResumesOne(Outbound.FlushData(channel), out, c);
      } else {
        assert Outbound.FlushData(c) == Ok(Outbound.Flushed(r.value.params, HeadSent(c).value.out, false));
      }
    } else {
      NoneAdded(before);
    }
  }

  /** The flush `whole` is what was sent so far followed by the flush of what is left. */
  predicate Resumes(whole: Result<Outbound.Flushed, Outbound.Error>, out: seq<Packet>,
                    rest: Result<Outbound.Flushed, Outbound.Error>) {
    match rest
    case Err(e) => whole == Err(e)
    case Ok(f) => whole == Ok(f.(out := out + f.out))
  }

  lemma ResumesStart(whole: Result<Outbound.Flushed, Outbound.Error>)
    ensures Resumes(whole, [], whole)
  {
    if whole.Ok? {
      assert [] + whole.value.out == whole.value.out;
    }
  }

  lemma ResumesOne(whole: Result<Outbound.Flushed, Outbound.Error>, out: seq<Packet>, c: Params)
    requires Resumes(whole, out, Outbound.FlushData(c)) && c.pending != []
    requires
      var head := c.pending[0];
      var sent := Outbound.DataNoQueue(c.(pending := c.pending[1..]), head.bytes, head.stream, head.from);
      sent.Ok? && head.from + sent.value.size >= |head.bytes|
    ensures
      var head := c.pending[0];
      var sent := Outbound.DataNoQueue(c.(pending := c.pending[1..]), head.bytes, head.stream, head.from).value;
      Resumes(whole, out + sent.out, Outbound.FlushData(sent.params))
  {
    var head := c.pending[0];
    var sent := Outbound.DataNoQueue(c.(pending := c.pending[1..]), head.bytes, head.stream, head.from).value;
    var more := Outbound.FlushData(sent.params);
    if more.Ok? {
      Assoc(out, sent.out, more.value.out);
    }
  }
}
