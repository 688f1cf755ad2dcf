/**
 The sending half of a channel: how `Encrypted` cuts data into packets under the
 peer's window, parks what does not fit, and replays it (russh/src/session.rs).
 The functions give the new channel entry and the packets emitted; class
 `Encrypted` runs the same operations imperatively.
 */
module Outbound {
  import opened Common
  import opened Protocol

  /** An entry of `pending_data`: buffer, stream, and the offset already sent. */
  datatype Chunk = Chunk(bytes: seq<Byte>, stream: Stream, from: nat)

  /** `ChannelParams`. */
  datatype Params = Params(
    recipientChannel: nat,
    recipientWindow: nat,
    senderWindow: nat,
    recipientMax: nat,
    confirmed: bool,
    pending: seq<Chunk>,
    pendingEof: bool,
    pendingClose: bool)

  datatype Error = Inconsistent | WrongChannel

  /** What an operation leaves behind: the entry (`None` once removed) and the packets it emitted. */
  datatype Emitted = Emitted(entry: Option<Params>, out: seq<Packet>)

  /** Bytes of a parked chunk that are still to be sent. */
  function Unsent(c: Chunk): seq<Tagged> {
    if c.from >= |c.bytes| then [] else Tag(c.stream, c.bytes[c.from..])
  }

  function Backlog(pending: seq<Chunk>): seq<Tagged> {
    if pending == [] then [] else Unsent(pending[0]) + Backlog(pending[1..])
  }

  /** `pending_data_bytes`. */
  function PendingBytes(pending: seq<Chunk>): nat {
    |Backlog(pending)|
  }

  lemma {:induction false} BacklogAppend(pending: seq<Chunk>, c: Chunk)
    ensures Backlog(pending + [c]) == Backlog(pending) + Unsent(c)
  {
    var all := pending + [c];
    if pending == [] {
      assert all[0] == c && all[1..] == [];
      assert Unsent(c) + [] == Unsent(c) == [] + Unsent(c);
    } else {
      BacklogAppend(pending[1..], c);
      assert all[0] == pending[0] && all[1..] == pending[1..] + [c];
      Assoc(Unsent(pending[0]), Backlog(pending[1..]), Unsent(c));
    }
  }

  /** The packet loop of `data_noqueue`: pieces of at most `max` bytes. */
  function Pieces(stream: Stream, bytes: seq<Byte>, max: nat): seq<Packet>
    requires max > 0
    decreases |bytes|
  {
    if bytes == [] then []
    else
      var n := Min(|bytes|, max);
      [Data(stream, bytes[..n])] + Pieces(stream, bytes[n..], max)
  }

  /** Every packet is a data packet of 1 to `max` bytes. */
  predicate WellSized(ps: seq<Packet>, max: nat) {
    forall i :: 0 <= i < |ps| ==> ps[i].Data? && 1 <= |ps[i].bytes| <= max
  }

  lemma {:induction false} PiecesWellSized(stream: Stream, bytes: seq<Byte>, max: nat)
    requires max > 0
    ensures WellSized(Pieces(stream, bytes, max), max)
    decreases |bytes|
  {
    if bytes != [] {
      PiecesWellSized(stream, bytes[Min(|bytes|, max)..], max);
    }
  }

  lemma {:induction false} DataOnly(ps: seq<Packet>)
    requires forall i :: 0 <= i < |ps| ==> ps[i].Data?
    ensures Grants(ps) == 0 && Eofs(ps) == 0
  {
    if ps != [] {
      DataOnly(ps[1..]);
    }
  }

  lemma {:induction false} PiecesPayloads(stream: Stream, bytes: seq<Byte>, max: nat)
    requires max > 0
    ensures Payloads(Pieces(stream, bytes, max)) == Tag(stream, bytes)
    decreases |bytes|
  {
    if bytes != [] {
      var n := Min(|bytes|, max);
      var head := Data(stream, bytes[..n]);
      var rest := Pieces(stream, bytes[n..], max);
      PiecesPayloads(stream, bytes[n..], max);
      Singleton(head);
      PayloadsConcat([head], rest);
      TagSplit(stream, bytes, n);
    }
  }

  /** Every packet but the last is as large as the peer admits. */
  lemma {:induction false} PiecesFull(stream: Stream, bytes: seq<Byte>, max: nat, i: nat)
    requires max > 0 && i < |Pieces(stream, bytes, max)|
    ensures var p := Pieces(stream, bytes, max)[i]; p.Data? && p.stream == stream && |p.bytes| <= max
    ensures i < |Pieces(stream, bytes, max)| - 1 ==> |Pieces(stream, bytes, max)[i].bytes| == max
    decreases |bytes|
  {
    var n := Min(|bytes|, max);
    if i > 0 {
      PiecesFull(stream, bytes[n..], max, i - 1);
    }
  }

  datatype Sent = Sent(params: Params, out: seq<Packet>, size: nat)

  /** `data_noqueue`: send as much of `bytes[from..]` as the window admits. */
  function DataNoQueue(c: Params, bytes: seq<Byte>, stream: Stream, from: nat): Result<Sent, Error> {
    if from >= |bytes| then Ok(Sent(c, [], 0))
    else if c.recipientMax == 0 then Err(Inconsistent)
    else
      var end := Min(|bytes|, from + c.recipientWindow);
      Ok(Sent(
        c.(recipientWindow := c.recipientWindow - (end - from)),
        Pieces(stream, bytes[from..end], c.recipientMax),
        end - from))
  }

  datatype Flushed = Flushed(params: Params, out: seq<Packet>, complete: bool)

  /** `flush_channel` up to the point where the deferred controls are taken. */
  function FlushData(c: Params): Result<Flushed, Error>
    decreases |c.pending|
  {
    if c.pending == [] then Ok(Flushed(c, [], true))
    else
      var head, rest := c.pending[0], c.pending[1..];
      match DataNoQueue(c.(pending := rest), head.bytes, head.stream, head.from)
      case Err(e) => Err(e)
      case Ok(sent) =>
        if head.from + sent.size < |head.bytes| then
          Ok(Flushed(
            sent.params.(pending := [head.(from := head.from + sent.size)] + rest),
            sent.out,
            false))
        else
          match FlushData(sent.params)
          case Err(e) => Err(e)
          case Ok(more) => Ok(more.(out := sent.out + more.out))
  }

  /** What a flush that fails leaves behind: it has popped every chunk up to the one it could not send. */
  function AfterFailure(c: Params): Params
    decreases |c.pending|
  {
    if c.pending == [] then c
    else
      var rest := c.(pending := c.pending[1..]);
      if c.pending[0].from < |c.pending[0].bytes| then rest else AfterFailure(rest)
  }

  /** A flush fails only for a packet size of zero, and then the first chunk with bytes left is lost, with the
      finished chunks before it. */
  lemma {:induction false} FailureLosesOne(c: Params) returns (k: nat)
    requires FlushData(c).Err?
    ensures c.recipientMax == 0 && k < |c.pending| && c.pending[k].from < |c.pending[k].bytes|
    ensures forall i :: 0 <= i < k ==> c.pending[i].from >= |c.pending[i].bytes|
    ensures AfterFailure(c) == c.(pending := c.pending[k + 1..])
    decreases |c.pending|
  {
    if c.recipientMax > 0 {
      FlushDataWindow(c);
      assert false;
    }
    var rest := c.(pending := c.pending[1..]);
    if c.pending[0].from < |c.pending[0].bytes| {
      k := 0;
    } else {
      var j := FailureLosesOne(rest);
      k := j + 1;
      assert rest.pending[j + 1..] == c.pending[k + 1..];
    }
  }

  /** `eof`: deferred behind parked data, otherwise sent at once. */
  function EofOp(entry: Option<Params>): Emitted {
    match entry
    case None => Emitted(None, [])
    case Some(c) =>
      if c.pending != [] then Emitted(Some(c.(pendingEof := true)), [])
      else Emitted(Some(c), [Eof])
  }

  /** `close`: deferred behind parked data, otherwise sent at once and the entry removed. */
  function CloseOp(entry: Option<Params>): Emitted {
    match entry
    case None => Emitted(None, [])
    case Some(c) =>
      if c.pending != [] then Emitted(Some(c.(pendingClose := true)), [])
      else Emitted(None, [Close])
  }

  /** `close_discarding_pending`. */
  function CloseDiscarding(entry: Option<Params>): Emitted {
    match entry
    case None => Emitted(None, [])
    case Some(_) => Emitted(None, [Close])
  }

  /** `flush_pending` / `flush_pending_with_writer`: replay data, then the deferred controls. */
  function FlushOp(entry: Option<Params>): Result<Emitted, Error> {
    match entry
    case None => Ok(Emitted(None, []))
    case Some(c) =>
      match FlushData(c)
      case Err(e) => Err(e)
      case Ok(f) =>
        if !f.complete then Ok(Emitted(Some(f.params), f.out))
        else
          var taken := f.params.(pendingEof := false, pendingClose := false);
          var eof := if f.params.pendingEof then EofOp(Some(taken)) else Emitted(Some(taken), []);
          var close := if f.params.pendingClose then CloseOp(eof.entry) else Emitted(eof.entry, []);
          Ok(Emitted(close.entry, f.out + eof.out + close.out))
  }

  /** `data` / `extended_data` (either writer path). */
  function DataOp(entry: Option<Params>, stream: Stream, bytes: seq<Byte>, rekeying: bool)
    : Result<Emitted, Error>
  {
    match entry
    case None => Ok(Emitted(None, []))
    case Some(c) =>
      if !c.confirmed then Err(WrongChannel)
      else if c.pending != [] || rekeying then
        Ok(Emitted(Some(c.(pending := c.pending + [Chunk(bytes, stream, 0)])), []))
      else
        match DataNoQueue(c, bytes, stream, 0)
        case Err(e) => Err(e)
        case Ok(sent) =>
          if sent.size < |bytes| then
            Ok(Emitted(Some(sent.params.(pending := [Chunk(bytes, stream, sent.size)])), sent.out))
          else
            Ok(Emitted(Some(sent.params), sent.out))
  }

  /** The CHANNEL_WINDOW_ADJUST arm: widen the window, then replay. */
  function AdjustOp(entry: Option<Params>, amount: nat): Result<Emitted, Error> {
    match entry
    case None => Ok(Emitted(None, []))
    case Some(c) => FlushOp(Some(c.(recipientWindow := SaturatingAdd(c.recipientWindow, amount))))
  }

  /** `consume_recv_window`. */
  function Consume(c: Params, len: nat): Params {
    if len % (U32_MAX + 1) <= c.senderWindow
    then c.(senderWindow := c.senderWindow - len % (U32_MAX + 1))
    else c
  }

  /** `maybe_grant_recv_window`. */
  function Grant(entry: Option<Params>, target: nat, undelivered: nat): Emitted {
    var ceiling := SaturatingSub(target, undelivered);
    match entry
    case None => Emitted(None, [])
    case Some(c) =>
      if c.senderWindow < ceiling / 2 then
        Emitted(Some(c.(senderWindow := ceiling)), [Adjust(ceiling - c.senderWindow)])
      else Emitted(Some(c), [])
  }

  // ------------------------------------------------------------ one operation

  lemma UnsentSplit(bytes: seq<Byte>, stream: Stream, from: nat, n: nat)
    requires from + n <= |bytes|
    ensures Unsent(Chunk(bytes, stream, from))
         == Tag(stream, bytes[from..from + n]) + Unsent(Chunk(bytes, stream, from + n))
  {
    TagSplit(stream, bytes[from..], n);
    assert bytes[from..][..n] == bytes[from..from + n];
    assert bytes[from..][n..] == bytes[from + n..];
  }

  /** `data_noqueue` fails only on a zero packet size, and spends exactly the window it uses. */
  lemma DataNoQueueWindow(c: Params, bytes: seq<Byte>, stream: Stream, from: nat)
    ensures DataNoQueue(c, bytes, stream, from).Err? <==> from < |bytes| && c.recipientMax == 0
    ensures DataNoQueue(c, bytes, stream, from).Ok? ==>
      var s := DataNoQueue(c, bytes, stream, from).value;
      && s.params == c.(recipientWindow := s.params.recipientWindow)
      && s.size == (if from >= |bytes| then 0 else Min(|bytes| - from, c.recipientWindow))
      && s.params.recipientWindow + s.size == c.recipientWindow
  {
  }

  /** `data_noqueue` emits legal data packets that carry exactly the bytes it counts as sent. */
  lemma DataNoQueuePackets(c: Params, bytes: seq<Byte>, stream: Stream, from: nat)
    requires DataNoQueue(c, bytes, stream, from).Ok?
    ensures
      var s := DataNoQueue(c, bytes, stream, from).value;
      && WellSized(s.out, c.recipientMax)
      && DataLength(s.out) == s.size
      && Unsent(Chunk(bytes, stream, from)) == Payloads(s.out) + Unsent(Chunk(bytes, stream, from + s.size))
  {
    if from < |bytes| {
      var s := DataNoQueue(c, bytes, stream, from).value;
      var part := bytes[from..from + s.size];
      assert s.out == Pieces(stream, part, c.recipientMax);
      PiecesPayloads(stream, part, c.recipientMax);
      PiecesWellSized(stream, part, c.recipientMax);
      UnsentSplit(bytes, stream, from, s.size);
    }
  }

  /** `flush_channel` stops early exactly when the window runs dry. */
  lemma {:induction false} FlushDataWindow(c: Params)
    requires c.recipientMax > 0
    ensures FlushData(c).Ok?
    ensures
      var f := FlushData(c).value;
      && f.params == c.(pending := f.params.pending, recipientWindow := f.params.recipientWindow)
      && (f.complete <==> f.params.pending == [])
      && (!f.complete ==> f.params.recipientWindow == 0
                          && f.params.pending[0].from < |f.params.pending[0].bytes|)
    decreases |c.pending|
  {
    if c.pending != [] {
      var head, rest := c.pending[0], c.pending[1..];
      DataNoQueueWindow(c.(pending := rest), head.bytes, head.stream, head.from);
      var sent := DataNoQueue(c.(pending := rest), head.bytes, head.stream, head.from).value;
      if head.from + sent.size >= |head.bytes| {
        FlushDataWindow(sent.params);
      }
    }
  }

  /** The oldest chunk stays, shortened: what was sent and what is left of it are the old chunk. */
  lemma PartialPayload(c: Params, out: seq<Packet>, moved: Chunk)
    requires c.pending != [] && Unsent(c.pending[0]) == Payloads(out) + Unsent(moved)
    ensures Payloads(out) + Backlog([moved] + c.pending[1..]) == Backlog(c.pending)
  {
    var rest := c.pending[1..];
    assert ([moved] + rest)[1..] == rest;
    Assoc(Payloads(out), Unsent(moved), Backlog(rest));
  }

  /** The oldest chunk is gone: what was sent of it, then what the rest sends and keeps. */
  lemma WholePayload(c: Params, out: seq<Packet>, moved: Chunk, more: seq<Packet>, left: seq<Chunk>)
    requires c.pending != [] && Unsent(c.pending[0]) == Payloads(out) + Unsent(moved) && Unsent(moved) == []
    requires Payloads(more) + Backlog(left) == Backlog(c.pending[1..])
    ensures Payloads(out + more) + Backlog(left) == Backlog(c.pending)
  {
    PayloadsConcat(out, more);
    Assoc(Payloads(out), Payloads(more), Backlog(left));
    assert Unsent(c.pending[0]) == Payloads(out);
  }

  /** `flush_channel` loses nothing and reorders nothing. */
  lemma {:induction false} FlushDataPayload(c: Params)
    requires c.recipientMax > 0
    requires FlushData(c).Ok?
    ensures Payloads(FlushData(c).value.out) + Backlog(FlushData(c).value.params.pending) == Backlog(c.pending)
    decreases |c.pending|
  {
    if c.pending != [] {
      var head, rest := c.pending[0], c.pending[1..];
      var d := c.(pending := rest);
      DataNoQueuePackets(d, head.bytes, head.stream, head.from);
      DataNoQueueWindow(d, head.bytes, head.stream, head.from);
      var sent := DataNoQueue(d, head.bytes, head.stream, head.from).value;
      var moved := Chunk(head.bytes, head.stream, head.from + sent.size);
      if head.from + sent.size < |head.bytes| {
        PartialPayload(c, sent.out, moved);
        assert FlushData(c) == Ok(Flushed(sent.params.(pending := [moved] + rest), sent.out, false));
      } else {
        FlushDataPayload(sent.params);
        var more := FlushData(sent.params).value;
        WholePayload(c, sent.out, moved, more.out, more.params.pending);
        assert FlushData(c) == Ok(more.(out := sent.out + more.out));
      }
    }
  }

  lemma {:induction false} FlushDataSpends(c: Params)
    requires c.recipientMax > 0
    requires FlushData(c).Ok?
    ensures FlushData(c).value.params.recipientWindow + DataLength(FlushData(c).value.out) == c.recipientWindow
    decreases |c.pending|
  {
    if c.pending != [] {
      var head, rest := c.pending[0], c.pending[1..];
      var d := c.(pending := rest);
      DataNoQueueWindow(d, head.bytes, head.stream, head.from);
      DataNoQueuePackets(d, head.bytes, head.stream, head.from);
      var sent := DataNoQueue(d, head.bytes, head.stream, head.from).value;
      if head.from + sent.size >= |head.bytes| {
        FlushDataSpends(sent.params);
        PayloadsConcat(sent.out, FlushData(sent.params).value.out);
      }
    }
  }

  lemma {:induction false} FlushDataPackets(c: Params)
    requires c.recipientMax > 0
    requires FlushData(c).Ok?
    ensures WellSized(FlushData(c).value.out, c.recipientMax)
    decreases |c.pending|
  {
    if c.pending != [] {
      var head, rest := c.pending[0], c.pending[1..];
      var d := c.(pending := rest);
      DataNoQueueWindow(d, head.bytes, head.stream, head.from);
      DataNoQueuePackets(d, head.bytes, head.stream, head.from);
      var sent := DataNoQueue(d, head.bytes, head.stream, head.from).value;
      if head.from + sent.size >= |head.bytes| {
        FlushDataPackets(sent.params);
      }
    }
  }

  /** The flush completes exactly when the whole backlog fits the window. */
  lemma FlushDataCompletes(c: Params)
    requires c.recipientMax > 0
    ensures FlushData(c).Ok?
    ensures FlushData(c).value.complete <==> PendingBytes(c.pending) <= c.recipientWindow
  {
    FlushDataWindow(c);
    FlushDataPayload(c);
    FlushDataSpends(c);
    var f := FlushData(c).value;
    if !f.complete {
      assert |Unsent(f.params.pending[0])| > 0;
    }
  }

  /** The packets one operation emits: data first, then at most one EOF, then at most one CLOSE. */
  predicate Shaped(out: seq<Packet>, max: nat, data: seq<Packet>, eof: bool, close: bool) {
    && WellSized(data, max)
    && out == data + (if eof then [Eof] else []) + (if close then [Close] else [])
  }

  lemma ShapedFolds(out: seq<Packet>, max: nat, data: seq<Packet>, eof: bool, close: bool)
    requires Shaped(out, max, data, eof, close)
    ensures Payloads(out) == Payloads(data)
    ensures Grants(out) == 0
    ensures Eofs(out) == if eof then 1 else 0
  {
    var e: seq<Packet> := if eof then [Eof] else [];
    var k: seq<Packet> := if close then [Close] else [];
    DataOnly(data);
    Singleton(Eof);
    Singleton(Close);
    PayloadsConcat(data + e, k);
    PayloadsConcat(data, e);
    GrantsConcat(data + e, k);
    GrantsConcat(data, e);
    EofsConcat(data + e, k);
    EofsConcat(data, e);
  }

  /** `flush_pending` emits a deferred EOF or CLOSE exactly once, after all queued data. */
  lemma FlushOpPackets(c: Params)
    requires c.recipientMax > 0
    ensures FlushOp(Some(c)).Ok? && FlushData(c).Ok?
    ensures
      var done := PendingBytes(c.pending) <= c.recipientWindow;
      Shaped(FlushOp(Some(c)).value.out, c.recipientMax, FlushData(c).value.out,
             done && c.pendingEof, done && c.pendingClose)
  {
    FlushDataWindow(c);
    FlushDataCompletes(c);
    FlushDataPackets(c);
    var out := FlushData(c).value.out;
    assert out + [] == out;
  }

  /** `flush_pending` on the channel entry: the backlog shrinks by what was sent, or the entry is gone. */
  lemma FlushOpEntry(c: Params)
    requires c.recipientMax > 0
    ensures FlushOp(Some(c)).Ok?
    ensures
      var r := FlushOp(Some(c)).value;
      var done := PendingBytes(c.pending) <= c.recipientWindow;
      && (r.entry.None? <==> done && c.pendingClose)
      && (r.entry.None? ==> Payloads(r.out) == Backlog(c.pending))
      && (r.entry.Some? ==>
            var d := r.entry.value;
            && d == c.(pending := d.pending, recipientWindow := d.recipientWindow,
                       pendingEof := c.pendingEof && !done, pendingClose := c.pendingClose && !done)
            && (done <==> d.pending == [])
            && (d.pending != [] ==> d.recipientWindow == 0)
            && Payloads(r.out) + Backlog(d.pending) == Backlog(c.pending)
            && d.recipientWindow + DataLength(r.out) == c.recipientWindow)
  {
    FlushDataWindow(c);
    FlushDataCompletes(c);
    FlushDataPayload(c);
    FlushDataSpends(c);
    FlushOpPackets(c);
    var f := FlushData(c).value;
    var done := PendingBytes(c.pending) <= c.recipientWindow;
    ShapedFolds(FlushOp(Some(c)).value.out, c.recipientMax, f.out, done && c.pendingEof, done && c.pendingClose);
    assert f.complete ==> Payloads(f.out) + Backlog(f.params.pending) == Payloads(f.out);
  }

  /** `data` either parks the bytes or sends a prefix: packets legal, window spent exactly. */
  lemma DataOpEntry(c: Params, stream: Stream, bytes: seq<Byte>, rekeying: bool)
    requires c.recipientMax > 0 && c.confirmed
    ensures DataOp(Some(c), stream, bytes, rekeying).Ok?
    ensures
      var r := DataOp(Some(c), stream, bytes, rekeying).value;
      && r.entry.Some?
      && var d := r.entry.value;
      && d == c.(pending := d.pending, recipientWindow := d.recipientWindow)
      && WellSized(r.out, c.recipientMax)
      && d.recipientWindow + DataLength(r.out) == c.recipientWindow
      && (c.pending != [] || rekeying ==> d.recipientWindow == c.recipientWindow)
      && (d.pending != [] && c.pending == [] && !rekeying ==> d.recipientWindow == 0)
      && (c.pending != [] ==> d.pending != [])
  {
    if !(c.pending != [] || rekeying) {
      DataNoQueueWindow(c, bytes, stream, 0);
      DataNoQueuePackets(c, bytes, stream, 0);
    }
  }

  lemma DataOpSentPayload(c: Params, stream: Stream, bytes: seq<Byte>)
    requires c.recipientMax > 0 && c.confirmed && c.pending == []
    requires DataOp(Some(c), stream, bytes, false).Ok?
    requires DataOp(Some(c), stream, bytes, false).value.entry.Some?
    ensures
      var r := DataOp(Some(c), stream, bytes, false).value;
      Payloads(r.out) + Backlog(r.entry.value.pending) == Unsent(Chunk(bytes, stream, 0))
  {
    var r := DataOp(Some(c), stream, bytes, false).value;
    DataNoQueueWindow(c, bytes, stream, 0);
    DataNoQueuePackets(c, bytes, stream, 0);
    var left := Chunk(bytes, stream, DataNoQueue(c, bytes, stream, 0).value.size);
    if left.from < |bytes| {
      assert [left][1..] == [];
      assert r.entry.value.pending == [left];
      assert Backlog([left]) == Unsent(left);
    }
  }

  /** `data`: the new bytes join the end of the outbound stream, behind everything parked. */
  lemma DataOpPayload(c: Params, stream: Stream, bytes: seq<Byte>, rekeying: bool)
    requires c.recipientMax > 0 && c.confirmed
    requires DataOp(Some(c), stream, bytes, rekeying).Ok?
    requires DataOp(Some(c), stream, bytes, rekeying).value.entry.Some?
    ensures
      var r := DataOp(Some(c), stream, bytes, rekeying).value;
      Payloads(r.out) + Backlog(r.entry.value.pending) == Backlog(c.pending) + Tag(stream, bytes)
  {
    var added := Chunk(bytes, stream, 0);
    assert Unsent(added) == Tag(stream, bytes) by {
      assert bytes[0..] == bytes;
    }
    if c.pending != [] || rekeying {
      BacklogAppend(c.pending, added);
    } else {
      DataOpSentPayload(c, stream, bytes);
    }
  }
}
