/**
 One endpoint's state for one channel, and the session steps that act on it:
 the packet arms of russh/src/client/encrypted.rs, `pump_inbound` and teardown of
 russh/src/client/mod.rs, and the calls of russh/src/client/session.rs.
 Each step covers one iteration of the session loop.
 */
module Channel {
  import opened Common
  import opened Protocol
  import Outbound
  import opened Inbound

  datatype Config = Config(window: nat, maxPendingInbound: nat, maxPendingOutbound: nat)

  datatype Chan = Chan(
    config: Config,
    entry: Option<Outbound.Params>,
    app: App,
    inbound: Option<Queue>,
    reserves: seq<nat>,
    rekeying: bool)

  /**
   The outcome of a step: new state, packets put on the wire, items put into the
   application buffer, and whether parked producers were failed.
   */
  datatype Effect = Effect(chan: Chan, out: seq<Packet>, handed: seq<Packet>, failAcks: bool)

  type Outcome = Result<Effect, Outbound.Error>

  /** `finalize_close`. */
  function FinalizeClose(ch: Chan): Chan {
    ch.(inbound := None, app := ch.app.(present := false), entry := None)
  }

  /** `maybe_grant_after_delivery`: undelivered bytes keep occupying the window. */
  function GrantAfterDelivery(ch: Chan): Outbound.Emitted {
    Outbound.Grant(ch.entry, ch.config.window, Min(PendingBytes(ch.inbound), U32_MAX))
  }

  /** Register the reservation a delivery asked for. */
  function Settle(ch: Chan, needsReserve: bool): Chan {
    if !needsReserve then ch
    else
      var d := Drain(ch.app, ch.inbound, ch.reserves);
      ch.(inbound := d.inbound, reserves := d.reserves)
  }

  /** The CHANNEL_DATA and CHANNEL_EXTENDED_DATA arms: charge the window, then deliver. */
  function ReceiveData(ch: Chan, stream: Stream, bytes: seq<Byte>): Effect {
    var entry := if ch.entry.Some? then Some(Outbound.Consume(ch.entry.value, |bytes|)) else None;
    AcceptData(ch.(entry := entry), stream, bytes)
  }

  /** Delivery of data whose bytes are already charged. */
  function AcceptData(ch: Chan, stream: Stream, bytes: seq<Byte>): Effect {
    var item := Data(stream, bytes);
    var d := Deliver(ch.app, ch.inbound, ch.config.maxPendingInbound, item);
    var moved := ch.(app := d.app, inbound := d.inbound);
    match d.outcome
    case Queued => Effect(Settle(moved, d.needsReserve), [], [], false)
    case Overflow =>
      var closed := Outbound.CloseDiscarding(ch.entry);
      Effect(moved.(entry := closed.entry, inbound := None, app := d.app.(present := false)), closed.out, [], true)
    case _ =>
      var g := GrantAfterDelivery(moved);
      Effect(moved.(entry := g.entry), g.out, if d.app != ch.app then [item] else [], false)
  }

  /** The CHANNEL_EOF arm. */
  function ReceiveEof(ch: Chan): Effect {
    var d := Deliver(ch.app, ch.inbound, ch.config.maxPendingInbound, Eof);
    Effect(Settle(ch.(app := d.app, inbound := d.inbound), d.needsReserve), [],
           if d.app != ch.app then [Eof] else [], false)
  }

  /** The CHANNEL_CLOSE arm. */
  function ReceiveClose(ch: Chan): Effect {
    if ch.entry.Some? && !ch.entry.value.confirmed then Effect(ch, [], [], false)
    else if ch.entry.None? && !ch.app.present then Effect(ch, [], [], false)
    else
      var closed := Outbound.CloseDiscarding(ch.entry);
      var d := Deliver(ch.app, ch.inbound, ch.config.maxPendingInbound, Close);
      var moved := ch.(entry := closed.entry, app := d.app, inbound := d.inbound);
      if d.outcome.Queued? then Effect(Settle(moved, d.needsReserve), closed.out, [], ch.entry.Some?)
      else Effect(FinalizeClose(moved), closed.out, if d.app != ch.app then [Close] else [], true)
  }

  /**
   The CHANNEL_WINDOW_ADJUST arm. Whether the informational `WindowAdjusted`
   message wins a free buffer slot is up to the scheduler (`notify`).
   */
  function ReceiveAdjust(ch: Chan, amount: nat, notify: bool): Outcome {
    if ch.entry.None? then Ok(Effect(ch, [], [], false))
    else
      match Outbound.AdjustOp(ch.entry, amount)
      case Err(e) => Err(e)
      case Ok(r) =>
        var newSize := SaturatingSub(SaturatingAdd(ch.entry.value.recipientWindow, amount), DataLength(r.out));
        var app := if notify && ch.app.HasRoom() then ch.app.Push(WindowAdjusted(newSize)) else ch.app;
        Ok(Effect(ch.(entry := r.entry, app := app), r.out, [], false))
  }

  /** One resolved reservation: `pump_inbound`, then the next reservation is registered. */
  function Pump(ch: Chan, k: nat): Effect
    requires k < |ch.reserves|
  {
    var generation := ch.reserves[k];
    var rest := ch.(reserves := ch.reserves[..k] + ch.reserves[k + 1..]);
    if ch.inbound.None? || ch.inbound.value.generation != generation then Effect(rest, [], [], false)
    else
      var q := ch.inbound.value.(reserving := false);
      if !ch.app.readerOpen then
        if q.closeQueued then Effect(FinalizeClose(rest), [], [], true)
        else Effect(rest.(inbound := None), [], [], false)
      else if q.items == [] then Effect(rest.(inbound := Some(q)), [], [], false)
      else
        var item, tail := q.items[0], q.items[1..];
        var popped := q.(items := tail, pendingBytes := SaturatingSub(q.pendingBytes, ByteLen(item)));
        var moved := rest.(inbound := Some(popped), app := ch.app.Push(Item(item)));
        if item.Close? then Effect(FinalizeClose(moved), [], [item], true)
        else
          var g := if item.Data? then GrantAfterDelivery(moved) else Outbound.Emitted(moved.entry, []);
          var granted := moved.(entry := g.entry);
          if tail == [] then Effect(granted.(inbound := None), g.out, [item], false)
          else Effect(Settle(granted.(inbound := Some(popped.(reserving := true))), true), g.out, [item], false)
  }

  /** `Session::data` / `extended_data`, with the outbound cap enforced afterwards. */
  function SubmitData(ch: Chan, stream: Stream, bytes: seq<Byte>): Outcome {
    match Outbound.DataOp(ch.entry, stream, bytes, ch.rekeying)
    case Err(e) => Err(e)
    case Ok(r) =>
      var moved := ch.(entry := r.entry);
      if r.entry.Some? && Outbound.PendingBytes(r.entry.value.pending) > ch.config.maxPendingOutbound then
        Ok(Effect(FinalizeClose(moved), r.out + Outbound.CloseDiscarding(r.entry).out, [], true))
      else Ok(Effect(moved, r.out, [], false))
  }

  /** `Session::eof`. */
  function SubmitEof(ch: Chan): Effect {
    var r := Outbound.EofOp(ch.entry);
    Effect(ch.(entry := r.entry), r.out, [], false)
  }

  /** `Session::close`: once our CLOSE is out and nobody reads, release the application side too. */
  function SubmitClose(ch: Chan): Effect {
    var r := Outbound.CloseOp(ch.entry);
    var moved := ch.(entry := r.entry);
    if r.entry.None? && ch.app.present && !ch.app.readerOpen then Effect(FinalizeClose(moved), r.out, [], true)
    else Effect(moved, r.out, [], false)
  }

  /** The application takes the oldest message out of its buffer. */
  function TakeMessage(ch: Chan): Effect
    requires ch.app.buffer != []
  {
    Effect(ch.(app := ch.app.(buffer := ch.app.buffer[1..])), [], [], false)
  }

  /** The application drops its read half, and the buffer with it. */
  function DropReader(ch: Chan): Effect {
    Effect(ch.(app := ch.app.(readerOpen := false, buffer := [])), [], [], false)
  }

  function BeginRekey(ch: Chan): Effect {
    Effect(ch.(rekeying := true), [], [], false)
  }

  /** Completion of a key re-exchange: `flush_all_pending_with_writer` for this channel. */
  function EndRekey(ch: Chan): Outcome {
    match Outbound.FlushOp(ch.entry)
    case Err(e) => Err(e)
    case Ok(r) => Ok(Effect(ch.(entry := r.entry, rekeying := false), r.out, [], false))
  }

  datatype Event =
    | AppData(stream: Stream, bytes: seq<Byte>)
    | AppEof
    | AppClose
    | AppRead
    | AppDropReader
    | Receive(packet: Packet, notify: bool)
    | Resolve(k: nat)
    | RekeyBegin
    | RekeyEnd

  /** When the session loop can take a step. */
  predicate Enabled(ch: Chan, ev: Event) {
    match ev
    case AppRead => ch.app.readerOpen && ch.app.buffer != []
    case Resolve(k) =>
      k < |ch.reserves| && !ch.rekeying && (ch.app.readerOpen ==> |ch.app.buffer| < ch.app.capacity)
    case RekeyBegin => !ch.rekeying
    case RekeyEnd => ch.rekeying
    case _ => true
  }

  function Step(ch: Chan, ev: Event): Outcome
    requires Enabled(ch, ev)
  {
    match ev
    case AppData(stream, bytes) => SubmitData(ch, stream, bytes)
    case AppEof => Ok(SubmitEof(ch))
    case AppClose => Ok(SubmitClose(ch))
    case AppRead => Ok(TakeMessage(ch))
    case AppDropReader => Ok(DropReader(ch))
    case Receive(Data(stream, bytes), _) => Ok(ReceiveData(ch, stream, bytes))
    case Receive(Eof, _) => Ok(ReceiveEof(ch))
    case Receive(Close, _) => Ok(ReceiveClose(ch))
    case Receive(Adjust(amount), notify) => ReceiveAdjust(ch, amount, notify)
    case Resolve(k) => Ok(Pump(ch, k))
    case RekeyBegin => Ok(BeginRekey(ch))
    case RekeyEnd => EndRekey(ch)
  }
}
