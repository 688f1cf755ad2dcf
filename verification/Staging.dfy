/**
 The byte form of the staging buffer: `push_packet!` appends length-prefixed
 payloads, and `Encrypted::flush` walks them with a cursor. Whatever was pushed
 since the last flush is handed to the packet writer once, whole, and in order.
 */
module Staging {
  import opened Common
  import opened Protocol
  import opened Wire
  import opened Messages

  /** The payloads handed over for sealing. */
  class Sink {
    var packets: seq<Bytes>

    constructor ()
      ensures packets == []
    {
      packets := [];
    }

    method PacketRaw(payload: Bytes)
      modifies this
      ensures packets == old(packets) + [payload]
    {
      packets := packets + [payload];
    }
  }

  class StagingBuffer {
    var write: Bytes
    var writeCursor: nat
    ghost var staged: seq<Bytes>

    ghost predicate Valid()
      reads this
    {
      && writeCursor == 0
      && (forall f :: f in staged ==> |f| <= U32_MAX)
      && write == Staged(staged)
    }

    constructor ()
      ensures Valid() && staged == []
    {
      write, writeCursor, staged := [], 0, [];
    }

    /** `push_packet!`: reserve four bytes, append the payload, then patch its length in. */
    method PushPacket(payload: Bytes)
      requires Valid() && |payload| <= U32_MAX
      modifies this
      ensures Valid() && staged == old(staged) + [payload]
    {
      StagedPush(staged, payload);
      var i0 := |write|;
      var grown := write + [0, 0, 0, 0] + payload;
      var i1 := |grown|;
      write := grown[..i0] + PutU32(i1 - i0 - 4) + grown[i0 + 4..];
      assert write == old(write) + PutString(payload);
      staged := staged + [payload];
    }

    /** `flush`: one packet per frame, then the buffer is empty again. */
    method Flush(writer: Sink)
      requires Valid()
      modifies this, writer
      ensures Valid() && staged == []
      ensures writer.packets == old(writer.packets) + old(staged)
    {
      ghost var left := staged;
      while writeCursor < |write|
        invariant writeCursor <= |write| && write == old(write)
        invariant forall f :: f in left ==> |f| <= U32_MAX
        invariant write[writeCursor..] == Staged(left)
        invariant writer.packets + left == old(writer.packets) + old(staged)
        decreases |write| - writeCursor
      {
        NextFrame(write, writeCursor, left);
        var len := GetU32(write[writeCursor..]);
        var toWrite := write[writeCursor + 4..writeCursor + 4 + len];
        PassOn(writer.packets, left);
        writer.PacketRaw(toWrite);
        writeCursor := writeCursor + 4 + len;
        left := left[1..];
      }
      NoFrames(left);
      assert writer.packets + [] == writer.packets;
      writeCursor, write, staged := 0, [], [];
    }
  }

  lemma PassOn(packets: seq<Bytes>, left: seq<Bytes>)
    requires left != []
    ensures packets + left == packets + [left[0]] + left[1..]
  {
  }

  /** At a frame boundary the next four bytes are the length of the next payload. */
  lemma NextFrame(write: Bytes, cursor: nat, frames: seq<Bytes>)
    requires forall f :: f in frames ==> |f| <= U32_MAX
    requires cursor < |write| && write[cursor..] == Staged(frames)
    ensures frames != [] && |write| >= cursor + 4
    ensures
      var len := GetU32(write[cursor..]);
      && cursor + 4 + len <= |write|
      && write[cursor + 4..cursor + 4 + len] == frames[0]
      && write[cursor + 4 + len..] == Staged(frames[1..])
  {
    StagedHead(frames);
    var rest, len := write[cursor..], GetU32(write[cursor..]);
    assert rest[4..4 + len] == write[cursor + 4..cursor + 4 + len];
    assert rest[4 + len..] == write[cursor + 4 + len..];
  }

  lemma NoFrames(frames: seq<Bytes>)
    requires forall f :: f in frames ==> |f| <= U32_MAX
    requires Staged(frames) == []
    ensures frames == []
  {
  }

  /** What the flush loop finds in a staging buffer. */
  function Frames(write: Bytes): Option<seq<Bytes>>
    decreases |write|
  {
    if write == [] then Some([])
    else
      match TakeString(write)
      case None => None
      case Some(Parsed(frame, rest)) =>
        if |rest| >= |write| then None
        else
          match Frames(rest)
          case None => None
          case Some(more) => Some([frame] + more)
  }

  lemma {:induction false} FramesStaged(frames: seq<Bytes>)
    requires forall f :: f in frames ==> |f| <= U32_MAX
    ensures Frames(Staged(frames)) == Some(frames)
  {
    if frames != [] {
      StagedHead(frames);
      FramesStaged(frames[1..]);
      assert |Staged(frames)| == |PutString(frames[0])| + |Staged(frames[1..])| && |PutString(frames[0])| >= 4;
      assert frames == [frames[0]] + frames[1..];
    }
  }

  /** The payloads of channel messages, in order. */
  function Encoded(ms: seq<Envelope>): seq<Bytes>
    requires forall i :: 0 <= i < |ms| ==> Fits(ms[i])
  {
    seq(|ms|, i requires 0 <= i < |ms| => Encode(ms[i]))
  }

  function Decoded(frames: seq<Bytes>): seq<Option<Envelope>> {
    seq(|frames|, i requires 0 <= i < |frames| => Decode(frames[i]))
  }

  function All(ms: seq<Envelope>): seq<Option<Envelope>> {
    seq(|ms|, i requires 0 <= i < |ms| => Some(ms[i]))
  }

  lemma EncodedDecode(ms: seq<Envelope>)
    requires forall i :: 0 <= i < |ms| ==> Fits(ms[i])
    ensures Decoded(Encoded(ms)) == All(ms)
  {
    forall i | 0 <= i < |ms|
      ensures Decoded(Encoded(ms))[i] == Some(ms[i])
    {
      DecodeEncode(ms[i]);
    }
  }
}
