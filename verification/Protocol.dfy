/**
 The channel traffic of one SSH channel, as the receiver decodes it, and the
 folds over packet sequences that the flow-control argument counts with.
 */
module Protocol {
  import opened Common

  /** `Main` is the ordinary stream, `Extended(code)` an extended one such as stderr. */
  datatype Stream = Main | Extended(code: nat)

  datatype Packet =
    | Data(stream: Stream, bytes: seq<Byte>)
    | Eof
    | Close
    | Adjust(amount: nat)

  /** One payload byte together with the stream it belongs to. */
  datatype Tagged = Tagged(stream: Stream, byte: Byte)

  /** What an application can observe, in order. */
  datatype Mark = Payload(item: Tagged) | EndOfFile | Closed

  function Tag(stream: Stream, bytes: seq<Byte>): (r: seq<Tagged>)
    ensures |r| == |bytes|
  {
    seq(|bytes|, i requires 0 <= i < |bytes| => Tagged(stream, bytes[i]))
  }

  lemma TagSplit(stream: Stream, bytes: seq<Byte>, n: nat)
    requires n <= |bytes|
    ensures Tag(stream, bytes) == Tag(stream, bytes[..n]) + Tag(stream, bytes[n..])
  {
  }

  /** The payload bytes carried by a packet sequence, in wire order. */
  function Payloads(ps: seq<Packet>): seq<Tagged> {
    if ps == [] then [] else PayloadOf(ps[0]) + Payloads(ps[1..])
  }

  function PayloadOf(p: Packet): seq<Tagged> {
    if p.Data? then Tag(p.stream, p.bytes) else []
  }

  function DataLength(ps: seq<Packet>): nat {
    |Payloads(ps)|
  }

  /** Total window granted by the CHANNEL_WINDOW_ADJUST packets of a sequence. */
  function Grants(ps: seq<Packet>): nat {
    if ps == [] then 0 else GrantOf(ps[0]) + Grants(ps[1..])
  }

  function GrantOf(p: Packet): nat {
    if p.Adjust? then p.amount else 0
  }

  /** How many CHANNEL_EOF packets a sequence holds. */
  function Eofs(ps: seq<Packet>): nat {
    if ps == [] then 0 else (if ps[0].Eof? then 1 else 0) + Eofs(ps[1..])
  }

  /** Everything an application observes; `keepEof` decides whether end-of-file marks count. */
  function Marks(ps: seq<Packet>, keepEof: bool): seq<Mark> {
    if ps == [] then [] else MarksOf(ps[0], keepEof) + Marks(ps[1..], keepEof)
  }

  function MarksOf(p: Packet, keepEof: bool): seq<Mark> {
    match p
    case Data(stream, bytes) =>
      seq(|bytes|, i requires 0 <= i < |bytes| => Payload(Tagged(stream, bytes[i])))
    case Eof => if keepEof then [EndOfFile] else []
    case Close => [Closed]
    case Adjust(_) => []
  }

  lemma {:induction false} PayloadsConcat(a: seq<Packet>, b: seq<Packet>)
    ensures Payloads(a + b) == Payloads(a) + Payloads(b)
  {
    if a == [] {
      assert a + b == b;
    } else {
      PayloadsConcat(a[1..], b);
      assert (a + b)[1..] == a[1..] + b;
      Assoc(PayloadOf(a[0]), Payloads(a[1..]), Payloads(b));
    }
  }

  lemma {:induction false} GrantsConcat(a: seq<Packet>, b: seq<Packet>)
    ensures Grants(a + b) == Grants(a) + Grants(b)
  {
    if a == [] {
      assert a + b == b;
    } else {
      GrantsConcat(a[1..], b);
      assert (a + b)[1..] == a[1..] + b;
    }
  }

  lemma {:induction false} EofsConcat(a: seq<Packet>, b: seq<Packet>)
    ensures Eofs(a + b) == Eofs(a) + Eofs(b)
  {
    if a == [] {
      assert a + b == b;
    } else {
      EofsConcat(a[1..], b);
      assert (a + b)[1..] == a[1..] + b;
    }
  }

  lemma {:induction false} MarksConcat(a: seq<Packet>, b: seq<Packet>, keepEof: bool)
    ensures Marks(a + b, keepEof) == Marks(a, keepEof) + Marks(b, keepEof)
  {
    if a == [] {
      assert a + b == b;
    } else {
      MarksConcat(a[1..], b, keepEof);
      assert (a + b)[1..] == a[1..] + b;
      Assoc(MarksOf(a[0], keepEof), Marks(a[1..], keepEof), Marks(b, keepEof));
    }
  }

  lemma Singleton(p: Packet)
    ensures Payloads([p]) == PayloadOf(p)
    ensures Grants([p]) == GrantOf(p)
    ensures Eofs([p]) == if p.Eof? then 1 else 0
    ensures forall k :: Marks([p], k) == MarksOf(p, k)
  {
    assert [p][1..] == [];
  }

  /** The marks an application sees determine the payload bytes it sees. */
  lemma {:induction false} MarksDeterminePayloads(ps: seq<Packet>, keepEof: bool)
    ensures PayloadMarks(Marks(ps, keepEof)) == Payloads(ps)
  {
    if ps != [] {
      MarksDeterminePayloads(ps[1..], keepEof);
      PayloadMarksConcat(MarksOf(ps[0], keepEof), Marks(ps[1..], keepEof));
      PayloadMarksOf(ps[0], keepEof);
    }
  }

  /** Drop the control marks, keep the bytes. */
  function PayloadMarks(ms: seq<Mark>): seq<Tagged> {
    if ms == [] then []
    else (if ms[0].Payload? then [ms[0].item] else []) + PayloadMarks(ms[1..])
  }

  lemma {:induction false} PayloadMarksConcat(a: seq<Mark>, b: seq<Mark>)
    ensures PayloadMarks(a + b) == PayloadMarks(a) + PayloadMarks(b)
  {
    if a == [] {
      assert a + b == b;
    } else {
      PayloadMarksConcat(a[1..], b);
      assert (a + b)[1..] == a[1..] + b;
    }
  }

  lemma {:induction false} PayloadMarksOf(p: Packet, keepEof: bool)
    ensures PayloadMarks(MarksOf(p, keepEof)) == PayloadOf(p)
    decreases if p.Data? then |p.bytes| else 0
  {
    if p.Data? && p.bytes != [] {
      var ms := MarksOf(p, keepEof);
      var rest := Data(p.stream, p.bytes[1..]);
      PayloadMarksOf(rest, keepEof);
      assert ms[1..] == MarksOf(rest, keepEof);
      assert PayloadOf(p) == [ms[0].item] + PayloadOf(rest);
    }
  }
}
