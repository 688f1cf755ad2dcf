/**
 Reading the identification line (section 4.2 of RFC 4253; russh/src/ssh_read.rs):
 a fixed buffer is filled by reads of whatever size the stream offers. The result
 is a function of the byte stream alone, and what follows the accepted line is
 replayed to later reads.
 */
module SshId {
  import opened Common
  import opened Wire

  const SSH_ID_BUF_SIZE := 256
  const SSH_ID_MAX_LINE_LEN := 255
  const SSH_ID_MAX_PRE_BANNER_LINES := 20
  const CR: Byte := 13
  const LF: Byte := 10
  /** "SSH-1.99-" and "SSH-2.0-". */
  const V199: Bytes := [83, 83, 72, 45, 49, 46, 57, 57, 45]
  const V20: Bytes := [83, 83, 72, 45, 50, 46, 48, 45]

  datatype Outcome = Accepted(id: Bytes, rest: Bytes) | Version | Disconnect

  /** A line in the buffer: its length without terminator, and where the next line starts. */
  datatype Span = Span(lineLen: nat, next: nat)

  datatype IdError = BadVersion | Disconnected

  /** The first line feed from `from` on. `line` starts at 1: its lines have at least one other byte. */
  function Break(s: Bytes, from: nat): (k: nat)
    ensures from <= k && (k < |s| ==> s[k] == LF)
    ensures forall j :: from <= j < k && j < |s| ==> s[j] != LF
    ensures |s| <= k ==> k == if from <= |s| then |s| else from
    decreases |s| - from
  {
    if from >= |s| || s[from] == LF then from else Break(s, from + 1)
  }

  /** Length of the line without its terminator. */
  function LineLength(s: Bytes, k: nat): nat
    requires 1 <= k < |s|
  {
    if s[k - 1] == CR then k - 1 else k
  }

  predicate IsId(utf8: Bytes -> bool, line: Bytes) {
    |line| >= 8 && utf8(line) && (V199 <= line || V20 <= line)
  }

  /** The line starts with these characters. */
  predicate Begins(line: Bytes, s: string)
    requires forall i :: 0 <= i < |s| ==> s[i] < 128 as char
  {
    |s| <= |line| && forall i :: 0 <= i < |s| ==> line[i] == s[i] as int
  }

  /** An identification is text that announces version 2.0, or 1.99 for both. */
  lemma IsIdIff(utf8: Bytes -> bool, line: Bytes)
    ensures IsId(utf8, line) <==> utf8(line) && (Begins(line, "SSH-2.0-") || Begins(line, "SSH-1.99-"))
  {
    assert Begins(V20, "SSH-2.0-") && Begins(V199, "SSH-1.99-");
  }

  /** What reading the identification from a whole stream amounts to, with `seen` lines skipped so far. */
  function Scan(utf8: Bytes -> bool, s: Bytes, allow: bool, seen: nat): Outcome
    decreases |s|
  {
    var k := Break(s, 1);
    if k >= |s| || k >= SSH_ID_MAX_LINE_LEN then
      if |s| >= SSH_ID_MAX_LINE_LEN then Version else Disconnect
    else
      var line := s[..LineLength(s, k)];
      if IsId(utf8, line) then Accepted(line, s[k + 1..])
      else if !allow || seen + 1 > SSH_ID_MAX_PRE_BANNER_LINES then Version
      else Scan(utf8, s[k + 1..], allow, seen + 1)
  }

  /** More input does not move a line end that is already there. */
  lemma {:induction false} BreakStable(a: Bytes, b: Bytes, from: nat)
    ensures Break(a, from) < |a| ==> Break(a + b, from) == Break(a, from)
    ensures Break(a, from) >= |a| && from <= |a| ==> Break(a + b, from) >= |a|
    decreases |a| - from
  {
    if from < |a| && a[from] != LF {
      BreakStable(a, b, from + 1);
    }
  }

  /** A line already in the buffer decides the next step, whatever is still to come. */
  lemma ScanLine(utf8: Bytes -> bool, a: Bytes, b: Bytes, allow: bool, seen: nat)
    requires Break(a, 1) < |a|
    ensures
      var k := Break(a, 1);
      var line := a[..LineLength(a, k)];
      Scan(utf8, a + b, allow, seen) ==
        if k + 1 > SSH_ID_MAX_LINE_LEN then Version
        else if IsId(utf8, line) then Accepted(line, a[k + 1..] + b)
        else if !allow || seen + 1 > SSH_ID_MAX_PRE_BANNER_LINES then Version
        else Scan(utf8, a[k + 1..] + b, allow, seen + 1)
  {
    var k := Break(a, 1);
    BreakStable(a, b, 1);
    assert (a + b)[..LineLength(a, k)] == a[..LineLength(a, k)];
    assert (a + b)[k + 1..] == a[k + 1..] + b;
  }

  /** A full buffer without a line end is refused, whatever is still to come. */
  lemma ScanLong(utf8: Bytes -> bool, a: Bytes, b: Bytes, allow: bool, seen: nat)
    requires Break(a, 1) >= |a| >= SSH_ID_MAX_LINE_LEN
    ensures Scan(utf8, a + b, allow, seen) == Version
  {
    BreakStable(a, b, 1);
  }

  /** The byte stream underneath: it hands out any non-empty part of what is left. */
  class Source {
    var left: Bytes

    constructor (left: Bytes)
      ensures this.left == left
    {
      this.left := left;
    }

    method Read(space: nat) returns (chunk: Bytes)
      requires space > 0
      modifies this
      ensures chunk + left == old(left) && |chunk| <= space
      ensures chunk == [] <==> old(left) == []
    {
      if left == [] {
        return [];
      }
      var n: nat :| 1 <= n && n <= space && n <= |left|;
      chunk := left[..n];
      left := left[n..];
    }
  }

  class SshRead {
    const buf: array<Byte>
    const r: Source
    const utf8: Bytes -> bool
    var total: nat
    var bytesRead: nat
    var sshidLen: nat
    var preBannerLines: nat

    ghost predicate Valid()
      reads this, buf
    {
      && buf.Length == SSH_ID_BUF_SIZE
      && bytesRead <= total <= SSH_ID_BUF_SIZE
      && sshidLen <= total
    }

    /** The bytes that later reads will deliver. */
    ghost function Pending(): Bytes
      requires Valid()
      reads this, buf, r
    {
      buf[bytesRead..total] + r.left
    }

    constructor (utf8: Bytes -> bool, stream: Bytes)
      ensures Valid() && fresh(buf) && fresh(r) && total == 0 && bytesRead == 0 && preBannerLines == 0
      ensures this.utf8 == utf8 && r.left == stream && Pending() == stream
    {
      this.utf8 := utf8;
      buf := new Byte[SSH_ID_BUF_SIZE](_ => 0);
      r := new Source(stream);
      total, bytesRead, sshidLen, preBannerLines := 0, 0, 0, 0;
      new;
      assert buf[0..0] + r.left == stream;
    }

    /** `line`. */
    method Line() returns (found: bool, lineLen: nat, next: nat)
      requires Valid()
      ensures found <==> Break(buf[..total], 1) < total
      ensures found ==> next == Break(buf[..total], 1) + 1 && lineLen == LineLength(buf[..total], next - 1)
    {
      ghost var s := buf[..total];
      lineLen, next := 0, 0;
      if total < 2 {
        return false, 0, 0;
      }
      var i := 0;
      while i < total - 1
        invariant 0 <= i <= total - 1
        invariant Break(s, 1) == Break(s, i + 1)
      {
        if buf[i] == CR && buf[i + 1] == LF {
          return true, i, i + 2;
        }
        if buf[i + 1] == LF {
          return true, i + 1, i + 2;
        }
        i := i + 1;
      }
      return false, 0, 0;
    }

    /** `discard_line`: what follows the line moves to the front. */
    method DiscardLine()
      requires Valid() && sshidLen == 0
      modifies this`total, this`bytesRead, buf
      ensures Valid() && bytesRead == 0 && buf[..total] == old(buf[bytesRead..total])
    {
      var remaining := total - bytesRead;
      var i := 0;
      while i < remaining
        invariant i <= remaining && total == old(total) && bytesRead == old(bytesRead)
        invariant forall k :: 0 <= k < i ==> buf[k] == old(buf[bytesRead + k])
        invariant forall k :: i <= k < buf.Length ==> buf[k] == old(buf[k])
      {
        buf[i] := buf[bytesRead + i];
        i := i + 1;
      }
      total, bytesRead := remaining, 0;
    }

    /** One read into the free part of the buffer. */
    method Fill() returns (n: nat)
      requires Valid() && total < SSH_ID_BUF_SIZE
      modifies this`total, buf, r
      ensures Valid() && total == old(total) + n
      ensures buf[..total] + r.left == old(buf[..total]) + old(r.left)
      ensures n == 0 <==> old(r.left) == []
      ensures |r.left| == |old(r.left)| - n
    {
      var chunk := r.Read(SSH_ID_BUF_SIZE - total);
      n := |chunk|;
      ghost var head := buf[..total];
      forall k | 0 <= k < n {
        buf[total + k] := chunk[k];
      }
      total := total + n;
      assert buf[..total] == head + chunk;
      assert head + chunk + r.left == head + (chunk + r.left);
    }

    /** The reading half of the loop: until the buffer holds a line, is full, or the stream ends. */
    method AwaitLine(ghost allow: bool) returns (r: Result<Span, IdError>)
      requires Valid() && bytesRead == 0 && sshidLen == 0 && total < SSH_ID_MAX_LINE_LEN
      modifies this`total, buf, this.r
      ensures Valid() && |this.r.left| <= |old(this.r.left)|
      ensures |this.r.left| == |old(this.r.left)| ==> total == old(total)
      ensures buf[..total] + this.r.left == old(buf[..total]) + old(this.r.left)
      ensures
        match r
        case Err(BadVersion) => Scan(utf8, buf[..total] + this.r.left, allow, preBannerLines) == Version
        case Err(Disconnected) => Scan(utf8, buf[..total] + this.r.left, allow, preBannerLines) == Disconnect
        case Ok(Span(lineLen, next)) =>
          && Break(buf[..total], 1) < total
          && next == Break(buf[..total], 1) + 1 && lineLen == LineLength(buf[..total], next - 1)
    {
      while true
        invariant Valid() && bytesRead == 0 && total < SSH_ID_MAX_LINE_LEN
        invariant |this.r.left| <= |old(this.r.left)|
        invariant |this.r.left| == |old(this.r.left)| ==> total == old(total)
        invariant buf[..total] + this.r.left == old(buf[..total]) + old(this.r.left)
        decreases |this.r.left|
      {
        var found, lineLen, next := Line();
        if found {
          return Ok(Span(lineLen, next));
        }
        ghost var early := buf[..total];
        var n := Fill();
        if n == 0 {
          assert this.r.left == [] && early + [] == early && buf[..total] + [] == buf[..total];
          return Err(Disconnected);
        }
        found, lineLen, next := Line();
        if found {
          return Ok(Span(lineLen, next));
        }
        if total >= SSH_ID_MAX_LINE_LEN {
          ScanLong(utf8, buf[..total], this.r.left, allow, preBannerLines);
          return Err(BadVersion);
        }
      }
    }

    /** `read_ssh_id` and `read_client_ssh_id`: the outcome is that of scanning the whole stream, however
        it was cut into reads, and an accepted line leaves exactly the bytes after it. */
    method ReadSshId(allow: bool) returns (o: Result<Bytes, IdError>)
      requires Valid() && bytesRead == 0 && sshidLen == 0 && total < SSH_ID_MAX_LINE_LEN
      modifies this, buf, r
      ensures Valid()
      ensures Reports(o, Scan(utf8, old(Pending()), allow, old(preBannerLines)))
    {
      ghost var goal := Scan(utf8, Pending(), allow, preBannerLines);
      assert buf[0..total] == buf[..total];
      while true
        invariant Valid() && bytesRead == 0 && sshidLen == 0 && total < SSH_ID_MAX_LINE_LEN
        invariant Scan(utf8, buf[..total] + r.left, allow, preBannerLines) == goal
        decreases |r.left|, total
      {
        var span := AwaitLine(allow);
        if span.Err? {
          return Err(span.error);
        }
        var done := false;
        done, o := Judge(allow, span.value);
        if done {
          return;
        }
      }
    }

    /** The other half of the loop: accept the line in the buffer, refuse, or skip it. */
    method Judge(allow: bool, span: Span) returns (done: bool, o: Result<Bytes, IdError>)
      requires Valid() && bytesRead == 0 && sshidLen == 0 && Break(buf[..total], 1) < total
      requires span == Span(LineLength(buf[..total], Break(buf[..total], 1)), Break(buf[..total], 1) + 1)
      modifies this, buf
      ensures Valid()
      ensures done ==> Reports(o, Scan(utf8, old(buf[..total]) + r.left, allow, old(preBannerLines)))
      ensures !done ==> bytesRead == 0 && sshidLen == 0 && total < old(total) && total < SSH_ID_MAX_LINE_LEN
      ensures !done ==>
        Scan(utf8, buf[..total] + r.left, allow, preBannerLines)
        == Scan(utf8, old(buf[..total]) + r.left, allow, old(preBannerLines))
    {
      ghost var all := buf[..total];
      ScanLine(utf8, all, r.left, allow, preBannerLines);
      bytesRead := span.next;
      assert all[span.next..] == buf[span.next..total] && all[..span.lineLen] == buf[..span.lineLen];
      done := true;
      if bytesRead > SSH_ID_MAX_LINE_LEN {
        return true, Err(BadVersion);
      }
      if IsId(utf8, buf[..span.lineLen]) {
        sshidLen := span.lineLen;
        return true, Ok(buf[..span.lineLen]);
      }
      if !allow {
        return true, Err(BadVersion);
      }
      preBannerLines := preBannerLines + 1;
      if preBannerLines > SSH_ID_MAX_PRE_BANNER_LINES {
        return true, Err(BadVersion);
      }
      DiscardLine();
      return false, Err(BadVersion);
    }

    /** The answer given, and the bytes left for later reads, are those of the scan. */
    ghost predicate Reports(o: Result<Bytes, IdError>, scan: Outcome)
      requires Valid()
      reads this, buf, r
    {
      match scan
      case Accepted(id, rest) => o == Ok(id) && buf[..sshidLen] == id && Pending() == rest
      case Version => o == Err(BadVersion)
      case Disconnect => o == Err(Disconnected)
    }

    /** `poll_read` afterwards: buffered bytes first, then the stream; none lost, none repeated. */
    method PollRead(space: nat) returns (b: Bytes)
      requires Valid() && space > 0
      modifies this`bytesRead, r
      ensures Valid() && b + Pending() == old(Pending())
      ensures b == [] <==> old(Pending()) == []
    {
      if total > bytesRead {
        var end := Min(total, bytesRead + space);
        b := buf[bytesRead..end];
        assert buf[bytesRead..total] == b + buf[end..total];
        bytesRead := end;
        assert b + (buf[end..total] + r.left) == b + buf[end..total] + r.left;
      } else {
        b := r.Read(space);
        assert buf[bytesRead..total] == [];
      }
    }
  }

  // ---------------------------------------------------- where lines are expected

  /** The end of the first line as the standard counts lines: the first line feed. */
  function FirstLineFeed(s: Bytes): nat {
    Break(s, 0)
  }

  /** The two notions of a line agree exactly when the line is not a bare line feed. */
  lemma BreakIsFirstLineFeed(s: Bytes)
    requires FirstLineFeed(s) < |s|
    ensures Break(s, 1) == FirstLineFeed(s) <==> s[0] != LF
  {
  }

  /** The lines read, terminators included, and how the reading ends. */
  datatype Reading = Reading(lines: seq<Bytes>, outcome: Outcome)

  /** Length of the line that ends with the line feed at `k`. */
  function Content(s: Bytes, k: nat): nat
    requires k < |s|
  {
    if k > 0 && s[k - 1] == CR then k - 1 else k
  }

  /** Where the first line ends: at the first line feed if `every` one counts, as the code has it otherwise. */
  function LineEnd(s: Bytes, every: bool): nat {
    if every then FirstLineFeed(s) else Min(Break(s, 1), |s|)
  }

  lemma SameLineEnd(s: Bytes)
    requires s != [] ==> s[0] != LF
    ensures LineEnd(s, true) == LineEnd(s, false)
  {
  }

  /** The scan with its lines: split at every line feed if `every`, as the code splits otherwise. */
  function ReadLines(utf8: Bytes -> bool, s: Bytes, allow: bool, seen: nat, every: bool): Reading
    decreases |s|
  {
    var k := LineEnd(s, every);
    if k >= |s| || k >= SSH_ID_MAX_LINE_LEN then
      Reading([], if |s| >= SSH_ID_MAX_LINE_LEN then Version else Disconnect)
    else
      var line := s[..Content(s, k)];
      if IsId(utf8, line) then Reading([s[..k + 1]], Accepted(line, s[k + 1..]))
      else if !allow || seen + 1 > SSH_ID_MAX_PRE_BANNER_LINES then Reading([s[..k + 1]], Version)
      else
        After(s[..k + 1], ReadLines(utf8, s[k + 1..], allow, seen + 1, every))
  }

  function After(line: Bytes, more: Reading): Reading {
    more.(lines := [line] + more.lines)
  }

  lemma AfterSame(line: Bytes, a: Reading, b: Reading)
    requires line != [LF]
    ensures After(line, a) == After(line, b) <==> a == b
    ensures [LF] in After(line, a).lines <==> [LF] in a.lines
  {
    assert After(line, a).lines[1..] == a.lines && After(line, b).lines[1..] == b.lines;
  }

  lemma {:induction false} ReadLinesIsScan(utf8: Bytes -> bool, s: Bytes, allow: bool, seen: nat)
    ensures ReadLines(utf8, s, allow, seen, false).outcome == Scan(utf8, s, allow, seen)
    ensures [LF] !in ReadLines(utf8, s, allow, seen, false).lines
    decreases |s|
  {
    var k := LineEnd(s, false);
    if k < |s| {
      ReadLinesIsScan(utf8, s[k + 1..], allow, seen + 1);
      assert |s[..k + 1]| >= 2;
    }
  }

  /** The code reads the lines the standard means, and comes to the same end, exactly when none of the
      lines reached is a bare line feed. */
  lemma {:induction false} ReadsAsMeant(utf8: Bytes -> bool, s: Bytes, allow: bool, seen: nat)
    ensures ReadLines(utf8, s, allow, seen, false) == ReadLines(utf8, s, allow, seen, true)
       <==> [LF] !in ReadLines(utf8, s, allow, seen, true).lines
    decreases |s|
  {
    if s != [] && s[0] == LF {
      ReadLinesIsScan(utf8, s, allow, seen);
      BareFirst(utf8, s, allow, seen);
    } else {
      SameLineEnd(s);
      var k := FirstLineFeed(s);
      if k < |s| {
        ReadsAsMeant(utf8, s[k + 1..], allow, seen + 1);
        assert s[..k + 1][0] != LF;
        AfterSame(s[..k + 1], ReadLines(utf8, s[k + 1..], allow, seen + 1, true), ReadLines(utf8, s[k + 1..], allow, seen + 1, false));
      }
    }
  }

  lemma BareFirst(utf8: Bytes -> bool, s: Bytes, allow: bool, seen: nat)
    requires s != [] && s[0] == LF
    ensures [LF] in ReadLines(utf8, s, allow, seen, true).lines
    ensures allow && seen < SSH_ID_MAX_PRE_BANNER_LINES ==>
      ReadLines(utf8, s, allow, seen, true).outcome == ReadLines(utf8, s[1..], allow, seen + 1, true).outcome
  {
    assert LineEnd(s, true) == 0 && s[..1] == [LF];
    assert !IsId(utf8, s[..0]);
    assert ReadLines(utf8, s, allow, seen, true).lines[0] == [LF];
  }

  /** A line without the carriage return before its line feed, if it has one. */
  function Bare(line: Bytes): Bytes {
    if line != [] && line[|line| - 1] == CR then line[..|line| - 1] else line
  }

  /** Lines before the identification: not empty, short enough, and none of them one itself. */
  predicate Banners(utf8: Bytes -> bool, lines: seq<Bytes>) {
    forall i :: 0 <= i < |lines| ==>
      lines[i] != [] && LF !in lines[i] && |lines[i]| < 255 && !IsId(utf8, Bare(lines[i]))
  }

  /** Each line with its line feed, then the rest. */
  function Stream(lines: seq<Bytes>, rest: Bytes): Bytes {
    if lines == [] then rest else lines[0] + [LF] + Stream(lines[1..], rest)
  }

  /** The first line decides: too long, the identification, or one more line to skip. */
  lemma FirstLine(utf8: Bytes -> bool, line: Bytes, rest: Bytes, allow: bool, seen: nat)
    requires line != [] && LF !in line
    ensures Scan(utf8, line + [LF] + rest, allow, seen) ==
      if |line| >= 255 then Version
      else if IsId(utf8, Bare(line)) then Accepted(Bare(line), rest)
      else if !allow || seen >= 20 then Version
      else Scan(utf8, rest, allow, seen + 1)
  {
    var s := line + [LF] + rest;
    assert s[1..|line|] == line[1..] && s[|line|] == LF && s[|line| + 1..] == rest;
    BreakAt(s, |line|);
    assert s[..LineLength(s, |line|)] == Bare(line);
  }

  /** The identification is found behind at most twenty other lines, and behind none if none are allowed. */
  lemma {:induction false} BannersAllowed(utf8: Bytes -> bool, lines: seq<Bytes>, id: Bytes, rest: Bytes, allow: bool, seen: nat)
    requires Banners(utf8, lines) && seen <= 20
    requires LF !in id && |id| < 255 && IsId(utf8, Bare(id))
    ensures Scan(utf8, Stream(lines, id + [LF] + rest), allow, seen)
         == if lines == [] || (allow && seen + |lines| <= 20) then Accepted(Bare(id), rest) else Version
  {
    if lines == [] {
      FirstLine(utf8, id, rest, allow, seen);
    } else {
      FirstLine(utf8, lines[0], Stream(lines[1..], id + [LF] + rest), allow, seen);
      if allow && seen < 20 {
        BannersAllowed(utf8, lines[1..], id, rest, allow, seen + 1);
      }
    }
  }

  /** A bare line feed swallows the line after it, whatever that is: if it is the identification, the code
      goes on to the bytes behind it, where the standard accepts it. */
  lemma BareLineFeedHidesId(utf8: Bytes -> bool, line: Bytes, rest: Bytes, allow: bool, seen: nat)
    requires LF !in line && |line| + 1 < SSH_ID_MAX_LINE_LEN
    ensures
      Scan(utf8, [LF] + line + [LF] + rest, allow, seen)
      == if !allow || seen + 1 > SSH_ID_MAX_PRE_BANNER_LINES then Version else Scan(utf8, rest, allow, seen + 1)
    ensures allow && seen < SSH_ID_MAX_PRE_BANNER_LINES && IsId(utf8, Bare(line)) ==>
      ReadLines(utf8, [LF] + line + [LF] + rest, allow, seen, true).outcome == Accepted(Bare(line), rest)
  {
    var s := [LF] + line + [LF] + rest;
    Swallows(utf8, s, |line| + 1, allow, seen);
    assert s[|line| + 2..] == rest;
    BareFirst(utf8, s, allow, seen);
    assert s[1..] == line + [LF] + rest;
    ReadsId(utf8, line, rest, allow, seen + 1);
  }

  lemma Swallows(utf8: Bytes -> bool, s: Bytes, k: nat, allow: bool, seen: nat)
    requires 1 <= k < |s| && k < SSH_ID_MAX_LINE_LEN && s[0] == s[k] == LF && LF !in s[1..k]
    ensures
      Scan(utf8, s, allow, seen)
      == if !allow || seen + 1 > SSH_ID_MAX_PRE_BANNER_LINES then Version else Scan(utf8, s[k + 1..], allow, seen + 1)
  {
    BreakAt(s, k);
    assert LineLength(s, k) > 0 ==> s[..LineLength(s, k)][0] == LF;
  }

  /** An identification line that comes first is accepted. */
  lemma ReadsId(utf8: Bytes -> bool, line: Bytes, rest: Bytes, allow: bool, seen: nat)
    requires LF !in line && |line| < SSH_ID_MAX_LINE_LEN
    ensures IsId(utf8, Bare(line)) ==>
      ReadLines(utf8, line + [LF] + rest, allow, seen, true).outcome == Accepted(Bare(line), rest)
  {
    var t := line + [LF] + rest;
    assert t[..|line|] == line && t[|line|] == LF && t[|line| + 1..] == rest;
    assert t[..Content(t, |line|)] == Bare(line);
    assert forall i :: 0 <= i < |line| ==> t[i] == line[i];
    assert LineEnd(t, true) == |line|;
  }

  lemma BreakAt(s: Bytes, k: nat)
    requires 1 <= k < |s| && s[k] == LF && LF !in s[1..k]
    ensures Break(s, 1) == k
  {
    assert forall j :: 1 <= j < k ==> s[j] == s[1..k][j - 1];
  }
}
