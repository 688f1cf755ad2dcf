/** Name-lists (section 5 of RFC 4251; russh/src/helpers.rs): names joined by commas, and back. */
module NameLists {
  import opened Common
  import opened Wire

  type Name = Bytes

  const COMMA: Byte := 44
  const MAX_NAME_LIST_ENTRIES := 1024
  const MAX_NAME_LIST_BYTES := 16 * 1024

  /** `as_encoded_string`. */
  function Join(names: seq<Name>): Bytes {
    if names == [] then []
    else if |names| == 1 then names[0]
    else names[0] + [COMMA] + Join(names[1..])
  }

  function FirstComma(s: Bytes): (k: nat)
    ensures k <= |s| && (k < |s| ==> s[k] == COMMA) && COMMA !in s[..k]
  {
    if s == [] || s[0] == COMMA then 0
    else
      var k := 1 + FirstComma(s[1..]);
      assert s[..k] == [s[0]] + s[1..][..k - 1];
      k
  }

  /** `split(',')`. */
  function Split(s: Bytes): (r: seq<Name>)
    ensures |r| >= 1
    decreases |s|
  {
    var k := FirstComma(s);
    if k == |s| then [s] else [s[..k]] + Split(s[k + 1..])
  }

  predicate IsName(n: Name) {
    n != [] && COMMA !in n && forall i :: 0 <= i < |n| ==> n[i] < 128
  }

  predicate Names(names: seq<Name>) {
    forall i :: 0 <= i < |names| ==> IsName(names[i])
  }

  /** The fold of `from_encoded_string`: every name checked, the length checked before each push. */
  function Collect(done: seq<Name>, rest: seq<Name>): Option<seq<Name>>
    decreases |rest|
  {
    if rest == [] then Some(done)
    else if rest[0] == [] || exists i :: 0 <= i < |rest[0]| && rest[0][i] >= 128 then None
    else if |done| > MAX_NAME_LIST_ENTRIES then None
    else Collect(done + [rest[0]], rest[1..])
  }

  /** `from_encoded_string`. */
  function FromEncoded(value: Bytes): Option<seq<Name>> {
    if value == [] then Some([]) else Collect([], Split(value))
  }

  lemma {:induction false} JoinSplit(s: Bytes)
    ensures Join(Split(s)) == s
    ensures forall i :: 0 <= i < |Split(s)| ==> COMMA !in Split(s)[i]
    decreases |s|
  {
    var k := FirstComma(s);
    if k == |s| {
      assert s[..k] == s;
    } else {
      var rest := Split(s[k + 1..]);
      JoinSplit(s[k + 1..]);
      assert ([s[..k]] + rest)[1..] == rest;
      assert s == s[..k] + [COMMA] + s[k + 1..];
    }
  }

  lemma FirstCommaAt(a: Bytes, b: Bytes)
    requires COMMA !in a
    ensures FirstComma(a) == |a|
    ensures FirstComma(a + [COMMA] + b) == |a|
  {
    var s := a + [COMMA] + b;
    assert s[|a|] == COMMA && forall i :: 0 <= i < |a| ==> s[i] == a[i];
    CommaBound(s, |a|);
  }

  /** No comma is skipped. */
  lemma {:induction false} CommaBound(s: Bytes, i: nat)
    requires i < |s| && s[i] == COMMA
    ensures FirstComma(s) <= i
    decreases i
  {
    if i > 0 && s[0] != COMMA {
      CommaBound(s[1..], i - 1);
    }
  }

  lemma SplitStep(a: Bytes, b: Bytes)
    requires COMMA !in a
    ensures Split(a + [COMMA] + b) == [a] + Split(b)
  {
    var s := a + [COMMA] + b;
    FirstCommaAt(a, b);
    assert s[..|a|] == a && s[|a| + 1..] == b;
  }

  lemma {:induction false} SplitJoin(names: seq<Name>)
    requires Names(names) && names != []
    ensures Split(Join(names)) == names
  {
    if |names| == 1 {
      FirstCommaAt(names[0], []);
      assert names == [names[0]];
    } else {
      SplitJoin(names[1..]);
      SplitStep(names[0], Join(names[1..]));
      assert names == [names[0]] + names[1..];
    }
  }

  /** The fold succeeds exactly on well-formed names, at most 1025 of them: the test precedes the push. */
  lemma {:induction false} Collects(done: seq<Name>, rest: seq<Name>)
    requires |done| <= MAX_NAME_LIST_ENTRIES + 1 && forall i :: 0 <= i < |rest| ==> COMMA !in rest[i]
    ensures Collect(done, rest) ==
      if Names(rest) && |done| + |rest| <= MAX_NAME_LIST_ENTRIES + 1 then Some(done + rest) else None
    decreases |rest|
  {
    if rest == [] {
      assert done + rest == done;
    } else {
      if IsName(rest[0]) && |done| <= MAX_NAME_LIST_ENTRIES {
        Collects(done + [rest[0]], rest[1..]);
        assert done + [rest[0]] + rest[1..] == done + rest;
        assert Names(rest) <==> Names(rest[1..]) by {
          if Names(rest[1..]) {
            assert forall i :: 1 <= i < |rest| ==> rest[i] == rest[1..][i - 1];
          }
        }
      }
    }
  }

  /** Decoding succeeds exactly on the encodings of well-formed lists, and gives that list. */
  lemma NameListBijection(value: Bytes, names: seq<Name>)
    ensures FromEncoded(value) == Some(names) <==>
      Names(names) && |names| <= MAX_NAME_LIST_ENTRIES + 1 && Join(names) == value
  {
    if value == [] {
      EmptyJoin(names);
    } else {
      JoinSplit(value);
      Collects([], Split(value));
      assert [] + Split(value) == Split(value);
      if Names(names) && Join(names) == value {
        SplitJoin(names);
      }
    }
  }

  lemma EmptyJoin(names: seq<Name>)
    ensures Names(names) && Join(names) == [] <==> names == []
  {
  }

  /** A list can be cut anywhere: a comma, byte 44, and nothing else stands between its halves. */
  lemma {:induction false} JoinedByCommas(names: seq<Name>, i: nat)
    requires 0 < i < |names|
    ensures Join(names) == Join(names[..i]) + [44] + Join(names[i..])
    ensures Join(names[..1]) == names[0]
  {
    if i == 1 {
      assert names[..1] == [names[0]];
    } else {
      JoinedByCommas(names[1..], i - 1);
      assert names[1..][..i - 1] == names[..i][1..] && names[1..][i - 1..] == names[i..];
      assert names[..i][0] == names[0];
    }
  }

  // ----------------------------------------------------------------- on the wire

  /** A list that fits the decoder's limits. */
  predicate Encodable(names: seq<Name>) {
    Names(names) && |names| <= MAX_NAME_LIST_ENTRIES + 1 && |Join(names)| <= MAX_NAME_LIST_BYTES
  }

  function PutNames(names: seq<Name>): Bytes
    requires Encodable(names)
  {
    PutString(Join(names))
  }

  function TakeNames(b: Bytes): Option<Parsed<seq<Name>>> {
    match TakeString(b)
    case None => None
    case Some(Parsed(s, rest)) =>
      if |s| > MAX_NAME_LIST_BYTES then None
      else
        match FromEncoded(s)
        case None => None
        case Some(names) => Some(Parsed(names, rest))
  }

  lemma NamesRoundTrip(names: seq<Name>, rest: Bytes)
    requires Encodable(names)
    ensures TakeNames(PutNames(names) + rest) == Some(Parsed(names, rest))
  {
    StringRoundTrip(Join(names), rest);
    NameListBijection(Join(names), names);
  }

  /** A list field is accepted exactly when its bytes, at most 16 KiB of them, are well-formed names, at most
      1025 of them, joined. */
  lemma TakeNamesIff(s: Bytes, rest: Bytes, names: seq<Name>)
    requires |s| <= U32_MAX
    ensures TakeNames(PutString(s) + rest) == Some(Parsed(names, rest)) <==>
      |s| <= 16384 && Names(names) && |names| <= 1025 && Join(names) == s
  {
    StringRoundTrip(s, rest);
    NameListBijection(s, names);
  }
}
