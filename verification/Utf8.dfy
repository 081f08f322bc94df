/**
 Writing UTF-8 to a console in pieces (adb/sysdeps_win32.cpp): bytes that may begin a character
 whose end has yet to come are held back. Validity is that of section 4 of RFC 3629.
 */
module Utf8 {
  import Bytes

  type Octets = seq<bv8>

  // ---- what the code sees in a byte ----

  /** utf8_codepoint_len: the length of a sequence from its lead byte, by a shift into a table. */
  function CodepointLen(ch: bv8): bv32 {
    ((0xe500_0000 as bv32 >> ((ch as bv32 >> 3) & 0x1e)) & 3) + 1
  }

  predicate IsAscii(ch: bv8) { ch & 0x80 == 0 }

  predicate IsLead(ch: bv8) { ch & 0xC0 == 0xC0 }

  /** The table behind the shift. */
  lemma CodepointLenTable(ch: bv8)
    ensures CodepointLen(ch) == if ch < 0xC0 then 1 else if ch < 0xE0 then 2 else if ch < 0xF0 then 3 else 4
  {
  }

  function LeadLen(ch: bv8): nat {
    if ch < 0xC0 then 1 else if ch < 0xE0 then 2 else if ch < 0xF0 then 3 else 4
  }

  lemma LeadLenIs(ch: bv8)
    ensures CodepointLen(ch) as int == LeadLen(ch)
  {
    CodepointLenTable(ch);
  }

  lemma BitTests(ch: bv8)
    ensures IsAscii(ch) <==> ch < 0x80
    ensures IsLead(ch) <==> ch >= 0xC0
  {
  }

  /** How many bytes of `b` are to be written now, when all from `i` on are trailing bytes. */
  function Scan(b: Octets, i: nat): (n: nat)
    requires i <= |b|
  {
    if i == 0 then |b|
    else
      var ch := b[i - 1];
      if ch < 0x80 then |b|
      else if ch >= 0xC0 then (if |b| - (i - 1) < LeadLen(ch) then i - 1 else |b|)
      else Scan(b, i - 1)
  }

  /** ParseCompleteUTF8. */
  method ParseCompleteUTF8(b: Octets) returns (n: nat, remaining: Octets)
    ensures n == Scan(b, |b|) && n <= |b| && remaining == b[n..]
  {
    var i: nat := |b|;
    while i != 0
      invariant i <= |b| && Scan(b, |b|) == Scan(b, i)
    {
      var ch := b[i - 1];
      BitTests(ch);
      CodepointLenTable(ch);
      if IsAscii(ch) {
        break;
      } else if IsLead(ch) {
        if |b| - (i - 1) < CodepointLen(ch) as int {
          return i - 1, b[i - 1..];
        }
        break;
      }
      i := i - 1;
    }
    return |b|, [];
  }

  // ---- the console ----

  /** What one call writes, and what it holds back. */
  datatype Step = Step(out: Octets, held: Octets)

  function Write(held: Octets, data: Octets): Step {
    var b := held + data;
    ScanBound(b, |b|);
    Step(b[..Scan(b, |b|)], b[Scan(b, |b|)..])
  }

  class Console {
    var held: Octets

    constructor ()
      ensures held == []
    {
      held := [];
    }

    /** The buffering part of _console_write_utf8. */
    method WriteUtf8(data: Octets) returns (out: Octets)
      modifies this
      ensures Step(out, held) == Write(old(held), data)
    {
      var n;
      if held == [] {
        assert held + data == data;
        n, held := ParseCompleteUTF8(data);
        out := data[..n];
      } else {
        var combined := held + data;
        n, held := ParseCompleteUTF8(combined);
        out := combined[..n];
      }
    }
  }

  lemma {:induction false} ScanBound(b: Octets, i: nat)
    requires i <= |b|
    ensures Scan(b, i) <= |b| && |b| - Scan(b, i) <= 3
  {
    if i != 0 && 0x80 <= b[i - 1] < 0xC0 {
      ScanBound(b, i - 1);
    }
  }

  // ---- valid UTF-8 ----

  predicate Tail(ch: bv8) { 0x80 <= ch <= 0xBF }

  /** One character: UTF8-1 to UTF8-4 of the RFC. */
  predicate Char(c: Octets) {
    || (|c| == 1 && c[0] <= 0x7F)
    || (|c| == 2 && 0xC2 <= c[0] <= 0xDF && Tail(c[1]))
    || (|c| == 3 && Tail(c[1]) && Tail(c[2]) &&
        (|| (c[0] == 0xE0 && 0xA0 <= c[1])
         || 0xE1 <= c[0] <= 0xEC
         || (c[0] == 0xED && c[1] <= 0x9F)
         || 0xEE <= c[0] <= 0xEF))
    || (|c| == 4 && Tail(c[1]) && Tail(c[2]) && Tail(c[3]) &&
        (|| (c[0] == 0xF0 && 0x90 <= c[1])
         || 0xF1 <= c[0] <= 0xF3
         || (c[0] == 0xF4 && c[1] <= 0x8F)))
  }

  /** A sequence of whole characters. */
  ghost predicate Valid(s: Octets) {
    s == [] || exists n :: 1 <= n <= |s| && Char(s[..n]) && Valid(s[n..])
  }

  /** A character's lead byte tells its length, and only trailing bytes follow. */
  lemma CharShape(c: Octets)
    requires Char(c)
    ensures LeadLen(c[0]) == |c| && (c[0] < 0x80 || c[0] >= 0xC0)
    ensures forall k :: 1 <= k < |c| ==> 0x80 <= c[k] < 0xC0
  {
  }

  /** Behind bytes that are no more than trailing, the scan stops at a lead byte or an ASCII one. */
  lemma {:induction false} ScanOver(b: Octets, p: nat, i: nat)
    requires p < i <= |b| && (b[p] < 0x80 || b[p] >= 0xC0)
    requires forall k :: p < k < i ==> 0x80 <= b[k] < 0xC0
    ensures Scan(b, i) == if b[p] >= 0xC0 && |b| - p < LeadLen(b[p]) then p else |b|
  {
    if i > p + 1 {
      ScanOver(b, p, i - 1);
    }
  }

  /**
   Where a valid stream `b + rest` has been cut after `b`, the scan of `b` finds the last boundary
   between characters: what it writes is whole characters, and it holds nothing at the end.
   `p` is a boundary already passed.
   */
  lemma {:induction false} ScanValid(b: Octets, rest: Octets, p: nat)
    requires p <= |b| && Valid(b[..p]) && Valid(b[p..] + rest)
    requires p == |b| ==> Scan(b, |b|) == |b|
    ensures var n := Scan(b, |b|);
            n <= |b| && Valid(b[..n]) && Valid(b[n..] + rest) && (rest == [] ==> n == |b|)
    decreases |b| - p
  {
    if p == |b| {
      assert b[..p] == b;
    } else {
      var s := b[p..] + rest;
      var n :| 1 <= n <= |s| && Char(s[..n]) && Valid(s[n..]);
      if p + n >= |b| {
        CharAtEnd(b, p, s[..n]);
      }
      if p + n <= |b| {
        Slices(b, rest, p, n);
        ValidAppend(b[..p], s[..n]);
        ScanValid(b, rest, p + n);
      }
    }
  }

  lemma Slices(b: Octets, rest: Octets, p: nat, n: nat)
    requires p + n <= |b|
    ensures var s := b[p..] + rest; b[..p] + s[..n] == b[..p + n] && s[n..] == b[p + n..] + rest
  {
    assert b[p..][n..] == b[p + n..];
  }

  /** A character at `p` that reaches the end of `b`, or beyond it. */
  lemma CharAtEnd(b: Octets, p: nat, c: Octets)
    requires p < |b| <= p + |c| && Char(c)
    requires forall k :: p <= k < |b| ==> b[k] == c[k - p]
    ensures Scan(b, |b|) == if p + |c| == |b| then |b| else p
  {
    CharShape(c);
    ScanOver(b, p, |b|);
  }

  lemma DropAppend(s: Octets, c: Octets, n: nat)
    requires n <= |s|
    ensures (s + c)[..n] == s[..n] && (s + c)[n..] == s[n..] + c
  {
  }

  lemma {:induction false} ValidAppend(s: Octets, c: Octets)
    requires Valid(s) && Char(c)
    ensures Valid(s + c)
    decreases |s|
  {
    if s == [] {
      assert s + c == c && c[..|c|] == c && c[|c|..] == [];
    } else {
      var n :| 1 <= n <= |s| && Char(s[..n]) && Valid(s[n..]);
      ValidAppend(s[n..], c);
      DropAppend(s, c, n);
      assert Char((s + c)[..n]) && Valid((s + c)[n..]);
    }
  }

  // ---- streams ----

  function Cat(parts: seq<Octets>): Octets {
    if parts == [] then [] else parts[0] + Cat(parts[1..])
  }

  /** The pieces a series of writes puts out, and what is held at the end. */
  datatype Stream = Stream(outs: seq<Octets>, held: Octets)

  function WriteAll(held: Octets, ws: seq<Octets>): Stream
    decreases |ws|
  {
    if ws == [] then Stream([], held)
    else
      var s := Write(held, ws[0]);
      var r := WriteAll(s.held, ws[1..]);
      Stream([s.out] + r.outs, r.held)
  }

  /** Any bytes whatever: what was written out, then what is held, is what came in; at most three bytes are held. */
  lemma {:induction false} NothingLost(held: Octets, ws: seq<Octets>)
    requires |held| <= 3
    ensures var r := WriteAll(held, ws); Cat(r.outs) + r.held == held + Cat(ws) && |r.held| <= 3
    decreases |ws|
  {
    if ws == [] {
      assert WriteAll(held, ws).outs == [] && held + [] == held && [] + held == held;
    } else {
      var b := held + ws[0];
      var s := Write(held, ws[0]);
      ScanBound(b, |b|);
      NothingLost(s.held, ws[1..]);
      var r := WriteAll(s.held, ws[1..]);
      assert ([s.out] + r.outs)[1..] == r.outs;
      assert s.out + s.held == b;
      Bytes.Joined(s.out, Cat(r.outs), r.held);
      Bytes.Joined(s.out, s.held, Cat(ws[1..]));
      Bytes.Joined(held, ws[0], Cat(ws[1..]));
    }
  }

  ghost predicate AllValid(outs: seq<Octets>) {
    forall k :: 0 <= k < |outs| ==> Valid(outs[k])
  }

  /** A valid stream, however cut into writes, is put out in whole characters, and nothing is held at the end. */
  lemma {:induction false} WholeCharacters(held: Octets, ws: seq<Octets>)
    requires Valid(held + Cat(ws)) && (ws == [] ==> held == [])
    ensures var r := WriteAll(held, ws);
            r.held == [] && AllValid(r.outs)
    decreases |ws|
  {
    if ws != [] {
      var b := held + ws[0];
      var rest := Cat(ws[1..]);
      var s := Write(held, ws[0]);
      ScanBound(b, |b|);
      Bytes.Joined(held, ws[0], rest);
      assert b[..0] == [] && b[0..] == b;
      ScanValid(b, rest, 0);
      WholeCharacters(s.held, ws[1..]);
      OneMoreValid(s.out, WriteAll(s.held, ws[1..]).outs);
    }
  }

  lemma OneMoreValid(out: Octets, outs: seq<Octets>)
    requires Valid(out) && AllValid(outs)
    ensures AllValid([out] + outs)
  {
  }
}
