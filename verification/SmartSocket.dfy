/**
 The smart socket (adb/sockets.cpp): collects a length-prefixed request from packets that may cut
 it anywhere, and acts on it once it is whole.
 */
module SmartSocket {
  import opened Bytes
  import opened Io

  const MAX_PAYLOAD_V1 := 4096

  // ---- hexadecimal lengths ----

  function HexDigit(d: nat): byte
    requires d < 16
  {
    if d < 10 then 48 + d else 87 + d
  }

  /** The value of a hexadecimal digit of either case, or -1. */
  function DigitValue(c: byte): int {
    if 48 <= c <= 57 then c - 48
    else if 97 <= c <= 102 then c - 97 + 10
    else if 65 <= c <= 70 then c - 65 + 10
    else -1
  }

  /** unhex on a 32-bit counter that has reached `n`; 0xffffffff stands for a bad digit. */
  function UnhexFrom(s: bytes, n: u32): u32 {
    if s == [] then n
    else if DigitValue(s[0]) < 0 then 0xffff_ffff
    else UnhexFrom(s[1..], (n * 16 + DigitValue(s[0])) % 0x1_0000_0000)
  }

  method Unhex(s: bytes) returns (n: u32)
    ensures n == UnhexFrom(s, 0)
  {
    n := 0;
    var k := 0;
    assert s[0..] == s;
    while k < |s|
      invariant k <= |s| && UnhexFrom(s, 0) == UnhexFrom(s[k..], n)
    {
      assert s[k..][1..] == s[k + 1..];
      var c := DigitValue(s[k]);
      if c < 0 {
        return 0xffff_ffff;
      }
      n := (n * 16 + c) % 0x1_0000_0000;
      k := k + 1;
    }
  }

  /** "%04x" of a number of at most four hexadecimal digits. */
  function Hex4(n: nat): (h: bytes)
    requires n < 65536
    ensures |h| == 4
  {
    [HexDigit(n / 4096), HexDigit(n / 256 % 16), HexDigit(n / 16 % 16), HexDigit(n % 16)]
  }

  lemma UnhexDigit(d: nat, n: nat, rest: bytes)
    requires d < 16 && n * 16 + d < 65536
    ensures UnhexFrom([HexDigit(d)] + rest, n) == UnhexFrom(rest, n * 16 + d)
  {
    assert ([HexDigit(d)] + rest)[1..] == rest;
  }

  lemma UnhexTwo(c: nat, d: nat, n: nat, rest: bytes)
    requires c < 16 && d < 16 && n < 256
    ensures UnhexFrom([HexDigit(c), HexDigit(d)] + rest, n) == UnhexFrom(rest, n * 256 + c * 16 + d)
  {
    UnhexDigit(c, n, [HexDigit(d)] + rest);
    assert [HexDigit(c), HexDigit(d)] + rest == [HexDigit(c)] + ([HexDigit(d)] + rest);
    UnhexDigit(d, n * 16 + c, rest);
  }

  lemma FourDigits(n: nat)
    requires n < 65536
    ensures n / 4096 < 16 && n / 256 == (n / 4096) * 16 + n / 256 % 16
            && n == (n / 256) * 256 + (n / 16 % 16) * 16 + n % 16
  {
    assert n / 16 == (n / 256) * 16 + n / 16 % 16;
  }

  lemma UnhexHex4(n: nat)
    requires n < 65536
    ensures UnhexFrom(Hex4(n), 0) == n
  {
    var a, b, c, d, zero := n / 4096, n / 256 % 16, n / 16 % 16, n % 16, 0;
    var low := [HexDigit(c), HexDigit(d)];
    FourDigits(n);
    assert Hex4(n) == [HexDigit(a), HexDigit(b)] + low && low == low + [];
    UnhexTwo(a, b, zero, low);
    UnhexTwo(c, d, n / 256, []);
  }

  predicate IsHex(c: byte) {
    48 <= c <= 57 || 65 <= c <= 70 || 97 <= c <= 102
  }

  /** Digits are written in lower case and read in either; nothing else is a digit. */
  lemma DigitsRead(d: nat, c: byte)
    requires d < 16
    ensures HexDigit(d) == "0123456789abcdef"[d] as int && DigitValue(HexDigit(d)) == d
    ensures DigitValue("0123456789ABCDEF"[d] as int) == d
    ensures DigitValue(c) < 0 <==> !IsHex(c)
  {
  }

  /** A bad digit anywhere makes the number a bad one. */
  lemma {:induction false} BadDigitTells(s: bytes, n: u32, k: nat)
    requires k < |s| && !IsHex(s[k])
    ensures UnhexFrom(s, n) == 0xffff_ffff
    decreases |s|
  {
    if DigitValue(s[0]) >= 0 {
      BadDigitTells(s[1..], (n * 16 + DigitValue(s[0])) % 0x1_0000_0000, k - 1);
    }
  }

  /** What SendProtocolString writes, or nothing if the string is too long. */
  datatype Sent = Wrote(b: bytes) | TooLong

  function Frame(s: bytes): Sent {
    if |s| > MAX_PAYLOAD_V1 - 4 then TooLong else Wrote(Hex4(|s|) + s)
  }

  /** A string is sent if and only if it has at most 4092 bytes, behind its length. */
  lemma FramedIff(s: bytes)
    ensures Frame(s).Wrote? <==> |s| <= 4092
    ensures Frame(s).Wrote? ==> Frame(s).b == Hex4(|s|) + s
  {
  }

  // ---- the socket ----

  /**
   `first`: no packet has been kept yet; `buf`: what has been collected; `requests`: the requests
   acted on so far. A request for a transport leaves the socket open for another one.
   */
  datatype Smart = Smart(open: bool, first: bool, buf: bytes, requests: seq<bytes>)

  const FRESH := Smart(true, true, [], [])

  /** smart_socket_enqueue; `keeps` tells the requests that switch the transport. */
  function Enqueue(s: Smart, data: bytes, maxPayload: nat, keeps: bytes -> bool): Smart {
    if !s.open then s
    else if !s.first && |s.buf| + |data| > maxPayload then s.(open := false)
    else
      var b := s.buf + data;
      var s' := s.(first := false, buf := b);
      if |b| < 4 then s'
      else
        var len := UnhexFrom(b[..4], 0);
        if len < 1 || len > MAX_PAYLOAD_V1 then s'.(open := false)
        else if len + 4 > |b| then s'
        else
          var request := CString(b[4..4 + len]);
          Smart(keeps(request), false, [], s.requests + [request])
  }

  function EnqueueAll(s: Smart, chunks: seq<bytes>, maxPayload: nat, keeps: bytes -> bool): Smart
    decreases |chunks|
  {
    if chunks == [] then s
    else EnqueueAll(Enqueue(s, chunks[0], maxPayload, keeps), chunks[1..], maxPayload, keeps)
  }

  /** A request the clients send: not empty, no NUL, and short enough to be framed. */
  predicate Sendable(r: bytes) {
    0 < |r| <= MAX_PAYLOAD_V1 - 4 && 0 !in r
  }

  /** Any part of a frame short of the whole is kept and waited on; the whole is acted on. */
  lemma EnqueuePart(s: Smart, data: bytes, r: bytes, maxPayload: nat, keeps: bytes -> bool)
    requires Sendable(r) && maxPayload >= MAX_PAYLOAD_V1 && s.open
    requires s.buf + data <= Frame(r).b
    ensures Enqueue(s, data, maxPayload, keeps)
         == if s.buf + data == Frame(r).b then Smart(keeps(r), false, [], s.requests + [r])
            else s.(first := false, buf := s.buf + data)
  {
    var f, b := Frame(r).b, s.buf + data;
    UnhexHex4(|r|);
    if |b| >= 4 {
      assert b[..4] == f[..4] == Hex4(|r|);
      if b == f {
        assert b[4..4 + |r|] == r;
      }
    }
  }

  /** However the rest of a frame is cut, exactly one request comes of it, and it is the one sent. */
  lemma {:induction false} FrameCut(s: Smart, chunks: seq<bytes>, r: bytes, maxPayload: nat, keeps: bytes -> bool)
    requires Sendable(r) && maxPayload >= MAX_PAYLOAD_V1 && s.open
    requires s.buf + Cat(chunks) == Frame(r).b && |s.buf| < |Frame(r).b|
    ensures EnqueueAll(s, chunks, maxPayload, keeps) == Smart(keeps(r), false, [], s.requests + [r])
    decreases |chunks|
  {
    var f, b := Frame(r).b, s.buf + chunks[0];
    assert b + Cat(chunks[1..]) == f;
    EnqueuePart(s, chunks[0], r, maxPayload, keeps);
    var s' := Enqueue(s, chunks[0], maxPayload, keeps);
    if b == f {
      assert Cat(chunks[1..]) == [];
      NothingMore(s', chunks[1..], maxPayload, keeps);
    } else {
      FrameCut(s', chunks[1..], r, maxPayload, keeps);
    }
  }

  /** Empty packets change nothing between requests. */
  lemma {:induction false} NothingMore(s: Smart, chunks: seq<bytes>, maxPayload: nat, keeps: bytes -> bool)
    requires Cat(chunks) == [] && s.buf == [] && !s.first
    ensures EnqueueAll(s, chunks, maxPayload, keeps) == s
    decreases |chunks|
  {
    if chunks != [] {
      assert chunks[0] == [] && s.buf + chunks[0] == [];
      NothingMore(s, chunks[1..], maxPayload, keeps);
    }
  }

  /** One request of a session and the way its frame was cut. */
  datatype Turn = Turn(request: bytes, chunks: seq<bytes>)

  predicate Cuts(t: Turn) {
    Sendable(t.request) && Cat(t.chunks) == Frame(t.request).b
  }

  function Session(s: Smart, ts: seq<Turn>, maxPayload: nat, keeps: bytes -> bool): Smart
    decreases |ts|
  {
    if ts == [] then s else Session(EnqueueAll(s, ts[0].chunks, maxPayload, keeps), ts[1..], maxPayload, keeps)
  }

  function Requests(ts: seq<Turn>): seq<bytes> {
    if ts == [] then [] else [ts[0].request] + Requests(ts[1..])
  }

  /**
   A session of requests, each but the last switching the transport and each cut into packets in
   any way, is decoded to exactly the requests sent, one each, in order; the socket is then closed
   unless the last one switched the transport too, and it never held more than the payload limit.
   */
  lemma {:induction false} SessionDecoded(s: Smart, ts: seq<Turn>, maxPayload: nat, keeps: bytes -> bool)
    requires s.open && s.buf == [] && maxPayload >= MAX_PAYLOAD_V1
    requires forall k :: 0 <= k < |ts| ==> Cuts(ts[k])
    requires forall k :: 0 <= k < |ts| - 1 ==> keeps(ts[k].request)
    ensures var s' := Session(s, ts, maxPayload, keeps);
            && s'.requests == s.requests + Requests(ts) && s'.buf == []
            && s'.open == (ts == [] || keeps(ts[|ts| - 1].request))
    decreases |ts|
  {
    if ts != [] {
      var t := ts[0];
      assert Cuts(t);
      assert s.buf + Cat(t.chunks) == Frame(t.request).b;
      FrameCut(s, t.chunks, t.request, maxPayload, keeps);
      var s' := EnqueueAll(s, t.chunks, maxPayload, keeps);
      assert s'.requests + Requests(ts[1..]) == s.requests + Requests(ts);
      if |ts| > 1 {
        SessionDecoded(s', ts[1..], maxPayload, keeps);
      } else {
        assert ts[1..] == [];
      }
    }
  }

  /** Some packet ends exactly `n` bytes into the stream. */
  predicate EndsAt(chunks: seq<bytes>, n: nat) {
    n == 0 || (chunks != [] && |chunks[0]| <= n && EndsAt(chunks[1..], n - |chunks[0]|))
  }

  /** One packet adds at most one request, made of bytes the socket has been given. */
  lemma EnqueueBounded(s: Smart, data: bytes, maxPayload: nat, keeps: bytes -> bool)
    ensures var t := Enqueue(s, data, maxPayload, keeps); var n := |s.requests|;
            && s.requests <= t.requests && n <= |t.requests| <= n + 1 && |t.buf| <= |s.buf| + |data|
            && (|t.requests| == n + 1 ==> |t.requests[n]| + 4 <= |s.buf| + |data|)
  {
    var t, b := Enqueue(s, data, maxPayload, keeps), s.buf + data;
    if |t.requests| != |s.requests| {
      var len := UnhexFrom(b[..4], 0);
      var request := CString(b[4..4 + len]);
      assert t.requests == s.requests + [request] && |request| <= len;
    }
  }

  /** So every further request is shorter than what is still to come. */
  lemma {:induction false} RequestsBounded(s: Smart, chunks: seq<bytes>, maxPayload: nat, keeps: bytes -> bool)
    ensures var q := EnqueueAll(s, chunks, maxPayload, keeps).requests;
            && s.requests <= q
            && forall k :: |s.requests| <= k < |q| ==> |q[k]| + 4 <= |s.buf| + |Cat(chunks)|
    decreases |chunks|
  {
    if chunks != [] {
      EnqueueBounded(s, chunks[0], maxPayload, keeps);
      RequestsBounded(Enqueue(s, chunks[0], maxPayload, keeps), chunks[1..], maxPayload, keeps);
    }
  }

  /**
   As soon as four bytes have come they decide: a length of 1 to 4096 is waited for, and what follows it, up
   to a NUL, is the request; any other, and anything that is no number, closes the socket.
   */
  lemma LengthDecides(s: Smart, data: bytes, n: nat, maxPayload: nat, keeps: bytes -> bool)
    requires s.open && (s.first || |s.buf| + |data| <= maxPayload) && n < 65536
    requires |s.buf + data| >= 4 && (s.buf + data)[..4] == Hex4(n)
    ensures var b := s.buf + data; var t := Enqueue(s, data, maxPayload, keeps);
            if n < 1 || n > 4096 then !t.open && t.requests == s.requests
            else if |b| < n + 4 then t == Smart(true, false, b, s.requests)
            else t == Smart(keeps(CString(b[4..4 + n])), false, [], s.requests + [CString(b[4..4 + n])])
  {
    UnhexHex4(n);
  }

  lemma NoNumberCloses(s: Smart, data: bytes, k: nat, maxPayload: nat, keeps: bytes -> bool)
    requires s.open && |s.buf + data| >= 4 && k < 4 && !IsHex((s.buf + data)[k])
    ensures var t := Enqueue(s, data, maxPayload, keeps); !t.open && t.requests == s.requests
  {
    BadDigitTells((s.buf + data)[..4], 0, k);
  }

  /** Fewer than four bytes are kept; a packet that would not fit what is there already closes the socket. */
  lemma FewBytesWait(s: Smart, data: bytes, maxPayload: nat, keeps: bytes -> bool)
    requires s.open && |s.buf + data| < 4
    ensures Enqueue(s, data, maxPayload, keeps)
         == if !s.first && |s.buf| + |data| > maxPayload then s.(open := false)
            else Smart(true, false, s.buf + data, s.requests)
  {
  }

  /** A packet that reaches beyond a frame: the request is acted on, or the socket overflows; what is behind is gone. */
  lemma EnqueueBeyond(s: Smart, data: bytes, r: bytes, more: bytes, maxPayload: nat, keeps: bytes -> bool)
    requires Sendable(r) && s.open && s.buf + data == Frame(r).b + more
    ensures Enqueue(s, data, maxPayload, keeps)
         == if !s.first && |s.buf| + |data| > maxPayload then s.(open := false)
            else Smart(keeps(r), false, [], s.requests + [r])
  {
    var b := s.buf + data;
    UnhexHex4(|r|);
    assert b[..4] == Hex4(|r|) && b[4..4 + |r|] == r;
  }

  /**
   Bytes sent behind a request that keeps the socket open are lost if they come in the same packet and
   begin the next request if they come in a packet of their own: a client has to wait.
   */
  lemma BytesBehindRequest(r: bytes, more: bytes, maxPayload: nat, keeps: bytes -> bool)
    requires Sendable(r) && keeps(r)
    ensures var after := Smart(true, false, [], [r]);
            && EnqueueAll(FRESH, [Frame(r).b + more], maxPayload, keeps) == after
            && EnqueueAll(FRESH, [Frame(r).b, more], maxPayload, keeps) == Enqueue(after, more, maxPayload, keeps)
            && (|more| < 4 && |more| <= maxPayload ==> Enqueue(after, more, maxPayload, keeps) == after.(buf := more))
  {
    var f, after := Frame(r).b, Smart(true, false, [], [r]);
    var one: seq<bytes>, two: seq<bytes>, last: seq<bytes> := [f + more], [f, more], [more];
    assert [] + (f + more) == f + more && [] + f == f + [] && [] + [r] == [r];
    EnqueueBeyond(FRESH, f + more, r, more, maxPayload, keeps);
    EnqueueBeyond(FRESH, f, r, [], maxPayload, keeps);
    assert one[1..] == [] && two[1..] == last && last[1..] == [];
    assert EnqueueAll(FRESH, one, maxPayload, keeps) == Enqueue(FRESH, f + more, maxPayload, keeps);
    assert EnqueueAll(FRESH, two, maxPayload, keeps) == EnqueueAll(after, last, maxPayload, keeps);
    assert EnqueueAll(after, last, maxPayload, keeps) == Enqueue(after, more, maxPayload, keeps);
    assert [] + more == more;
  }

  /**
   Two requests sent one behind the other, the first of which keeps the socket open, are both decoded
   if and only if some packet ends where the first one does.
   */
  lemma {:induction false} SecondRequestIff(s: Smart, chunks: seq<bytes>, r1: bytes, r2: bytes, maxPayload: nat,
                                            keeps: bytes -> bool)
    requires Sendable(r1) && Sendable(r2) && keeps(r1) && maxPayload >= MAX_PAYLOAD_V1 && s.open
    requires s.buf + Cat(chunks) == Frame(r1).b + Frame(r2).b && |s.buf| < |Frame(r1).b|
    ensures EnqueueAll(s, chunks, maxPayload, keeps).requests == s.requests + [r1, r2]
            <==> EndsAt(chunks, |Frame(r1).b| - |s.buf|)
    decreases |chunks|
  {
    var f1, f2, b, rest := Frame(r1).b, Frame(r2).b, s.buf + chunks[0], chunks[1..];
    Joined(s.buf, chunks[0], Cat(rest));
    var t := Enqueue(s, chunks[0], maxPayload, keeps);
    if |b| <= |f1| {
      assert b == (f1 + f2)[..|b|] == f1[..|b|];
      EnqueuePart(s, chunks[0], r1, maxPayload, keeps);
      if b == f1 {
        assert Cat(rest) == (f1 + f2)[|f1|..] == f2 && t.buf + Cat(rest) == f2;
        FrameCut(t, rest, r2, maxPayload, keeps);
        assert s.requests + [r1] + [r2] == s.requests + [r1, r2];
      } else {
        SecondRequestIff(t, rest, r1, r2, maxPayload, keeps);
      }
    } else {
      var more := b[|f1|..];
      assert b[..|f1|] == (f1 + f2)[..|f1|] == f1 && b == f1 + more;
      EnqueueBeyond(s, chunks[0], r1, more, maxPayload, keeps);
      MissedSecond(s, t, rest, r1, r2, maxPayload, keeps);
    }
  }

  lemma MissedSecond(s: Smart, t: Smart, rest: seq<bytes>, r1: bytes, r2: bytes, maxPayload: nat, keeps: bytes -> bool)
    requires |Cat(rest)| < 4 + |r2|
    requires (t.requests == s.requests && !t.open) || (t.requests == s.requests + [r1] && t.buf == [])
    ensures EnqueueAll(t, rest, maxPayload, keeps).requests != s.requests + [r1, r2]
  {
    var q := EnqueueAll(t, rest, maxPayload, keeps).requests;
    if !t.open {
      ClosedStays(t, rest, maxPayload, keeps);
    } else {
      RequestsBounded(t, rest, maxPayload, keeps);
      var n := |s.requests| + 1;
      assert (s.requests + [r1, r2])[n] == r2;
    }
  }

  lemma {:induction false} ClosedStays(s: Smart, chunks: seq<bytes>, maxPayload: nat, keeps: bytes -> bool)
    requires !s.open
    ensures EnqueueAll(s, chunks, maxPayload, keeps) == s
    decreases |chunks|
  {
    if chunks != [] {
      ClosedStays(s, chunks[1..], maxPayload, keeps);
    }
  }

  /** Whatever is sent, in packets within the limit, the socket never holds more than the limit. */
  lemma {:induction false} HoldsWithinLimit(s: Smart, chunks: seq<bytes>, maxPayload: nat, keeps: bytes -> bool)
    requires |s.buf| <= maxPayload && (s.first ==> s.buf == [])
    requires forall k :: 0 <= k < |chunks| ==> |chunks[k]| <= maxPayload
    ensures |EnqueueAll(s, chunks, maxPayload, keeps).buf| <= maxPayload
    decreases |chunks|
  {
    if chunks != [] {
      HoldsWithinLimit(Enqueue(s, chunks[0], maxPayload, keeps), chunks[1..], maxPayload, keeps);
    }
  }

  /**
   A request switches the transport, is served by a local socket, or goes to the device; or it fails:
   handled on the spot, no such host service, or no device online.
   */
  datatype Fate = Switched | Served | Connecting | Failed

  class Socket {
    var open: bool
    var first: bool
    var buf: bytes
    var requests: seq<bytes>

    ghost function State(): Smart
      reads this
    {
      Smart(open, first, buf, requests)
    }

    constructor ()
      ensures State() == FRESH
    {
      open, first, buf, requests := true, true, [], [];
    }

    /** smart_socket_enqueue, `fate` telling what becomes of a request; `r` is its return value. */
    method EnqueuePacket(data: bytes, maxPayload: nat, fate: bytes -> Fate) returns (r: int)
      requires open
      modifies this
      ensures State() == Enqueue(old(State()), data, maxPayload, q => fate(q).Switched?)
      ensures |requests| == |old(requests)| ==> r == if open then 0 else -1
      ensures |requests| != |old(requests)| ==>
                && |requests| == |old(requests)| + 1
                && var f := fate(requests[|requests| - 1]);
                   && (r == 1 <==> f.Connecting?) && (r == -1 <==> f.Failed?)
                   && (r == 0 <==> f.Switched? || f.Served?)
    {
      if !first && |buf| + |data| > maxPayload {
        open := false;
        return -1;
      }
      first := false;
      buf := buf + data;
      if |buf| < 4 {
        return 0;
      }
      var len := Unhex(buf[..4]);
      if len < 1 || len > MAX_PAYLOAD_V1 {
        open := false;
        return -1;
      }
      if len + 4 > |buf| {
        return 0;
      }
      var request := CString(buf[4..4 + len]);
      requests := requests + [request];
      buf := [];
      open := fate(request).Switched?;
      match fate(request) {
        case Switched => return 0;
        case Served => return 0;
        case Connecting => return 1;
        case Failed => return -1;
      }
    }
  }
}
