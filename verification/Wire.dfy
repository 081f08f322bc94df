/**
 Packets on the wire (adb/transport.cpp, adb/transport_local.cpp): header, magic, checksum, and
 the agreement on how large a payload may be (adb/adb.cpp).
 */
module Wire {
  import opened Bytes
  import opened Io

  const MAX_PAYLOAD := 262144
  const HEADER := 24

  /** What the sender fills in: command, arguments and payload. */
  datatype Packet = Packet(command: u32, arg0: u32, arg1: u32, data: bytes)

  /** The payload of an apacket fits its data array. */
  predicate Sendable(p: Packet) {
    |p.data| <= MAX_PAYLOAD
  }

  /** The sum of the payload bytes, before it is cut to 32 bits. */
  function Sum(data: bytes): nat {
    if data == [] then 0 else Sum(data[..|data| - 1]) + data[|data| - 1]
  }

  lemma {:induction false} SumBound(data: bytes)
    ensures Sum(data) <= 255 * |data|
  {
    if data != [] {
      SumBound(data[..|data| - 1]);
    }
  }

  /** The checksum adds up the bytes. */
  lemma {:induction false} SumAdds(a: bytes, b: bytes)
    ensures Sum([]) == 0 && Sum(a + b) == Sum(a) + Sum(b) && (|a| == 1 ==> Sum(a) == a[0])
  {
    if b == [] {
      assert a + b == a;
    } else {
      var last := |b| - 1;
      SumAdds(a, b[..last]);
      assert (a + b)[..|a| + last] == a + b[..last];
    }
  }

  /** The checksum never wraps. */
  lemma ChecksumExact(p: Packet)
    requires Sendable(p)
    ensures Sum(p.data) < 0x1_0000_0000
  {
    SumBound(p.data);
  }

  /** command ^ 0xffffffff on 32 bits. */
  function Magic(command: u32): u32 {
    0xffff_ffff - command
  }

  /** amessage. */
  datatype Header = Header(command: u32, arg0: u32, arg1: u32, length: u32, check: u32, magic: u32)

  function HeaderBytes(h: Header): (b: bytes)
    ensures |b| == HEADER
  {
    Le32(h.command) + (Le32(h.arg0) + (Le32(h.arg1) + (Le32(h.length) + (Le32(h.check) + Le32(h.magic)))))
  }

  function HeaderOf(b: bytes): Header
    requires |b| == HEADER
  {
    var b1 := b[4..];
    var b2 := b1[4..];
    var b3 := b2[4..];
    var b4 := b3[4..];
    Header(FromLe32(b[..4]), FromLe32(b1[..4]), FromLe32(b2[..4]), FromLe32(b3[..4]), FromLe32(b4[..4]),
           FromLe32(b4[4..]))
  }

  lemma HeaderRoundTrip(h: Header)
    ensures HeaderOf(HeaderBytes(h)) == h
  {
    var b4 := Le32(h.check) + Le32(h.magic);
    var b3 := Le32(h.length) + b4;
    var b2 := Le32(h.arg1) + b3;
    var b1 := Le32(h.arg0) + b2;
    Le32Ahead(h.command, b1);
    Le32Ahead(h.arg0, b2);
    Le32Ahead(h.arg1, b3);
    Le32Ahead(h.length, b4);
    Le32Ahead(h.check, Le32(h.magic));
    Le32RoundTrip(h.magic);
  }

  /** On the wire an amessage is its six words, in this order. */
  lemma HeaderLayout(h: Header)
    ensures HeaderBytes(h)
         == Le32(h.command) + Le32(h.arg0) + Le32(h.arg1) + Le32(h.length) + Le32(h.check) + Le32(h.magic)
  {
    var a, b, c, d, e, f := Le32(h.command), Le32(h.arg0), Le32(h.arg1), Le32(h.length), Le32(h.check), Le32(h.magic);
    Joined(d, e, f);
    Joined(c, d + e, f);
    Joined(c, d, e);
    Joined(b, c + d + e, f);
    Joined(b, c + d, e);
    Joined(b, c, d);
    Joined(a, b + c + d + e, f);
    Joined(a, b + c + d, e);
    Joined(a, b + c, d);
    Joined(a, b, c);
  }

  /** The header send_packet completes. */
  function HeaderFor(p: Packet): Header {
    Header(p.command, p.arg0, p.arg1, |p.data| % 0x1_0000_0000, Sum(p.data) % 0x1_0000_0000, Magic(p.command))
  }

  function Encode(p: Packet): bytes {
    HeaderBytes(HeaderFor(p)) + p.data
  }

  function EncodeAll(ps: seq<Packet>): bytes {
    if ps == [] then [] else Encode(ps[0]) + EncodeAll(ps[1..])
  }

  datatype Parsed = Got(p: Packet, rest: bytes) | Refused

  /** check_header. */
  predicate HeaderAccepted(h: Header, maxPayload: nat) {
    h.magic == Magic(h.command) && h.length <= maxPayload
  }

  /** remote_read: a header, check_header, the payload, check_data. */
  function Parse(b: bytes, maxPayload: nat): Parsed {
    if |b| < HEADER then Refused
    else ParsePayload(HeaderOf(b[..HEADER]), b[HEADER..], maxPayload)
  }

  function ParsePayload(h: Header, b: bytes, maxPayload: nat): Parsed {
    if !HeaderAccepted(h, maxPayload) || |b| < h.length then Refused
    else if Sum(b[..h.length]) % 0x1_0000_0000 != h.check then Refused
    else Got(Packet(h.command, h.arg0, h.arg1, b[..h.length]), b[h.length..])
  }

  lemma ParseEncoded(h: Header, b: bytes, maxPayload: nat)
    ensures Parse(HeaderBytes(h) + b, maxPayload) == ParsePayload(h, b, maxPayload)
  {
    HeaderRoundTrip(h);
    assert (HeaderBytes(h) + b)[..HEADER] == HeaderBytes(h) && (HeaderBytes(h) + b)[HEADER..] == b;
  }

  lemma Regroup(head: bytes, data: bytes, tail: bytes)
    ensures (head + data) + tail == head + (data + tail)
    ensures (data + tail)[..|data|] == data && (data + tail)[|data|..] == tail
  {
  }

  /** A payload behind a header that fits it is read back; behind one that does not, it is refused. */
  lemma HeaderDecides(h: Header, data: bytes, tail: bytes, maxPayload: nat)
    requires h.magic == Magic(h.command) && h.length == |data|
    ensures Parse(HeaderBytes(h) + data + tail, maxPayload)
         == if |data| <= maxPayload && Sum(data) % 0x1_0000_0000 == h.check
            then Got(Packet(h.command, h.arg0, h.arg1, data), tail) else Refused
  {
    ParseEncoded(h, data + tail, maxPayload);
    Regroup(HeaderBytes(h), data, tail);
  }

  /** A packet is read back as it was, with what follows it left in place, if and only if it is within the limit. */
  lemma RoundTrip(p: Packet, tail: bytes, maxPayload: nat)
    requires Sendable(p)
    ensures Parse(Encode(p) + tail, maxPayload) == if |p.data| <= maxPayload then Got(p, tail) else Refused
  {
    HeaderDecides(HeaderFor(p), p.data, tail, maxPayload);
  }

  /** All packets of a stream, until one is refused or the stream ends. */
  function ParseAll(b: bytes, maxPayload: nat): seq<Packet>
    decreases |b|
  {
    match Parse(b, maxPayload)
    case Refused => []
    case Got(p, rest) => [p] + ParseAll(rest, maxPayload)
  }

  /** Any list of packets comes out of the wire as it went in. */
  lemma {:induction false} StreamRoundTrip(ps: seq<Packet>, maxPayload: nat)
    requires maxPayload <= MAX_PAYLOAD && forall k :: 0 <= k < |ps| ==> |ps[k].data| <= maxPayload
    ensures ParseAll(EncodeAll(ps), maxPayload) == ps
  {
    if ps != [] {
      RoundTrip(ps[0], EncodeAll(ps[1..]), maxPayload);
      StreamRoundTrip(ps[1..], maxPayload);
    }
  }

  // ---- damage ----

  lemma {:induction false} SumUpdate(data: bytes, k: nat, v: byte)
    requires k < |data|
    ensures Sum(data[k := v]) == Sum(data) - data[k] + v
  {
    var init, last := data[..|data| - 1], |data| - 1;
    if k == last {
      assert data[k := v][..last] == init;
    } else {
      assert data[k := v][..last] == init[k := v];
      SumUpdate(init, k, v);
    }
  }

  lemma OneByteChangesSum(data: bytes, k: nat, v: byte)
    requires |data| <= MAX_PAYLOAD && k < |data| && v != data[k]
    ensures Sum(data[k := v]) % 0x1_0000_0000 != Sum(data) % 0x1_0000_0000
  {
    SumUpdate(data, k, v);
    SumBound(data);
    SumBound(data[k := v]);
  }

  /** A payload with one byte changed on the way is refused. */
  lemma OneByteDamageRefused(p: Packet, k: nat, v: byte, tail: bytes, maxPayload: nat)
    requires Sendable(p) && k < |p.data| && v != p.data[k]
    ensures Parse(HeaderBytes(HeaderFor(p)) + p.data[k := v] + tail, maxPayload) == Refused
  {
    OneByteChangesSum(p.data, k, v);
    HeaderDecides(HeaderFor(p), p.data[k := v], tail, maxPayload);
  }

  // ---- the loops ----

  /** The checksum loop of send_packet and check_data, on a 32-bit counter. */
  method Checksum(data: bytes) returns (sum: u32)
    ensures sum == Sum(data) % 0x1_0000_0000
  {
    sum := 0;
    var k := 0;
    while k < |data|
      invariant k <= |data| && sum == Sum(data[..k]) % 0x1_0000_0000
    {
      assert data[..k + 1][..k] == data[..k];
      sum := (sum + data[k]) % 0x1_0000_0000;
      k := k + 1;
    }
    assert data[..k] == data;
  }

  /** send_packet and remote_write. */
  method SendPacket(p: Packet, fd: OutFd) returns (ok: bool)
    modifies fd
    ensures ok ==> fd.written == old(fd.written) + Encode(p)
    ensures Fails !in old(fd.does) ==> ok && Fails !in fd.does
  {
    var check := Checksum(p.data);
    var msg := Header(p.command, p.arg0, p.arg1, |p.data| % 0x1_0000_0000, check, 0xffff_ffff - p.command);
    ok := WriteFdExactly(fd, HeaderBytes(msg) + p.data);
  }

  /** remote_read with check_header and check_data. */
  method RemoteRead(fd: InFd, maxPayload: nat) returns (r: Parsed)
    modifies fd
    ensures r.Got? ==> r == Parse(old(fd.rest), maxPayload) && fd.rest == r.rest
    ensures 0 !in old(fd.gives) ==> 0 !in fd.gives && r == Parse(old(fd.rest), maxPayload)
  {
    var ok, bytes := ReadFdExactly(fd, HEADER);
    if !ok {
      return Refused;
    }
    var msg := HeaderOf(bytes);
    if msg.magic != Magic(msg.command) || msg.length > maxPayload {
      return Refused;
    }
    var data;
    ok, data := ReadFdExactly(fd, msg.length);
    if !ok {
      return Refused;
    }
    var sum := Checksum(data);
    if sum != msg.check {
      return Refused;
    }
    r := Got(Packet(msg.command, msg.arg0, msg.arg1, data), fd.rest);
  }

  // ---- agreement ----

  /** What a transport holds: protocol version and payload limit. */
  datatype Terms = Terms(version: int, maxPayload: nat)

  function MinInt(a: int, b: int): int {
    if a < b then a else b
  }

  /** update_version on a side built with limits `mine`. */
  function UpdateVersion(mine: Terms, version: int, payload: nat): Terms {
    Terms(MinInt(version, mine.version), MinInt(payload, mine.maxPayload))
  }

  /**
   The CONNECT exchange: the host offers its terms; the device, handling them in
   handle_new_connection, takes the minimum and offers that back; the host takes the minimum.
   */
  function Exchange(host: Terms, device: Terms): (r: (Terms, Terms)) {
    var d := UpdateVersion(device, host.version, host.maxPayload);
    var h := UpdateVersion(host, d.version, d.maxPayload);
    (h, d)
  }

  /** Both ends hold the smaller of both limits; so each accepts what the other may send. */
  lemma ExchangeAgrees(host: Terms, device: Terms, p: Packet, tail: bytes)
    requires Sendable(p)
    ensures var (h, d) := Exchange(host, device);
            && h == d
            && h.version <= host.version && h.version <= device.version
            && (h.version == host.version || h.version == device.version)
            && h.maxPayload <= host.maxPayload && h.maxPayload <= device.maxPayload
            && (h.maxPayload == host.maxPayload || h.maxPayload == device.maxPayload)
            && (|p.data| <= h.maxPayload ==> Parse(Encode(p) + tail, d.maxPayload) == Got(p, tail))
            && (|p.data| <= d.maxPayload ==> Parse(Encode(p) + tail, h.maxPayload) == Got(p, tail))
  {
    RoundTrip(p, tail, Exchange(host, device).1.maxPayload);
  }
}
