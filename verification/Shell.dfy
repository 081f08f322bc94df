/**
 The shell protocol (adb/shell_service_protocol.cpp) and the passing of data to and from a
 subprocess (adb/shell_service.cpp), under split reads and partial writes.
 */
module Shell {
  import opened Bytes
  import opened Io

  /** Packet ids: stdin 0, stdout 1, stderr 2, exit 3, close stdin 4, window size change 5. */
  const ID_STDIN := 0
  const ID_CLOSE_STDIN := 4
  const HEADER := 5

  datatype Packet = Packet(id: byte, data: bytes)

  /** What ShellProtocol::Write puts on the fd; lengths have 32 bits. */
  function Encode(p: Packet): bytes
    requires |p.data| < 0x1_0000_0000
  {
    [p.id] + Le32(|p.data|) + p.data
  }

  /** A packet is its id, which is 0 for stdin and 4 for its end, its length and its data. */
  lemma PacketLayout(p: Packet)
    requires |p.data| < 0x1_0000_0000
    ensures Encode(p) == [if p.id == ID_STDIN then 0 else if p.id == ID_CLOSE_STDIN then 4 else p.id]
                         + Le32(|p.data|) + p.data
  {
  }

  predicate Short(ps: seq<Packet>) {
    forall k :: 0 <= k < |ps| ==> |ps[k].data| < 0x1_0000_0000
  }

  function EncodeAll(ps: seq<Packet>): bytes
    requires Short(ps)
  {
    if ps == [] then [] else Encode(ps[0]) + EncodeAll(ps[1..])
  }

  // ---- reading ----

  /** A reader in the middle of a stream: `left` bytes of the current packet have yet to be read. */
  datatype Reader = Reader(id: byte, left: nat, rest: bytes)

  datatype ReadResult = Chunk(data: bytes, next: Reader) | Ended

  function Cap(n: nat, capacity: nat): nat {
    if n < capacity then n else capacity
  }

  /** ShellProtocol::Read with room for `capacity` bytes. */
  function ReadOne(r: Reader, capacity: nat): ReadResult {
    if r.left > 0 then ReadData(r, capacity)
    else if |r.rest| < HEADER then Ended
    else ReadData(Reader(r.rest[0], FromLe32(r.rest[1..HEADER]), r.rest[HEADER..]), capacity)
  }

  function ReadData(r: Reader, capacity: nat): ReadResult {
    var n := Cap(r.left, capacity);
    if |r.rest| < n then Ended
    else Chunk(r.rest[..n], Reader(r.id, r.left - n, r.rest[n..]))
  }

  /** Calling Read once for each of `got` leaves these packets in the buffer, and then the reader. */
  predicate Gets(r: Reader, capacity: nat, got: seq<Packet>, after: Reader)
    decreases |got|
  {
    if got == [] then after == r
    else match ReadOne(r, capacity)
         case Ended => false
         case Chunk(data, next) => got[0] == Packet(next.id, data) && Gets(next, capacity, got[1..], after)
  }

  /** How a payload is split: full buffers, then the remainder; an empty payload is one empty piece. */
  function Split(p: Packet, capacity: nat): (cs: seq<Packet>)
    requires capacity >= 1
    decreases |p.data|
    ensures cs != []
  {
    if |p.data| <= capacity then [p]
    else [Packet(p.id, p.data[..capacity])] + Split(Packet(p.id, p.data[capacity..]), capacity)
  }

  function SplitAll(ps: seq<Packet>, capacity: nat): seq<Packet>
    requires capacity >= 1
  {
    if ps == [] then [] else Split(ps[0], capacity) + SplitAll(ps[1..], capacity)
  }

  /** The data of all packets with an id, in order. */
  function OfId(ps: seq<Packet>, id: byte): bytes {
    if ps == [] then [] else (if ps[0].id == id then ps[0].data else []) + OfId(ps[1..], id)
  }

  lemma {:induction false} OfIdAppend(ps: seq<Packet>, qs: seq<Packet>, id: byte)
    ensures OfId(ps + qs, id) == OfId(ps, id) + OfId(qs, id)
  {
    if ps == [] {
      assert ps + qs == qs;
    } else {
      assert (ps + qs)[1..] == ps[1..] + qs;
      OfIdAppend(ps[1..], qs, id);
    }
  }

  /** The pieces of a packet carry its id, are no longer than the buffer, and make up its payload. */
  lemma {:induction false} SplitIs(p: Packet, capacity: nat, id: byte)
    requires capacity >= 1
    ensures OfId(Split(p, capacity), id) == if id == p.id then p.data else []
    ensures forall k :: 0 <= k < |Split(p, capacity)| ==>
              Split(p, capacity)[k].id == p.id && |Split(p, capacity)[k].data| <= capacity
    decreases |p.data|
  {
    if |p.data| <= capacity {
      assert [p][1..] == [];
    } else {
      var head, tail := Packet(p.id, p.data[..capacity]), Packet(p.id, p.data[capacity..]);
      SplitIs(tail, capacity, id);
      assert ([head] + Split(tail, capacity))[1..] == Split(tail, capacity);
      assert p.data == head.data + tail.data;
    }
  }

  lemma {:induction false} SplitAllIs(ps: seq<Packet>, capacity: nat, id: byte)
    requires capacity >= 1
    ensures OfId(SplitAll(ps, capacity), id) == OfId(ps, id)
  {
    if ps != [] {
      SplitIs(ps[0], capacity, id);
      SplitAllIs(ps[1..], capacity, id);
      OfIdAppend(Split(ps[0], capacity), SplitAll(ps[1..], capacity), id);
    }
  }

  lemma {:induction false} GetsAppend(r: Reader, capacity: nat, a: seq<Packet>, mid: Reader, b: seq<Packet>,
                                      after: Reader)
    requires Gets(r, capacity, a, mid) && Gets(mid, capacity, b, after)
    ensures Gets(r, capacity, a + b, after)
    decreases |a|
  {
    if a == [] {
      assert a + b == b;
    } else {
      assert (a + b)[1..] == a[1..] + b;
      GetsAppend(ReadOne(r, capacity).next, capacity, a[1..], mid, b, after);
    }
  }

  /** Fewer reads give the first of what more reads give, and equally many end in the same place. */
  lemma {:induction false} GetsPrefix(r: Reader, capacity: nat, a: seq<Packet>, mid: Reader, b: seq<Packet>,
                                      after: Reader)
    requires Gets(r, capacity, a, mid) && Gets(r, capacity, b, after)
    requires |a| <= |b| || ReadOne(after, capacity).Ended?
    ensures a <= b && (|a| == |b| ==> mid == after)
    decreases |a|
  {
    if a != [] && b != [] {
      GetsPrefix(ReadOne(r, capacity).next, capacity, a[1..], mid, b[1..], after);
    }
  }

  /** Reading on in a packet gives its pieces and leaves the reader behind it. */
  lemma {:induction false} ReadPieces(p: Packet, tail: bytes, capacity: nat)
    requires capacity >= 1 && p.data != []
    ensures Gets(Reader(p.id, |p.data|, p.data + tail), capacity, Split(p, capacity), Reader(p.id, 0, tail))
    decreases |p.data|
  {
    var b := p.data + tail;
    if |p.data| <= capacity {
      assert b[..|p.data|] == p.data && b[|p.data|..] == tail;
      assert Gets(Reader(p.id, 0, tail), capacity, [p][1..], Reader(p.id, 0, tail));
    } else {
      var head, rest := Packet(p.id, p.data[..capacity]), Packet(p.id, p.data[capacity..]);
      assert b[..capacity] == head.data && b[capacity..] == rest.data + tail;
      ReadPieces(rest, tail, capacity);
      assert ([head] + Split(rest, capacity))[1..] == Split(rest, capacity);
    }
  }

  lemma ReadPacket(r: Reader, p: Packet, tail: bytes, capacity: nat)
    requires capacity >= 1 && |p.data| < 0x1_0000_0000 && r.left == 0 && r.rest == Encode(p) + tail
    ensures Gets(r, capacity, Split(p, capacity), Reader(p.id, 0, tail))
  {
    var inside := Reader(p.id, |p.data|, p.data + tail);
    assert r.rest[1..HEADER] == Le32(|p.data|) && r.rest[HEADER..] == p.data + tail;
    Le32RoundTrip(|p.data|);
    assert ReadOne(r, capacity) == ReadData(inside, capacity);
    if p.data == [] {
      assert p.data + tail == tail && tail[..0] == [] && tail[0..] == tail;
      assert Gets(Reader(p.id, 0, tail), capacity, [p][1..], Reader(p.id, 0, tail));
    } else {
      assert ReadOne(inside, capacity) == ReadData(inside, capacity);
      ReadPieces(p, tail, capacity);
    }
  }

  function Behind(r: Reader, ps: seq<Packet>, tail: bytes): Reader {
    Reader(if ps == [] then r.id else ps[|ps| - 1].id, 0, tail)
  }

  /**
   For any buffer, repeated reads of a stream of packets give exactly the pieces of the packets,
   in order, and end where the stream does.
   */
  lemma {:induction false} ReadsEverything(r: Reader, ps: seq<Packet>, tail: bytes, capacity: nat)
    requires capacity >= 1 && Short(ps) && r.left == 0 && r.rest == EncodeAll(ps) + tail
    ensures Gets(r, capacity, SplitAll(ps, capacity), Behind(r, ps, tail))
    decreases |ps|
  {
    if ps == [] {
      assert r.rest == tail;
    } else {
      assert r.rest == Encode(ps[0]) + (EncodeAll(ps[1..]) + tail);
      ReadPacket(r, ps[0], EncodeAll(ps[1..]) + tail, capacity);
      var mid := Reader(ps[0].id, 0, EncodeAll(ps[1..]) + tail);
      ReadsEverything(mid, ps[1..], tail, capacity);
      GetsAppend(r, capacity, Split(ps[0], capacity), mid, SplitAll(ps[1..], capacity), Behind(r, ps, tail));
    }
  }

  function Longer(r: Reader, tail: bytes): Reader {
    r.(rest := r.rest + tail)
  }

  /** What is read of a stream is read of any longer one. */
  lemma {:induction false} GetsLonger(r: Reader, capacity: nat, got: seq<Packet>, after: Reader, tail: bytes)
    requires Gets(r, capacity, got, after)
    ensures Gets(Longer(r, tail), capacity, got, Longer(after, tail))
    decreases |got|
  {
    if got != [] {
      ReadLonger(r, capacity, tail);
      GetsLonger(ReadOne(r, capacity).next, capacity, got[1..], after, tail);
    }
  }

  lemma ReadLonger(r: Reader, capacity: nat, tail: bytes)
    requires ReadOne(r, capacity).Chunk?
    ensures var c := ReadOne(r, capacity); ReadOne(Longer(r, tail), capacity) == Chunk(c.data, Longer(c.next, tail))
  {
    if r.left == 0 {
      assert (r.rest + tail)[1..HEADER] == r.rest[1..HEADER] && (r.rest + tail)[HEADER..] == r.rest[HEADER..] + tail;
      DataLonger(Reader(r.rest[0], FromLe32(r.rest[1..HEADER]), r.rest[HEADER..]), capacity, tail);
    } else {
      DataLonger(r, capacity, tail);
    }
  }

  lemma DataLonger(r: Reader, capacity: nat, tail: bytes)
    requires ReadData(r, capacity).Chunk?
    ensures var c := ReadData(r, capacity); ReadData(Longer(r, tail), capacity) == Chunk(c.data, Longer(c.next, tail))
  {
    var n := Cap(r.left, capacity);
    assert (r.rest + tail)[..n] == r.rest[..n] && (r.rest + tail)[n..] == r.rest[n..] + tail;
  }

  /**
   So whatever is read of a stream, which may end anywhere, is a prefix of what was written, id by id,
   and in the end all of it.
   */
  lemma SameBytesPerId(r: Reader, ps: seq<Packet>, capacity: nat, got: seq<Packet>, after: Reader, id: byte)
    requires capacity >= 1 && Short(ps) && r.left == 0 && r.rest <= EncodeAll(ps)
    requires Gets(r, capacity, got, after)
    ensures OfId(got, id) <= OfId(ps, id)
    ensures r.rest == EncodeAll(ps) && after.left == 0 && after.rest == [] ==> OfId(got, id) == OfId(ps, id)
  {
    var tail := EncodeAll(ps)[|r.rest|..];
    assert r.rest + tail == EncodeAll(ps);
    GetsLonger(r, capacity, got, after, tail);
    SameBytesInAll(Longer(r, tail), ps, capacity, got, Longer(after, tail), id);
    if r.rest == EncodeAll(ps) {
      assert tail == [] && Longer(after, tail) == after;
    }
  }

  lemma SameBytesInAll(r: Reader, ps: seq<Packet>, capacity: nat, got: seq<Packet>, after: Reader, id: byte)
    requires capacity >= 1 && Short(ps) && r.left == 0 && r.rest == EncodeAll(ps)
    requires Gets(r, capacity, got, after)
    ensures OfId(got, id) <= OfId(ps, id)
    ensures after.left == 0 && after.rest == [] ==> OfId(got, id) == OfId(ps, id)
  {
    var all := SplitAll(ps, capacity);
    assert r.rest == EncodeAll(ps) + [];
    ReadsEverything(r, ps, [], capacity);
    GetsPrefix(r, capacity, got, after, all, Behind(r, ps, []));
    OfIdPrefix(got, all, id);
    SplitAllIs(ps, capacity, id);
    if after.left == 0 && after.rest == [] {
      GetsPrefix(r, capacity, all, Behind(r, ps, []), got, after);
      assert got == all;
    }
  }

  lemma {:induction false} OfIdPrefix(ps: seq<Packet>, qs: seq<Packet>, id: byte)
    requires ps <= qs
    ensures OfId(ps, id) <= OfId(qs, id)
  {
    assert qs == ps + qs[|ps|..];
    OfIdAppend(ps, qs[|ps|..], id);
  }

  class ShellProtocol {
    const fd: InFd
    const capacity: nat
    var id: byte
    var data: bytes
    var bytesLeft: nat

    constructor (fd: InFd, capacity: nat)
      ensures this.fd == fd && this.capacity == capacity && bytesLeft == 0 && data == []
    {
      this.fd, this.capacity, id, data, bytesLeft := fd, capacity, 255, [], 0;
    }

    ghost function State(): Reader
      reads this, fd
    {
      Reader(id, bytesLeft, fd.rest)
    }

    method Read() returns (ok: bool)
      modifies this, fd
      ensures ok ==> ReadOne(old(State()), capacity) == Chunk(data, State())
      ensures 0 !in old(fd.gives) ==> 0 !in fd.gives && (ok <==> ReadOne(old(State()), capacity).Chunk?)
    {
      if bytesLeft == 0 {
        var read, header := ReadFdExactly(fd, HEADER);
        if !read {
          return false;
        }
        id := header[0];
        bytesLeft := FromLe32(header[1..]);
        data := [];
        assert old(fd.rest)[1..HEADER] == header[1..];
      }
      var length := if bytesLeft < capacity then bytesLeft else capacity;
      assert fd.rest[..0] == [] && fd.rest[0..] == fd.rest;
      var payload: bytes := [];
      if length != 0 {
        var read, bytes := ReadFdExactly(fd, length);
        if !read {
          return false;
        }
        payload := bytes;
      }
      bytesLeft := bytesLeft - length;
      data := payload;
      return true;
    }

    /** Write: the packet goes out whole, or the fd failed. */
    method Write(out: OutFd, kind: byte, length: nat) returns (ok: bool)
      requires length <= |data| < 0x1_0000_0000
      modifies this, out
      ensures ok ==> out.written == old(out.written) + Encode(Packet(kind, old(data)[..length]))
      ensures Fails !in old(out.does) ==> ok
      ensures unchanged(this`data, this`bytesLeft)
    {
      id := kind;
      ok := WriteFdExactly(out, [kind] + Le32(length) + data[..length]);
    }
  }

  // ---- passing input to the subprocess ----

  datatype Fd = NoFd | ProtocolFd | Stdinout | Stderr

  /**
   Where the protocol's input stands: `left` bytes of `data` have yet to be written to stdin, which
   is valid while `open`. `given` is all that stdin has taken and `got` all packets read.
   */
  datatype Feed = Feed(reader: Reader, data: bytes, left: nat, open: bool, given: bytes, got: seq<Packet>)

  datatype Passed = Passed(feed: Feed, dead: Fd)

  /** Everything fixed about a subprocess: the buffer's size, and whether it has pipes, not a PTY. */
  datatype Setup = Setup(capacity: nat, raw: bool)

  /** What the system calls of one PassInput do: whether reading fails, shutdown works, and what the write does. */
  datatype Calls = Calls(readFails: bool, shutdown: bool, write: Write)

  function Pending(f: Feed): bytes
    requires f.left <= |f.data|
  {
    f.data[|f.data| - f.left..]
  }

  function WritePending(f: Feed, w: Write): (p: Passed)
    requires f.left <= |f.data|
    ensures p.feed.left <= |p.feed.data|
  {
    if f.left == 0 then Passed(f, NoFd)
    else match w
         case Again => Passed(f, NoFd)
         case Fails => Passed(f.(left := 0), Stdinout)
         case Takes(n) =>
           var m := Cap(n, f.left);
           if m == 0 then Passed(f.(left := 0), Stdinout)
           else Passed(f.(given := f.given + Pending(f)[..m], left := f.left - m), NoFd)
  }

  function InputPassed(f: Feed, how: Setup, c: Calls): (p: Passed)
    requires f.left <= |f.data|
    ensures p.feed.left <= |p.feed.data|
  {
    if f.left > 0 then WritePending(f, c.write)
    else if c.readFails then Passed(f, ProtocolFd)
    else match ReadOne(f.reader, how.capacity)
         case Ended => Passed(f, ProtocolFd)
         case Chunk(data, next) =>
           var g := f.(reader := next, data := data, got := f.got + [Packet(next.id, data)]);
           if !f.open then Passed(g, NoFd)
           else if next.id == ID_STDIN then WritePending(g.(left := |data|), c.write)
           else if next.id == ID_CLOSE_STDIN && how.raw && !c.shutdown then Passed(g, Stdinout)
           else Passed(g, NoFd)
  }

  lemma {:induction false} EncodeAllAppend(ps: seq<Packet>, p: Packet)
    requires Short(ps) && |p.data| < 0x1_0000_0000
    ensures Short(ps + [p]) && EncodeAll(ps + [p]) == EncodeAll(ps) + Encode(p)
  {
    if ps == [] {
      assert ps + [p] == [p] && [p][1..] == [];
      assert EncodeAll([p]) == Encode(p) + EncodeAll([]);
    } else {
      assert (ps + [p])[1..] == ps[1..] + [p];
      EncodeAllAppend(ps[1..], p);
    }
  }

  /**
   PassOutput: one read of the subprocess's output becomes one packet, so that what the protocol
   holds under the id grows by exactly what was read. `again` says that the read would block.
   */
  method PassOutput(sfd: InFd, who: Fd, kind: byte, capacity: nat, again: bool, out: OutFd, ghost sent: seq<Packet>)
    returns (dead: Fd, data: bytes)
    requires 1 <= capacity < 0x1_0000_0000 && who in {Stdinout, Stderr}
    requires Short(sent) && out.written == EncodeAll(sent)
    modifies sfd, out
    ensures dead in {NoFd, who, ProtocolFd} && |data| <= capacity
    ensures old(sfd.rest) == data + sfd.rest
    ensures data == [] ==> unchanged(out) && (dead == NoFd <==> again)
    ensures data != [] && dead == NoFd ==> out.written == EncodeAll(sent + [Packet(kind, data)])
    ensures data != [] && dead == NoFd ==> OfId(sent + [Packet(kind, data)], kind) == OfId(sent, kind) + data
    ensures Fails !in old(out.does) ==> dead != ProtocolFd
  {
    if again {
      return NoFd, [];
    }
    var r, got := sfd.AdbRead(capacity);
    if r <= 0 {
      return who, [];
    }
    data := got;
    EncodeAllAppend(sent, Packet(kind, data));
    OfIdOne(sent, Packet(kind, data), kind);
    var ok := WriteFdExactly(out, [kind] + Le32(|data|) + data);
    dead := if ok then NoFd else ProtocolFd;
  }

  // ---- the select loop ----

  /**
   The loop's input side: which fds are valid besides stdin, and which it waits on. A PTY has no
   separate stderr.
   */
  datatype Loop = Loop(feed: Feed, protocol: bool, stderr: bool, readsProtocol: bool, writesStdin: bool)

  /** PassDataStreams goes on while the protocol and one of the pipes are valid. */
  predicate Over(l: Loop) {
    !l.protocol || (!l.feed.open && !l.stderr)
  }

  /**
   One round: an fd that PassOutput found dead, what select reports about the fds it waits on, and
   what the system calls of the two possible PassInputs do. Or select itself fails.
   */
  datatype Turn =
    | Turn(outputDead: Fd, readable: bool, writable: bool, first: Calls, second: Calls)
    | SelectFails

  datatype Spun = Spun(loop: Loop, dead: Fd)

  /** Output is only passed from a valid pipe. */
  function OutputDead(l: Loop, who: Fd): Fd {
    if (who == Stdinout && !l.feed.open) || (who == Stderr && !l.stderr) then NoFd else who
  }

  /** Reading the protocol: wait for stdin instead if not everything could be written. */
  function ReadSide(l: Loop, how: Setup, c: Calls): (s: Spun)
    requires l.feed.left <= |l.feed.data|
    ensures s.loop.feed.left <= |s.loop.feed.data|
  {
    var p := InputPassed(l.feed, how, c);
    if p.feed.left > 0 then Spun(l.(feed := p.feed, readsProtocol := false, writesStdin := true), p.dead)
    else Spun(l.(feed := p.feed), p.dead)
  }

  /** Writing on to stdin: go back to reading once everything is written. */
  function WriteSide(l: Loop, how: Setup, c: Calls): (s: Spun)
    requires l.feed.left <= |l.feed.data|
    ensures s.loop.feed.left <= |s.loop.feed.data|
  {
    var p := InputPassed(l.feed, how, c);
    if p.feed.left == 0 then Spun(l.(feed := p.feed, readsProtocol := true, writesStdin := false), p.dead)
    else Spun(l.(feed := p.feed), p.dead)
  }

  function Spin(l: Loop, how: Setup, t: Turn): (s: Spun)
    requires l.feed.left <= |l.feed.data|
    ensures s.loop.feed.left <= |s.loop.feed.data|
  {
    if t.SelectFails? then Spun(l.(feed := l.feed.(open := false), stderr := false), NoFd)
    else if OutputDead(l, t.outputDead) != NoFd then Spun(l, t.outputDead)
    else
      var a := if l.readsProtocol && t.readable then ReadSide(l, how, t.first) else Spun(l, NoFd);
      if a.dead == NoFd && l.writesStdin && a.loop.feed.open && t.writable
      then WriteSide(a.loop, how, t.second) else a
  }

  /** PassDataStreams closes a dead fd, and the pipes with the protocol. */
  function Bury(s: Spun): (l: Loop)
    ensures l.feed.left == s.loop.feed.left && l.feed.data == s.loop.feed.data
  {
    match s.dead
    case NoFd => s.loop
    case Stderr => s.loop.(stderr := false)
    case Stdinout => s.loop.(feed := s.loop.feed.(open := false), writesStdin := false)
    case ProtocolFd => s.loop.(feed := s.loop.feed.(open := false), protocol := false, stderr := false,
                               readsProtocol := false)
  }

  function Next(l: Loop, how: Setup, t: Turn): (n: Loop)
    requires l.feed.left <= |l.feed.data|
    ensures n.feed.left <= |n.feed.data|
  {
    if Over(l) then l else Bury(Spin(l, how, t))
  }

  // ---- what a round does, told apart from how ----

  /** What PassInput has to write: what is left of a packet, or a new one for a stdin that is there. */
  function Due(f: Feed, how: Setup, c: Calls): nat {
    if f.left > 0 then f.left
    else if Lost(f, how, c) || !f.open then 0
    else
      var r := ReadOne(f.reader, how.capacity);
      if r.next.id == 0 then |r.data| else 0
  }

  /** PassInput needs a packet and gets none. */
  predicate Lost(f: Feed, how: Setup, c: Calls) {
    f.left == 0 && (c.readFails || ReadOne(f.reader, how.capacity).Ended?)
  }

  /** PassInput gets a packet that closes the stdin of a raw subprocess, which cannot be shut down. */
  predicate Unshut(f: Feed, how: Setup, c: Calls) {
    f.left == 0 && !Lost(f, how, c) && f.open && how.raw && !c.shutdown
    && ReadOne(f.reader, how.capacity).next.id == 4
  }

  /** Stdin dies of a write if there is something to write and it takes nothing or fails. */
  lemma WriteDiesIff(f: Feed, w: Write)
    requires f.left <= |f.data|
    ensures var p := WritePending(f, w);
            && p.dead == (if f.left > 0 && (w == Fails || w == Takes(0)) then Stdinout else NoFd)
            && p.feed.open == f.open && f.given <= p.feed.given
            && (p.dead == NoFd ==> p.feed.left + |p.feed.given| == f.left + |f.given|)
            && (p.dead != NoFd ==> p.feed.given == f.given)
  {
  }

  /**
   PassInput finds the protocol dead if it needs a packet and gets none, and stdin dead if the packet closes it but
   it cannot be shut down, or if there is something to write to it and it takes nothing or fails. A PTY is not shut
   down, and a dead stdin is neither shut down nor written to.
   */
  lemma InputDiesIff(f: Feed, how: Setup, c: Calls)
    requires f.left <= |f.data|
    ensures var p := InputPassed(f, how, c);
            && (p.dead == ProtocolFd <==> Lost(f, how, c))
            && (p.dead == Stdinout <==>
                  (Due(f, how, c) > 0 && (c.write == Fails || c.write == Takes(0))) || Unshut(f, how, c))
            && p.dead != Stderr && p.feed.open == f.open
            && (p.dead == NoFd ==> p.feed.left + |p.feed.given| == Due(f, how, c) + |f.given|)
            && (p.dead != NoFd ==> p.feed.given == f.given)
  {
    if f.left > 0 {
      WriteDiesIff(f, c.write);
    } else if !Lost(f, how, c) && f.open && ReadOne(f.reader, how.capacity).next.id == 0 {
      var r := ReadOne(f.reader, how.capacity);
      var g := f.(reader := r.next, data := r.data, got := f.got + [Packet(r.next.id, r.data)], left := |r.data|);
      WriteDiesIff(g, c.write);
      assert InputPassed(f, how, c) == WritePending(g, c.write);
    }
  }

  /** A dead fd is closed and no longer waited on; with the protocol both pipes go. */
  lemma BuryOutcome(s: Spun)
    ensures var l, l' := s.loop, Bury(s);
            && (l'.protocol <==> l.protocol && s.dead != ProtocolFd)
            && (l'.stderr <==> l.stderr && s.dead != Stderr && s.dead != ProtocolFd)
            && (l'.feed.open <==> l.feed.open && s.dead != Stdinout && s.dead != ProtocolFd)
            && (l'.readsProtocol <==> l.readsProtocol && s.dead != ProtocolFd)
            && (l'.writesStdin <==> l.writesStdin && s.dead != Stdinout)
            && l'.feed == l.feed.(open := l'.feed.open)
  {
  }

  /**
   A round closes what is dead: both pipes if select fails, else what the output side found, of the valid pipes, else
   what the input side found. With nothing found dead the loop waits for stdin to take what is left, or for the
   protocol if nothing is.
   */
  lemma RoundOutcome(l: Loop, how: Setup, t: Turn)
    requires l.feed.left <= |l.feed.data| && Watches(l) && !Over(l)
    ensures var s := Spin(l, how, t);
            if t.SelectFails?
            then s.dead == NoFd && !s.loop.feed.open && !s.loop.stderr && s.loop.feed.got == l.feed.got
            else if (t.outputDead == Stdinout && l.feed.open) || (t.outputDead == Stderr && l.stderr)
                    || t.outputDead == ProtocolFd
            then s == Spun(l, t.outputDead)
            else if l.feed.left == 0
            then s.loop.feed == (if t.readable then InputPassed(l.feed, how, t.first).feed else l.feed)
            else s.loop.feed == if l.feed.open && t.writable then InputPassed(l.feed, how, t.second).feed else l.feed
  {
  }

  /** The packets read are the reader's; stdin has a prefix of their data, and all but what is pending while `alive`. */
  predicate Fed(start: Reader, how: Setup, f: Feed, alive: bool) {
    && f.left <= |f.data|
    && Gets(start, how.capacity, f.got, f.reader)
    && f.given <= OfId(f.got, ID_STDIN)
    && (alive ==> f.given + Pending(f) == OfId(f.got, ID_STDIN))
  }

  /** The fds waited on are those the pending input calls for. */
  predicate Watches(l: Loop) {
    !Over(l) ==> (l.readsProtocol <==> l.feed.left == 0) && (l.writesStdin <==> l.feed.open && l.feed.left > 0)
  }

  lemma WriteFed(start: Reader, how: Setup, f: Feed, w: Write)
    requires Fed(start, how, f, true)
    ensures var p := WritePending(f, w);
            && Fed(start, how, p.feed, p.dead == NoFd) && p.dead in {NoFd, Stdinout} && p.feed.open == f.open
            && (p.dead == Stdinout ==> p.feed.left == 0)
  {
    var p := WritePending(f, w);
    if f.left > 0 && w.Takes? && w.n > 0 {
      var m := Cap(w.n, f.left);
      assert Pending(f) == Pending(f)[..m] + Pending(p.feed);
      assert f.given + Pending(f) == p.feed.given + Pending(p.feed);
    }
  }

  lemma OneMoreRead(start: Reader, capacity: nat, got: seq<Packet>, r: Reader)
    requires Gets(start, capacity, got, r) && ReadOne(r, capacity).Chunk?
    ensures var c := ReadOne(r, capacity);
            Gets(start, capacity, got + [Packet(c.next.id, c.data)], c.next)
  {
    var c := ReadOne(r, capacity);
    var one := [Packet(c.next.id, c.data)];
    assert Gets(c.next, capacity, one[1..], c.next);
    GetsAppend(start, capacity, got, r, one, c.next);
  }

  lemma OfIdOne(ps: seq<Packet>, p: Packet, id: byte)
    ensures OfId(ps + [p], id) == OfId(ps, id) + if p.id == id then p.data else []
  {
    OfIdAppend(ps, [p], id);
    assert [p][1..] == [];
    assert OfId([p], id) == if p.id == id then p.data else [];
  }

  lemma InputFed(start: Reader, how: Setup, f: Feed, c: Calls)
    requires Fed(start, how, f, f.open) && (f.open || f.left == 0)
    ensures var p := InputPassed(f, how, c);
            && Fed(start, how, p.feed, f.open && p.dead == NoFd) && p.feed.open == f.open
            && (p.dead != NoFd || !f.open ==> p.feed.left == 0)
  {
    if f.left > 0 {
      WriteFed(start, how, f, c.write);
    } else if ReadOne(f.reader, how.capacity).Chunk? {
      var r := ReadOne(f.reader, how.capacity);
      var g := f.(reader := r.next, data := r.data, got := f.got + [Packet(r.next.id, r.data)]);
      OneMoreRead(start, how.capacity, f.got, f.reader);
      OfIdOne(f.got, Packet(r.next.id, r.data), ID_STDIN);
      assert f.given + Pending(f) == f.given && g.given + Pending(g) == g.given;
      if f.open && r.next.id == ID_STDIN {
        var h := g.(left := |r.data|);
        assert Pending(h) == r.data;
        WriteFed(start, how, h, c.write);
      }
    }
  }

  predicate LoopInv(start: Reader, how: Setup, l: Loop) {
    Fed(start, how, l.feed, l.feed.open) && Watches(l)
  }

  lemma NextInv(start: Reader, how: Setup, l: Loop, t: Turn)
    requires LoopInv(start, how, l)
    ensures LoopInv(start, how, Next(l, how, t))
  {
    if !Over(l) && t.Turn? && OutputDead(l, t.outputDead) == NoFd {
      if l.readsProtocol && t.readable {
        ReadSideInv(start, how, l, t.first);
      } else if l.writesStdin {
        WriteSideInv(start, how, l, t.second);
      }
    }
  }

  lemma ReadSideInv(start: Reader, how: Setup, l: Loop, c: Calls)
    requires LoopInv(start, how, l) && !Over(l) && l.readsProtocol
    ensures LoopInv(start, how, Bury(ReadSide(l, how, c)))
  {
    InputFed(start, how, l.feed, c);
  }

  lemma WriteSideInv(start: Reader, how: Setup, l: Loop, c: Calls)
    requires LoopInv(start, how, l) && !Over(l) && l.writesStdin
    ensures LoopInv(start, how, Bury(WriteSide(l, how, c)))
  {
    InputFed(start, how, l.feed, c);
  }

  function Spins(l: Loop, how: Setup, ts: seq<Turn>): (n: Loop)
    requires l.feed.left <= |l.feed.data|
    ensures n.feed.left <= |n.feed.data|
    decreases |ts|
  {
    if ts == [] then l else Spins(Next(l, how, ts[0]), how, ts[1..])
  }

  function Begin(r: Reader, how: Setup): Loop {
    Loop(Feed(r, [], 0, true, [], []), true, how.raw, true, false)
  }

  /** Two feeds alike but for what a failed read has left in the buffer. */
  predicate Alike(f: Feed, g: Feed) {
    f.left == g.left && f.open == g.open && f.given == g.given && f.got == g.got
  }

  predicate LoopsAlike(l: Loop, m: Loop) {
    Alike(l.feed, m.feed) && l == m.(feed := l.feed)
  }

  /** A subprocess's input side; `got` records what has been read. Read errors are among the calls. */
  class Subprocess {
    const input: ShellProtocol
    const raw: bool
    var inputBytesLeft: nat
    var stdinValid: bool
    var stderrValid: bool
    var protocolValid: bool
    var readsProtocol: bool
    var writesStdin: bool
    var given: bytes
    ghost var got: seq<Packet>

    constructor (input: ShellProtocol, raw: bool)
      requires input.bytesLeft == 0 && input.data == [] && 0 !in input.fd.gives
      ensures this.input == input && this.raw == raw && Ready()
      ensures Inputs() == Begin(input.State(), Setup(input.capacity, raw))
    {
      this.input, this.raw, inputBytesLeft, stdinValid, given, got := input, raw, 0, true, [], [];
      stderrValid, protocolValid := raw, true;
      readsProtocol, writesStdin := true, false;
    }

    ghost function State(): Feed
      reads this, input, input.fd
    {
      Feed(input.State(), input.data, inputBytesLeft, stdinValid, given, got)
    }

    ghost function Inputs(): Loop
      reads this, input, input.fd
    {
      Loop(State(), protocolValid, stderrValid, readsProtocol, writesStdin)
    }

    ghost function How(): Setup {
      Setup(input.capacity, raw)
    }

    ghost predicate Ready()
      reads this, input, input.fd
    {
      inputBytesLeft <= |input.data| && 0 !in input.fd.gives
    }

    /** The end of PassInput: what is left of the packet is written on. */
    method WriteLeft(w: Write) returns (dead: Fd)
      requires Ready() && inputBytesLeft > 0
      modifies this`inputBytesLeft, this`given
      ensures var p := WritePending(old(State()), w); dead == p.dead && Ready() && State() == p.feed
    {
      var index := |input.data| - inputBytesLeft;
      match w {
        case Again =>
        case Fails =>
          inputBytesLeft := 0;
          return Stdinout;
        case Takes(n) =>
          var bytes := Cap(n, inputBytesLeft);
          if bytes == 0 {
            inputBytesLeft := 0;
            return Stdinout;
          }
          given := given + input.data[index..][..bytes];
          inputBytesLeft := inputBytesLeft - bytes;
      }
      return NoFd;
    }

    /** PassInput: the fd that died, if any, and the new state as the specification says. */
    method PassInput(c: Calls) returns (dead: Fd)
      requires Ready()
      modifies this`inputBytesLeft, this`given, this`got, input, input.fd
      ensures var p := InputPassed(old(State()), How(), c);
              dead == p.dead && if dead == ProtocolFd then Alike(State(), p.feed) else Ready() && State() == p.feed
      ensures 0 !in input.fd.gives
    {
      if inputBytesLeft == 0 {
        if c.readFails {
          return ProtocolFd;
        }
        var ok := input.Read();
        if !ok {
          return ProtocolFd;
        }
        got := got + [Packet(input.id, input.data)];
        if stdinValid {
          if input.id == ID_STDIN {
            inputBytesLeft := |input.data|;
          } else if input.id == ID_CLOSE_STDIN && raw {
            return if c.shutdown then NoFd else Stdinout;
          }
        }
      }
      dead := NoFd;
      if inputBytesLeft > 0 {
        dead := WriteLeft(c.write);
      }
    }

    /** The loop's state is `l`, or like it once the protocol fd is `dead`. */
    ghost predicate At(dead: Fd, l: Loop)
      reads this, input, input.fd
    {
      if dead == ProtocolFd then LoopsAlike(Inputs(), l) else Ready() && Inputs() == l
    }

    method ReadTurn(c: Calls) returns (dead: Fd)
      requires Ready()
      modifies this, input, input.fd
      ensures var s := ReadSide(old(Inputs()), How(), c); dead == s.dead && At(dead, s.loop)
    {
      dead := PassInput(c);
      if inputBytesLeft > 0 {
        readsProtocol, writesStdin := false, true;
      }
    }

    method WriteTurn(c: Calls) returns (dead: Fd)
      requires Ready()
      modifies this, input, input.fd
      ensures var s := WriteSide(old(Inputs()), How(), c); dead == s.dead && At(dead, s.loop)
    {
      dead := PassInput(c);
      if inputBytesLeft == 0 {
        readsProtocol, writesStdin := true, false;
      }
    }

    /** What happens after select has returned. */
    method Round(t: Turn) returns (dead: Fd)
      requires Ready() && t.Turn?
      modifies this, input, input.fd
      ensures var s := Spin(old(Inputs()), How(), t); dead == s.dead && At(dead, s.loop)
    {
      var writable := writesStdin && t.writable;
      dead := t.outputDead;
      if (dead == Stdinout && !stdinValid) || (dead == Stderr && !stderrValid) {
        dead := NoFd;
      }
      if dead == NoFd {
        if readsProtocol && t.readable {
          dead := ReadTurn(t.first);
        }
        if dead == NoFd && stdinValid && writable {
          dead := WriteTurn(t.second);
        }
      }
    }

    /** The end of a turn: a dead fd is closed. */
    method Close(dead: Fd)
      modifies this
      ensures State() == old(State()).(open := stdinValid)
      ensures Inputs() == Bury(Spun(old(Inputs()), dead))
    {
      match dead {
        case NoFd =>
        case Stdinout => writesStdin, stdinValid := false, false;
        case Stderr => stderrValid := false;
        case ProtocolFd =>
          readsProtocol, stdinValid, stderrValid, protocolValid := false, false, false, false;
      }
    }

    /**
     PassDataStreams and SelectLoop, over what select and the system calls do in each round: until the
     protocol or both pipes are gone, or nothing more happens.
     */
    method PassDataStreams(turns: seq<Turn>) returns (used: nat)
      requires Ready()
      modifies this, input, input.fd
      ensures used <= |turns| && (used == |turns| || Over(Inputs()))
      ensures LoopsAlike(Inputs(), Spins(old(Inputs()), How(), turns[..used]))
    {
      used := 0;
      ghost var l := Inputs();
      while used < |turns| && protocolValid && (stdinValid || stderrValid)
        invariant used <= |turns| && l.feed.left <= |l.feed.data| && l == Spins(old(Inputs()), How(), turns[..used])
        invariant if Over(Inputs()) then LoopsAlike(Inputs(), l) else Ready() && Inputs() == l
        decreases |turns| - used
      {
        var t := turns[used];
        SpinsMore(old(Inputs()), How(), turns, used);
        l := Next(l, How(), t);
        SelectOnce(t);
        used := used + 1;
      }
    }

    /** One turn of SelectLoop, and the closing of the fd that died in it. */
    method SelectOnce(t: Turn)
      requires Ready() && !Over(Inputs())
      modifies this, input, input.fd
      ensures var l := Next(old(Inputs()), How(), t);
              if Over(Inputs()) then LoopsAlike(Inputs(), l) else Ready() && Inputs() == l
    {
      if t.SelectFails? {
        stdinValid, stderrValid := false, false;
      } else {
        ghost var l0 := Inputs();
        var dead := Round(t);
        ghost var l1 := Inputs();
        BuryAlike(l1, Spin(l0, How(), t).loop, dead);
        Close(dead);
      }
    }
  }

  lemma BuryAlike(l: Loop, m: Loop, dead: Fd)
    ensures LoopsAlike(l, m) ==> LoopsAlike(Bury(Spun(l, dead)), Bury(Spun(m, dead)))
    ensures dead == ProtocolFd ==> Over(Bury(Spun(l, dead)))
  {
  }

  lemma {:induction false} SpinsAppend(l: Loop, how: Setup, ts: seq<Turn>, t: Turn)
    requires l.feed.left <= |l.feed.data|
    ensures Spins(l, how, ts + [t]) == Next(Spins(l, how, ts), how, t)
    decreases |ts|
  {
    if ts == [] {
      assert ts + [t] == [t] && [t][1..] == [];
    } else {
      assert (ts + [t])[1..] == ts[1..] + [t];
      SpinsAppend(Next(l, how, ts[0]), how, ts[1..], t);
    }
  }

  lemma SpinsMore(l: Loop, how: Setup, ts: seq<Turn>, n: nat)
    requires l.feed.left <= |l.feed.data| && n < |ts|
    ensures Spins(l, how, ts[..n + 1]) == Next(Spins(l, how, ts[..n]), how, ts[n])
  {
    assert ts[..n + 1] == ts[..n] + [ts[n]];
    SpinsAppend(l, how, ts[..n], ts[n]);
  }

  lemma {:induction false} SpinsInv(start: Reader, how: Setup, l: Loop, ts: seq<Turn>)
    requires LoopInv(start, how, l)
    ensures LoopInv(start, how, Spins(l, how, ts))
    decreases |ts|
  {
    if ts != [] {
      NextInv(start, how, l, ts[0]);
      SpinsInv(start, how, Next(l, how, ts[0]), ts[1..]);
    }
  }

  /**
   Whatever the packets, the buffer and the system calls: the subprocess has been given a prefix of
   the stdin data sent, in order and without repetition. While its stdin lives, what it was given and
   what is pending are exactly the stdin data read so far, and in the end all that was sent. The stream
   may end anywhere, in the middle of a packet too.
   */
  lemma StdinArrives(ps: seq<Packet>, how: Setup, r: Reader, ts: seq<Turn>)
    requires how.capacity >= 1 && Short(ps) && r.left == 0 && r.rest <= EncodeAll(ps)
    ensures var f := Spins(Begin(r, how), how, ts).feed;
            && Gets(r, how.capacity, f.got, f.reader)
            && f.given <= OfId(ps, ID_STDIN)
            && (f.open ==> f.given + Pending(f) == OfId(f.got, ID_STDIN) <= OfId(ps, ID_STDIN))
            && (r.rest == EncodeAll(ps) && f.open && f.left == 0 && f.reader.left == 0 && f.reader.rest == [] ==>
                  f.given == OfId(ps, ID_STDIN))
  {
    assert LoopInv(r, how, Begin(r, how));
    SpinsInv(r, how, Begin(r, how), ts);
    var f := Spins(Begin(r, how), how, ts).feed;
    SameBytesPerId(r, ps, how.capacity, f.got, f.reader, ID_STDIN);
    if f.left == 0 {
      assert f.given + Pending(f) == f.given;
    }
  }

  /** The loop still runs and waits for the protocol. */
  predicate ReadsOn(l: Loop) {
    !Over(l) && l.readsProtocol
  }

  /**
   After stdin has died the protocol is still read, and its data dumped, if and only if stderr is left
   to keep the loop going and the death was noticed by a write, or no input was pending. If it is not
   read then, it never is again.
   */
  lemma DeadStdinReadsOnIff(start: Reader, how: Setup, l: Loop, t: Turn, ts: seq<Turn>)
    requires LoopInv(start, how, l) && !Over(l) && Spin(l, how, t).dead == Stdinout
    ensures ReadsOn(Next(l, how, t)) <==> l.stderr && (t.outputDead != Stdinout || l.feed.left == 0)
    ensures !ReadsOn(Next(l, how, t)) ==> !ReadsOn(Spins(Next(l, how, t), how, ts))
  {
    NextInv(start, how, l, t);
    if OutputDead(l, t.outputDead) == NoFd {
      if l.readsProtocol && t.readable {
        InputFed(start, how, l.feed, t.first);
      } else if l.writesStdin {
        InputFed(start, how, l.feed, t.second);
      }
    }
    if !ReadsOn(Next(l, how, t)) {
      StaysDeaf(start, how, Next(l, how, t), ts);
    }
  }

  lemma {:induction false} StaysDeaf(start: Reader, how: Setup, l: Loop, ts: seq<Turn>)
    requires LoopInv(start, how, l) && !l.feed.open && !ReadsOn(l)
    ensures !ReadsOn(Spins(l, how, ts))
    decreases |ts|
  {
    if ts != [] {
      NextInv(start, how, l, ts[0]);
      StaysDeaf(start, how, Next(l, how, ts[0]), ts[1..]);
    }
  }

  /** A raw subprocess whose stdin hangs up while a write to it is pending: the loop goes on without the protocol. */
  lemma PendingInputDeafens(r: Reader, how: Setup, t: Turn)
    requires how.raw && how.capacity >= 1 && r.left == 0 && r.rest == Encode(Packet(ID_STDIN, [7]))
    requires t.Turn? && t.outputDead == NoFd && t.readable && !t.writable && !t.first.readFails
             && t.first.write == Again
    ensures var l := Spins(Begin(r, how), how, [t, t.(outputDead := Stdinout)]);
            !Over(l) && !l.readsProtocol
  {
    var l := Begin(r, how);
    assert r.rest[1..HEADER] == Le32(1) && r.rest[HEADER..] == [7];
    Le32RoundTrip(1);
    var one, hangup := Next(l, how, t), t.(outputDead := Stdinout);
    assert one.feed.left == 1 && !one.readsProtocol && !Over(one);
    var two := Next(one, how, hangup);
    assert !two.readsProtocol && !Over(two);
    var ts, us := [t, hangup], [hangup];
    assert ts[1..] == us && us[1..] == [];
    assert Spins(two, how, []) == two;
    assert Spins(one, how, us) == two;
    assert Spins(l, how, ts) == two;
  }
}
