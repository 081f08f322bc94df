/**
 The endpoint as the program runs it: a table updated in place, with the write and read loops
 that face partial transfers. Every operation is proved to do what the Endpoint module says.
 */
module Sockets {
  import opened Bytes
  import opened Stream
  import opened Connection
  import opened Endpoint

  /** One adb_write or adb_read: bytes transferred (0 is end of file), EAGAIN, or another error. */
  datatype WriteCall = Took(n: nat) | WriteAgain | WriteError
  datatype ReadCall = Gave(data: bytes) | ReadAgain | ReadError

  /** What the loops of adb_write calls come to on a queue: each call is for the rest of one packet. */
  function Flush(calls: seq<WriteCall>, queue: seq<bytes>): (wo: WriteOutcome)
    decreases |calls|, |queue|
    ensures wo.n <= |Cat(queue)| && (wo.n == |Cat(queue)| ==> !wo.err)
  {
    if queue == [] then WriteOutcome(0, false)
    else if queue[0] == [] then Flush(calls, queue[1..])
    else if calls == [] then WriteOutcome(0, false)
    else match calls[0]
         case Took(n) =>
           if n == 0 then WriteOutcome(0, true)
           else
             var r := Min(n, |queue[0]|);
             CatCut(queue, r);
             var rest := Flush(calls[1..], Cut(queue, r));
             WriteOutcome(r + rest.n, rest.err)
         case WriteAgain => WriteOutcome(0, false)
         case WriteError => WriteOutcome(0, true)
  }

  /** The queue after a write of `r` bytes of its first packet, which stays until it is seen to be empty. */
  function Cut(queue: seq<bytes>, r: nat): (q: seq<bytes>)
    requires queue != [] && r <= |queue[0]|
  {
    [queue[0][r..]] + queue[1..]
  }

  lemma CatCut(queue: seq<bytes>, r: nat)
    requires queue != [] && r <= |queue[0]|
    ensures Cat(Cut(queue, r)) == Cat(queue)[r..]
  {
    assert Cut(queue, r)[1..] == queue[1..];
  }

  lemma {:induction false} DropDrop(queue: seq<bytes>, n: nat, r: nat)
    ensures Drop(queue, n + r) == Drop(Drop(queue, n), r)
  {
    if queue != [] {
      if n >= |queue[0]| {
        DropDrop(queue[1..], n - |queue[0]|, r);
      } else {
        assert ([queue[0][n..]] + queue[1..])[1..] == queue[1..];
        if n + r < |queue[0]| {
          assert queue[0][n..][r..] == queue[0][n + r..];
        }
      }
    }
  }

  lemma DropCut(queue: seq<bytes>, r: nat)
    requires queue != [] && r <= |queue[0]|
    ensures Drop(Cut(queue, r), 0) == Drop(queue, r)
  {
    assert Cut(queue, r)[1..] == queue[1..];
  }

  /** What a loop of adb_read calls comes to with room for `avail` bytes. */
  function Gathered(calls: seq<ReadCall>, avail: nat): ReadOutcome {
    if avail == 0 || calls == [] then ReadOutcome([], false)
    else match calls[0]
         case Gave(data) =>
           if data == [] then ReadOutcome([], true)
           else
             var got := data[..Min(|data|, avail)];
             var rest := Gathered(calls[1..], avail - |got|);
             ReadOutcome(got + rest.data, rest.eof)
         case ReadAgain => ReadOutcome([], false)
         case ReadError => ReadOutcome([], true)
  }

  lemma {:induction false} GatheredFits(calls: seq<ReadCall>, avail: nat)
    ensures |Gathered(calls, avail).data| <= avail
  {
    if avail != 0 && calls != [] && calls[0].Gave? && calls[0].data != [] {
      GatheredFits(calls[1..], avail - Min(|calls[0].data|, avail));
    }
  }

  /** These calls all gave something. */
  predicate AllGave(calls: seq<ReadCall>) {
    forall k :: 0 <= k < |calls| ==> calls[k].Gave? && calls[k].data != []
  }

  function GivenBy(calls: seq<ReadCall>): bytes
    requires AllGave(calls)
  {
    if calls == [] then [] else calls[0].data + GivenBy(calls[1..])
  }

  /**
   As long as calls give something and there is room, it is gathered. A call that gives nothing, or fails, is the
   end of the file; one that would block, or the lack of another, is not.
   */
  lemma {:induction false} GatheredUpTo(calls: seq<ReadCall>, avail: nat, k: nat)
    requires k <= |calls| && AllGave(calls[..k]) && |GivenBy(calls[..k])| < avail
    requires k < |calls| ==> !calls[k].Gave? || calls[k].data == []
    ensures Gathered(calls, avail) == ReadOutcome(GivenBy(calls[..k]), k < |calls| && !calls[k].ReadAgain?)
    decreases k
  {
    if k > 0 {
      assert calls[..k][0] == calls[0] && calls[..k][1..] == calls[1..][..k - 1];
      var n := |calls[0].data|;
      assert calls[0].data[..n] == calls[0].data;
      GatheredUpTo(calls[1..], avail - n, k - 1);
    }
  }

  /** Loop state: `k` calls made, `n` bytes of `queue` taken, `q` left of it. */
  ghost predicate Writing(calls: seq<WriteCall>, queue: seq<bytes>, k: nat, n: nat, q: seq<bytes>) {
    && k <= |calls| && n <= |Cat(queue)|
    && Flush(calls, queue) == WriteOutcome(n + Flush(calls[k..], q).n, Flush(calls[k..], q).err)
    && Drop(queue, n) == Drop(q, 0)
    && Cat(q) == Cat(queue)[n..]
  }

  /** The same with what was taken. */
  ghost predicate Wrote(calls: seq<WriteCall>, queue: seq<bytes>, k: nat, taken: bytes, q: seq<bytes>) {
    Writing(calls, queue, k, |taken|, q) && taken == Cat(queue)[..|taken|]
  }

  lemma WritingStarts(calls: seq<WriteCall>, queue: seq<bytes>)
    ensures Writing(calls, queue, 0, 0, queue)
  {
    assert calls[0..] == calls && Cat(queue)[0..] == Cat(queue);
  }

  /** One more successful adb_write. */
  lemma WritingGoesOn(calls: seq<WriteCall>, queue: seq<bytes>, k: nat, n: nat, q: seq<bytes>)
    requires Writing(calls, queue, k, n, q) && q != [] && q[0] != []
    requires k < |calls| && calls[k].Took? && calls[k].n > 0
    ensures var r := Min(calls[k].n, |q[0]|);
            Writing(calls, queue, k + 1, n + r, Cut(q, r)) && Cat(queue)[..n + r] == Cat(queue)[..n] + q[0][..r]
  {
    var r := Min(calls[k].n, |q[0]|);
    FlushStep(calls, k, q);
    CatCut(q, r);
    SliceOn(Cat(queue), n, r, q[0], Cat(q[1..]));
    DropGoesOn(queue, n, q, r);
  }

  lemma DropGoesOn(queue: seq<bytes>, n: nat, q: seq<bytes>, r: nat)
    requires Drop(queue, n) == Drop(q, 0) && q != [] && r <= |q[0]|
    ensures Drop(queue, n + r) == Drop(Cut(q, r), 0)
  {
    DropDrop(queue, n, r);
    DropDrop(q, 0, r);
    DropCut(q, r);
  }

  lemma FlushStep(calls: seq<WriteCall>, k: nat, q: seq<bytes>)
    requires q != [] && q[0] != [] && k < |calls| && calls[k].Took? && calls[k].n > 0
    ensures var r := Min(calls[k].n, |q[0]|);
            var rest := Flush(calls[k + 1..], Cut(q, r));
            Flush(calls[k..], q) == WriteOutcome(r + rest.n, rest.err)
  {
    assert calls[k..][1..] == calls[k + 1..];
  }

  lemma SliceOn(all: bytes, n: nat, r: nat, first: bytes, rest: bytes)
    requires n <= |all| && all[n..] == first + rest && r <= |first|
    ensures n + r <= |all| && all[..n + r] == all[..n] + first[..r] && all[n + r..] == (first + rest)[r..]
  {
    assert all[n..][..r] == first[..r];
  }

  /** Nothing is left, or the next adb_write takes nothing. */
  lemma WritingStops(calls: seq<WriteCall>, queue: seq<bytes>, k: nat, n: nat, q: seq<bytes>)
    requires Writing(calls, queue, k, n, q)
    requires q == [] || (q[0] != [] && (k == |calls| || !calls[k].Took? || calls[k].n == 0))
    ensures Flush(calls, queue) == WriteOutcome(n, q != [] && k < |calls| && !calls[k].WriteAgain?)
    ensures q == Drop(queue, n)
  {
  }

  /** The first packet is done with. */
  lemma WritingNext(calls: seq<WriteCall>, queue: seq<bytes>, k: nat, n: nat, q: seq<bytes>)
    requires Writing(calls, queue, k, n, q) && q != [] && q[0] == []
    ensures Writing(calls, queue, k, n, q[1..])
  {
  }

  /** The inner loop: the first packet goes out by as many adb_write calls as it takes, until one stops it. */
  method WritePacket(calls: seq<WriteCall>, ghost queue: seq<bytes>, k0: nat, taken0: bytes, left0: seq<bytes>)
    returns (k: nat, taken: bytes, left: seq<bytes>, stopped: bool)
    requires left0 != [] && Wrote(calls, queue, k0, taken0, left0)
    ensures |left| == |left0| && Wrote(calls, queue, k, taken, left)
    ensures if stopped then left[0] != [] && (k == |calls| || !calls[k].Took? || calls[k].n == 0) else left[0] == []
  {
    k, taken, left, stopped := k0, taken0, left0, false;
    while left[0] != []
      invariant |left| == |left0| && !stopped && Wrote(calls, queue, k, taken, left)
      decreases |left[0]|
    {
      if k == |calls| || !calls[k].Took? || calls[k].n == 0 {
        stopped := true;
        return;
      }
      var r := Min(calls[k].n, |left[0]|);
      WroteMore(calls, queue, k, taken, left);
      k, taken, left := k + 1, taken + left[0][..r], Cut(left, r);
    }
  }

  /**
   The write loops of local_socket_enqueue and of the event function: packets go out one after the
   other, each by as many adb_write calls as it takes, until one would block or fails.
   */
  method WriteQueue(calls: seq<WriteCall>, queue: seq<bytes>) returns (taken: bytes, left: seq<bytes>, failed: bool)
    ensures var wo := Flush(calls, queue);
            taken == Cat(queue)[..wo.n] && left == Drop(queue, wo.n) && failed == wo.err
  {
    taken, left, failed := [], queue, false;
    var k: nat, stopped := 0, false;
    WritingStarts(calls, queue);
    while left != []
      invariant Wrote(calls, queue, k, taken, left)
      decreases |left|
    {
      k, taken, left, stopped := WritePacket(calls, queue, k, taken, left);
      if stopped {
        failed := k < |calls| && !calls[k].WriteAgain?;
        WritingStops(calls, queue, k, |taken|, left);
        return;
      }
      WritingNext(calls, queue, k, |taken|, left);
      left := left[1..];
    }
    failed := false;
    WritingStops(calls, queue, k, |taken|, left);
  }

  lemma WroteMore(calls: seq<WriteCall>, queue: seq<bytes>, k: nat, taken: bytes, q: seq<bytes>)
    requires Wrote(calls, queue, k, taken, q) && q != [] && q[0] != []
    requires k < |calls| && calls[k].Took? && calls[k].n > 0
    ensures var r := Min(calls[k].n, |q[0]|); Wrote(calls, queue, k + 1, taken + q[0][..r], Cut(q, r))
  {
    WritingGoesOn(calls, queue, k, |taken|, q);
  }

  /** The read loop of the event function. */
  method ReadAll(calls: seq<ReadCall>, maxPayload: nat) returns (data: bytes, eof: bool)
    ensures Gathered(calls, maxPayload) == ReadOutcome(data, eof)
  {
    data, eof := [], false;
    var k: nat := 0;
    assert calls[0..] == calls;
    BeforeAll(Gathered(calls, maxPayload));
    while |data| < maxPayload
      invariant |data| <= maxPayload && k <= |calls| && !eof
      invariant Gathered(calls, maxPayload) == Before(data, Gathered(calls[k..], maxPayload - |data|))
      decreases |calls| - k
    {
      if k == |calls| || calls[k].ReadAgain? {
        return;
      }
      if calls[k].ReadError? || calls[k].data == [] {
        eof := true;
        return;
      }
      var more := calls[k].data[..Min(|calls[k].data|, maxPayload - |data|)];
      GatheredStep(calls, k, maxPayload - |data|, data, more);
      data := data + more;
      k := k + 1;
    }
  }

  function Before(data: bytes, ro: ReadOutcome): ReadOutcome {
    ReadOutcome(data + ro.data, ro.eof)
  }

  lemma BeforeAll(ro: ReadOutcome)
    ensures Before([], ro) == ro
  {
    assert [] + ro.data == ro.data;
  }

  /** One adb_read that gives something. */
  lemma GatheredStep(calls: seq<ReadCall>, k: nat, avail: nat, data: bytes, more: bytes)
    requires k < |calls| && avail > 0 && calls[k].Gave? && calls[k].data != []
    requires more == calls[k].data[..Min(|calls[k].data|, avail)]
    ensures Before(data, Gathered(calls[k..], avail)) == Before(data + more, Gathered(calls[k + 1..], avail - |more|))
  {
    assert calls[k..][1..] == calls[k + 1..];
    FirstGathered(calls[k..], avail, more, calls[k + 1..]);
    BeforeBoth(data, more, Gathered(calls[k + 1..], avail - |more|));
  }

  lemma FirstGathered(calls: seq<ReadCall>, avail: nat, more: bytes, rest: seq<ReadCall>)
    requires calls != [] && rest == calls[1..] && avail > 0 && calls[0].Gave? && calls[0].data != []
    requires more == calls[0].data[..Min(|calls[0].data|, avail)]
    ensures Gathered(calls, avail) == Before(more, Gathered(rest, avail - |more|))
  {
  }

  lemma BeforeBoth(data: bytes, more: bytes, ro: ReadOutcome)
    ensures Before(data, Before(more, ro)) == Before(data + more, ro)
  {
    Joined(data, more, ro.data);
  }

  /** local_socket_close. */
  method LocalSocketClose(s: Half, why: Cause) returns (h: Half, out: seq<Msg>)
    requires Open(s)
    ensures Effect(h, out) == Close(s, why)
  {
    h, out := s, [];
    if h.up {
      out := [MClse];
      h := h.(up := false);
    }
    h := h.(rd := false);
    if h.phase.Draining? || why.WriteFailed? || h.queue == [] {
      if !h.phase.Draining? || h.queue != [] {
        h := h.(cause := why);
      }
      h := h.(phase := Gone, wr := false, queue := []);
    } else {
      h := h.(phase := Draining, cause := why);
    }
  }

  /** local_socket_enqueue; `r` is its return value, and its caller sends the OKAY when that is 0. */
  method LocalSocketEnqueue(s: Half, data: bytes, calls: seq<WriteCall>) returns (h: Half, out: seq<Msg>, r: int)
    requires s.phase.Live?
    ensures Effect(h, if r == 0 then [MOkay] else out) == Enqueue(s, data, Flush(calls, [data]))
    ensures r == 0 ==> out == []
  {
    if s.queue != [] {
      return s.(queue := s.queue + [data], wr := true), [], 1;
    }
    assert Cat([data]) == data + Cat([data][1..]) == data;
    var taken, left, failed := WriteQueue(calls, [data]);
    DropCat([data], |taken|);
    h := s.(got := s.got + taken);
    if failed {
      h, out := LocalSocketClose(h, WriteFailed);
      return h, out, 1;
    }
    if left == [] {
      return h, [], 0;
    }
    assert left == [data[|taken|..]];
    return h.(queue := left, wr := true), [], 1;
  }

  /** The FDE_WRITE part of local_socket_event_func; `more` is false where the source returns. */
  method DrainQueue(s: Half, calls: seq<WriteCall>) returns (h: Half, out: seq<Msg>, more: bool)
    requires Open(s)
    ensures (Effect(h, out), more) == WriteEvent(s, Flush(calls, s.queue))
  {
    var taken, left, failed := WriteQueue(calls, s.queue);
    DropCat(s.queue, |taken|);
    h, out, more := s.(queue := left, got := s.got + taken), [], false;
    if failed {
      h, out := LocalSocketClose(h, WriteFailed);
    } else if left == [] {
      if h.phase.Draining? {
        h, out := LocalSocketClose(h, h.cause);
      } else {
        h, out, more := h.(wr := false), [MOkay], true;
      }
    }
  }

  /** The FDE_READ part, handing data to remote_socket_enqueue. */
  method PumpInput(s: Half, calls: seq<ReadCall>, maxPayload: nat) returns (h: Half, out: seq<Msg>)
    requires Open(s)
    ensures Effect(h, out) == ReadEvent(s, Gathered(calls, maxPayload))
  {
    h, out := s, [];
    var data, eof := ReadAll(calls, maxPayload);
    if data != [] && h.up {
      h := h.(sent := h.sent + data, rd := false);
      out := [MWrte(data)];
    }
    if eof {
      var bye;
      h, bye := LocalSocketClose(h, if s.phase.Live? then LocalClosed else Dropped);
      out := out + bye;
    }
  }

  /** Of the sockets up to the first that is still to be closed, only that one can be bound. */
  lemma ClosedSoFar(e: Ep, t: nat, k: nat, i: nat)
    requires i <= k
    ensures var o := CloseBelow(e, t, k);
            if Bound(o.ep, i, t)
            then && i == k
                 && var c := Apply(o.ep, i, Close(o.ep.socks[i].h, LocalClosed));
                    CloseBelow(e, t, k + 1) == Out(c.ep, o.pkts + c.pkts)
            else i == k ==> CloseBelow(e, t, k + 1) == o
  {
    CloseBelowEffect(e, t, k, i);
  }

  class Adb {
    var online: bool
    var maxPayload: nat
    var nextId: nat
    var socks: map<nat, Entry>
    var outbox: seq<Packet>
    ghost var accepted: map<nat, nat>

    ghost function State(): Ep
      reads this
    {
      Ep(online, maxPayload, nextId, socks, accepted)
    }

    constructor (limit: nat)
      ensures State() == Ep(true, limit, 1, map[], map[]) && outbox == []
    {
      online, maxPayload, nextId, socks, outbox := true, limit, 1, map[], [];
      accepted := map[];
    }

    /** Stores socket `id` and posts what it says. */
    method Store(id: nat, h: Half, out: seq<Msg>)
      requires id in socks
      modifies this`socks, this`outbox
      ensures State() == Apply(old(State()), id, Effect(h, out)).ep
      ensures outbox == old(outbox) + Apply(old(State()), id, Effect(h, out)).pkts
    {
      outbox := outbox + AddressAll(id, socks[id].peer, out);
      socks := socks[id := socks[id].(h := h)];
    }

    /** install_local_socket and connect_to_remote for a new client on transport `t`. */
    method ConnectToRemote(t: nat, destination: bytes) returns (id: nat)
      requires nextId < LAST_ID && FitsOpen(State(), destination)
      modifies this
      ensures var o := Connect(old(State()), t, destination); State() == o.ep && outbox == old(outbox) + o.pkts
      ensures id == old(nextId)
    {
      id := nextId;
      nextId := nextId + 1;
      socks := socks[id := Entry(NO_SOCKET.(phase := Live), 0, true, t, 0)];
      outbox := outbox + [Packet(OPEN, id, 0, destination + [0])];
    }

    /** local_socket_event_func. */
    method LocalSocketEvent(id: nat, write: bool, read: bool, wcalls: seq<WriteCall>, rcalls: seq<ReadCall>)
      requires id in socks && HalfOk(socks[id].h) && Open(socks[id].h) && (write ==> socks[id].h.wr)
      modifies this`socks, this`outbox
      ensures var ev := Event(write, read, Flush(wcalls, old(socks)[id].h.queue), Gathered(rcalls, maxPayload));
              var o := Fire(old(State()), id, ev);
              && State() == o.ep && outbox == old(outbox) + o.pkts && Allowed(old(socks)[id].h, ev)
              && |ev.ro.data| <= maxPayload
    {
      GatheredFits(rcalls, maxPayload);
      var h, out, more := socks[id].h, [], true;
      if write {
        WriteMoves(h, Flush(wcalls, h.queue));
        h, out, more := DrainQueue(h, wcalls);
      }
      if more && read {
        var said;
        h, said := PumpInput(h, rcalls, maxPayload);
        out := out + said;
      }
      Store(id, h, out);
    }

    /** handle_packet for the stream packets. */
    method Handle(p: Packet, t: nat, accept: bool, calls: seq<WriteCall>)
      requires TakesId(State(), p, accept) ==> nextId < LAST_ID
      modifies this
      ensures var o := HandlePacket(old(State()), p, t, accept, Flush(calls, [p.data]));
              State() == o.ep && outbox == old(outbox) + o.pkts
    {
      if !online {
        return;
      }
      match p.cmd {
        case OPEN =>
          if p.arg0 != 0 && p.arg1 == 0 {
            if accept {
              var id := nextId;
              nextId := nextId + 1;
              socks := socks[id := Entry(ACCEPTED, p.arg0, false, 0, t)];
              accepted := accepted[p.arg0 := id];
              outbox := outbox + [Packet(OKAY, id, p.arg0, [])];
            } else {
              outbox := outbox + [Packet(CLSE, 0, p.arg0, [])];
            }
          }
        case OKAY =>
          if p.arg0 != 0 && p.arg1 != 0 {
            if p.arg1 in socks && socks[p.arg1].h.phase.Live? {
              var s := socks[p.arg1];
              if !s.h.up {
                s := s.(h := s.h.(up := true), peer := p.arg0, peerTransport := t);
              }
              if s.peer == p.arg0 {
                socks := socks[p.arg1 := s.(h := s.h.(rd := true))];
              }
            } else {
              outbox := outbox + [Packet(CLSE, p.arg1, p.arg0, [])];
            }
          }
        case CLSE =>
          if p.arg1 != 0 && Found(p.arg1, p.arg0) {
            var s := socks[p.arg1];
            if !(p.arg0 == 0 && s.h.up && s.peerTransport != t) {
              var h, out := LocalSocketClose(s.h, PeerClosed);
              Store(p.arg1, h, out);
            }
          }
        case WRTE =>
          if p.arg0 != 0 && p.arg1 != 0 && Found(p.arg1, p.arg0) {
            var h, out, r := LocalSocketEnqueue(socks[p.arg1].h, p.data, calls);
            if r == 0 {
              out := [MOkay];
            }
            Store(p.arg1, h, out);
          }
      }
    }

    /** find_local_socket. */
    predicate Found(id: nat, peerId: nat)
      reads this
      ensures Found(id, peerId) <==> Finds(State(), id, peerId)
    {
      id in socks && socks[id].h.phase.Live? && (peerId == 0 || (socks[id].h.up && socks[id].peer == peerId))
    }

    predicate IsBound(id: nat, t: nat)
      reads this
      ensures IsBound(id, t) <==> Bound(State(), id, t)
    {
      id in socks && socks[id].h.phase.Live?
      && (socks[id].transport == t || (socks[id].h.up && socks[id].peerTransport == t))
    }

    ghost predicate ClosedBelow(e: Ep, t: nat, k: nat, sent: seq<Packet>)
      reads this
    {
      k <= nextId && State() == CloseBelow(e, t, k).ep && outbox == sent + CloseBelow(e, t, k).pkts
    }

    /** One scan from the front: the first bound socket is closed. */
    method CloseFirst(t: nat, ghost e: Ep, ghost k0: nat, ghost sent: seq<Packet>) returns (found: bool, ghost k: nat)
      requires ClosedBelow(e, t, k0, sent)
      modifies this`socks, this`outbox
      ensures ClosedBelow(e, t, k, sent) && k0 <= k && if found then k0 < k else k == nextId
    {
      k := k0;
      var i := 0;
      while i < nextId
        invariant i <= nextId && i <= k && k0 <= k && ClosedBelow(e, t, k, sent)
      {
        ClosedSoFar(e, t, k, i);
        if IsBound(i, t) {
          var h, out := LocalSocketClose(socks[i].h, LocalClosed);
          Joined(sent, CloseBelow(e, t, k).pkts, Apply(State(), i, Effect(h, out)).pkts);
          Store(i, h, out);
          return true, k + 1;
        }
        i := i + 1;
        k := if k < i then i else k;
      }
      return false, k;
    }

    /**
     close_all_sockets: closing a socket changes the list, so the scan starts again from the front
     after each close. It ends because every close leaves one live socket less.
     */
    method CloseAllSockets(t: nat)
      requires forall i :: i in socks ==> i < nextId
      modifies this`socks, this`outbox
      ensures var o := CloseBelow(old(State()), t, nextId);
              State() == o.ep && outbox == old(outbox) + o.pkts
      ensures forall i :: i in socks ==> !Bound(State(), i, t)
    {
      ghost var e, k: nat := State(), 0;  // every bound socket below k is closed
      var restart := true;
      assert old(outbox) + [] == old(outbox);
      while restart
        invariant ClosedBelow(e, t, k, old(outbox)) && nextId == old(nextId)
        invariant !restart ==> k == nextId
        decreases nextId - k, restart
      {
        restart, k := CloseFirst(t, e, k, old(outbox));
      }
      forall i | i in socks ensures !Bound(State(), i, t) {
        CloseBelowEffect(e, t, nextId, i);
      }
    }
  }
}
