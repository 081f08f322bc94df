/**
 The life of one connection: the socket that sent OPEN, the socket its peer created for it, and
 the two FIFO channels between them. Every interleaving of events and deliveries is a run.
 */
module Connection {
  import opened Bytes
  import opened Stream

  datatype Conn = Conn(o: Half, a: Half, fwd: seq<Msg>, bwd: seq<Msg>)

  datatype Step =
    | OpenerEvent(ev: Event)
    | AcceptorEvent(ev: Event)
    | ToAcceptor(accept: bool, wo: WriteOutcome)
    | ToOpener(wo: WriteOutcome)

  /** create_local_socket followed by connect_to_remote. */
  const START := Conn(NO_SOCKET.(phase := Live), NO_SOCKET, [MOpen], [])

  /** The socket handle_packet creates for an OPEN: connected and at once ready to read. */
  const ACCEPTED := NO_SOCKET.(phase := Live, up := true, rd := true)

  /** handle_packet at the side that accepted the OPEN. */
  function AcceptorReceive(a: Half, m: Msg, accept: bool, wo: WriteOutcome): Effect
  {
    match m
    case MOpen => if accept then Effect(ACCEPTED, [MOkay]) else Effect(a, [MFail])
    case MOkay => if a.phase.Live? then Effect(Ready(a), []) else Effect(a, [MClse])
    case MWrte(data) => if a.phase.Live? then Enqueue(a, data, wo) else Effect(a, [])
    case MClse => if a.phase.Live? then Close(a, PeerClosed) else Effect(a, [])
    case MFail => Effect(a, [])
  }

  /** handle_packet at the side that sent the OPEN. */
  function OpenerReceive(o: Half, m: Msg, wo: WriteOutcome): Effect
  {
    match m
    case MOkay => if o.phase.Live? then Effect(Ready(o.(up := true)), []) else Effect(o, [MClse])
    case MWrte(data) => if o.phase.Live? && o.up then Enqueue(o, data, wo) else Effect(o, [])
    case MClse => if o.phase.Live? && o.up then Close(o, PeerClosed) else Effect(o, [])
    case MFail => if o.phase.Live? then Close(o, PeerClosed) else Effect(o, [])
    case MOpen => Effect(o, [])
  }

  /** Writable events are only delivered while wanted; readable ones may come unasked for. */
  predicate Allowed(h: Half, ev: Event) {
    Open(h) && (ev.write ==> h.wr)
  }

  predicate Enabled(c: Conn, s: Step) {
    match s
    case OpenerEvent(ev) => Allowed(c.o, ev)
    case AcceptorEvent(ev) => Allowed(c.a, ev)
    case ToAcceptor(_, _) => c.fwd != []
    case ToOpener(_) => c.bwd != []
  }

  function Next(c: Conn, s: Step): Conn
    requires Enabled(c, s)
  {
    match s
    case OpenerEvent(ev) =>
      var e := HandleEvent(c.o, ev);
      c.(o := e.h, fwd := c.fwd + e.out)
    case AcceptorEvent(ev) =>
      var e := HandleEvent(c.a, ev);
      c.(a := e.h, bwd := c.bwd + e.out)
    case ToAcceptor(accept, wo) =>
      var e := AcceptorReceive(c.a, c.fwd[0], accept, wo);
      c.(a := e.h, fwd := c.fwd[1..], bwd := c.bwd + e.out)
    case ToOpener(wo) =>
      var e := OpenerReceive(c.o, c.bwd[0], wo);
      c.(o := e.h, bwd := c.bwd[1..], fwd := c.fwd + e.out)
  }

  // ---- what is in flight ----

  /** The payload bytes in flight. */
  function Data(ms: seq<Msg>): bytes {
    if ms == [] then []
    else (if ms[0].MWrte? then ms[0].data else []) + Data(ms[1..])
  }

  function Wrtes(ms: seq<Msg>): nat {
    if ms == [] then 0 else (if ms[0].MWrte? then 1 else 0) + Wrtes(ms[1..])
  }

  function Okays(ms: seq<Msg>): nat {
    if ms == [] then 0 else (if ms[0].MOkay? then 1 else 0) + Okays(ms[1..])
  }

  lemma {:induction false} InFlightAppend(ms: seq<Msg>, more: seq<Msg>)
    ensures Data(ms + more) == Data(ms) + Data(more)
    ensures Wrtes(ms + more) == Wrtes(ms) + Wrtes(more)
    ensures Okays(ms + more) == Okays(ms) + Okays(more)
  {
    if ms == [] {
      assert ms + more == more;
    } else {
      assert (ms + more)[1..] == ms[1..] + more;
      InFlightAppend(ms[1..], more);
    }
  }

  // ---- what a socket does, told apart from how it does it ----

  /** The fd takes less than is queued. */
  predicate Blocked(h: Half, ev: Event) {
    ev.write && ev.wo.n < |Cat(h.queue)|
  }

  /**
   A live socket outlives an event if and only if no write failed before the end of the queue and no
   read found the end of the file; a closing one if and only if its queue was not written out, no write
   failed and no hang-up was read to the end.
   */
  lemma EventOutlivedIff(h: Half, ev: Event)
    requires HalfOk(h) && Allowed(h, ev)
    ensures var e := HandleEvent(h, ev);
            && (h.phase.Live? ==>
                  (e.h.phase.Live? <==> if Blocked(h, ev) then !ev.wo.err else !(ev.read && ev.ro.eof)))
            && (h.phase.Draining? ==>
                  (e.h.phase.Draining? <==> if ev.write then Blocked(h, ev) && !ev.wo.err else !(ev.read && ev.ro.eof)))
  {
  }

  /** The fd is given the front of the queue, and the peer all that was read, unless the write part returned early. */
  lemma EventCarries(h: Half, ev: Event)
    requires HalfOk(h) && Allowed(h, ev)
    ensures var e := HandleEvent(h, ev); var all := Cat(h.queue);
            && e.h.got == h.got + all[..if ev.write then Min(ev.wo.n, |all|) else 0]
            && e.h.sent == h.sent + (if ev.read && !Blocked(h, ev) && h.up then ev.ro.data else [])
            && Data(e.out) == if ev.read && !Blocked(h, ev) && h.up then ev.ro.data else []
  {
    if ev.write {
      WriteCarries(h, ev.wo);
      var w := WriteEvent(h, ev.wo);
      if w.1 && ev.read {
        ReadCarries(w.0.h, ev.ro);
        InFlightAppend(w.0.out, ReadEvent(w.0.h, ev.ro).out);
      }
    } else if ev.read {
      ReadCarries(h, ev.ro);
      assert [] + ReadEvent(h, ev.ro).out == ReadEvent(h, ev.ro).out;
    }
  }

  lemma WriteCarries(h: Half, wo: WriteOutcome)
    requires HalfOk(h) && Open(h)
    ensures var (e, more) := WriteEvent(h, wo); var all := Cat(h.queue);
            && e.h.got == h.got + all[..Min(wo.n, |all|)] && e.h.sent == h.sent && Data(e.out) == []
            && (more <==> h.phase.Live? && wo.n >= |all|) && (more ==> e.h.up == h.up && Open(e.h))
  {
    var one, bye := [MOkay], [MClse];
    assert Data(one) == Data(one[1..]) == [] && Data(bye) == Data(bye[1..]) == [];
  }

  lemma ReadCarries(h: Half, ro: ReadOutcome)
    requires Open(h)
    ensures var e := ReadEvent(h, ro); var data := if h.up then ro.data else [];
            e.h.got == h.got && e.h.sent == h.sent + data && Data(e.out) == data
  {
    var one, bye := [MWrte(ro.data)], [MClse];
    assert Data(one) == ro.data + Data(one[1..]) == ro.data && Data(bye) == Data(bye[1..]) == [];
    assert one + [] == one && [] + bye == bye && bye + [] == bye;
    InFlightAppend(one, bye);
  }

  /**
   A payload is acknowledged at once if and only if it was written whole, kept if it was not, and the
   socket dies of it if and only if writing it failed.
   */
  lemma EnqueueOutcome(h: Half, data: bytes, wo: WriteOutcome)
    requires HalfOk(h) && h.phase.Live?
    ensures var e := Enqueue(h, data, wo); var n := if h.queue == [] then Min(wo.n, |data|) else 0;
            && (e.h.phase.Live? <==> h.queue != [] || n == |data| || !wo.err)
            && (MOkay in e.out <==> h.queue == [] && n == |data|)
            && e.h.got == h.got + data[..n]
            && (e.h.phase.Live? ==> Cat(e.h.queue) == Cat(h.queue) + data[n..])
  {
    if h.queue != [] {
      CatAppend(h.queue, data);
    } else if wo.n < |data| {
      var left := [data[wo.n..]];
      assert Cat(left) == data[wo.n..] + Cat(left[1..]) && left[1..] == [];
    }
  }

  /** Closing tells a peer, once, and keeps a live socket only while it has something to write and can. */
  lemma CloseOutcome(h: Half, why: Cause)
    requires Open(h)
    ensures var e := Close(h, why);
            && !e.h.phase.Live? && !e.h.up && !e.h.rd
            && e.out == (if h.up then [MClse] else [])
            && (e.h.phase.Draining? <==> h.phase.Live? && h.queue != [] && !why.WriteFailed?)
            && e.h.queue == (if e.h.phase.Draining? then h.queue else [])
  {
  }

  // ---- the invariant ----

  /** Nothing but further CLSEs follows a CLSE. */
  ghost predicate ClosedOff(ms: seq<Msg>) {
    forall k, l :: 0 <= k < l < |ms| && ms[k].MClse? ==> ms[l].MClse?
  }

  /** A sender that is no longer live has said so in the last message. */
  ghost predicate SaidGoodbye(h: Half, ms: seq<Msg>) {
    && (h.phase.Live? ==> MClse !in ms)
    && (!h.phase.Live? && ms != [] ==> ms[|ms| - 1].MClse?)
  }

  /** How far a connection has come, told from its channels. */
  ghost predicate Stages(c: Conn) {
    && MOpen !in c.bwd && MFail !in c.fwd
    && (c.a.phase.Absent? ==>
          && !c.o.up && !c.o.phase.Draining? && c.o.sent == []
          && (|| (c.fwd == [MOpen] && c.bwd == [] && !c.o.cause.PeerClosed?)
              || (c.fwd == [] && c.bwd == [MFail])
              || (c.fwd == [] && c.bwd == [] && c.o.phase.Gone?)))
    && (!c.a.phase.Absent? ==>
          && MOpen !in c.fwd && MFail !in c.bwd
          && (c.a.phase.Live? ==> c.a.up)
          && SaidGoodbye(c.o, c.fwd) && SaidGoodbye(c.a, c.bwd)
          && (c.o.phase.Live? && !c.o.up ==> c.fwd == [] && c.bwd != [] && c.bwd[0].MOkay?))
  }

  /** An end whose other end is gone is going to hear of it. */
  ghost predicate WillClose(c: Conn) {
    && (c.o.phase.Live? && c.o.up && !c.a.phase.Live? ==> MClse in c.bwd)
    && (c.a.phase.Live? && !c.o.phase.Live? ==> MClse in c.fwd || MOkay in c.bwd)
  }

  /** Bytes of one direction: what the sender took in against what the receiver has. */
  ghost predicate Flow(s: Half, r: Half, ms: seq<Msg>) {
    var have := r.got + Cat(r.queue);
    match r.phase
    case Absent => s.sent == []
    case Live => s.sent == have + Data(ms)
    case _ => have <= s.sent && (r.cause.PeerClosed? ==> !s.phase.Live? && s.sent == have)
  }

  ghost predicate Inv(c: Conn) {
    && HalfOk(c.o) && HalfOk(c.a) && !c.o.phase.Absent?
    && ClosedOff(c.fwd) && ClosedOff(c.bwd)
    && Stages(c) && WillClose(c)
    && Flow(c.o, c.a, c.fwd) && Flow(c.a, c.o, c.bwd)
  }

  lemma StartInv()
    ensures Inv(START)
  {
  }

  // ---- every step keeps it ----

  function Have(h: Half): bytes {
    h.got + Cat(h.queue)
  }

  /**
   What an operation on a connected socket may do, when `gain` is the payload it was given: it
   loses bytes only by dying, sends exactly what it takes from the fd, and dies saying CLSE.
   */
  ghost predicate Moves(h: Half, gain: bytes, e: Effect) {
    && HalfOk(e.h) && !e.h.phase.Absent?
    && MOpen !in e.out && MFail !in e.out && ClosedOff(e.out)
    && (e.h.phase.Live? ==> h.phase.Live? && MClse !in e.out)
    && (e.out != [] ==> h.phase.Live? && h.up)
    && (h.phase.Live? && h.up && !e.h.phase.Live? ==> e.out != [] && e.out[|e.out| - 1].MClse?)
    && e.h.up == (h.up && e.h.phase.Live?)
    && e.h.sent == h.sent + Data(e.out)
    && Have(e.h) <= Have(h) + gain
    && (!e.h.phase.Gone? ==> Have(e.h) == Have(h) + gain)
  }

  /** An event never makes a socket look as if its peer had closed it. */
  ghost predicate KeepsCause(h: Half, e: Effect) {
    e.h.cause.PeerClosed? ==> h.cause.PeerClosed? && Have(e.h) == Have(h)
  }

  lemma WriteMoves(h: Half, wo: WriteOutcome)
    requires HalfOk(h) && Open(h) && h.wr
    ensures var (e, more) := WriteEvent(h, wo);
            Moves(h, [], e) && KeepsCause(h, e) && (more ==> e.h.phase.Live?)
  {
    if wo.n < |Cat(h.queue)| {
      WriteMovesSome(h, wo);
    } else {
      WriteMovesAll(h, wo);
    }
  }

  lemma WriteMovesSome(h: Half, wo: WriteOutcome)
    requires HalfOk(h) && Open(h) && h.wr && wo.n < |Cat(h.queue)|
    ensures var (e, more) := WriteEvent(h, wo); Moves(h, [], e) && KeepsCause(h, e) && !more
  {
    var all := Cat(h.queue);
    DropCat(h.queue, wo.n);
    assert all == all[..wo.n] + all[wo.n..];
    Joined(h.got, all[..wo.n], all[wo.n..]);
    assert Have(h) + [] == Have(h);
  }

  lemma WriteMovesAll(h: Half, wo: WriteOutcome)
    requires HalfOk(h) && Open(h) && h.wr && wo.n >= |Cat(h.queue)|
    ensures var (e, more) := WriteEvent(h, wo);
            Moves(h, [], e) && KeepsCause(h, e) && (more ==> e.h.phase.Live?)
  {
    var all := Cat(h.queue);
    var done := h.(queue := [], got := h.got + all);
    assert all[..|all|] == all && Have(h) + [] == Have(h) && Have(done) == Have(h);
    if h.phase.Draining? {
      DrainedMoves(h, done);
    } else {
      EmptiedMoves(h, done);
    }
  }

  lemma DrainedMoves(h: Half, done: Half)
    requires HalfOk(h) && h.phase.Draining? && Have(done) == Have(h) && done == h.(queue := [], got := done.got)
    ensures Moves(h, [], Close(done, h.cause)) && KeepsCause(h, Close(done, h.cause))
  {
    assert Have(h) + [] == Have(h);
  }

  lemma EmptiedMoves(h: Half, done: Half)
    requires HalfOk(h) && h.phase.Live? && h.up && Have(done) == Have(h) && done == h.(queue := [], got := done.got)
    ensures var e := Effect(done.(wr := false), [MOkay]); Moves(h, [], e) && KeepsCause(h, e)
  {
    var one := [MOkay];
    assert Data(one) == Data(one[1..]) == [];
    assert Have(h) + [] == Have(h);
  }

  lemma ReadMoves(h: Half, ro: ReadOutcome)
    requires HalfOk(h) && Open(h)
    ensures Moves(h, [], ReadEvent(h, ro)) && KeepsCause(h, ReadEvent(h, ro))
  {
    var why := if h.phase.Live? then LocalClosed else Dropped;
    if ro.data != [] && h.up {
      ForwardMoves(h, ro.data);
      var w := Effect(h.(sent := h.sent + ro.data, rd := false), [MWrte(ro.data)]);
      if ro.eof {
        HangUpMoves(w.h, why);
        MovesTwice(h, w, Close(w.h, why));
      }
    } else if ro.eof {
      HangUpMoves(h, why);
      assert [] + Close(h, why).out == Close(h, why).out;
    } else {
      assert Have(h) + [] == Have(h);
    }
  }

  lemma ForwardMoves(h: Half, data: bytes)
    requires HalfOk(h) && h.phase.Live? && h.up
    ensures var e := Effect(h.(sent := h.sent + data, rd := false), [MWrte(data)]);
            Moves(h, [], e) && KeepsCause(h, e)
  {
    var one := [MWrte(data)];
    assert Data(one) == data + Data(one[1..]) == data;
    assert Have(h) + [] == Have(h);
  }

  lemma HangUpMoves(h: Half, why: Cause)
    requires HalfOk(h) && Open(h) && !why.PeerClosed? && !why.Running?
    ensures Moves(h, [], Close(h, why)) && KeepsCause(h, Close(h, why))
  {
    assert Have(h) + [] == Have(h);
  }

  lemma MovesTwice(h: Half, w: Effect, r: Effect)
    requires HalfOk(h) && Moves(h, [], w) && KeepsCause(h, w) && w.h.phase.Live?
    requires Moves(w.h, [], r) && KeepsCause(w.h, r)
    ensures var e := Effect(r.h, w.out + r.out); Moves(h, [], e) && KeepsCause(h, e)
  {
    InFlightAppend(w.out, r.out);
    ClosedOffAppend(w.out, r.out);
    assert Have(h) + [] == Have(h) && Have(w.h) + [] == Have(w.h);
    assert h.sent + Data(w.out) + Data(r.out) == h.sent + (Data(w.out) + Data(r.out));
  }

  lemma EventMoves(h: Half, ev: Event)
    requires HalfOk(h) && Allowed(h, ev)
    ensures Moves(h, [], HandleEvent(h, ev)) && KeepsCause(h, HandleEvent(h, ev))
  {
    if ev.write {
      WriteMoves(h, ev.wo);
      var (w, more) := WriteEvent(h, ev.wo);
      if more && ev.read {
        ReadMoves(w.h, ev.ro);
        MovesTwice(h, w, ReadEvent(w.h, ev.ro));
      }
    } else if ev.read {
      ReadMoves(h, ev.ro);
      assert [] + ReadEvent(h, ev.ro).out == ReadEvent(h, ev.ro).out;
    } else {
      assert Have(h) + [] == Have(h);
    }
  }

  lemma EnqueueMoves(h: Half, data: bytes, wo: WriteOutcome)
    requires HalfOk(h) && h.phase.Live? && h.up
    ensures var e := Enqueue(h, data, wo); Moves(h, data, e) && !e.h.cause.PeerClosed?
  {
    if h.queue != [] {
      QueuedMoves(h, data, wo);
    } else if wo.n >= |data| {
      WrittenMoves(h, data, wo);
    } else {
      PartWrittenMoves(h, data, wo);
    }
  }

  lemma QueuedMoves(h: Half, data: bytes, wo: WriteOutcome)
    requires HalfOk(h) && h.phase.Live? && h.up && h.queue != []
    ensures var e := Enqueue(h, data, wo); Moves(h, data, e) && !e.h.cause.PeerClosed?
  {
    CatAppend(h.queue, data);
    Joined(h.got, Cat(h.queue), data);
  }

  lemma WrittenMoves(h: Half, data: bytes, wo: WriteOutcome)
    requires HalfOk(h) && h.phase.Live? && h.up && h.queue == [] && wo.n >= |data|
    ensures var e := Enqueue(h, data, wo); Moves(h, data, e) && !e.h.cause.PeerClosed?
  {
    assert data[..|data|] == data;
    var one := [MOkay];
    assert Data(one) == Data(one[1..]) == [];
  }

  lemma PartWrittenMoves(h: Half, data: bytes, wo: WriteOutcome)
    requires HalfOk(h) && h.phase.Live? && h.up && h.queue == [] && wo.n < |data|
    ensures var e := Enqueue(h, data, wo); Moves(h, data, e) && !e.h.cause.PeerClosed?
  {
    var left := [data[wo.n..]];
    assert data == data[..wo.n] + data[wo.n..];
    assert Cat(left) == data[wo.n..] + Cat(left[1..]) && left[1..] == [];
    Joined(h.got, data[..wo.n], data[wo.n..]);
  }

  lemma CloseMoves(h: Half)
    requires HalfOk(h) && h.phase.Live?
    ensures var e := Close(h, PeerClosed); Moves(h, [], e) && Have(e.h) == Have(h)
  {
  }

  lemma FlowOut(s: Half, gain: bytes, e: Effect, r: Half, ms: seq<Msg>)
    requires Flow(s, r, ms) && Moves(s, gain, e)
    requires r.phase.Absent? ==> !s.up
    ensures Flow(e.h, r, ms + e.out)
  {
    InFlightAppend(ms, e.out);
  }

  lemma FlowIn(s: Half, r: Half, e: Effect, ms: seq<Msg>)
    requires Flow(s, r, ms) && HalfOk(r) && Open(r) && Moves(r, [], e) && KeepsCause(r, e)
    ensures Flow(s, e.h, ms)
  {
    assert Have(r) + [] == Have(r);
  }

  lemma DataHead(m: Msg, rest: seq<Msg>)
    ensures Data([m] + rest) == (if m.MWrte? then m.data else []) + Data(rest)
  {
    assert ([m] + rest)[1..] == rest;
  }

  lemma Regroup(p: bytes, a: bytes, b: bytes, c: bytes)
    ensures a + (b + c) == a + b + c
    ensures p <= a + b ==> p <= a + (b + c)
  {
  }

  lemma FlowReceive(s: Half, r: Half, m: Msg, rest: seq<Msg>, gain: bytes, r': Half)
    requires Flow(s, r, [m] + rest) && r.phase.Live? && !r'.phase.Absent?
    requires gain == if m.MWrte? then m.data else []
    requires Have(r') <= Have(r) + gain && (!r'.phase.Gone? ==> Have(r') == Have(r) + gain)
    requires r'.cause.PeerClosed? ==> !s.phase.Live? && Data(rest) == [] && Have(r') == Have(r) + gain
    ensures Flow(s, r', rest)
  {
    DataHead(m, rest);
    Regroup(Have(r'), Have(r), gain, Data(rest));
  }

  lemma ClosedOffAppend(ms: seq<Msg>, more: seq<Msg>)
    requires ClosedOff(ms) && ClosedOff(more)
    requires MClse !in ms || (forall m :: m in more ==> m.MClse?)
    ensures ClosedOff(ms + more)
  {
  }

  lemma OpenerEventInv(c: Conn, ev: Event)
    requires Inv(c) && Enabled(c, OpenerEvent(ev))
    ensures Inv(Next(c, OpenerEvent(ev)))
  {
    var e := HandleEvent(c.o, ev);
    EventMoves(c.o, ev);
    ClosedOffAppend(c.fwd, e.out);
    FlowOut(c.o, [], e, c.a, c.fwd);
    FlowIn(c.a, c.o, e, c.bwd);
  }

  lemma AcceptorEventInv(c: Conn, ev: Event)
    requires Inv(c) && Enabled(c, AcceptorEvent(ev))
    ensures Inv(Next(c, AcceptorEvent(ev)))
  {
    var e := HandleEvent(c.a, ev);
    EventMoves(c.a, ev);
    ClosedOffAppend(c.bwd, e.out);
    FlowOut(c.a, [], e, c.o, c.bwd);
    FlowIn(c.o, c.a, e, c.fwd);
  }

  /** Behind a CLSE there is no payload. */
  lemma {:induction false} NoDataBehindClose(ms: seq<Msg>)
    requires forall k :: 0 <= k < |ms| ==> ms[k].MClse?
    ensures Data(ms) == []
  {
    if ms != [] {
      NoDataBehindClose(ms[1..]);
      assert ms[0].MClse?;
    }
  }

  /** The facts about a live acceptor's answer that its invariant rests on. */
  ghost predicate Receives(s: Half, r: Half, m: Msg, rest: seq<Msg>, e: Effect) {
    var gain := if m.MWrte? then m.data else [];
    && Moves(r, gain, e)
    && (e.h.phase.Live? ==> !m.MClse?)
    && (e.h.cause.PeerClosed? ==> !s.phase.Live? && Data(rest) == [] && Have(e.h) == Have(r) + gain)
  }

  lemma LiveReceives(s: Half, r: Half, ms: seq<Msg>, wo: WriteOutcome)
    requires HalfOk(r) && r.phase.Live? && r.up && ms != [] && ClosedOff(ms)
    requires !ms[0].MOpen? && !ms[0].MFail? && SaidGoodbye(s, ms)
    ensures Receives(s, r, ms[0], ms[1..], OpenerReceive(r, ms[0], wo))
  {
    match ms[0] {
      case MOkay =>
        assert Have(r) + [] == Have(r);
      case MWrte(data) =>
        EnqueueMoves(r, data, wo);
      case MClse =>
        CloseMoves(r);
        NoDataBehindClose(ms[1..]);
        assert Have(r) + [] == Have(r);
    }
  }

  /** Both channels after a live end handled the message at the head of `ms`. */
  lemma ReceiveChannels(s: Half, r: Half, ms: seq<Msg>, ch: seq<Msg>, wo: WriteOutcome)
    requires HalfOk(r) && r.phase.Live? && r.up && ms != [] && !ms[0].MOpen? && !ms[0].MFail?
    requires ClosedOff(ms) && ClosedOff(ch) && SaidGoodbye(s, ms) && SaidGoodbye(r, ch)
    requires Flow(s, r, ms) && Flow(r, s, ch) && !s.phase.Absent?
    ensures var e := OpenerReceive(r, ms[0], wo);
            && Moves(r, if ms[0].MWrte? then ms[0].data else [], e)
            && (e.h.phase.Live? ==> !ms[0].MClse?)
            && ClosedOff(ms[1..]) && SaidGoodbye(s, ms[1..]) && Flow(s, e.h, ms[1..])
            && ClosedOff(ch + e.out) && SaidGoodbye(e.h, ch + e.out) && Flow(e.h, s, ch + e.out)
  {
    var m, rest := ms[0], ms[1..];
    var e := OpenerReceive(r, m, wo);
    assert ms == [m] + rest;
    LiveReceives(s, r, ms, wo);
    var gain := if m.MWrte? then m.data else [];
    GoodbyeLess(s, ms);
    ClosedOffAppend(ch, e.out);
    FlowReceive(s, r, m, rest, gain, e.h);
    FlowOut(r, gain, e, s, ch);
  }

  lemma LiveAcceptorInv(c: Conn, accept: bool, wo: WriteOutcome)
    requires Inv(c) && c.fwd != [] && c.a.phase.Live?
    ensures Inv(Next(c, ToAcceptor(accept, wo)))
  {
    ReceiveChannels(c.o, c.a, c.fwd, c.bwd, wo);
    assert AcceptorReceive(c.a, c.fwd[0], accept, wo) == OpenerReceive(c.a, c.fwd[0], wo);
  }

  lemma LiveOpenerInv(c: Conn, wo: WriteOutcome)
    requires Inv(c) && c.bwd != [] && c.o.phase.Live? && c.o.up
    ensures Inv(Next(c, ToOpener(wo)))
  {
    ReceiveChannels(c.a, c.o, c.bwd, c.fwd, wo);
  }

  lemma AnswerOpenInv(c: Conn, accept: bool, wo: WriteOutcome)
    requires Inv(c) && c.fwd != [] && c.a.phase.Absent?
    ensures Inv(Next(c, ToAcceptor(accept, wo)))
  {
    assert c.fwd == [MOpen] && c.fwd[1..] == [];
    assert Data([MOkay]) == Data([MFail]) == [];
    assert c.bwd + [MOkay] == [MOkay] && c.bwd + [MFail] == [MFail];
  }

  lemma GoodbyeMore(h: Half, ms: seq<Msg>, more: seq<Msg>)
    requires SaidGoodbye(h, ms) && !h.phase.Live? && ClosedOff(ms) && (more == [] || more == [MClse])
    ensures SaidGoodbye(h, ms + more) && ClosedOff(ms + more) && Data(ms + more) == Data(ms)
  {
    InFlightAppend(ms, more);
  }

  lemma GoodbyeLess(h: Half, ms: seq<Msg>)
    requires SaidGoodbye(h, ms) && ClosedOff(ms) && ms != []
    ensures SaidGoodbye(h, ms[1..]) && ClosedOff(ms[1..])
  {
  }

  lemma DeadAcceptorInv(c: Conn, accept: bool, wo: WriteOutcome)
    requires Inv(c) && c.fwd != [] && !c.a.phase.Live? && !c.a.phase.Absent?
    ensures Inv(Next(c, ToAcceptor(accept, wo)))
  {
    var m := c.fwd[0];
    var e := AcceptorReceive(c.a, m, accept, wo);
    GoodbyeLess(c.o, c.fwd);
    GoodbyeMore(c.a, c.bwd, e.out);
    assert Next(c, ToAcceptor(accept, wo)) == c.(fwd := c.fwd[1..], bwd := c.bwd + e.out);
  }

  /** The first OKAY reaches a socket that still waits for it. */
  lemma FirstOkayInv(c: Conn, wo: WriteOutcome)
    requires Inv(c) && c.bwd != [] && c.o.phase.Live? && !c.o.up && !c.a.phase.Absent?
    ensures Inv(Next(c, ToOpener(wo)))
  {
    var o := c.o.(up := true, rd := true);
    GoodbyeLess(c.a, c.bwd);
    FirstOkayFlows(c.o, c.a, c.fwd, c.bwd);
    assert Next(c, ToOpener(wo)) == c.(o := o, bwd := c.bwd[1..]);
    assert !c.a.phase.Live? ==> MClse in c.bwd[1..];
  }

  lemma FirstOkayFlows(o: Half, a: Half, fwd: seq<Msg>, bwd: seq<Msg>)
    requires Flow(o, a, fwd) && Flow(a, o, bwd) && o.phase.Live? && bwd != [] && bwd[0].MOkay?
    ensures var o' := o.(up := true, rd := true); Flow(o', a, fwd) && Flow(a, o', bwd[1..])
  {
    assert Data(bwd) == Data(bwd[1..]);
  }

  lemma RefusedInv(c: Conn, wo: WriteOutcome)
    requires Inv(c) && c.bwd != [] && c.a.phase.Absent?
    ensures Inv(Next(c, ToOpener(wo)))
  {
    assert c.bwd == [MFail] && c.bwd[1..] == [];
  }

  /** An OKAY that finds nobody is answered with CLSE. */
  lemma DeadOpenerInv(c: Conn, wo: WriteOutcome)
    requires Inv(c) && c.bwd != [] && !c.o.phase.Live? && !c.a.phase.Absent?
    ensures Inv(Next(c, ToOpener(wo)))
  {
    var m := c.bwd[0];
    var e := OpenerReceive(c.o, m, wo);
    GoodbyeLess(c.a, c.bwd);
    GoodbyeMore(c.o, c.fwd, e.out);
    assert Next(c, ToOpener(wo)) == c.(bwd := c.bwd[1..], fwd := c.fwd + e.out);
    if c.a.phase.Live? && MClse !in c.fwd {
      assert MOkay in c.bwd;
      assert m.MOkay? || MOkay in c.bwd[1..];
    }
  }

  lemma NextInv(c: Conn, s: Step)
    requires Inv(c) && Enabled(c, s)
    ensures Inv(Next(c, s))
  {
    match s
    case OpenerEvent(ev) => OpenerEventInv(c, ev);
    case AcceptorEvent(ev) => AcceptorEventInv(c, ev);
    case ToAcceptor(accept, wo) =>
      if c.a.phase.Live? {
        LiveAcceptorInv(c, accept, wo);
      } else if c.a.phase.Absent? {
        AnswerOpenInv(c, accept, wo);
      } else {
        DeadAcceptorInv(c, accept, wo);
      }
    case ToOpener(wo) =>
      if c.a.phase.Absent? {
        RefusedInv(c, wo);
      } else if !c.o.phase.Live? {
        DeadOpenerInv(c, wo);
      } else if c.o.up {
        LiveOpenerInv(c, wo);
      } else {
        FirstOkayInv(c, wo);
      }
  }
}
