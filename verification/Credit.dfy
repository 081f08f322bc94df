/**
 Flow control of one connection. The credit of a direction is the number of places its permission
 to send can be: the sender armed for reading, a WRTE in flight, a packet queued at the receiver,
 an OKAY in flight.
 */
module Credit {
  import opened Bytes
  import opened Stream
  import opened Connection

  function One(b: bool): nat {
    if b then 1 else 0
  }

  function Credits(s: Half, r: Half, ms: seq<Msg>, acks: seq<Msg>): nat {
    One(s.rd) + Wrtes(ms) + |r.queue| + Okays(acks)
  }

  ghost predicate BothLive(c: Conn) {
    c.o.phase.Live? && c.a.phase.Live?
  }

  /** No direction of a connection whose ends both live has lost its permission to send. */
  ghost predicate NeverStuck(c: Conn) {
    BothLive(c) ==> Credits(c.o, c.a, c.fwd, c.bwd) >= 1 && Credits(c.a, c.o, c.bwd, c.fwd) >= 1
  }

  /** Each direction has exactly one permission to send. */
  ghost predicate OneCredit(c: Conn) {
    BothLive(c) ==> Credits(c.o, c.a, c.fwd, c.bwd) == 1 && Credits(c.a, c.o, c.bwd, c.fwd) == 1
  }

  /** Readable events come only to sockets armed for reading: no hang-up, no error. */
  predicate AskedFor(h: Half, ev: Event) {
    ev.read ==> h.rd
  }

  /** The event forwards data that was not asked for, and the socket lives on. */
  predicate Unasked(h: Half, ev: Event) {
    && ev.read && ev.ro.data != [] && !ev.ro.eof && h.up && !h.rd
    && (ev.write ==> ev.wo.n >= |Cat(h.queue)|)
  }

  predicate Asked(c: Conn, s: Step) {
    match s
    case OpenerEvent(ev) => AskedFor(c.o, ev)
    case AcceptorEvent(ev) => AskedFor(c.a, ev)
    case _ => true
  }

  /** What an event does to the credit a socket holds as a sender and as a receiver. */
  ghost predicate Spends(h: Half, e: Effect) {
    && One(e.h.rd) + Wrtes(e.out) >= One(h.rd)
    && |e.h.queue| + Okays(e.out) <= |h.queue|
    && (h.queue != [] ==> |e.h.queue| + Okays(e.out) >= 1)
  }

  lemma WriteSpends(h: Half, wo: WriteOutcome)
    requires HalfOk(h) && Open(h) && h.wr
    ensures var e := WriteEvent(h, wo).0;
            e.h.phase.Live? ==> Spends(h, e) && e.h.rd == h.rd && Wrtes(e.out) == 0
  {
    DropCat(h.queue, Min(wo.n, |Cat(h.queue)|));
  }

  lemma ReadSpends(h: Half, ro: ReadOutcome)
    requires HalfOk(h) && Open(h)
    ensures var e := ReadEvent(h, ro);
            && (e.h.phase.Live? ==> e.h.queue == h.queue && Okays(e.out) == 0)
            && (e.h.phase.Live? ==> One(e.h.rd) + Wrtes(e.out) == One(h.rd) + One(e.out != [] && !h.rd))
  {
  }

  lemma EventSpends(h: Half, ev: Event)
    requires HalfOk(h) && Allowed(h, ev)
    ensures var e := HandleEvent(h, ev);
            e.h.phase.Live? ==>
              && Spends(h, e)
              && One(e.h.rd) + Wrtes(e.out) == One(h.rd) + One(Unasked(h, ev))
  {
    if ev.write {
      WriteSpends(h, ev.wo);
      WriteMoves(h, ev.wo);
      var (w, more) := WriteEvent(h, ev.wo);
      if more && ev.read {
        ReadSpends(w.h, ev.ro);
        ReadMoves(w.h, ev.ro);
        InFlightAppend(w.out, ReadEvent(w.h, ev.ro).out);
      }
    } else if ev.read {
      ReadSpends(h, ev.ro);
      ReadMoves(h, ev.ro);
      assert [] + ReadEvent(h, ev.ro).out == ReadEvent(h, ev.ro).out;
    }
  }

  lemma ReceiveSpends(r: Half, m: Msg, wo: WriteOutcome)
    requires HalfOk(r) && r.phase.Live? && r.up && !m.MOpen? && !m.MFail?
    ensures var e := OpenerReceive(r, m, wo);
            e.h.phase.Live? ==>
              && Wrtes(e.out) == 0
              && |e.h.queue| + Okays(e.out) == |r.queue| + Wrtes([m])
              && e.h.rd == (r.rd || m.MOkay?)
  {
  }

  lemma {:induction false} CountHead(ms: seq<Msg>)
    requires ms != []
    ensures Wrtes(ms) == Wrtes([ms[0]]) + Wrtes(ms[1..])
    ensures Okays(ms) == Okays([ms[0]]) + Okays(ms[1..])
  {
    assert [ms[0]][1..] == [];
  }

  lemma EventCredit(c: Conn, s: Step)
    requires Inv(c) && NeverStuck(c) && Enabled(c, s) && (s.OpenerEvent? || s.AcceptorEvent?)
    ensures NeverStuck(Next(c, s))
    ensures OneCredit(c) && Asked(c, s) ==> OneCredit(Next(c, s))
  {
    match s
    case OpenerEvent(ev) =>
      EventSpends(c.o, ev);
      EventMoves(c.o, ev);
      InFlightAppend(c.fwd, HandleEvent(c.o, ev).out);
    case AcceptorEvent(ev) =>
      EventSpends(c.a, ev);
      EventMoves(c.a, ev);
      InFlightAppend(c.bwd, HandleEvent(c.a, ev).out);
  }

  lemma DeliverCredit(c: Conn, s: Step)
    requires Inv(c) && NeverStuck(c) && Enabled(c, s) && (s.ToAcceptor? || s.ToOpener?)
    ensures NeverStuck(Next(c, s))
    ensures OneCredit(c) ==> OneCredit(Next(c, s))
  {
    match s
    case ToAcceptor(accept, wo) => AcceptorCredit(c, accept, wo);
    case ToOpener(wo) => OpenerCredit(c, wo);
  }

  lemma AcceptorCredit(c: Conn, accept: bool, wo: WriteOutcome)
    requires Inv(c) && NeverStuck(c) && Enabled(c, ToAcceptor(accept, wo))
    ensures NeverStuck(Next(c, ToAcceptor(accept, wo)))
    ensures OneCredit(c) ==> OneCredit(Next(c, ToAcceptor(accept, wo)))
  {
    CountHead(c.fwd);
    InFlightAppend(c.bwd, AcceptorReceive(c.a, c.fwd[0], accept, wo).out);
    if c.a.phase.Live? {
      ReceiveSpends(c.a, c.fwd[0], wo);
    }
  }

  lemma OpenerCredit(c: Conn, wo: WriteOutcome)
    requires Inv(c) && NeverStuck(c) && Enabled(c, ToOpener(wo))
    ensures NeverStuck(Next(c, ToOpener(wo)))
    ensures OneCredit(c) ==> OneCredit(Next(c, ToOpener(wo)))
  {
    CountHead(c.bwd);
    InFlightAppend(c.fwd, OpenerReceive(c.o, c.bwd[0], wo).out);
    if c.o.phase.Live? && c.o.up {
      ReceiveSpends(c.o, c.bwd[0], wo);
    }
  }
}
