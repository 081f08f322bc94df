/**
 What holds of all streams in every run of two endpoints: mirror-image connections, bytes
 conserved, one credit per direction, payloads within the agreed limit, and deliveries that end.
 */
module Streams {
  import opened Bytes
  import opened Stream
  import opened Connection
  import opened Credit
  import opened Endpoint
  import opened Multiplex

  // ---- runs ----

  predicate Legal(w: World, ss: seq<WStep>)
    decreases |ss|
  {
    ss == [] || (WEnabled(w, ss[0]) && Legal(WNext(w, ss[0]), ss[1..]))
  }

  function Run(w: World, ss: seq<WStep>): World
    requires Legal(w, ss)
    decreases |ss|
  {
    if ss == [] then w else Run(WNext(w, ss[0]), ss[1..])
  }

  lemma {:induction false} RunInv(w: World, ss: seq<WStep>)
    requires WInv(w) && Legal(w, ss)
    ensures WInv(Run(w, ss))
    decreases |ss|
  {
    if ss != [] {
      WNextInv(w, ss[0]);
      RunInv(WNext(w, ss[0]), ss[1..]);
    }
  }

  // ---- the messages between two sockets ----

  /** The messages on their way from socket `a` to socket `b`. */
  function Between(ps: seq<Packet>, a: nat, b: nat): seq<Msg> {
    if ps == [] then []
    else (if ps[0].arg0 == a && ps[0].arg1 == b then [MsgOf(ps[0])] else []) + Between(ps[1..], a, b)
  }

  /** The same payload, WRTEs and OKAYs. */
  ghost predicate SameTraffic(ms: seq<Msg>, ns: seq<Msg>) {
    Data(ms) == Data(ns) && Wrtes(ms) == Wrtes(ns) && Okays(ms) == Okays(ns)
  }

  lemma SameTrafficHead(m: Msg, ms: seq<Msg>, ns: seq<Msg>, both: bool)
    requires SameTraffic(ms, ns) && (both || m.MOpen? || m.MFail?)
    ensures SameTraffic([m] + ms, if both then [m] + ns else ns)
  {
    InFlightAppend([m], ms);
    InFlightAppend([m], ns);
    assert [m][1..] == [];
  }

  /** Between an opener `i` of x and its answer `n`, nothing else is said that carries traffic. */
  lemma {:induction false} OpenerTraffic(x: Ep, y: Ep, ps: seq<Packet>, i: nat, n: nat)
    requires Books(x, y) && Books(y, x) && Mail(x, y, ps)
    requires i in x.socks && x.socks[i].opener && i in y.accepted && y.accepted[i] == n
    ensures SameTraffic(From(ps, i), Between(ps, i, n))
  {
    if ps != [] {
      OpenerTraffic(x, y, ps[1..], i, n);
      assert [] + From(ps[1..], i) == From(ps[1..], i) && [] + Between(ps[1..], i, n) == Between(ps[1..], i, n);
      assert Posted(x, y, ps[0]);
      if ps[0].arg0 == i {
        SameTrafficHead(MsgOf(ps[0]), From(ps[1..], i), Between(ps[1..], i, n), ps[0].arg1 == n);
      }
    }
  }

  lemma {:induction false} AnswerTraffic(x: Ep, y: Ep, ps: seq<Packet>, i: nat, n: nat)
    requires Books(x, y) && Books(y, x) && Mail(y, x, ps)
    requires i in x.socks && x.socks[i].opener && i in y.accepted && y.accepted[i] == n
    ensures SameTraffic(To(ps, i), Between(ps, n, i))
  {
    if ps != [] {
      AnswerTraffic(x, y, ps[1..], i, n);
      assert [] + To(ps[1..], i) == To(ps[1..], i) && [] + Between(ps[1..], n, i) == Between(ps[1..], n, i);
      assert Posted(y, x, ps[0]);
      if ps[0].arg1 == i {
        SameTrafficHead(MsgOf(ps[0]), To(ps[1..], i), Between(ps[1..], n, i), ps[0].arg0 == n);
      }
    }
  }

  // ---- mirror images ----

  /** Every live socket of x is connected, and to a live socket of y that is connected to it. */
  ghost predicate Reflected(x: Ep, y: Ep) {
    forall i :: LiveAt(x, i) ==>
      && x.socks[i].h.up
      && LiveAt(y, x.socks[i].peer)
      && y.socks[x.socks[i].peer].h.up && y.socks[x.socks[i].peer].peer == i
  }

  lemma QuietReflects(w: World, i: nat)
    requires WInv(w) && w.xy == [] && w.yx == [] && LiveAt(w.x, i)
    ensures var j := w.x.socks[i].peer;
            w.x.socks[i].h.up && LiveAt(w.y, j) && w.y.socks[j].h.up && w.y.socks[j].peer == i
  {
    if w.x.socks[i].opener {
      assert Good(View(w, i));
    } else {
      assert Good(View(Flip(w), w.x.socks[i].peer));
    }
  }

  lemma QuietMirror(w: World)
    requires WInv(w) && w.xy == [] && w.yx == []
    ensures Reflected(w.x, w.y) && Reflected(w.y, w.x)
  {
    forall i | LiveAt(w.x, i) {
      QuietReflects(w, i);
    }
    forall j | LiveAt(w.y, j) {
      QuietReflects(Flip(w), j);
    }
  }

  /**
   Whenever both channels are empty the live sockets of the two sides are exact mirror images:
   none is half-open and none still waits, whoever died or closed when.
   */
  lemma MirrorImages(maxPayload: nat, ss: seq<WStep>)
    requires Legal(Init(maxPayload), ss)
    ensures var w := Run(Init(maxPayload), ss);
            w.xy == [] && w.yx == [] ==> Reflected(w.x, w.y) && Reflected(w.y, w.x)
  {
    InitInv(maxPayload);
    RunInv(Init(maxPayload), ss);
    var w := Run(Init(maxPayload), ss);
    if w.xy == [] && w.yx == [] {
      QuietMirror(w);
    }
  }

  // ---- bytes ----

  /** What socket `i` of x has of what its peer `j` sent; `ps` is the channel from y to x. */
  ghost predicate BytesConserved(x: Ep, y: Ep, ps: seq<Packet>) {
    forall i :: i in x.socks && x.socks[i].peer != 0 ==>
      var h, j := x.socks[i].h, x.socks[i].peer;
      && j in y.socks
      && Have(h) <= y.socks[j].h.sent
      && (h.phase.Live? ==> y.socks[j].h.sent == Have(h) + Data(Between(ps, j, i)))
      && (h.cause.PeerClosed? ==> y.socks[j].h.sent == Have(h))
  }

  lemma SocketBytes(w: World, i: nat)
    requires WInv(w) && i in w.x.socks && w.x.socks[i].peer != 0
    ensures var h, j := w.x.socks[i].h, w.x.socks[i].peer;
            && j in w.y.socks
            && Have(h) <= w.y.socks[j].h.sent
            && (h.phase.Live? ==> w.y.socks[j].h.sent == Have(h) + Data(Between(w.yx, j, i)))
            && (h.cause.PeerClosed? ==> w.y.socks[j].h.sent == Have(h))
  {
    var s := w.x.socks[i];
    if s.opener {
      assert Good(View(w, i));
      AnswerTraffic(w.x, w.y, w.yx, i, s.peer);
    } else {
      assert Good(View(Flip(w), s.peer));
      OpenerTraffic(w.y, w.x, w.yx, s.peer, i);
    }
  }

  /**
   In every run and for every stream direction: the bytes the receiving fd took, then those in the
   receiver's queue, then those in WRTE packets in flight, are the bytes read from the sending fd.
   What was delivered is a prefix of what was sent even after sockets died; and a socket closed by
   its peer that loses nothing on the way out has delivered everything.
   */
  lemma ByteStreams(maxPayload: nat, ss: seq<WStep>)
    requires Legal(Init(maxPayload), ss)
    ensures var w := Run(Init(maxPayload), ss);
            BytesConserved(w.x, w.y, w.yx) && BytesConserved(w.y, w.x, w.xy)
  {
    InitInv(maxPayload);
    RunInv(Init(maxPayload), ss);
    var w := Run(Init(maxPayload), ss);
    AllBytes(w);
    AllBytes(Flip(w));
  }

  lemma AllBytes(w: World)
    requires WInv(w)
    ensures BytesConserved(w.x, w.y, w.yx)
  {
    forall i | i in w.x.socks && w.x.socks[i].peer != 0 {
      SocketBytes(w, i);
    }
  }

  // ---- queues ----

  /**
   A socket is armed for writing exactly when packets are queued, so the check on entering the
   closing list holds, and queued packets mean a peer or the closing list, so the event function
   never looks for a peer that is not there.
   */
  ghost predicate QueuesServed(e: Ep) {
    forall i :: i in e.socks && Open(e.socks[i].h) ==>
      var h := e.socks[i].h;
      && (h.wr <==> h.queue != [])
      && (h.queue != [] ==> h.phase.Draining? || h.up)
      && (h.phase.Draining? ==> h.queue != [] && !h.up && !h.rd)
  }

  lemma QueuesAlwaysServed(maxPayload: nat, ss: seq<WStep>)
    requires Legal(Init(maxPayload), ss)
    ensures var w := Run(Init(maxPayload), ss); QueuesServed(w.x) && QueuesServed(w.y)
  {
    InitInv(maxPayload);
    RunInv(Init(maxPayload), ss);
    var w := Run(Init(maxPayload), ss);
    forall i | i in w.x.socks ensures HalfOk(w.x.socks[i].h) {
      SocketOk(Flip(w), i);
    }
    forall j | j in w.y.socks ensures HalfOk(w.y.socks[j].h) {
      SocketOk(w, j);
    }
  }

  /** A closing socket through a number of writable events. */
  function Drained(h: Half, wos: seq<WriteOutcome>): Half
    requires Open(h)
    decreases |wos|
  {
    if wos == [] then h
    else
      var h' := WriteEvent(h, wos[0]).0.h;
      if Open(h') then Drained(h', wos[1..]) else h'
  }

  /**
   However little each write takes, a closing socket whose fd reports no error, hang-up or end of
   file is not destroyed before every queued byte is written.
   */
  lemma {:induction false} ClosingSocketDrains(h: Half, wos: seq<WriteOutcome>)
    requires HalfOk(h) && h.phase.Draining? && forall k :: 0 <= k < |wos| ==> !wos[k].err
    ensures Have(Drained(h, wos)) == Have(h)
    ensures Drained(h, wos).phase.Gone? ==> Drained(h, wos).got == Have(h) && Drained(h, wos).cause == h.cause
    decreases |wos|
  {
    if wos != [] {
      DropCat(h.queue, Min(wos[0].n, |Cat(h.queue)|));
      WriteMoves(h, wos[0]);
      var h' := WriteEvent(h, wos[0]).0.h;
      assert Have(h) + [] == Have(h);
      if h'.phase.Draining? {
        ClosingSocketDrains(h', wos[1..]);
      }
    }
  }

  /**
   A stream whose opener sends one byte and closes; the acceptor's fd takes nothing and then reports a
   hang-up: the byte is queued at a closing socket and lost with it.
   */
  lemma HangUpDropsQueue()
    ensures var w := WriteOutcome(0, false);
            var c1 := Next(Next(START, ToAcceptor(true, w)), ToOpener(w));
            var last := OpenerEvent(Event(false, true, w, ReadOutcome([7], true)));
            var hangup := AcceptorEvent(Event(false, true, w, ReadOutcome([], true)));
            var c2 := Next(c1, last);
            var c3 := Next(Next(c2, ToAcceptor(true, w)), ToAcceptor(true, w));
            && Enabled(c1, last) && Enabled(c3, hangup)
            && c3.a.phase.Draining? && c3.a.queue == [[7]] && c3.a.cause.PeerClosed?
            && Next(c3, hangup).a.phase.Gone? && Next(c3, hangup).a.got == [] && c3.o.sent == [7]
  {
    var w := WriteOutcome(0, false);
    var c1 := Next(Next(START, ToAcceptor(true, w)), ToOpener(w));
    assert c1 == Conn(ACCEPTED, ACCEPTED, [], []);
    var c2 := Next(c1, OpenerEvent(Event(false, true, w, ReadOutcome([7], true))));
    assert c2.fwd == [MWrte([7]), MClse];
    var d := Next(c2, ToAcceptor(true, w));
    assert d.fwd == [MClse] && d.a.queue == [[7]];
    var c3 := Next(d, ToAcceptor(true, w));
    assert c3.a.phase.Draining? && c3.a.queue == [[7]];
  }

  /**
   A closing socket loses queued bytes exactly when a write fails before the last of them, or when
   a hang-up or error is turned into a read that finds the end of the file while no write is due.
   */
  lemma ClosingSocketLosesIff(h: Half, ev: Event)
    requires HalfOk(h) && h.phase.Draining? && Allowed(h, ev)
    ensures var e := HandleEvent(h, ev);
            e.h.phase.Gone? && e.h.got != Have(h)
            <==> if ev.write then ev.wo.err && ev.wo.n < |Cat(h.queue)|
                 else ev.read && ev.ro.eof && Cat(h.queue) != []
  {
    var all := Cat(h.queue);
    var n := Min(ev.wo.n, |all|);
    DropCat(h.queue, n);
    assert |h.got + all| == |h.got| + |all| && |h.got + all[..n]| == |h.got| + n;
    assert n == |all| ==> all[..n] == all;
  }

  // ---- credit ----

  /** The credit of the direction from socket `i` of x to socket `j` of y. */
  function PairCredits(w: World, i: nat, j: nat): nat
    requires i in w.x.socks && j in w.y.socks
  {
    Credits(w.x.socks[i].h, w.y.socks[j].h, Between(w.xy, i, j), Between(w.yx, j, i))
  }

  /** Sockets of one stream, at least one of which knows the other, both live. */
  ghost predicate Together(w: World, i: nat, j: nat) {
    LiveAt(w.x, i) && LiveAt(w.y, j) && (w.x.socks[i].peer == j || w.y.socks[j].peer == i)
  }

  ghost predicate AllOneCredit(w: World) {
    && (forall i :: i in w.x.socks && w.x.socks[i].opener ==> OneCredit(View(w, i)))
    && (forall j :: j in w.y.socks && w.y.socks[j].opener ==> OneCredit(View(Flip(w), j)))
  }

  predicate WAsked(w: World, s: WStep) {
    match s
    case AtX(DoFire(id, ev)) => id in w.x.socks && AskedFor(w.x.socks[id].h, ev)
    case AtY(DoFire(id, ev)) => id in w.y.socks && AskedFor(w.y.socks[id].h, ev)
    case _ => true
  }

  /** A run in which no fd reports a hang-up or an error. */
  predicate AllAsked(w: World, ss: seq<WStep>)
    requires Legal(w, ss)
    decreases |ss|
  {
    ss == [] || (WAsked(w, ss[0]) && AllAsked(WNext(w, ss[0]), ss[1..]))
  }

  lemma OneCreditMoved(w: World, w': World, m: ConnId, s: Step)
    requires Conns(w) && Conns(Flip(w)) && AllOneCredit(w) && OneMoved(w, w', m, s)
    requires forall i :: i in w'.x.socks && w'.x.socks[i].opener ==> i in w.x.socks && w.x.socks[i].opener
    requires forall j :: j in w'.y.socks && w'.y.socks[j].opener ==> j in w.y.socks && w.y.socks[j].opener
    requires m.ByX? && m.i in w.x.socks ==> Asked(View(w, m.i), s)
    requires m.ByY? && m.j in w.y.socks ==> Asked(View(Flip(w), m.j), s)
    ensures AllOneCredit(w')
  {
    forall i | i in w'.x.socks && w'.x.socks[i].opener ensures OneCredit(View(w', i)) {
      if m == ByX(i) {
        GoodNext(View(w, i), s);
      }
    }
    forall j | j in w'.y.socks && w'.y.socks[j].opener ensures OneCredit(View(Flip(w'), j)) {
      if m == ByY(j) {
        GoodNext(View(Flip(w), j), s);
      }
    }
  }

  lemma OneCreditNextY(w: World, act: Act)
    requires WInv(w) && EnabledY(w, act) && AllOneCredit(w)
    requires act.DoFire? ==> AskedFor(w.y.socks[act.id].h, act.ev)
    ensures AllOneCredit(NextY(w, act))
  {
    if act.DoConnect? {
      ConnectMoves(w, act.destination);
      StartGood();
    } else {
      NextYInv(w, act);
      Openers(w, act);
      OneCreditMoved(w, NextY(w, act), Mover(w, act), StepOf(w, act));
    }
  }

  lemma Openers(w: World, act: Act)
    requires Orderly(w) && EnabledY(w, act) && !act.DoConnect?
    ensures var w' := NextY(w, act);
            && w'.x == w.x
            && forall j :: j in w'.y.socks && w'.y.socks[j].opener ==> j in w.y.socks && w.y.socks[j].opener
  {
    if act.DoDeliver? {
      DeliverOpeners(w, act.accept, act.wo);
    }
  }

  lemma {:induction false} RunOneCredit(w: World, ss: seq<WStep>)
    requires WInv(w) && AllOneCredit(w) && Legal(w, ss) && AllAsked(w, ss)
    ensures AllOneCredit(Run(w, ss))
    decreases |ss|
  {
    if ss != [] {
      WNextInv(w, ss[0]);
      match ss[0] {
        case AtX(act) => OneCreditNextY(Flip(w), act);
        case AtY(act) => OneCreditNextY(w, act);
      }
      RunOneCredit(WNext(w, ss[0]), ss[1..]);
    }
  }

  lemma PairFromView(w: World, i: nat, j: nat)
    requires WInv(w) && Together(w, i, j)
    ensures PairCredits(w, i, j) >= 1
    ensures AllOneCredit(w) ==> PairCredits(w, i, j) == 1
  {
    if w.x.socks[i].opener {
      OpenerPair(w, i, j);
    } else {
      OpenerPair(Flip(w), j, i);
    }
  }

  /** The two directions of a connection x opened, as the connection counts them. */
  lemma OpenerPair(w: World, i: nat, j: nat)
    requires Orderly(w) && Conns(w) && Together(w, i, j) && w.x.socks[i].opener
    ensures var c := View(w, i);
            && BothLive(c) && NeverStuck(c)
            && PairCredits(w, i, j) == Credits(c.o, c.a, c.fwd, c.bwd)
            && PairCredits(Flip(w), j, i) == Credits(c.a, c.o, c.bwd, c.fwd)
  {
    assert Good(View(w, i));
    OpenerTraffic(w.x, w.y, w.xy, i, j);
    AnswerTraffic(w.x, w.y, w.yx, i, j);
  }

  /**
   In every run each direction of a stream keeps at least one credit, so neither side can wait
   for the other for ever; and while no fd reports a hang-up or error it has exactly one, so there
   is never more than one unacknowledged WRTE.
   */
  lemma CreditPerDirection(maxPayload: nat, ss: seq<WStep>, i: nat, j: nat)
    requires Legal(Init(maxPayload), ss)
    requires Together(Run(Init(maxPayload), ss), i, j)
    ensures var w := Run(Init(maxPayload), ss);
            && PairCredits(w, i, j) >= 1 && PairCredits(Flip(w), j, i) >= 1
            && (AllAsked(Init(maxPayload), ss) ==> PairCredits(w, i, j) == 1 && PairCredits(Flip(w), j, i) == 1)
  {
    var w0 := Init(maxPayload);
    InitInv(maxPayload);
    InitOneCredit(maxPayload);
    RunInv(w0, ss);
    if AllAsked(w0, ss) {
      RunOneCredit(w0, ss);
    }
    BothDirections(Run(w0, ss), i, j);
  }

  lemma InitOneCredit(maxPayload: nat)
    ensures AllOneCredit(Init(maxPayload))
  {
  }

  lemma BothDirections(w: World, i: nat, j: nat)
    requires WInv(w) && Together(w, i, j)
    ensures PairCredits(w, i, j) >= 1 && PairCredits(Flip(w), j, i) >= 1
    ensures AllOneCredit(w) ==> PairCredits(w, i, j) == 1 && PairCredits(Flip(w), j, i) == 1
  {
    PairFromView(w, i, j);
    PairFromView(Flip(w), j, i);
    if AllOneCredit(w) {
      FlipOneCredit(w);
    }
  }

  lemma FlipOneCredit(w: World)
    requires AllOneCredit(w)
    ensures AllOneCredit(Flip(w))
  {
    assert Flip(Flip(w)) == w;
  }

  /** The end of a connection an event happens to. */
  function EndOf(c: Conn, s: Step): Half {
    if s.OpenerEvent? then c.o else c.a
  }

  /**
   An event at either end, whatever it writes and reads, keeps the credit of both directions exact if
   and only if it does not forward data that was not asked for: the guard to check before a hang-up is
   turned into a read.
   */
  lemma EventKeepsCreditIff(c: Conn, s: Step)
    requires Good(c) && OneCredit(c) && BothLive(c) && (s.OpenerEvent? || s.AcceptorEvent?) && Enabled(c, s)
    ensures OneCredit(Next(c, s)) <==> !Unasked(EndOf(c, s), s.ev)
  {
    var h := EndOf(c, s);
    if Unasked(h, s.ev) {
      UnaskedLives(h, s.ev);
    }
    if s.OpenerEvent? {
      ExactSpends(c.o, s.ev, c.a, c.fwd, c.bwd);
    } else {
      ExactSpends(c.a, s.ev, c.o, c.bwd, c.fwd);
    }
  }

  /** What an event at `h` makes of the credits of both directions, when each had one. */
  lemma ExactSpends(h: Half, ev: Event, other: Half, out: seq<Msg>, back: seq<Msg>)
    requires HalfOk(h) && Allowed(h, ev) && Credits(h, other, out, back) == 1 && Credits(other, h, back, out) == 1
    ensures var e := HandleEvent(h, ev);
            e.h.phase.Live? ==>
              && Credits(e.h, other, out + e.out, back) == 1 + One(Unasked(h, ev))
              && Credits(other, e.h, back, out + e.out) == 1
  {
    EventSpends(h, ev);
    InFlightAppend(out, HandleEvent(h, ev).out);
  }

  lemma UnaskedLives(h: Half, ev: Event)
    requires HalfOk(h) && h.phase.Live? && Allowed(h, ev) && Unasked(h, ev)
    ensures HandleEvent(h, ev).h.phase.Live?
  {
  }

  /** A hang-up reported right after a read puts two WRTEs in flight. */
  lemma HangUpBreaksCredit()
    ensures var w := WriteOutcome(0, false);
            var read := OpenerEvent(Event(false, true, w, ReadOutcome([7], false)));
            var c0 := Next(START, ToAcceptor(true, w));
            var c1 := Next(c0, ToOpener(w));
            var c2 := Next(c1, read);
            && Enabled(c2, read) && !Asked(c2, read)
            && Next(c2, read).fwd == [MWrte([7]), MWrte([7])] && !OneCredit(Next(c2, read))
  {
    var w := WriteOutcome(0, false);
    var read := OpenerEvent(Event(false, true, w, ReadOutcome([7], false)));
    var c0 := Next(START, ToAcceptor(true, w));
    var c1 := Next(c0, ToOpener(w));
    var c2 := Next(c1, read);
    assert c1 == Conn(ACCEPTED, ACCEPTED, [], []);
    assert c2.fwd == [MWrte([7])];
    assert Next(c2, read).fwd == [MWrte([7]), MWrte([7])];
    assert Wrtes([MWrte([7]), MWrte([7])]) == 2 by {
      assert [MWrte([7]), MWrte([7])][1..] == [MWrte([7])];
      assert [MWrte([7])][1..] == [];
    }
  }

  // ---- payloads ----

  ghost predicate Fits(ps: seq<Packet>, limit: nat) {
    forall k :: 0 <= k < |ps| ==> |ps[k].data| <= limit
  }

  lemma {:induction false} AddressedFits(id: nat, peer: nat, ms: seq<Msg>, limit: nat)
    requires forall k :: 0 <= k < |ms| && ms[k].MWrte? ==> |ms[k].data| <= limit
    ensures Fits(AddressAll(id, peer, ms), limit)
  {
    if ms != [] {
      AddressedFits(id, peer, ms[1..], limit);
    }
  }

  lemma NextYFits(w: World, act: Act, limit: nat)
    requires EnabledY(w, act) && w.y.maxPayload <= limit && Fits(w.xy, limit) && Fits(w.yx, limit)
    ensures Fits(NextY(w, act).xy, limit) && Fits(NextY(w, act).yx, limit)
    ensures NextY(w, act).y.maxPayload == w.y.maxPayload && NextY(w, act).x == w.x
  {
    match act
    case DoConnect(_) =>
    case DoFire(id, ev) =>
      var s := w.y.socks[id];
      AddressedFits(id, s.peer, HandleEvent(s.h, ev).out, limit);
    case DoDeliver(accept, wo) =>
      var p := w.xy[0];
      if Finds(w.y, p.arg1, p.arg0) {
        var s := w.y.socks[p.arg1];
        AddressedFits(p.arg1, s.peer, Close(s.h, PeerClosed).out, limit);
        AddressedFits(p.arg1, s.peer, Enqueue(s.h, p.data, wo).out, limit);
      }
  }

  lemma {:induction false} RunFits(w: World, ss: seq<WStep>, limit: nat)
    requires Legal(w, ss) && w.x.maxPayload == w.y.maxPayload == limit && Fits(w.xy, limit) && Fits(w.yx, limit)
    ensures var w' := Run(w, ss);
            w'.x.maxPayload == w'.y.maxPayload == limit && Fits(w'.xy, limit) && Fits(w'.yx, limit)
    decreases |ss|
  {
    if ss != [] {
      match ss[0] {
        case AtX(act) => NextYFits(Flip(w), act, limit);
        case AtY(act) => NextYFits(w, act, limit);
      }
      RunFits(WNext(w, ss[0]), ss[1..], limit);
    }
  }

  // ---- when the transport goes ----

  /** Every opener is bound to the transport, and every connected socket through its peer. */
  ghost predicate Tethered(e: Ep) {
    forall i :: i in e.socks ==>
      (e.socks[i].opener ==> e.socks[i].transport == LINK) && (e.socks[i].h.up ==> e.socks[i].peerTransport == LINK)
  }

  lemma TetheredOn(e: Ep, id: nat, s: Entry)
    requires Tethered(e) && (s.opener ==> s.transport == LINK) && (s.h.up ==> s.peerTransport == LINK)
    ensures Tethered(e.(socks := e.socks[id := s]))
  {
  }

  lemma EventNeverConnects(h: Half, ev: Event)
    requires Open(h) && HandleEvent(h, ev).h.up
    ensures h.up
  {
  }

  lemma HandleTethered(e: Ep, p: Packet, accept: bool, wo: WriteOutcome)
    requires Tethered(e)
    ensures Tethered(HandlePacket(e, p, LINK, accept, wo).ep)
  {
    var o := HandlePacket(e, p, LINK, accept, wo).ep;
    var id := if p.cmd.OPEN? then e.next else p.arg1;
    if o.socks != e.socks {
      assert o.socks == e.socks[id := o.socks[id]];
      assert p.arg1 in e.socks ==> (e.socks[p.arg1].h.up ==> e.socks[p.arg1].peerTransport == LINK);
      TetheredOn(e, id, o.socks[id]);
    }
  }

  lemma NextYTethered(w: World, act: Act)
    requires EnabledY(w, act) && Tethered(w.y)
    ensures Tethered(NextY(w, act).y) && NextY(w, act).x == w.x
  {
    match act
    case DoConnect(_) =>
      TetheredOn(w.y, w.y.next, Entry(NO_SOCKET.(phase := Live), 0, true, LINK, 0));
    case DoFire(id, ev) =>
      var s := w.y.socks[id];
      if HandleEvent(s.h, ev).h.up {
        EventNeverConnects(s.h, ev);
      }
      TetheredOn(w.y, id, s.(h := HandleEvent(s.h, ev).h));
    case DoDeliver(accept, wo) =>
      HandleTethered(w.y, w.xy[0], accept, wo);
  }

  lemma {:induction false} RunTethered(w: World, ss: seq<WStep>)
    requires WInv(w) && Legal(w, ss) && Tethered(w.x) && Tethered(w.y)
    ensures Tethered(Run(w, ss).x) && Tethered(Run(w, ss).y)
    decreases |ss|
  {
    if ss != [] {
      WNextInv(w, ss[0]);
      match ss[0] {
        case AtX(act) => NextYTethered(Flip(w), act);
        case AtY(act) => NextYTethered(w, act);
      }
      RunTethered(WNext(w, ss[0]), ss[1..]);
    }
  }

  /** Closing all that is bound to the transport closes socket `i`, and tells its peer if it has one. */
  ghost predicate GoesOffline(e: Ep, i: nat) {
    var o := CloseBelow(e, LINK, e.next);
    !LiveAt(o.ep, i) && (LiveAt(e, i) && e.socks[i].h.up ==> Packet(CLSE, i, e.socks[i].peer, []) in o.pkts)
  }

  /** In every run, going offline leaves no live socket at either end, and each connected one has told its peer. */
  lemma OfflineClosesAll(maxPayload: nat, ss: seq<WStep>, i: nat)
    requires Legal(Init(maxPayload), ss)
    ensures var w := Run(Init(maxPayload), ss);
            GoesOffline(w.x, i) && GoesOffline(w.y, i)
  {
    InitInv(maxPayload);
    RunInv(Init(maxPayload), ss);
    RunTethered(Init(maxPayload), ss);
    var w := Run(Init(maxPayload), ss);
    NoneLeft(w, i);
    NoneLeft(Flip(w), i);
  }

  lemma NoneLeft(w: World, i: nat)
    requires WInv(w) && Tethered(w.x)
    ensures GoesOffline(w.x, i)
  {
    CloseBelowEffect(w.x, LINK, w.x.next, i);
    CloseBelowNotices(w.x, LINK, w.x.next, Packet(CLSE, i, if i in w.x.socks then w.x.socks[i].peer else 0, []));
    if LiveAt(w.x, i) {
      if !w.x.socks[i].opener {
        assert Good(View(Flip(w), w.x.socks[i].peer));
      }
      assert Bound(w.x, i, LINK);
    }
  }

  // ---- deliveries come to an end ----

  function WeightOf(p: Packet): nat {
    match p.cmd
    case OPEN => 6
    case WRTE => 4
    case OKAY => 3
    case CLSE => 1
  }

  function Weight(ps: seq<Packet>): nat {
    if ps == [] then 0 else WeightOf(ps[0]) + Weight(ps[1..])
  }

  function Lives(e: Ep): set<nat> {
    set i | i in e.socks && e.socks[i].h.phase.Live?
  }

  /** What deliveries use up: packets in flight, and live sockets that may still have to say CLSE. */
  function Measure(w: World): nat {
    Weight(w.xy) + Weight(w.yx) + 2 * |Lives(w.x)| + 2 * |Lives(w.y)|
  }

  lemma {:induction false} WeightAppend(ps: seq<Packet>, qs: seq<Packet>)
    ensures Weight(ps + qs) == Weight(ps) + Weight(qs)
  {
    if ps == [] {
      assert ps + qs == qs;
    } else {
      assert (ps + qs)[1..] == ps[1..] + qs;
      WeightAppend(ps[1..], qs);
    }
  }

  /** Changing one socket changes the number of live ones by what it is and becomes. */
  lemma LivesUpdated(e: Ep, id: nat, s: Entry)
    requires id in e.socks
    ensures |Lives(e.(socks := e.socks[id := s]))| + One(e.socks[id].h.phase.Live?) == |Lives(e)| + One(s.h.phase.Live?)
  {
    var e' := e.(socks := e.socks[id := s]);
    var others := Lives(e) - {id};
    assert Lives(e) == if e.socks[id].h.phase.Live? then others + {id} else others;
    assert Lives(e') == if s.h.phase.Live? then others + {id} else others;
  }

  lemma LivesAdded(e: Ep, e': Ep, id: nat, s: Entry)
    requires e'.socks == e.socks[id := s]
    ensures |Lives(e')| <= |Lives(e)| + 1
  {
    assert Lives(e') <= Lives(e) + {id};
    SubsetSize(Lives(e'), Lives(e) + {id});
  }

  lemma {:induction false} SubsetSize(a: set<nat>, b: set<nat>)
    requires a <= b
    ensures |a| <= |b|
    decreases a
  {
    if a != {} {
      var k :| k in a;
      SubsetSize(a - {k}, b - {k});
    }
  }

  /** A live socket that handled a WRTE or a CLSE. */
  lemma ApplyCost(e: Ep, id: nat, r: Effect)
    requires LiveAt(e, id)
    requires if r.h.phase.Live? then r.out == [] || r.out == [MOkay] else r.out == [] || r.out == [MClse]
    ensures var o := Apply(e, id, r);
            Weight(o.pkts) + 2 * |Lives(o.ep)| <= (if r.h.phase.Live? && r.out != [] then 3 else 0) + 2 * |Lives(e)|
  {
    LivesUpdated(e, id, e.socks[id].(h := r.h));
    if r.out != [] {
      var q := Address(id, e.socks[id].peer, r.out[0]);
      assert AddressAll(id, e.socks[id].peer, r.out) == [q];
      assert Weight([q]) == WeightOf(q) + Weight([q][1..]);
    }
  }

  lemma OkayCost(e: Ep, p: Packet)
    ensures var o := OnOkay(e, p, LINK); Weight(o.pkts) + 2 * |Lives(o.ep)| <= 1 + 2 * |Lives(e)|
  {
    var o := OnOkay(e, p, LINK);
    if LiveAt(e, p.arg1) && o.ep != e {
      LivesUpdated(e, p.arg1, o.ep.socks[p.arg1]);
    }
  }

  lemma OpenCost(e: Ep, p: Packet, accept: bool)
    ensures var o := OnOpen(e, p, LINK, accept); Weight(o.pkts) + 2 * |Lives(o.ep)| <= 5 + 2 * |Lives(e)|
  {
    var o := OnOpen(e, p, LINK, accept);
    if o.ep != e {
      LivesAdded(e, o.ep, e.next, Entry(ACCEPTED, p.arg0, false, 0, LINK));
    }
  }

  /** What handling one packet costs is less than the packet. */
  lemma HandleCost(e: Ep, p: Packet, accept: bool, wo: WriteOutcome)
    ensures var o := HandlePacket(e, p, LINK, accept, wo);
            Weight(o.pkts) + 2 * |Lives(o.ep)| < WeightOf(p) + 2 * |Lives(e)|
  {
    match p.cmd
    case OPEN => OpenCost(e, p, accept);
    case OKAY => OkayCost(e, p);
    case CLSE =>
      if Finds(e, p.arg1, p.arg0) {
        ApplyCost(e, p.arg1, Close(e.socks[p.arg1].h, PeerClosed));
      }
    case WRTE =>
      if Finds(e, p.arg1, p.arg0) {
        ApplyCost(e, p.arg1, Enqueue(e.socks[p.arg1].h, p.data, wo));
      }
  }

  lemma DeliverShrinks(w: World, accept: bool, wo: WriteOutcome)
    requires EnabledY(w, DoDeliver(accept, wo))
    ensures Measure(NextY(w, DoDeliver(accept, wo))) < Measure(w)
  {
    HandleCost(w.y, w.xy[0], accept, wo);
    WeightAppend(w.yx, HandlePacket(w.y, w.xy[0], LINK, accept, wo).pkts);
  }

  predicate IsDelivery(s: WStep) {
    match s
    case AtX(act) => act.DoDeliver?
    case AtY(act) => act.DoDeliver?
  }

  /** However packets are delivered, with nothing else happening, it takes boundedly many steps. */
  lemma {:induction false} DeliveriesEnd(w: World, ss: seq<WStep>)
    requires Legal(w, ss) && forall k :: 0 <= k < |ss| ==> IsDelivery(ss[k])
    ensures |ss| + Measure(Run(w, ss)) <= Measure(w)
    decreases |ss|
  {
    if ss != [] {
      assert IsDelivery(ss[0]);
      match ss[0] {
        case AtX(act) => DeliverShrinks(Flip(w), act.accept, act.wo);
        case AtY(act) => DeliverShrinks(w, act.accept, act.wo);
      }
      DeliveriesEnd(WNext(w, ss[0]), ss[1..]);
    }
  }

  const REFUSE := DoDeliver(false, WriteOutcome(0, false))

  /** One delivery, refusing OPENs, so that no id is used up. */
  lemma RefuseShrinks(w: World)
    requires EnabledY(w, REFUSE)
    ensures Measure(NextY(w, REFUSE)) < Measure(w)
    ensures NextY(w, REFUSE).x == w.x && NextY(w, REFUSE).y.next == w.y.next
  {
    DeliverShrinks(w, false, WriteOutcome(0, false));
  }

  /** A schedule of deliveries that empties both channels. */
  lemma {:induction false} Schedule(w: World) returns (ss: seq<WStep>)
    ensures forall k :: 0 <= k < |ss| ==> IsDelivery(ss[k])
    ensures Legal(w, ss) && Run(w, ss).xy == [] && Run(w, ss).yx == []
    decreases Measure(w)
  {
    if w.xy == [] && w.yx == [] {
      ss := [];
    } else {
      var s := if w.xy != [] then AtY(REFUSE) else AtX(REFUSE);
      RefuseShrinks(if w.xy != [] then w else Flip(w));
      var rest := Schedule(WNext(w, s));
      ss := [s] + rest;
      assert ss[1..] == rest;
    }
  }

  /** No packet can be delivered. */
  ghost predicate NothingToDeliver(w: World) {
    forall s: WStep :: IsDelivery(s) ==> !WEnabled(w, s)
  }

  lemma NothingInFlight(w: World)
    ensures NothingToDeliver(w) <==> w.xy == [] && w.yx == []
  {
    if NothingToDeliver(w) {
      assert IsDelivery(AtY(REFUSE)) && IsDelivery(AtX(REFUSE));
      assert !WEnabled(w, AtY(REFUSE)) && !WEnabled(w, AtX(REFUSE));
    }
  }

  ghost predicate Settled(w: World) {
    w.xy == [] && w.yx == [] && Reflected(w.x, w.y) && Reflected(w.y, w.x)
  }

  /**
   From every reachable state, however what is in flight is delivered, it takes boundedly many
   deliveries, and once none is left both channels are empty and the ends are mirror images.
   */
  lemma {:induction false} Settles(maxPayload: nat, ss: seq<WStep>, more: seq<WStep>)
    requires Legal(Init(maxPayload), ss) && Legal(Run(Init(maxPayload), ss), more)
    requires forall k :: 0 <= k < |more| ==> IsDelivery(more[k])
    ensures var w := Run(Init(maxPayload), ss); var w' := Run(w, more);
            |more| <= Measure(w) && (NothingToDeliver(w') <==> Settled(w'))
  {
    InitInv(maxPayload);
    RunInv(Init(maxPayload), ss);
    var w := Run(Init(maxPayload), ss);
    var w' := Run(w, more);
    DeliveriesEnd(w, more);
    RunInv(w, more);
    NothingInFlight(w');
    if w'.xy == [] && w'.yx == [] {
      QuietMirror(w');
    }
  }

  /** Such deliveries there always are. */
  lemma CanSettle(maxPayload: nat, ss: seq<WStep>) returns (more: seq<WStep>)
    requires Legal(Init(maxPayload), ss)
    ensures var w := Run(Init(maxPayload), ss);
            Legal(w, more) && (forall k :: 0 <= k < |more| ==> IsDelivery(more[k])) && Settled(Run(w, more))
  {
    InitInv(maxPayload);
    RunInv(Init(maxPayload), ss);
    var w := Run(Init(maxPayload), ss);
    more := Schedule(w);
    RunInv(w, more);
    QuietMirror(Run(w, more));
  }
}
