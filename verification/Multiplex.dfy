/**
 Two endpoints joined by two FIFO channels. Each step of the whole is one step of one connection
 and leaves every other connection as it was, so all that is proved of a connection holds of
 every stream in every run.
 */
module Multiplex {
  import opened Bytes
  import opened Stream
  import opened Connection
  import opened Credit
  import opened Endpoint

  datatype World = World(x: Ep, y: Ep, xy: seq<Packet>, yx: seq<Packet>)

  /** The one transport that joins the endpoints. */
  const LINK := 1

  datatype Act =
    | DoConnect(destination: bytes)
    | DoFire(id: nat, ev: Event)
    | DoDeliver(accept: bool, wo: WriteOutcome)

  /** Which endpoint acts. */
  datatype WStep = AtX(act: Act) | AtY(act: Act)

  /** Two endpoints that have just exchanged CONNECT packets and agreed on a payload limit. */
  function Init(maxPayload: nat): World {
    var e := Ep(true, maxPayload, 1, map[], map[]);
    World(e, e, [], [])
  }

  function Flip(w: World): World {
    World(w.y, w.x, w.yx, w.xy)
  }

  predicate EnabledY(w: World, act: Act) {
    match act
    case DoConnect(destination) => w.y.next < LAST_ID && FitsOpen(w.y, destination)
    case DoFire(id, ev) =>
      id in w.y.socks && Allowed(w.y.socks[id].h, ev) && |ev.ro.data| <= w.y.maxPayload
    case DoDeliver(accept, _) => w.xy != [] && (TakesId(w.y, w.xy[0], accept) ==> w.y.next < LAST_ID)
  }

  function NextY(w: World, act: Act): World
    requires EnabledY(w, act)
  {
    match act
    case DoConnect(destination) =>
      var o := Connect(w.y, LINK, destination);
      w.(y := o.ep, yx := w.yx + o.pkts)
    case DoFire(id, ev) =>
      var o := Fire(w.y, id, ev);
      w.(y := o.ep, yx := w.yx + o.pkts)
    case DoDeliver(accept, wo) =>
      var o := HandlePacket(w.y, w.xy[0], LINK, accept, wo);
      w.(y := o.ep, xy := w.xy[1..], yx := w.yx + o.pkts)
  }

  predicate WEnabled(w: World, s: WStep) {
    match s
    case AtX(act) => EnabledY(Flip(w), act)
    case AtY(act) => EnabledY(w, act)
  }

  function WNext(w: World, s: WStep): World
    requires WEnabled(w, s)
  {
    match s
    case AtX(act) => Flip(NextY(Flip(w), act))
    case AtY(act) => NextY(w, act)
  }

  // ---- one connection of the whole ----

  function MsgOf(p: Packet): Msg {
    match p.cmd
    case OPEN => MOpen
    case OKAY => MOkay
    case WRTE => MWrte(p.data)
    case CLSE => if p.arg0 == 0 then MFail else MClse
  }

  /** The messages that socket `i` has sent. */
  function From(ps: seq<Packet>, i: nat): seq<Msg> {
    if ps == [] then []
    else (if ps[0].arg0 == i then [MsgOf(ps[0])] else []) + From(ps[1..], i)
  }

  /** The messages meant for socket `i`. */
  function To(ps: seq<Packet>, i: nat): seq<Msg> {
    if ps == [] then []
    else (if ps[0].arg1 == i then [MsgOf(ps[0])] else []) + To(ps[1..], i)
  }

  /** The socket that answered the OPEN of remote socket `i`. */
  function Answer(e: Ep, i: nat): Half {
    if i in e.accepted && e.accepted[i] in e.socks then e.socks[e.accepted[i]].h else NO_SOCKET
  }

  /** The connection that socket `i` of endpoint x opened. */
  function View(w: World, i: nat): Conn
    requires i in w.x.socks
  {
    Conn(w.x.socks[i].h, Answer(w.y, i), From(w.xy, i), To(w.yx, i))
  }

  lemma {:induction false} FromAppend(ps: seq<Packet>, qs: seq<Packet>, i: nat)
    ensures From(ps + qs, i) == From(ps, i) + From(qs, i)
    ensures To(ps + qs, i) == To(ps, i) + To(qs, i)
  {
    if ps == [] {
      assert ps + qs == qs;
    } else {
      var all, one: seq<Msg> := ps + qs, [MsgOf(ps[0])];
      assert all[1..] == ps[1..] + qs && all[0] == ps[0];
      FromAppend(ps[1..], qs, i);
      Joined(if ps[0].arg0 == i then one else [], From(ps[1..], i), From(qs, i));
      Joined(if ps[0].arg1 == i then one else [], To(ps[1..], i), To(qs, i));
    }
  }

  lemma {:induction false} FromAddressed(id: nat, peer: nat, ms: seq<Msg>, i: nat)
    requires id != 0 && MOpen !in ms && MFail !in ms
    ensures From(AddressAll(id, peer, ms), i) == if i == id then ms else []
    ensures To(AddressAll(id, peer, ms), i) == if i == peer then ms else []
  {
    if ms != [] {
      var ps, more := AddressAll(id, peer, ms), AddressAll(id, peer, ms[1..]);
      assert ps[0] == Address(id, peer, ms[0]) && ps[1..] == more;
      assert MsgOf(ps[0]) == ms[0] && ps[0].arg0 == id && ps[0].arg1 == peer;
      FromAddressed(id, peer, ms[1..], i);
      assert ms == [ms[0]] + ms[1..];
    }
  }

  // ---- addresses ----

  /** The ids of a table are those given out. */
  predicate Numbered(x: Ep) {
    x.online && 0 < x.next && forall i :: i in x.socks ==> 0 < i < x.next && !x.socks[i].h.phase.Absent?
  }

  /** An opener that knows its peer knows the socket that answered it. */
  predicate OpenersKnow(x: Ep, y: Ep) {
    forall i :: i in x.socks && x.socks[i].opener ==>
      && (x.socks[i].h.up ==> x.socks[i].peer != 0)
      && (x.socks[i].peer != 0 ==> i in y.accepted && y.accepted[i] == x.socks[i].peer)
  }

  predicate AcceptorsListed(x: Ep) {
    forall i :: i in x.socks && !x.socks[i].opener ==> x.socks[i].peer in x.accepted && x.accepted[x.socks[i].peer] == i
  }

  predicate ListedAccept(x: Ep, y: Ep) {
    forall j :: j in x.accepted ==>
      && x.accepted[j] in x.socks && !x.socks[x.accepted[j]].opener
      && x.socks[x.accepted[j]].peer == j
      && j in y.socks && y.socks[j].opener
  }

  /** Endpoint x's table, as far as its addresses go, with the other endpoint y's. */
  ghost predicate Books(x: Ep, y: Ep) {
    Numbered(x) && OpenersKnow(x, y) && AcceptorsListed(x) && ListedAccept(x, y)
  }

  /** A packet on its way from x to y names sockets that belong together. */
  ghost predicate Posted(x: Ep, y: Ep, p: Packet) {
    if p.cmd.OPEN? then
      p.arg0 in x.socks && x.socks[p.arg0].opener && p.arg1 == 0
    else if p.arg0 == 0 then
      p.cmd.CLSE? && p.arg1 in y.socks && y.socks[p.arg1].opener
    else
      && p.arg0 in x.socks
      && (if x.socks[p.arg0].opener then p.arg0 in y.accepted && p.arg1 == y.accepted[p.arg0]
          else p.arg1 == x.socks[p.arg0].peer)
  }

  ghost predicate Mail(x: Ep, y: Ep, ps: seq<Packet>) {
    forall k :: 0 <= k < |ps| ==> Posted(x, y, ps[k])
  }

  ghost predicate Orderly(w: World) {
    && Books(w.x, w.y) && Books(w.y, w.x)
    && Mail(w.x, w.y, w.xy) && Mail(w.y, w.x, w.yx)
  }

  ghost predicate Good(c: Conn) {
    Inv(c) && NeverStuck(c)
  }

  ghost predicate Conns(w: World) {
    forall i :: i in w.x.socks && w.x.socks[i].opener ==> Good(View(w, i))
  }

  ghost predicate WInv(w: World) {
    Orderly(w) && Conns(w) && Conns(Flip(w))
  }

  lemma InitInv(maxPayload: nat)
    ensures WInv(Init(maxPayload))
  {
  }

  // ---- which connection a step belongs to ----

  datatype ConnId = ByX(i: nat) | ByY(j: nat)

  /** The connection that an act of endpoint y belongs to, named by its opener. */
  function Mover(w: World, act: Act): ConnId
    requires EnabledY(w, act)
  {
    match act
    case DoConnect(_) => ByY(w.y.next)
    case DoFire(id, _) => if w.y.socks[id].opener then ByY(id) else ByX(w.y.socks[id].peer)
    case DoDeliver(_, _) =>
      var p := w.xy[0];
      if p.arg0 in w.x.socks && w.x.socks[p.arg0].opener then ByX(p.arg0) else ByY(p.arg1)
  }

  /** The step that connection takes. */
  function StepOf(w: World, act: Act): Step
    requires EnabledY(w, act) && !act.DoConnect?
  {
    match act
    case DoFire(id, ev) => if Mover(w, act).ByY? then OpenerEvent(ev) else AcceptorEvent(ev)
    case DoDeliver(accept, wo) => if Mover(w, act).ByY? then ToOpener(wo) else ToAcceptor(accept, wo)
  }

  /** `w'` is `w` with one connection moved by `s` and all others as they were. */
  ghost predicate OneMoved(w: World, w': World, m: ConnId, s: Step) {
    && (forall i :: i in w.x.socks && w.x.socks[i].opener ==>
          && i in w'.x.socks
          && (if m == ByX(i) then Enabled(View(w, i), s) && View(w', i) == Next(View(w, i), s)
              else View(w', i) == View(w, i)))
    && (forall j :: j in w.y.socks && w.y.socks[j].opener ==>
          && j in w'.y.socks
          && (if m == ByY(j) then Enabled(View(Flip(w), j), s) && View(Flip(w'), j) == Next(View(Flip(w), j), s)
              else View(Flip(w'), j) == View(Flip(w), j)))
  }

  /** Socket `id` of y becomes `s'` and says `out` to `peer`. */
  ghost predicate Speaks(w: World, w': World, id: nat, s': Entry, peer: nat, out: seq<Msg>) {
    && id in w.y.socks && id != 0 && s'.opener == w.y.socks[id].opener
    && w'.x == w.x && w'.y == w.y.(socks := w.y.socks[id := s'])
    && w'.yx == w.yx + AddressAll(id, peer, out)
    && MOpen !in out && MFail !in out
    && (if s'.opener then out == [] || (id in w.x.accepted && peer == w.x.accepted[id])
        else peer == w.y.socks[id].peer)
  }

  /** What that is to a connection x opened. */
  lemma SpeaksToX(w: World, w': World, id: nat, s': Entry, peer: nat, out: seq<Msg>, i: nat)
    requires Books(w.x, w.y) && Books(w.y, w.x) && Speaks(w, w', id, s', peer, out)
    requires i in w.x.socks && w.x.socks[i].opener
    ensures var mine := !s'.opener && w.y.socks[id].peer == i;
            && Answer(w'.y, i) == (if mine then s'.h else Answer(w.y, i))
            && To(w'.yx, i) == To(w.yx, i) + (if mine then out else [])
  {
    AnswerSpeaks(w.x, w.y, id, s', i);
    FromAppend(w.yx, AddressAll(id, peer, out), i);
    FromAddressed(id, peer, out, i);
    if s'.opener {
      assert out != [] ==> !w.x.socks[peer].opener;
    }
  }

  lemma AnswerSpeaks(x: Ep, y: Ep, id: nat, s': Entry, i: nat)
    requires Books(y, x) && id in y.socks && s'.opener == y.socks[id].opener
    ensures Answer(y.(socks := y.socks[id := s']), i)
            == if !s'.opener && y.socks[id].peer == i then s'.h else Answer(y, i)
  {
    if i in y.accepted {
      assert y.socks[y.accepted[i]].peer == i;
    }
  }

  /** What that is to a connection y opened. */
  lemma SpeaksToY(w: World, w': World, id: nat, s': Entry, peer: nat, out: seq<Msg>, j: nat)
    requires Books(w.x, w.y) && Books(w.y, w.x) && Speaks(w, w', id, s', peer, out)
    requires j in w.y.socks && w.y.socks[j].opener
    ensures w'.y.socks[j].h == (if j == id then s'.h else w.y.socks[j].h)
    ensures Answer(w'.x, j) == Answer(w.x, j)
    ensures From(w'.yx, j) == From(w.yx, j) + (if j == id then out else [])
  {
    FromAppend(w.yx, AddressAll(id, peer, out), j);
    FromAddressed(id, peer, out, j);
  }

  lemma FireMovesX(w: World, id: nat, ev: Event, i: nat)
    requires Books(w.x, w.y) && Books(w.y, w.x) && EnabledY(w, DoFire(id, ev)) && HalfOk(w.y.socks[id].h)
    requires i in w.x.socks && w.x.socks[i].opener
    ensures var w' := NextY(w, DoFire(id, ev));
            if Mover(w, DoFire(id, ev)) == ByX(i)
            then Enabled(View(w, i), AcceptorEvent(ev)) && View(w', i) == Next(View(w, i), AcceptorEvent(ev))
            else View(w', i) == View(w, i)
  {
    var s := w.y.socks[id];
    var e := HandleEvent(s.h, ev);
    FireSpeaks(w, id, ev);
    SpeaksToX(w, NextY(w, DoFire(id, ev)), id, s.(h := e.h), s.peer, e.out, i);
  }

  lemma FireMovesY(w: World, id: nat, ev: Event, j: nat)
    requires Books(w.x, w.y) && Books(w.y, w.x) && EnabledY(w, DoFire(id, ev)) && HalfOk(w.y.socks[id].h)
    requires j in w.y.socks && w.y.socks[j].opener
    ensures var w' := NextY(w, DoFire(id, ev));
            if Mover(w, DoFire(id, ev)) == ByY(j)
            then Enabled(View(Flip(w), j), OpenerEvent(ev))
                 && View(Flip(w'), j) == Next(View(Flip(w), j), OpenerEvent(ev))
            else View(Flip(w'), j) == View(Flip(w), j)
  {
    var s := w.y.socks[id];
    var e := HandleEvent(s.h, ev);
    FireSpeaks(w, id, ev);
    SpeaksToY(w, NextY(w, DoFire(id, ev)), id, s.(h := e.h), s.peer, e.out, j);
  }

  lemma FireSpeaks(w: World, id: nat, ev: Event)
    requires Books(w.x, w.y) && Books(w.y, w.x) && EnabledY(w, DoFire(id, ev)) && HalfOk(w.y.socks[id].h)
    ensures var s := w.y.socks[id];
            var e := HandleEvent(s.h, ev);
            Speaks(w, NextY(w, DoFire(id, ev)), id, s.(h := e.h), s.peer, e.out)
  {
    EventMoves(w.y.socks[id].h, ev);
  }

  lemma FireMoves(w: World, id: nat, ev: Event)
    requires Books(w.x, w.y) && Books(w.y, w.x) && EnabledY(w, DoFire(id, ev)) && HalfOk(w.y.socks[id].h)
    ensures OneMoved(w, NextY(w, DoFire(id, ev)), Mover(w, DoFire(id, ev)), StepOf(w, DoFire(id, ev)))
  {
    forall i | i in w.x.socks && w.x.socks[i].opener {
      FireMovesX(w, id, ev, i);
    }
    forall j | j in w.y.socks && w.y.socks[j].opener {
      FireMovesY(w, id, ev, j);
    }
  }

  // ---- delivery ----

  /** A packet of a connection x opened, once its OPEN was answered, is handled as by that connection's acceptor. */
  lemma AtAcceptor(e: Ep, p: Packet, accept: bool, wo: WriteOutcome)
    requires e.online && !p.cmd.OPEN? && p.arg0 != 0 && p.arg1 != 0 && p.arg1 in e.socks
    requires var s := e.socks[p.arg1]; s.peer == p.arg0 && HalfOk(s.h) && (s.h.phase.Live? ==> s.h.up)
    ensures HandlePacket(e, p, LINK, accept, wo)
            == Apply(e, p.arg1, AcceptorReceive(e.socks[p.arg1].h, MsgOf(p), accept, wo))
  {
    var s := e.socks[p.arg1];
    assert s.(h := s.h) == s && e.socks[p.arg1 := s] == e.socks;
    assert AddressAll(p.arg1, s.peer, []) == [];
    assert AddressAll(p.arg1, s.peer, [MClse]) == [Packet(CLSE, p.arg1, s.peer, [])];
  }

  /** A packet of a connection y opened is handled as by that connection's opener. */
  lemma AtOpener(e: Ep, p: Packet, accept: bool, wo: WriteOutcome)
    requires e.online && !p.cmd.OPEN? && p.arg1 != 0 && p.arg1 in e.socks && (p.arg0 == 0 ==> p.cmd.CLSE?)
    requires var s := e.socks[p.arg1];
             && s.opener && HalfOk(s.h) && (s.h.up ==> p.arg0 == s.peer)
             && (p.arg0 == 0 ==> !s.h.up)
    ensures var s := e.socks[p.arg1];
            var r := OpenerReceive(s.h, MsgOf(p), wo);
            var o := HandlePacket(e, p, LINK, accept, wo);
            && o.pkts == AddressAll(p.arg1, p.arg0, r.out)
            && p.arg1 in o.ep.socks
            && o.ep == e.(socks := e.socks[p.arg1 := o.ep.socks[p.arg1]])
            && o.ep.socks[p.arg1].h == r.h && o.ep.socks[p.arg1].opener
            && o.ep.socks[p.arg1].peer == if r.h.up then p.arg0 else s.peer
  {
    var s := e.socks[p.arg1];
    assert s.(h := s.h) == s && e.socks[p.arg1 := s] == e.socks;
    assert AddressAll(p.arg1, p.arg0, []) == [] && AddressAll(p.arg1, s.peer, []) == [];
    assert AddressAll(p.arg1, p.arg0, [MClse]) == [Packet(CLSE, p.arg1, p.arg0, [])];
  }

  lemma AcceptorSpeaks(w: World, accept: bool, wo: WriteOutcome)
    requires Books(w.x, w.y) && Books(w.y, w.x) && EnabledY(w, DoDeliver(accept, wo)) && Posted(w.x, w.y, w.xy[0])
    requires var p := w.xy[0]; !p.cmd.OPEN? && p.arg0 in w.x.socks && w.x.socks[p.arg0].opener
    requires var h := Answer(w.y, w.xy[0].arg0); HalfOk(h) && (h.phase.Live? ==> h.up)
    ensures var p := w.xy[0];
            var s := w.y.socks[p.arg1];
            var e := AcceptorReceive(s.h, MsgOf(p), accept, wo);
            && p.arg1 in w.y.socks && !s.opener && s.peer == p.arg0 && s.h == Answer(w.y, p.arg0)
            && Speaks(w, NextY(w, DoDeliver(accept, wo)), p.arg1, s.(h := e.h), s.peer, e.out)
  {
    AtAcceptor(w.y, w.xy[0], accept, wo);
  }

  lemma OpenerSpeaks(w: World, accept: bool, wo: WriteOutcome)
    requires Books(w.x, w.y) && Books(w.y, w.x) && EnabledY(w, DoDeliver(accept, wo)) && Posted(w.x, w.y, w.xy[0])
    requires var p := w.xy[0]; !(p.arg0 in w.x.socks && w.x.socks[p.arg0].opener)
    requires var h := w.y.socks[w.xy[0].arg1].h; HalfOk(h) && (w.xy[0].arg0 == 0 ==> !h.up)
    ensures var p := w.xy[0];
            var s := w.y.socks[p.arg1];
            var e := OpenerReceive(s.h, MsgOf(p), wo);
            var w' := NextY(w, DoDeliver(accept, wo));
            && p.arg1 in w.y.socks && s.opener
            && p.arg1 in w'.y.socks && w'.y.socks[p.arg1].h == e.h
            && w'.y.socks[p.arg1].peer == (if e.h.up then p.arg0 else s.peer)
            && Speaks(w, w', p.arg1, w'.y.socks[p.arg1], p.arg0, e.out)
  {
    AtOpener(w.y, w.xy[0], accept, wo);
  }

  lemma OpenMoves(w: World, accept: bool, wo: WriteOutcome, i: nat, j: nat)
    requires Books(w.x, w.y) && Books(w.y, w.x) && EnabledY(w, DoDeliver(accept, wo)) && Posted(w.x, w.y, w.xy[0])
    requires w.xy[0].cmd.OPEN? && w.xy[0].arg0 !in w.y.accepted
    ensures var w' := NextY(w, DoDeliver(accept, wo));
            && (i in w.x.socks && w.x.socks[i].opener ==>
                  && Answer(w'.y, i) == (if accept && i == w.xy[0].arg0 then ACCEPTED else Answer(w.y, i))
                  && To(w'.yx, i) == To(w.yx, i)
                                     + (if i == w.xy[0].arg0 then [if accept then MOkay else MFail] else []))
            && (j in w.y.socks && w.y.socks[j].opener ==> From(w'.yx, j) == From(w.yx, j))
  {
    var p := w.xy[0];
    var q := if accept then Packet(OKAY, w.y.next, p.arg0, []) else Packet(CLSE, 0, p.arg0, []);
    assert NextY(w, DoDeliver(accept, wo)).yx == w.yx + [q];
    FromAppend(w.yx, [q], i);
    FromAppend(w.yx, [q], j);
    assert [q][1..] == [];
  }

  /** What a delivery is to a connection x opened. */
  lemma DeliverMovesX(w: World, accept: bool, wo: WriteOutcome, i: nat)
    requires Books(w.x, w.y) && Books(w.y, w.x) && EnabledY(w, DoDeliver(accept, wo)) && Posted(w.x, w.y, w.xy[0])
    requires HandlesWell(w)
    requires i in w.x.socks && w.x.socks[i].opener
    ensures var act := DoDeliver(accept, wo);
            var w' := NextY(w, act);
            if Mover(w, act) == ByX(i)
            then Enabled(View(w, i), StepOf(w, act)) && View(w', i) == Next(View(w, i), StepOf(w, act))
            else View(w', i) == View(w, i)
  {
    var w' := NextY(w, DoDeliver(accept, wo));
    var p := w.xy[0];
    if p.cmd.OPEN? {
      OpenMoves(w, accept, wo, i, i);
    } else if p.arg0 in w.x.socks && w.x.socks[p.arg0].opener {
      AcceptorSpeaks(w, accept, wo);
      var s := w.y.socks[p.arg1];
      var e := AcceptorReceive(s.h, MsgOf(p), accept, wo);
      SpeaksToX(w, w', p.arg1, s.(h := e.h), s.peer, e.out, i);
    } else {
      OpenerMovesX(w, accept, wo, i);
    }
  }

  lemma OpenerMovesX(w: World, accept: bool, wo: WriteOutcome, i: nat)
    requires Books(w.x, w.y) && Books(w.y, w.x) && EnabledY(w, DoDeliver(accept, wo)) && Posted(w.x, w.y, w.xy[0])
    requires HandlesWell(w) && !w.xy[0].cmd.OPEN? && !(w.xy[0].arg0 in w.x.socks && w.x.socks[w.xy[0].arg0].opener)
    requires i in w.x.socks && w.x.socks[i].opener
    ensures View(NextY(w, DoDeliver(accept, wo)), i) == View(w, i)
  {
    var w' := NextY(w, DoDeliver(accept, wo));
    var p := w.xy[0];
    OpenerSpeaks(w, accept, wo);
    var e := OpenerReceive(w.y.socks[p.arg1].h, MsgOf(p), wo);
    SpeaksToX(w, w', p.arg1, w'.y.socks[p.arg1], p.arg0, e.out, i);
  }

  /** What a delivery is to a connection y opened. */
  lemma DeliverMovesY(w: World, accept: bool, wo: WriteOutcome, j: nat)
    requires Books(w.x, w.y) && Books(w.y, w.x) && EnabledY(w, DoDeliver(accept, wo)) && Posted(w.x, w.y, w.xy[0])
    requires HandlesWell(w)
    requires j in w.y.socks && w.y.socks[j].opener
    ensures var act := DoDeliver(accept, wo);
            var w' := NextY(w, act);
            && j in w'.y.socks
            && if Mover(w, act) == ByY(j)
               then Enabled(View(Flip(w), j), StepOf(w, act))
                    && View(Flip(w'), j) == Next(View(Flip(w), j), StepOf(w, act))
               else View(Flip(w'), j) == View(Flip(w), j)
  {
    var w' := NextY(w, DoDeliver(accept, wo));
    var p := w.xy[0];
    if p.cmd.OPEN? {
      OpenMoves(w, accept, wo, j, j);
    } else if p.arg0 in w.x.socks && w.x.socks[p.arg0].opener {
      AcceptorSpeaks(w, accept, wo);
      var s := w.y.socks[p.arg1];
      var e := AcceptorReceive(s.h, MsgOf(p), accept, wo);
      SpeaksToY(w, w', p.arg1, s.(h := e.h), s.peer, e.out, j);
    } else {
      OpenerMovesY(w, accept, wo, j);
    }
  }

  lemma OpenerMovesY(w: World, accept: bool, wo: WriteOutcome, j: nat)
    requires Books(w.x, w.y) && Books(w.y, w.x) && EnabledY(w, DoDeliver(accept, wo)) && Posted(w.x, w.y, w.xy[0])
    requires HandlesWell(w) && !w.xy[0].cmd.OPEN? && !(w.xy[0].arg0 in w.x.socks && w.x.socks[w.xy[0].arg0].opener)
    requires j in w.y.socks && w.y.socks[j].opener
    ensures var act := DoDeliver(accept, wo);
            var w' := NextY(w, act);
            && j in w'.y.socks
            && if Mover(w, act) == ByY(j)
               then Enabled(View(Flip(w), j), StepOf(w, act))
                    && View(Flip(w'), j) == Next(View(Flip(w), j), StepOf(w, act))
               else View(Flip(w'), j) == View(Flip(w), j)
  {
    var w' := NextY(w, DoDeliver(accept, wo));
    var p := w.xy[0];
    OpenerSpeaks(w, accept, wo);
    var e := OpenerReceive(w.y.socks[p.arg1].h, MsgOf(p), wo);
    SpeaksToY(w, w', p.arg1, w'.y.socks[p.arg1], p.arg0, e.out, j);
  }

  /** What the connection of the next packet guarantees about the socket it is for. */
  ghost predicate HandlesWell(w: World)
    requires w.xy != []
  {
    var p := w.xy[0];
    if p.cmd.OPEN? then p.arg0 !in w.y.accepted
    else if p.arg0 in w.x.socks && w.x.socks[p.arg0].opener then
      var h := Answer(w.y, p.arg0); HalfOk(h) && (h.phase.Live? ==> h.up)
    else
      p.arg1 in w.y.socks && HalfOk(w.y.socks[p.arg1].h) && (p.arg0 == 0 ==> !w.y.socks[p.arg1].h.up)
  }

  lemma DeliverMoves(w: World, accept: bool, wo: WriteOutcome)
    requires Books(w.x, w.y) && Books(w.y, w.x) && EnabledY(w, DoDeliver(accept, wo)) && Posted(w.x, w.y, w.xy[0])
    requires HandlesWell(w)
    ensures var act := DoDeliver(accept, wo); OneMoved(w, NextY(w, act), Mover(w, act), StepOf(w, act))
  {
    var act := DoDeliver(accept, wo);
    assert NextY(w, act).x == w.x;
    forall i | i in w.x.socks && w.x.socks[i].opener {
      DeliverMovesX(w, accept, wo, i);
    }
    forall j | j in w.y.socks && w.y.socks[j].opener {
      DeliverMovesY(w, accept, wo, j);
    }
  }

  // ---- addresses stay in order ----

  /** Sockets keep their ids and roles, acceptors their peers, and answered OPENs their answers. */
  ghost predicate Grows(e: Ep, e': Ep) {
    && (forall i :: i in e.socks ==>
          && i in e'.socks && e'.socks[i].opener == e.socks[i].opener
          && (!e.socks[i].opener ==> e'.socks[i].peer == e.socks[i].peer))
    && (forall i :: i in e.accepted ==> i in e'.accepted && e'.accepted[i] == e.accepted[i])
  }

  lemma MailGrows(x: Ep, y: Ep, y': Ep, xy: seq<Packet>, yx: seq<Packet>)
    requires Grows(y, y') && Mail(x, y, xy) && Mail(y, x, yx)
    ensures Mail(x, y', xy) && Mail(y', x, yx)
  {
  }

  lemma {:induction false} AddressedMail(y: Ep, x: Ep, id: nat, peer: nat, ms: seq<Msg>)
    requires MOpen !in ms && MFail !in ms && id != 0 && id in y.socks
    requires if y.socks[id].opener then ms == [] || (id in x.accepted && peer == x.accepted[id])
             else peer == y.socks[id].peer
    ensures Mail(y, x, AddressAll(id, peer, ms))
  {
    if ms != [] {
      AddressedMail(y, x, id, peer, ms[1..]);
    }
  }

  lemma MailAppend(y: Ep, x: Ep, ps: seq<Packet>, qs: seq<Packet>)
    requires Mail(y, x, ps) && Mail(y, x, qs)
    ensures Mail(y, x, ps + qs)
  {
  }

  /** What a socket may become without disturbing the books. */
  ghost predicate InOrder(w: World, id: nat, s': Entry) {
    && id in w.y.socks && !s'.h.phase.Absent? && s'.opener == w.y.socks[id].opener
    && (if s'.opener
        then && (s'.h.up ==> s'.peer != 0)
             && (s'.peer != 0 ==> id in w.x.accepted && w.x.accepted[id] == s'.peer)
        else s'.peer == w.y.socks[id].peer)
  }

  lemma BooksUpdated(w: World, id: nat, s': Entry)
    requires Books(w.x, w.y) && Books(w.y, w.x) && InOrder(w, id, s')
    ensures var y' := w.y.(socks := w.y.socks[id := s']);
            Books(w.x, y') && Books(y', w.x) && Grows(w.y, y')
  {
    OwnBooksUpdated(w, id, s');
    OtherBooksUpdated(w, id, s');
  }

  lemma OwnBooksUpdated(w: World, id: nat, s': Entry)
    requires Books(w.x, w.y) && Books(w.y, w.x) && InOrder(w, id, s')
    ensures Books(w.y.(socks := w.y.socks[id := s']), w.x)
  {
    var y' := w.y.(socks := w.y.socks[id := s']);
    assert Numbered(y') && OpenersKnow(y', w.x);
    assert AcceptorsListed(y');
    assert ListedAccept(y', w.x);
  }

  lemma OtherBooksUpdated(w: World, id: nat, s': Entry)
    requires Books(w.x, w.y) && Books(w.y, w.x) && InOrder(w, id, s')
    ensures Books(w.x, w.y.(socks := w.y.socks[id := s']))
  {
  }

  /** A socket that speaks leaves the books and the mail in order. */
  lemma SpeaksBooks(w: World, w': World, id: nat, s': Entry, peer: nat, out: seq<Msg>)
    requires Orderly(w) && Speaks(w, w', id, s', peer, out) && InOrder(w, id, s')
    requires w'.xy == w.xy || (w.xy != [] && w'.xy == w.xy[1..])
    ensures Orderly(w')
  {
    BooksUpdated(w, id, s');
    MailGrows(w.x, w.y, w'.y, w.xy, w.yx);
    AddressedMail(w'.y, w.x, id, peer, out);
    MailAppend(w'.y, w.x, w.yx, AddressAll(id, peer, out));
  }

  lemma FireBooks(w: World, id: nat, ev: Event)
    requires Orderly(w)
    requires EnabledY(w, DoFire(id, ev)) && HalfOk(w.y.socks[id].h)
    ensures var w' := NextY(w, DoFire(id, ev));
            Orderly(w')
  {
    var s := w.y.socks[id];
    var e := HandleEvent(s.h, ev);
    EventMoves(s.h, ev);
    FireSpeaks(w, id, ev);
    SpeaksBooks(w, NextY(w, DoFire(id, ev)), id, s.(h := e.h), s.peer, e.out);
  }

  lemma ReceiveKeeps(h: Half, m: Msg, accept: bool, wo: WriteOutcome)
    requires HalfOk(h) && !h.phase.Absent?
    ensures !AcceptorReceive(h, m, accept, wo).h.phase.Absent?
    ensures !OpenerReceive(h, m, wo).h.phase.Absent?
    ensures OpenerReceive(h, m, wo).h.up ==> h.up || m.MOkay?
  {
  }

  lemma DeliverBooks(w: World, accept: bool, wo: WriteOutcome)
    requires Orderly(w)
    requires EnabledY(w, DoDeliver(accept, wo)) && HandlesWell(w) && !w.xy[0].cmd.OPEN?
    ensures var w' := NextY(w, DoDeliver(accept, wo));
            Orderly(w')
  {
    var w' := NextY(w, DoDeliver(accept, wo));
    var p := w.xy[0];
    assert Posted(w.x, w.y, p);
    if p.arg0 in w.x.socks && w.x.socks[p.arg0].opener {
      AcceptorSpeaks(w, accept, wo);
      var s := w.y.socks[p.arg1];
      var e := AcceptorReceive(s.h, MsgOf(p), accept, wo);
      ReceiveKeeps(s.h, MsgOf(p), accept, wo);
      SpeaksBooks(w, w', p.arg1, s.(h := e.h), s.peer, e.out);
    } else {
      OpenerSpeaks(w, accept, wo);
      var s := w.y.socks[p.arg1];
      ReceiveKeeps(s.h, MsgOf(p), accept, wo);
      SpeaksBooks(w, w', p.arg1, w'.y.socks[p.arg1], p.arg0, OpenerReceive(s.h, MsgOf(p), wo).out);
    }
  }

  lemma OpenBooks(w: World, accept: bool, wo: WriteOutcome)
    requires Orderly(w)
    requires EnabledY(w, DoDeliver(accept, wo)) && HandlesWell(w) && w.xy[0].cmd.OPEN?
    ensures var w' := NextY(w, DoDeliver(accept, wo));
            Orderly(w')
  {
    var w' := NextY(w, DoDeliver(accept, wo));
    assert Posted(w.x, w.y, w.xy[0]);
    OwnBooksOpened(w.x, w.y, w.xy[0], accept);
    OtherBooksOpened(w.x, w.y, w.xy[0], accept);
    MailGrows(w.x, w.y, w'.y, w.xy, w.yx);
    MailAppend(w'.y, w.x, w.yx, OnOpen(w.y, w.xy[0], LINK, accept).pkts);
  }

  lemma OwnBooksOpened(x: Ep, y: Ep, p: Packet, accept: bool)
    requires Books(x, y) && Books(y, x) && p.cmd.OPEN? && Posted(x, y, p) && p.arg0 !in y.accepted
    ensures var o := OnOpen(y, p, LINK, accept); Books(o.ep, x) && Grows(y, o.ep)
  {
    assert y.next !in y.socks;
    NewNumbered(x, y, p, accept);
    NewAcceptor(y, p, accept);
    NewListed(x, y, p, accept);
  }

  lemma NewNumbered(x: Ep, y: Ep, p: Packet, accept: bool)
    requires Numbered(y) && OpenersKnow(y, x)
    ensures var e := OnOpen(y, p, LINK, accept).ep; Numbered(e) && OpenersKnow(e, x)
  {
  }

  lemma NewAcceptor(y: Ep, p: Packet, accept: bool)
    requires AcceptorsListed(y) && y.next !in y.socks && p.arg0 !in y.accepted
    ensures AcceptorsListed(OnOpen(y, p, LINK, accept).ep) && Grows(y, OnOpen(y, p, LINK, accept).ep)
  {
    assert forall i :: i in y.socks && !y.socks[i].opener ==> y.socks[i].peer != p.arg0;
  }

  lemma NewListed(x: Ep, y: Ep, p: Packet, accept: bool)
    requires ListedAccept(y, x) && y.next !in y.socks && p.arg0 !in y.accepted && p.arg0 in x.socks
             && x.socks[p.arg0].opener
    ensures ListedAccept(OnOpen(y, p, LINK, accept).ep, x)
  {
  }

  lemma OtherBooksOpened(x: Ep, y: Ep, p: Packet, accept: bool)
    requires Books(x, y) && Books(y, x) && p.cmd.OPEN? && Posted(x, y, p) && p.arg0 !in y.accepted
    ensures Books(x, OnOpen(y, p, LINK, accept).ep)
  {
    var e := OnOpen(y, p, LINK, accept).ep;
    assert OpenersKnow(x, e);
    assert ListedAccept(x, e);
  }

  lemma ConnectBooks(w: World, destination: bytes)
    requires Orderly(w)
    requires EnabledY(w, DoConnect(destination))
    ensures var w' := NextY(w, DoConnect(destination));
            Orderly(w')
  {
    var w' := NextY(w, DoConnect(destination));
    assert Grows(w.y, w'.y);
    MailGrows(w.x, w.y, w'.y, w.xy, w.yx);
    MailAppend(w'.y, w.x, w.yx, Connect(w.y, LINK, destination).pkts);
  }

  // ---- every step keeps everything ----

  lemma HandlesWellHolds(w: World)
    requires WInv(w) && w.xy != []
    ensures HandlesWell(w)
  {
    var p := w.xy[0];
    assert Posted(w.x, w.y, p);
    if p.arg0 in w.x.socks && w.x.socks[p.arg0].opener {
      assert Good(View(w, p.arg0));
      assert View(w, p.arg0).fwd[0] == MsgOf(p);
    } else {
      assert Good(View(Flip(w), p.arg1));
      assert View(Flip(w), p.arg1).bwd[0] == MsgOf(p);
    }
  }

  lemma GoodNext(c: Conn, s: Step)
    requires Good(c) && Enabled(c, s)
    ensures Good(Next(c, s))
    ensures OneCredit(c) && Asked(c, s) ==> OneCredit(Next(c, s))
  {
    NextInv(c, s);
    if s.OpenerEvent? || s.AcceptorEvent? {
      EventCredit(c, s);
    } else {
      DeliverCredit(c, s);
    }
  }

  /** Moving one connection by one of its steps keeps all connections good. */
  lemma OneMovedGood(w: World, w': World, m: ConnId, s: Step)
    requires Conns(w) && Conns(Flip(w)) && OneMoved(w, w', m, s)
    requires forall i :: i in w'.x.socks && w'.x.socks[i].opener ==> i in w.x.socks && w.x.socks[i].opener
    requires forall j :: j in w'.y.socks && w'.y.socks[j].opener ==> j in w.y.socks && w.y.socks[j].opener
    ensures Conns(w') && Conns(Flip(w'))
  {
    forall i | i in w'.x.socks && w'.x.socks[i].opener ensures Good(View(w', i)) {
      if m == ByX(i) {
        GoodNext(View(w, i), s);
      }
    }
    forall j | j in w'.y.socks && w'.y.socks[j].opener ensures Good(View(Flip(w'), j)) {
      if m == ByY(j) {
        GoodNext(View(Flip(w), j), s);
      }
    }
  }

  /** Opening a stream starts a connection and touches no other. */
  lemma ConnectMoves(w: World, destination: bytes)
    requires Orderly(w) && EnabledY(w, DoConnect(destination))
    ensures var w' := NextY(w, DoConnect(destination));
            && View(Flip(w'), w.y.next) == START
            && (forall i :: i in w.x.socks && w.x.socks[i].opener ==> View(w', i) == View(w, i))
            && (forall j :: j in w.y.socks && w.y.socks[j].opener ==> View(Flip(w'), j) == View(Flip(w), j))
  {
    var w' := NextY(w, DoConnect(destination));
    var q := Packet(OPEN, w.y.next, 0, destination + [0]);
    assert w'.yx == w.yx + [q] && [q][1..] == [];
    NobodyMet(w.yx, w.y, w.x, w.y.next);
    NobodyMet(w.xy, w.x, w.y, w.y.next);
    FromAppend(w.yx, [q], w.y.next);
    forall i | i in w.x.socks && w.x.socks[i].opener ensures View(w', i) == View(w, i) {
      FromAppend(w.yx, [q], i);
    }
    forall j | j in w.y.socks && w.y.socks[j].opener ensures View(Flip(w'), j) == View(Flip(w), j) {
      FromAppend(w.yx, [q], j);
    }
  }

  /** No packet is from or for an id that was never given out. */
  lemma {:induction false} NobodyMet(ps: seq<Packet>, x: Ep, y: Ep, k: nat)
    requires Books(x, y) && Books(y, x) && Mail(x, y, ps) && k != 0
    ensures k !in x.socks ==> From(ps, k) == []
    ensures k !in y.socks ==> To(ps, k) == []
  {
    if ps != [] {
      assert Posted(x, y, ps[0]);
      NobodyMet(ps[1..], x, y, k);
    }
  }

  lemma ConnectInv(w: World, destination: bytes)
    requires WInv(w) && EnabledY(w, DoConnect(destination))
    ensures WInv(NextY(w, DoConnect(destination)))
  {
    ConnectBooks(w, destination);
    ConnectMoves(w, destination);
    StartGood();
  }

  lemma FireInv(w: World, id: nat, ev: Event)
    requires WInv(w) && EnabledY(w, DoFire(id, ev))
    ensures WInv(NextY(w, DoFire(id, ev)))
    ensures var act := DoFire(id, ev); OneMoved(w, NextY(w, act), Mover(w, act), StepOf(w, act))
  {
    var act := DoFire(id, ev);
    SocketOk(w, id);
    FireBooks(w, id, ev);
    FireMoves(w, id, ev);
    OneMovedGood(w, NextY(w, act), Mover(w, act), StepOf(w, act));
  }

  lemma DeliverInv(w: World, accept: bool, wo: WriteOutcome)
    requires WInv(w) && EnabledY(w, DoDeliver(accept, wo))
    ensures WInv(NextY(w, DoDeliver(accept, wo)))
    ensures var act := DoDeliver(accept, wo); OneMoved(w, NextY(w, act), Mover(w, act), StepOf(w, act))
  {
    var act := DoDeliver(accept, wo);
    HandlesWellHolds(w);
    assert Posted(w.x, w.y, w.xy[0]);
    DeliverMoves(w, accept, wo);
    DeliverOpeners(w, accept, wo);
    OneMovedGood(w, NextY(w, act), Mover(w, act), StepOf(w, act));
    if w.xy[0].cmd.OPEN? {
      OpenBooks(w, accept, wo);
    } else {
      DeliverBooks(w, accept, wo);
    }
  }

  /** Only a new client makes a new opener. */
  lemma DeliverOpeners(w: World, accept: bool, wo: WriteOutcome)
    requires EnabledY(w, DoDeliver(accept, wo)) && Books(w.y, w.x)
    ensures var w' := NextY(w, DoDeliver(accept, wo));
            && w'.x == w.x
            && forall j :: j in w'.y.socks && w'.y.socks[j].opener ==> j in w.y.socks && w.y.socks[j].opener
  {
    var p := w.xy[0];
    match p.cmd {
      case OPEN =>
      case OKAY => assert OnOkay(w.y, p, LINK).ep.socks.Keys == w.y.socks.Keys;
      case CLSE => assert OnClse(w.y, p, LINK).ep.socks.Keys == w.y.socks.Keys;
      case WRTE => assert OnWrte(w.y, p, wo).ep.socks.Keys == w.y.socks.Keys;
    }
  }

  /**
   Each act of an endpoint that is not the opening of a new stream is exactly one step of exactly
   one connection, and leaves every other connection as it was.
   */
  lemma NextYInv(w: World, act: Act)
    requires WInv(w) && EnabledY(w, act)
    ensures WInv(NextY(w, act))
    ensures !act.DoConnect? ==> OneMoved(w, NextY(w, act), Mover(w, act), StepOf(w, act))
  {
    match act
    case DoConnect(destination) => ConnectInv(w, destination);
    case DoFire(id, ev) => FireInv(w, id, ev);
    case DoDeliver(accept, wo) => DeliverInv(w, accept, wo);
  }

  lemma StartGood()
    ensures Good(START) && OneCredit(START)
  {
    StartInv();
  }

  lemma SocketOk(w: World, id: nat)
    requires WInv(w) && id in w.y.socks
    ensures HalfOk(w.y.socks[id].h)
  {
    if w.y.socks[id].opener {
      assert Good(View(Flip(w), id));
    } else {
      assert Good(View(w, w.y.socks[id].peer));
    }
  }

  lemma WNextInv(w: World, s: WStep)
    requires WInv(w) && WEnabled(w, s)
    ensures WInv(WNext(w, s))
  {
    match s
    case AtX(act) => NextYInv(Flip(w), act);
    case AtY(act) => NextYInv(w, act);
  }
}
