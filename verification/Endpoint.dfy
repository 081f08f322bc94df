/**
 One adb endpoint: its table of local sockets and its packet handler (adb/adb.cpp,
 adb/sockets.cpp), as functions from one state to the next.
 */
module Endpoint {
  import opened Bytes
  import opened Stream
  import opened Connection

  datatype Command = OPEN | OKAY | CLSE | WRTE

  datatype Packet = Packet(cmd: Command, arg0: nat, arg1: nat, data: bytes)

  /**
   A local socket with its addresses. `peer` is the id of the remote socket it is, or was,
   connected to, 0 before that; the transports are those of the socket and of its peer, 0 for none.
   */
  datatype Entry = Entry(h: Half, peer: nat, opener: bool, transport: nat, peerTransport: nat)

  /**
   `socks` holds every socket ever installed, by the id it was given; its phase says whether it is
   on the live list, on the closing list or freed. `accepted` records which socket answered the
   OPEN of which remote id.
   */
  datatype Ep = Ep(online: bool, maxPayload: nat, next: nat, socks: map<nat, Entry>, accepted: map<nat, nat>)

  datatype Out = Out(ep: Ep, pkts: seq<Packet>)

  /** The id counter is 32 bits wide; install_local_socket is fatal when it wraps to 0. */
  const LAST_ID := 0xffff_ffff

  predicate LiveAt(e: Ep, id: nat) {
    id in e.socks && e.socks[id].h.phase.Live?
  }

  /** find_local_socket. */
  predicate Finds(e: Ep, id: nat, peerId: nat) {
    LiveAt(e, id) && (peerId == 0 || (e.socks[id].h.up && e.socks[id].peer == peerId))
  }

  /** The packet that carries a message from socket `id` to `peer`. */
  function Address(id: nat, peer: nat, m: Msg): Packet {
    match m
    case MOpen => Packet(OPEN, id, 0, [])
    case MOkay => Packet(OKAY, id, peer, [])
    case MWrte(data) => Packet(WRTE, id, peer, data)
    case MClse => Packet(CLSE, id, peer, [])
    case MFail => Packet(CLSE, 0, peer, [])
  }

  function AddressAll(id: nat, peer: nat, ms: seq<Msg>): seq<Packet> {
    if ms == [] then [] else [Address(id, peer, ms[0])] + AddressAll(id, peer, ms[1..])
  }

  /** Stores what an operation made of socket `id` and sends what it had to say. */
  function Apply(e: Ep, id: nat, r: Effect): Out
    requires id in e.socks
  {
    var s := e.socks[id];
    Out(e.(socks := e.socks[id := s.(h := r.h)]), AddressAll(id, s.peer, r.out))
  }

  /** connect_to_remote is fatal for a destination that does not fit. */
  predicate FitsOpen(e: Ep, destination: bytes) {
    |destination| + 2 <= e.maxPayload
  }

  /** create_local_socket and connect_to_remote, as a listener does for a new client. */
  function Connect(e: Ep, t: nat, destination: bytes): Out {
    var id := e.next;
    Out(e.(next := id + 1, socks := e.socks[id := Entry(NO_SOCKET.(phase := Live), 0, true, t, 0)]),
        [Packet(OPEN, id, 0, destination + [0])])
  }

  /** An OPEN that starts a service, and so a socket. */
  predicate TakesId(e: Ep, p: Packet, accept: bool) {
    e.online && p.cmd.OPEN? && p.arg0 != 0 && p.arg1 == 0 && accept
  }

  /** The event loop calls the event function of socket `id`. */
  function Fire(e: Ep, id: nat, ev: Event): Out
    requires id in e.socks && Open(e.socks[id].h)
  {
    Apply(e, id, HandleEvent(e.socks[id].h, ev))
  }

  function OnOpen(e: Ep, p: Packet, t: nat, accept: bool): Out {
    if p.arg0 == 0 || p.arg1 != 0 then Out(e, [])
    else if !accept then Out(e, [Packet(CLSE, 0, p.arg0, [])])
    else
      var id := e.next;
      Out(e.(next := id + 1,
             socks := e.socks[id := Entry(ACCEPTED, p.arg0, false, 0, t)],
             accepted := e.accepted[p.arg0 := id]),
          [Packet(OKAY, id, p.arg0, [])])
  }

  function OnOkay(e: Ep, p: Packet, t: nat): Out {
    if p.arg0 == 0 || p.arg1 == 0 then Out(e, [])
    else if !LiveAt(e, p.arg1) then Out(e, [Packet(CLSE, p.arg1, p.arg0, [])])
    else
      var s := e.socks[p.arg1];
      if !s.h.up then
        Out(e.(socks := e.socks[p.arg1 := s.(h := Ready(s.h.(up := true)), peer := p.arg0, peerTransport := t)]), [])
      else if s.peer == p.arg0 then
        Out(e.(socks := e.socks[p.arg1 := s.(h := Ready(s.h))]), [])
      else
        Out(e, [])
  }

  function OnClse(e: Ep, p: Packet, t: nat): Out {
    if p.arg1 == 0 || !Finds(e, p.arg1, p.arg0) then Out(e, [])
    else
      var s := e.socks[p.arg1];
      if p.arg0 == 0 && s.h.up && s.peerTransport != t then Out(e, [])
      else Apply(e, p.arg1, Close(s.h, PeerClosed))
  }

  function OnWrte(e: Ep, p: Packet, wo: WriteOutcome): Out {
    if p.arg0 == 0 || p.arg1 == 0 || !Finds(e, p.arg1, p.arg0) then Out(e, [])
    else Apply(e, p.arg1, Enqueue(e.socks[p.arg1].h, p.data, wo))
  }

  /**
   handle_packet for the four stream packets arriving on transport `t`. `accept` says whether the
   service an OPEN names could be started, `wo` what the fd takes of a WRTE.
   */
  function HandlePacket(e: Ep, p: Packet, t: nat, accept: bool, wo: WriteOutcome): Out {
    if !e.online then Out(e, [])
    else match p.cmd
         case OPEN => OnOpen(e, p, t, accept)
         case OKAY => OnOkay(e, p, t)
         case CLSE => OnClse(e, p, t)
         case WRTE => OnWrte(e, p, wo)
  }

  // ---- what becomes of a packet ----

  /**
   An OPEN whose service starts gets a new socket, which is found under its id and its peer's, is bound to
   the transport the OPEN came on and is told of; one whose service does not is refused. Nothing else changes.
   */
  lemma OpenAnswered(e: Ep, p: Packet, t: nat, accept: bool, wo: WriteOutcome)
    requires e.online && p.cmd.OPEN? && p.arg0 != 0 && p.arg1 == 0
    ensures var o := HandlePacket(e, p, t, accept, wo); var id := e.next;
            if accept then
              && o.ep.next == id + 1 && Finds(o.ep, id, p.arg0) && Bound(o.ep, id, t) && o.ep.socks[id].h == ACCEPTED
              && o.ep.accepted == e.accepted[p.arg0 := id] && o.pkts == [Packet(OKAY, id, p.arg0, [])]
              && o.ep.socks == e.socks[id := o.ep.socks[id]]
            else o == Out(e, [Packet(CLSE, 0, p.arg0, [])])
  {
  }

  /**
   An OKAY makes a live socket ready to read if it has no peer yet, which it then has, or has this one. Any
   other live socket ignores it, and a socket that is not there is reported as closed.
   */
  lemma OkayReadies(e: Ep, p: Packet, t: nat, accept: bool, wo: WriteOutcome)
    requires e.online && p.cmd.OKAY? && p.arg0 != 0 && p.arg1 != 0
    ensures var o := HandlePacket(e, p, t, accept, wo); var id := p.arg1;
            if !LiveAt(e, id) then o == Out(e, [Packet(CLSE, id, p.arg0, [])])
            else if e.socks[id].h.up && e.socks[id].peer != p.arg0 then o == Out(e, [])
            else && o.pkts == [] && o.ep == e.(socks := e.socks[id := o.ep.socks[id]])
                 && Finds(o.ep, id, p.arg0) && o.ep.socks[id].h == e.socks[id].h.(up := true, rd := true)
                 && (if e.socks[id].h.up then o.ep.socks[id].(h := e.socks[id].h) == e.socks[id]
                     else Bound(o.ep, id, t) && o.ep.socks[id].peerTransport == t)
  {
  }

  /** A refusal, which names no peer, closes a socket that has none, or one of that transport's. */
  lemma RefusalClosesIff(e: Ep, p: Packet, t: nat, accept: bool, wo: WriteOutcome)
    requires e.online && p.cmd.CLSE? && p.arg0 == 0 && p.arg1 != 0 && LiveAt(e, p.arg1)
    ensures !LiveAt(HandlePacket(e, p, t, accept, wo).ep, p.arg1)
       <==> !e.socks[p.arg1].h.up || e.socks[p.arg1].peerTransport == t
  {
  }

  /** A CLSE of its peer closes a socket, and a WRTE of its peer reaches it; those of another do neither. */
  lemma PeerIsHeard(e: Ep, p: Packet, t: nat, accept: bool, wo: WriteOutcome)
    requires e.online && (p.cmd.CLSE? || p.cmd.WRTE?) && p.arg0 != 0 && p.arg1 != 0
    ensures var o := HandlePacket(e, p, t, accept, wo); var id := p.arg1;
            if LiveAt(e, id) && e.socks[id].h.up && e.socks[id].peer == p.arg0
            then && o.ep == e.(socks := e.socks[id := o.ep.socks[id]])
                 && o.ep.socks[id].(h := e.socks[id].h) == e.socks[id]
                 && o.ep.socks[id].h == (if p.cmd.CLSE? then Close(e.socks[id].h, PeerClosed)
                                         else Enqueue(e.socks[id].h, p.data, wo)).h
            else o == Out(e, [])
  {
  }

  /** Ids that name no socket, and anything that comes while the transport is offline, are ignored. */
  lemma NobodyIsAddressed(e: Ep, p: Packet, t: nat, accept: bool, wo: WriteOutcome)
    requires !e.online || (if p.cmd.OPEN? then p.arg0 == 0 || p.arg1 != 0
                           else p.arg1 == 0 || (p.arg0 == 0 && !p.cmd.CLSE?))
    ensures HandlePacket(e, p, t, accept, wo) == Out(e, [])
  {
  }

  /** A new client gets the next id, a live socket bound to the transport, and an OPEN for its destination. */
  lemma ConnectOpens(e: Ep, t: nat, destination: bytes)
    ensures var o := Connect(e, t, destination); var id := e.next;
            && o.ep == e.(next := id + 1, socks := e.socks[id := o.ep.socks[id]])
            && Bound(o.ep, id, t) && !o.ep.socks[id].h.up && o.ep.socks[id].opener
            && o.ep.socks[id].peer == 0 && o.ep.socks[id].peerTransport == 0
            && o.pkts == [Packet(OPEN, id, 0, destination + [0])]
  {
  }

  /** An id is used up exactly by an OPEN that starts a service. */
  lemma TakesIdIff(e: Ep, p: Packet, t: nat, accept: bool, wo: WriteOutcome)
    ensures HandlePacket(e, p, t, accept, wo).ep.next == e.next + if TakesId(e, p, accept) then 1 else 0
  {
  }

  // ---- close_all_sockets ----

  /** A live socket bound to transport `t`, directly or through its peer. */
  predicate Bound(e: Ep, id: nat, t: nat) {
    LiveAt(e, id) && (e.socks[id].transport == t || (e.socks[id].h.up && e.socks[id].peerTransport == t))
  }

  /** Closing the bound sockets with ids below `k`, in the order of the list, which is that of the ids. */
  function CloseBelow(e: Ep, t: nat, k: nat): Out {
    if k == 0 then Out(e, [])
    else
      var o := CloseBelow(e, t, k - 1);
      if Bound(e, k - 1, t) && k - 1 in o.ep.socks then
        var c := Apply(o.ep, k - 1, Close(e.socks[k - 1].h, LocalClosed));
        Out(c.ep, o.pkts + c.pkts)
      else o
  }

  /**
   Each bound socket below `k` is closed as by itself, exactly once, and no other socket is
   touched.
   */
  lemma {:induction false} CloseBelowEffect(e: Ep, t: nat, k: nat, i: nat)
    ensures var o := CloseBelow(e, t, k);
            && o.ep.socks.Keys == e.socks.Keys && o.ep == e.(socks := o.ep.socks)
            && (i in e.socks ==> o.ep.socks[i] == if i < k && Bound(e, i, t)
                                                  then e.socks[i].(h := Close(e.socks[i].h, LocalClosed).h)
                                                  else e.socks[i])
  {
    if k != 0 {
      CloseBelowEffect(e, t, k - 1, i);
      CloseBelowEffect(e, t, k - 1, k - 1);
    }
  }

  /** Exactly one CLSE goes to the peer of each connected socket that was closed, and nothing else is sent. */
  lemma {:induction false} CloseBelowNotices(e: Ep, t: nat, k: nat, p: Packet)
    ensures multiset(CloseBelow(e, t, k).pkts)[p] == if Noticed(e, t, k, p) then 1 else 0
  {
    if k != 0 {
      CloseBelowNotices(e, t, k - 1, p);
      CloseBelowAdds(e, t, k);
    }
  }

  lemma CloseBelowAdds(e: Ep, t: nat, k: nat)
    requires k != 0
    ensures CloseBelow(e, t, k).pkts
         == CloseBelow(e, t, k - 1).pkts
            + if Bound(e, k - 1, t) && e.socks[k - 1].h.up then [Packet(CLSE, k - 1, e.socks[k - 1].peer, [])] else []
  {
    CloseBelowEffect(e, t, k - 1, k - 1);
    if Bound(e, k - 1, t) {
      var s := e.socks[k - 1];
      assert AddressAll(k - 1, s.peer, [MClse]) == [Packet(CLSE, k - 1, s.peer, [])];
      assert AddressAll(k - 1, s.peer, []) == [];
    }
  }

  /** The CLSE of a connected socket below `k` that is bound to `t`. */
  predicate Noticed(e: Ep, t: nat, k: nat, p: Packet) {
    p.arg0 < k && Bound(e, p.arg0, t) && e.socks[p.arg0].h.up && p == Packet(CLSE, p.arg0, e.socks[p.arg0].peer, [])
  }
}
