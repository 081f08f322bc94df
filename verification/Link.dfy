/** The streams over the wire: every packet two endpoints ever exchange passes the checks of the other side. */
module Link {
  import opened Io
  import opened Endpoint
  import opened Multiplex
  import Streams
  import Wire

  function CommandCode(c: Command): u32 {
    match c
    case OPEN => 0x4e45504f
    case OKAY => 0x59414b4f
    case CLSE => 0x45534c43
    case WRTE => 0x45545257
  }

  /** The codes spell the commands, and so tell them apart. */
  lemma CodesSpell(c: Command)
    ensures Le32(CommandCode(c)) == match c
                                    case OPEN => [79, 80, 69, 78]
                                    case OKAY => [79, 75, 65, 89]
                                    case CLSE => [67, 76, 83, 69]
                                    case WRTE => [87, 82, 84, 69]
  {
  }

  predicate IdsFit(p: Packet) {
    p.arg0 < 0x1_0000_0000 && p.arg1 < 0x1_0000_0000
  }

  function Wired(ps: seq<Packet>): seq<Wire.Packet>
    requires forall k :: 0 <= k < |ps| ==> IdsFit(ps[k])
  {
    if ps == [] then []
    else assert IdsFit(ps[0]);
         [Wire.Packet(CommandCode(ps[0].cmd), ps[0].arg0, ps[0].arg1, ps[0].data)] + Wired(ps[1..])
  }

  /** Different packets look different on the wire. */
  lemma {:induction false} WiredApart(ps: seq<Packet>, qs: seq<Packet>)
    requires forall k :: 0 <= k < |ps| ==> IdsFit(ps[k])
    requires forall k :: 0 <= k < |qs| ==> IdsFit(qs[k])
    requires Wired(ps) == Wired(qs)
    ensures ps == qs
  {
    if ps == [] {
      assert qs == [];
    } else {
      var p, q := Wired(ps), Wired(qs);
      assert p[0] == q[0] && p[1..] == Wired(ps[1..]) && q[1..] == Wired(qs[1..]);
      assert ps[0] == qs[0];
      WiredApart(ps[1..], qs[1..]);
      assert ps == [ps[0]] + ps[1..] && qs == [qs[0]] + qs[1..];
    }
  }

  lemma {:induction false} WiredFits(ps: seq<Packet>, limit: nat)
    requires (forall k :: 0 <= k < |ps| ==> IdsFit(ps[k])) && Streams.Fits(ps, limit)
    ensures forall k :: 0 <= k < |Wired(ps)| ==> |Wired(ps)[k].data| <= limit
  {
    if ps != [] {
      WiredFits(ps[1..], limit);
    }
  }

  /** Ids are given out below the end of the counter. */
  lemma {:induction false} RunIds(w: World, ss: seq<WStep>)
    requires WInv(w) && Streams.Legal(w, ss) && w.x.next <= LAST_ID && w.y.next <= LAST_ID
    ensures var w' := Streams.Run(w, ss); w'.x.next <= LAST_ID && w'.y.next <= LAST_ID
    decreases |ss|
  {
    if ss != [] {
      WNextInv(w, ss[0]);
      match ss[0] {
        case AtX(act) => NextIds(Flip(w), act);
        case AtY(act) => NextIds(w, act);
      }
      RunIds(WNext(w, ss[0]), ss[1..]);
    }
  }

  lemma NextIds(w: World, act: Act)
    requires EnabledY(w, act) && w.x.next <= LAST_ID && w.y.next <= LAST_ID
    ensures NextY(w, act).x == w.x && NextY(w, act).y.next <= LAST_ID
  {
  }

  lemma MailIds(x: Ep, y: Ep, ps: seq<Packet>)
    requires Books(x, y) && Books(y, x) && Mail(x, y, ps) && x.next <= LAST_ID && y.next <= LAST_ID
    ensures forall k :: 0 <= k < |ps| ==> IdsFit(ps[k])
  {
    forall k | 0 <= k < |ps| ensures IdsFit(ps[k]) {
      assert Posted(x, y, ps[k]);
    }
  }

  /**
   After two sides have exchanged CONNECT packets, in every run, whatever is in flight either way
   is parsed by the receiver to exactly the packets that were sent: no length check refuses a
   packet a local socket built, and none is longer than what either side has room for.
   */
  lemma LinkCarriesStreams(host: Wire.Terms, device: Wire.Terms, ss: seq<WStep>)
    requires host.maxPayload <= Wire.MAX_PAYLOAD && device.maxPayload <= Wire.MAX_PAYLOAD
    requires Streams.Legal(Init(Wire.Exchange(host, device).0.maxPayload), ss)
    ensures var (h, d) := Wire.Exchange(host, device);
            var w := Streams.Run(Init(h.maxPayload), ss);
            && (forall k :: 0 <= k < |w.xy| ==> IdsFit(w.xy[k]))
            && (forall k :: 0 <= k < |w.yx| ==> IdsFit(w.yx[k]))
            && Streams.Fits(w.xy, host.maxPayload) && Streams.Fits(w.xy, device.maxPayload)
            && Streams.Fits(w.yx, host.maxPayload) && Streams.Fits(w.yx, device.maxPayload)
            && Wire.ParseAll(Wire.EncodeAll(Wired(w.xy)), d.maxPayload) == Wired(w.xy)
            && Wire.ParseAll(Wire.EncodeAll(Wired(w.yx)), h.maxPayload) == Wired(w.yx)
  {
    var (h, d) := Wire.Exchange(host, device);
    var limit := h.maxPayload;
    var w0 := Init(limit);
    var w := Streams.Run(w0, ss);
    InitInv(limit);
    Streams.RunInv(w0, ss);
    RunIds(w0, ss);
    Streams.RunFits(w0, ss, limit);
    OneWay(w.x, w.y, w.xy, limit);
    OneWay(w.y, w.x, w.yx, limit);
  }

  lemma OneWay(x: Ep, y: Ep, ps: seq<Packet>, limit: nat)
    requires Books(x, y) && Books(y, x) && Mail(x, y, ps) && x.next <= LAST_ID && y.next <= LAST_ID
    requires Streams.Fits(ps, limit) && limit <= Wire.MAX_PAYLOAD
    ensures forall k :: 0 <= k < |ps| ==> IdsFit(ps[k])
    ensures Wire.ParseAll(Wire.EncodeAll(Wired(ps)), limit) == Wired(ps)
  {
    MailIds(x, y, ps);
    WiredFits(ps, limit);
    Wire.StreamRoundTrip(Wired(ps), limit);
  }
}
