/**
 The threads of one transport (adb/transport.cpp): the reader, the writer and the main thread,
 joined by a socket pair and the registration socket, in every interleaving.
 */
module Transport {
  import opened Bytes

  /** What travels on the socket pair. `Data(n)` is any packet that is not a SYNC. */
  datatype Item = Sync(online: bool, token: nat) | Data(n: nat)

  /** Where a thread is: in its loop, or at one of the steps on its way out. */
  datatype Reader = Starting | Reading | Leaving | ReaderKick | ReaderUnref | ReaderDone
  datatype Writer = Writing | WriterKick | WriterUnref | WriterDone

  /**
   The life of the object: references, whether it is on the transport list, how often it was
   kicked, closed and deleted, and the removal messages on the registration socket.
   */
  datatype Life = Life(refCount: nat, removals: nat, registered: bool, listed: bool,
                       kicks: nat, closed: nat, deleted: nat)

  /**
   The two directions of the socket pair, and the writer's state. `echoed`: main has echoed
   SYNC(1); `sent`: what main sent after that; `wrote`: what the writer gave to write_to_remote.
   */
  datatype Mail = Mail(toMain: seq<Item>, toWriter: seq<Item>, syncToken: nat, active: bool,
                       echoed: bool, sent: seq<nat>, wrote: seq<nat>)

  /**
   `saidBye`: the reader has posted a SYNC(0), its own or a remote one; `offline`: main has handled one;
   `readFailed`: the writer's read of the socket pair failed.
   */
  datatype State = State(reader: Reader, writer: Writer, life: Life, mail: Mail,
                         saidBye: bool, offline: bool, readFailed: bool)

  /** transport_registration_func has started both threads and not yet listed the transport. */
  const START := State(Starting, Writing, Life(2, 0, false, false, 0, 0, 0),
                       Mail([], [], 0, false, false, [], []), false, false, false)

  datatype Step =
    | List                        // main finishes transport_registration_func
    | ReaderStart(ok: bool)       // ++sync_token and SYNC(1)
    | ReaderGot(p: Item, ok: bool)  // read_from_remote returned a packet
    | ReaderLost                  // read_from_remote failed
    | ReaderBye(ok: bool)         // SYNC(0)
    | KickByReader
    | UnrefByReader
    | WriterTakes                 // read_packet returned a packet
    | WriterFails                 // read_packet failed
    | KickByWriter
    | UnrefByWriter
    | MainTakes(connect: seq<nat>)  // handle_packet; a host sends CONNECT after echoing SYNC(1)
    | MainSends(n: nat)           // send_packet, for any other reason
    | MainRemoves                 // transport_registration_func, action 0

  /** The object exists as long as main has not deleted it. */
  predicate MainKnows(s: State) {
    s.life.registered && s.life.deleted == 0
  }

  predicate Enabled(s: State, st: Step) {
    match st
    case List => !s.life.registered
    case ReaderStart(_) => s.reader.Starting?
    case ReaderGot(_, _) => s.reader.Reading?
    case ReaderLost => s.reader.Reading?
    case ReaderBye(_) => s.reader.Leaving?
    case KickByReader => s.reader.ReaderKick?
    case UnrefByReader => s.reader.ReaderUnref?
    case WriterTakes => s.writer.Writing? && s.mail.toWriter != []
    case WriterFails => s.writer.Writing?
    case KickByWriter => s.writer.WriterKick?
    case UnrefByWriter => s.writer.WriterUnref?
    case MainTakes(_) => MainKnows(s) && s.mail.toMain != []
    case MainSends(_) => MainKnows(s)
    case MainRemoves => s.life.registered && s.life.removals > 0
  }

  /** kick_transport: only a listed transport is kicked, and only the first time. */
  function Kick(l: Life): Life {
    if l.listed && l.kicks == 0 then l.(kicks := 1) else l
  }

  /** transport_unref: whoever drops the last reference closes and asks main to remove. */
  function Unref(l: Life): Life {
    if l.refCount == 1 then l.(refCount := 0, closed := l.closed + 1, removals := l.removals + 1)
    else if l.refCount == 0 then l
    else l.(refCount := l.refCount - 1)
  }

  function Datas(ns: seq<nat>): seq<Item> {
    if ns == [] then [] else [Data(ns[0])] + Datas(ns[1..])
  }

  function Post(m: Mail, p: Item): Mail {
    m.(toMain := m.toMain + [p])
  }

  /** send_packet, once for each of `ns`. */
  function Send(m: Mail, ns: seq<nat>): Mail {
    m.(toWriter := m.toWriter + Datas(ns), sent := if m.echoed then m.sent + ns else m.sent)
  }

  /** The writer takes a packet and lives on. */
  function WriterTake(m: Mail): Mail
    requires m.toWriter != []
  {
    var m' := m.(toWriter := m.toWriter[1..]);
    match m.toWriter[0]
    case Sync(online, token) => if online && token == m.syncToken then m'.(active := true) else m'
    case Data(n) => if m.active then m'.(wrote := m.wrote + [n]) else m'
  }

  /** handle_packet, as far as SYNC goes: both kinds are echoed. */
  function MainTake(m: Mail, connect: seq<nat>): Mail
    requires m.toMain != []
  {
    var p := m.toMain[0];
    var m' := m.(toMain := m.toMain[1..]);
    if p.Data? then m'
    else if !p.online then m'.(toWriter := m.toWriter + [p])
    else Send(m'.(toWriter := m.toWriter + [p], echoed := true), connect)
  }

  predicate IsBye(p: Item) {
    p.Sync? && !p.online
  }

  function Next(s: State, st: Step): State
    requires Enabled(s, st)
  {
    match st
    case List => s.(life := s.life.(registered := true, listed := true))
    case ReaderStart(ok) =>
      var m := s.mail.(syncToken := s.mail.syncToken + 1);
      if ok then s.(mail := Post(m, Sync(true, m.syncToken)), reader := Reading)
      else s.(mail := m, reader := ReaderKick)
    case ReaderGot(p, ok) =>
      if ok then s.(mail := Post(s.mail, p), saidBye := s.saidBye || IsBye(p)) else s.(reader := ReaderKick)
    case ReaderLost => s.(reader := Leaving)
    case ReaderBye(ok) =>
      if ok then s.(mail := Post(s.mail, Sync(false, 0)), saidBye := true, reader := ReaderKick)
      else s.(reader := ReaderKick)
    case KickByReader => s.(life := Kick(s.life), reader := ReaderUnref)
    case UnrefByReader => s.(life := Unref(s.life), reader := ReaderDone)
    case WriterTakes =>
      s.(mail := WriterTake(s.mail), writer := if IsBye(s.mail.toWriter[0]) then WriterKick else Writing)
    case WriterFails => s.(writer := WriterKick, readFailed := true)
    case KickByWriter => s.(life := Kick(s.life), writer := WriterUnref)
    case UnrefByWriter => s.(life := Unref(s.life), writer := WriterDone)
    case MainTakes(connect) =>
      s.(mail := MainTake(s.mail, connect), offline := s.offline || IsBye(s.mail.toMain[0]))
    case MainSends(n) => s.(mail := Send(s.mail, [n]))
    case MainRemoves =>
      s.(life := s.life.(removals := s.life.removals - 1, deleted := s.life.deleted + 1, listed := false))
  }

  // ---- what each thread does, told apart from how ----

  /** What a step of the reader posts to main. */
  function Posted(s: State, st: Step): seq<Item> {
    match st
    case ReaderStart(true) => [Sync(true, s.mail.syncToken + 1)]
    case ReaderGot(p, true) => [p]
    case ReaderBye(true) => [Sync(false, 0)]
    case _ => []
  }

  /**
   The reader starts, reads until a read or a post fails, says SYNC(0) unless a post failed, kicks the transport
   and drops its reference. What it posts, and nothing else, is added to what main has to take.
   */
  lemma ReaderGoesOn(s: State, st: Step)
    requires Enabled(s, st)
    ensures var s' := Next(s, st);
            && (match s.reader
                case Starting =>
                  s'.reader == if !st.ReaderStart? then Starting else if st.ok then Reading else ReaderKick
                case Reading => s'.reader == if st.ReaderLost? then Leaving
                                             else if st.ReaderGot? && !st.ok then ReaderKick else Reading
                case Leaving => s'.reader == if st.ReaderBye? then ReaderKick else Leaving
                case ReaderKick => s'.reader == if st.KickByReader? then ReaderUnref else ReaderKick
                case ReaderUnref => s'.reader == if st.UnrefByReader? then ReaderDone else ReaderUnref
                case ReaderDone => s'.reader == ReaderDone)
            && s'.mail.toMain == (if st.MainTakes? then s.mail.toMain[1..] else s.mail.toMain) + Posted(s, st)
            && s'.mail.syncToken == s.mail.syncToken + (if st.ReaderStart? then 1 else 0)
            && (s'.saidBye <==> s.saidBye || HasBye(Posted(s, st)))
  {
    assert HasBye(Posted(s, st)) <==> Posted(s, st) != [] && IsBye(Posted(s, st)[0]);
    assert Posted(s, st) == [] ==> s.mail.toMain + [] == s.mail.toMain;
    assert st.MainTakes? ==> s.mail.toMain[1..] + [] == s.mail.toMain[1..];
  }

  /** What a step gives to write_to_remote. */
  function WrittenBy(m: Mail, st: Step): seq<nat>
    requires st.WriterTakes? ==> m.toWriter != []
  {
    if st.WriterTakes? && m.active && m.toWriter[0].Data? then [m.toWriter[0].n] else []
  }

  /**
   The writer takes packets until it is given SYNC(0) or a read fails; SYNC(1) with the transport's token makes it
   active, and while it is active it writes every other packet it takes. Then it kicks and drops its reference.
   */
  lemma WriterGoesOn(s: State, st: Step)
    requires Enabled(s, st)
    ensures var s' := Next(s, st); var m, m' := s.mail, s'.mail;
            && (match s.writer
                case Writing =>
                  s'.writer == if st.WriterFails? || (st.WriterTakes? && IsBye(m.toWriter[0])) then WriterKick
                               else Writing
                case WriterKick => s'.writer == if st.KickByWriter? then WriterUnref else WriterKick
                case WriterUnref => s'.writer == if st.UnrefByWriter? then WriterDone else WriterUnref
                case WriterDone => s'.writer == WriterDone)
            && (m'.active <==> m.active || (st.WriterTakes? && m.toWriter[0] == Sync(true, m.syncToken)))
            && m'.wrote == m.wrote + WrittenBy(m, st)
            && (s'.readFailed <==> s.readFailed || st.WriterFails?)
  {
    assert s.mail.wrote + [] == s.mail.wrote;
  }

  /** What a step of main gives the writer. */
  function Given(s: State, st: Step): seq<Item>
    requires Enabled(s, st)
  {
    match st
    case MainSends(n) => [Data(n)]
    case MainTakes(connect) => Echo(s.mail.toMain[0], connect)
    case _ => []
  }

  /**
   Main echoes every SYNC to the writer, with a CONNECT behind a SYNC(1), and sends what it likes. It has handled a
   SYNC(0) from then on, and of what it sends it counts what follows an echo of SYNC(1).
   */
  lemma MainGoesOn(s: State, st: Step)
    requires Enabled(s, st)
    ensures var s' := Next(s, st); var m, m' := s.mail, s'.mail;
            && m'.toWriter == (if st.WriterTakes? then m.toWriter[1..] else m.toWriter) + Given(s, st)
            && (s'.offline <==> s.offline || (st.MainTakes? && IsBye(m.toMain[0])))
            && (m'.echoed <==> m.echoed || (st.MainTakes? && m.toMain[0].Sync? && m.toMain[0].online))
            && m'.sent == m.sent + if !m'.echoed then [] else DataOf(Given(s, st))
  {
    if st.MainSends? {
      SendGives(s, st.n);
    } else if st.MainTakes? {
      TakeEchoes(s.mail, st.connect);
    } else {
      MainIdle(s, st);
    }
  }

  lemma SendGives(s: State, n: nat)
    requires Enabled(s, MainSends(n))
    ensures var m, m' := s.mail, Next(s, MainSends(n)).mail;
            && m'.toWriter == m.toWriter + [Data(n)] && m'.echoed == m.echoed
            && m'.sent == m.sent + if !m.echoed then [] else DataOf([Data(n)])
  {
    DatasAre([n]);
    assert [n][1..] == [] && Datas([n]) == [Data(n)];
    assert s.mail.sent + [] == s.mail.sent;
  }

  lemma MainIdle(s: State, st: Step)
    requires Enabled(s, st) && !st.MainSends? && !st.MainTakes?
    ensures var s' := Next(s, st); var m, m' := s.mail, s'.mail;
            && m'.toWriter == (if st.WriterTakes? then m.toWriter[1..] else m.toWriter) + []
            && m'.echoed == m.echoed && m'.sent == m.sent + [] && s'.offline == s.offline
  {
    var left := if st.WriterTakes? then s.mail.toWriter[1..] else s.mail.toWriter;
    assert left + [] == left && s.mail.sent + [] == s.mail.sent;
  }

  /** What main gives the writer when it takes `p`. */
  function Echo(p: Item, connect: seq<nat>): seq<Item> {
    if p.Data? then [] else if IsBye(p) then [p] else [p] + Datas(connect)
  }

  lemma TakeEchoes(m: Mail, connect: seq<nat>)
    requires m.toMain != []
    ensures var p, m' := m.toMain[0], MainTake(m, connect);
            && m'.toWriter == m.toWriter + Echo(p, connect)
            && (m'.echoed <==> m.echoed || (p.Sync? && p.online))
            && m'.sent == m.sent + if !m'.echoed then [] else DataOf(Echo(p, connect))
  {
    var p := m.toMain[0];
    assert m.toWriter + [] == m.toWriter && m.sent + [] == m.sent;
    assert p.Sync? ==> DataOf([p]) == DataOf([p][1..]) == [];
    DatasAre(connect);
    DataAppend([p], Datas(connect));
    Joined(m.toWriter, [p], Datas(connect));
    assert [] + connect == connect;
  }

  /**
   Registering lists the transport. The first kick of a listed transport counts. Whoever drops the last reference
   closes the transport and asks main to remove it, which takes it off the list and deletes it.
   */
  lemma LifeGoesOn(s: State, st: Step)
    requires Enabled(s, st)
    ensures var l, l' := s.life, Next(s, st).life;
            && (l'.registered <==> l.registered || st.List?)
            && (l'.listed <==> st.List? || (l.listed && !st.MainRemoves?))
            && l'.kicks == l.kicks + (if KickStep(st) && l.listed && l.kicks == 0 then 1 else 0)
            && l'.refCount == l.refCount - (if (st.UnrefByReader? || st.UnrefByWriter?) && l.refCount > 0 then 1 else 0)
            && l'.closed == l.closed + (if l.refCount == 1 && l'.refCount == 0 then 1 else 0)
            && l'.removals == l.removals + (l'.closed - l.closed) - (if st.MainRemoves? then 1 else 0)
            && l'.deleted == l.deleted + (if st.MainRemoves? then 1 else 0)
  {
  }

  /** Each thread does what comes next for it, and main anything that is there for it. */
  lemma EnabledIff(s: State, ok: bool, p: Item, connect: seq<nat>, n: nat)
    ensures Enabled(s, ReaderStart(ok)) <==> s.reader.Starting?
    ensures Enabled(s, ReaderGot(p, ok)) <==> s.reader.Reading?
    ensures Enabled(s, ReaderLost) <==> s.reader.Reading?
    ensures Enabled(s, ReaderBye(ok)) <==> s.reader.Leaving?
    ensures Enabled(s, KickByReader) <==> s.reader.ReaderKick?
    ensures Enabled(s, UnrefByReader) <==> s.reader.ReaderUnref?
    ensures Enabled(s, WriterTakes) <==> s.writer.Writing? && s.mail.toWriter != []
    ensures Enabled(s, WriterFails) <==> s.writer.Writing?
    ensures Enabled(s, KickByWriter) <==> s.writer.WriterKick?
    ensures Enabled(s, UnrefByWriter) <==> s.writer.WriterUnref?
    ensures Enabled(s, List) <==> !s.life.registered
    ensures Enabled(s, MainSends(n)) <==> s.life.registered && s.life.deleted == 0
    ensures Enabled(s, MainTakes(connect)) <==> s.life.registered && s.life.deleted == 0 && s.mail.toMain != []
    ensures Enabled(s, MainRemoves) <==> s.life.registered && s.life.removals > 0
  {
  }

  // ---- the invariant ----

  function Threads(r: Reader, w: Writer): nat {
    (if r.ReaderDone? then 0 else 1) + (if w.WriterDone? then 0 else 1)
  }

  /** One reference per running thread; closed with the last; one removal message per close. */
  ghost predicate Counted(r: Reader, w: Writer, l: Life) {
    && l.refCount == Threads(r, w)
    && l.closed == (if l.refCount == 0 then 1 else 0)
    && l.removals + l.deleted == l.closed
    && l.kicks <= 1
    && (l.deleted > 0 ==> l.registered)
  }

  function DataOf(items: seq<Item>): seq<nat> {
    if items == [] then []
    else (if items[0].Data? then [items[0].n] else []) + DataOf(items[1..])
  }

  /** Ahead of the SYNC that makes the writer active there are only packets of before the echo. */
  predicate Opens(items: seq<Item>, token: nat) {
    items != [] && (items[0] == Sync(true, token) || (items[0].Data? && Opens(items[1..], token)))
  }

  /** The packets behind that SYNC. */
  function Behind(items: seq<Item>, token: nat): seq<nat> {
    if items == [] then []
    else if items[0] == Sync(true, token) then DataOf(items[1..])
    else Behind(items[1..], token)
  }

  /** Until main has echoed SYNC(1), the first thing for it to take is that SYNC. */
  ghost predicate Unechoed(r: Reader, m: Mail) {
    && (forall l :: 0 <= l < |m.toWriter| ==> m.toWriter[l].Data?)
    && (m.toMain != [] ==> m.toMain[0] == Sync(true, m.syncToken))
    && (r.Starting? ==> m.toMain == [])
    && (r.Reading? || r.Leaving? ==> m.toMain != [])
    && !m.active && m.sent == [] && m.wrote == []
  }

  /** After the echo: what main sent is what the writer wrote and what is still ahead of it. */
  ghost predicate Echoed(r: Reader, w: Writer, m: Mail) {
    && !r.Starting?
    && m.wrote <= m.sent
    && (w.Writing? && m.active ==> m.sent == m.wrote + DataOf(m.toWriter))
    && (w.Writing? && !m.active ==>
          m.wrote == [] && Opens(m.toWriter, m.syncToken) && m.sent == Behind(m.toWriter, m.syncToken))
  }

  ghost predicate InOrder(r: Reader, w: Writer, m: Mail) {
    if m.echoed then Echoed(r, w, m) else Unechoed(r, m)
  }

  ghost predicate HasBye(items: seq<Item>) {
    exists l :: 0 <= l < |items| && IsBye(items[l])
  }

  /** A reader that said goodbye is heard by main, and through main by the writer. */
  ghost predicate ByeHeard(s: State) {
    && (s.saidBye && s.writer.Writing? ==> HasBye(s.mail.toMain) || HasBye(s.mail.toWriter))
    && (HasBye(s.mail.toWriter) ==> s.offline)
    && (!s.writer.Writing? && !s.readFailed ==> s.offline)
    && (HasBye(s.mail.toMain) || s.offline ==> s.saidBye)
    && (s.readFailed ==> !s.writer.Writing?)
  }

  ghost predicate Inv(s: State) {
    Counted(s.reader, s.writer, s.life) && InOrder(s.reader, s.writer, s.mail) && ByeHeard(s)
  }

  lemma {:induction false} DataAppend(items: seq<Item>, more: seq<Item>)
    ensures DataOf(items + more) == DataOf(items) + DataOf(more)
  {
    if items == [] {
      assert items + more == more;
    } else {
      var all, one := items + more, if items[0].Data? then [items[0].n] else [];
      assert all[1..] == items[1..] + more && all[0] == items[0];
      DataAppend(items[1..], more);
      Joined(one, DataOf(items[1..]), DataOf(more));
    }
  }

  lemma {:induction false} BehindAppend(items: seq<Item>, more: seq<Item>, token: nat)
    requires Opens(items, token)
    ensures Opens(items + more, token) && Behind(items + more, token) == Behind(items, token) + DataOf(more)
  {
    assert (items + more)[1..] == items[1..] + more;
    if items[0] == Sync(true, token) {
      DataAppend(items[1..], more);
    } else {
      BehindAppend(items[1..], more, token);
    }
  }

  lemma {:induction false} FirstEcho(items: seq<Item>, token: nat)
    requires forall l :: 0 <= l < |items| ==> items[l].Data?
    ensures var q := items + [Sync(true, token)]; Opens(q, token) && Behind(q, token) == []
  {
    var q := items + [Sync(true, token)];
    if items == [] {
      assert q == [Sync(true, token)] && q[1..] == [];
    } else {
      assert q[1..] == items[1..] + [Sync(true, token)];
      FirstEcho(items[1..], token);
    }
  }

  lemma {:induction false} DatasAre(ns: seq<nat>)
    ensures DataOf(Datas(ns)) == ns && forall l :: 0 <= l < |Datas(ns)| ==> Datas(ns)[l].Data?
  {
    if ns != [] {
      DatasAre(ns[1..]);
      assert Datas(ns)[1..] == Datas(ns[1..]);
    }
  }

  lemma HasByeAppend(items: seq<Item>, more: seq<Item>)
    ensures HasBye(items + more) <==> HasBye(items) || HasBye(more)
  {
    if HasBye(items) {
      var l :| 0 <= l < |items| && IsBye(items[l]);
      assert (items + more)[l] == items[l];
    }
    if HasBye(more) {
      var l :| 0 <= l < |more| && IsBye(more[l]);
      assert (items + more)[|items| + l] == more[l];
    }
  }

  lemma HasByeOne(p: Item)
    ensures HasBye([p]) <==> IsBye(p)
  {
    assert [p][0] == p;
  }

  lemma HasByeTail(items: seq<Item>)
    requires items != []
    ensures HasBye(items) <==> IsBye(items[0]) || HasBye(items[1..])
  {
    assert items == [items[0]] + items[1..];
    HasByeAppend([items[0]], items[1..]);
    HasByeOne(items[0]);
  }

  // ---- order ----

  lemma SendInOrder(r: Reader, w: Writer, m: Mail, ns: seq<nat>)
    requires InOrder(r, w, m)
    ensures InOrder(r, w, Send(m, ns))
  {
    DatasAre(ns);
    if m.echoed {
      DataAppend(m.toWriter, Datas(ns));
      if w.Writing? && !m.active {
        BehindAppend(m.toWriter, Datas(ns), m.syncToken);
      }
      assert m.wrote + DataOf(m.toWriter) + ns == m.wrote + (DataOf(m.toWriter) + ns);
    }
  }

  lemma WriterTakeInOrder(r: Reader, m: Mail, w: Writer)
    requires InOrder(r, Writing, m) && m.toWriter != []
    ensures InOrder(r, w, WriterTake(m))
  {
    if m.echoed && m.active {
      WriterTakesNext(m.toWriter, m.wrote, m.sent);
    }
  }

  lemma WriterTakesNext(items: seq<Item>, wrote: seq<nat>, sent: seq<nat>)
    requires items != [] && sent == wrote + DataOf(items)
    ensures var more := if items[0].Data? then [items[0].n] else [];
            sent == wrote + more + DataOf(items[1..]) && wrote + more <= sent
  {
    var more := if items[0].Data? then [items[0].n] else [];
    Joined(wrote, more, DataOf(items[1..]));
  }

  /** Main echoes a SYNC, of either kind. */
  lemma EchoInOrder(r: Reader, w: Writer, m: Mail)
    requires InOrder(r, w, m) && m.toMain != [] && m.toMain[0].Sync?
    ensures var p := m.toMain[0];
            InOrder(r, w, m.(toMain := m.toMain[1..], toWriter := m.toWriter + [p], echoed := m.echoed || p.online))
  {
    var p := m.toMain[0];
    DataAppend(m.toWriter, [p]);
    assert DataOf([p]) == DataOf([p][1..]) == [];
    if !m.echoed {
      FirstEcho(m.toWriter, m.syncToken);
    } else if w.Writing? && !m.active {
      BehindAppend(m.toWriter, [p], m.syncToken);
    }
  }

  lemma MainTakeInOrder(r: Reader, w: Writer, m: Mail, connect: seq<nat>)
    requires InOrder(r, w, m) && m.toMain != []
    ensures InOrder(r, w, MainTake(m, connect))
  {
    var p := m.toMain[0];
    if p.Sync? {
      EchoInOrder(r, w, m);
      if p.online {
        SendInOrder(r, w, m.(toMain := m.toMain[1..], toWriter := m.toWriter + [p], echoed := true), connect);
      }
    }
  }

  lemma NextInOrder(s: State, st: Step)
    requires InOrder(s.reader, s.writer, s.mail) && Enabled(s, st)
    ensures var s' := Next(s, st); InOrder(s'.reader, s'.writer, s'.mail)
  {
    match st
    case WriterTakes => WriterTakeInOrder(s.reader, s.mail, Next(s, st).writer);
    case MainTakes(connect) => MainTakeInOrder(s.reader, s.writer, s.mail, connect);
    case MainSends(n) => SendInOrder(s.reader, s.writer, s.mail, [n]);
    case _ =>
  }

  // ---- goodbyes ----

  lemma NextByeHeard(s: State, st: Step)
    requires ByeHeard(s) && Enabled(s, st)
    ensures ByeHeard(Next(s, st))
  {
    match st
    case ReaderStart(_) =>
      HasByeAppend(s.mail.toMain, [Sync(true, s.mail.syncToken + 1)]);
      HasByeOne(Sync(true, s.mail.syncToken + 1));
    case ReaderGot(p, _) =>
      HasByeAppend(s.mail.toMain, [p]);
      HasByeOne(p);
    case ReaderBye(_) =>
      HasByeAppend(s.mail.toMain, [Sync(false, 0)]);
      HasByeOne(Sync(false, 0));
    case WriterTakes =>
      HasByeTail(s.mail.toWriter);
    case MainTakes(connect) =>
      var p := s.mail.toMain[0];
      HasByeTail(s.mail.toMain);
      HasByeOne(p);
      HasByeAppend(s.mail.toWriter, [p]);
      DatasAre(connect);
      HasByeAppend(s.mail.toWriter + [p], Datas(connect));
    case MainSends(n) =>
      DatasAre([n]);
      HasByeAppend(s.mail.toWriter, Datas([n]));
    case _ =>
  }

  lemma NextCounted(s: State, st: Step)
    requires Counted(s.reader, s.writer, s.life) && Enabled(s, st)
    ensures var s' := Next(s, st); Counted(s'.reader, s'.writer, s'.life)
  {
  }

  lemma NextInv(s: State, st: Step)
    requires Inv(s) && Enabled(s, st)
    ensures Inv(Next(s, st))
  {
    NextCounted(s, st);
    NextInOrder(s, st);
    NextByeHeard(s, st);
  }

  // ---- every run ----

  /** `sts` leads through the states `tr`. */
  ghost predicate Trace(tr: seq<State>, sts: seq<Step>) {
    && |tr| == |sts| + 1 && tr[0] == START
    && forall k :: 0 <= k < |sts| ==> Enabled(tr[k], sts[k]) && tr[k + 1] == Next(tr[k], sts[k])
  }

  /** The states of all runs. */
  ghost predicate Reachable(s: State) {
    exists tr, sts :: Trace(tr, sts) && tr[|sts|] == s
  }

  lemma StartInv(s: State)
    requires s.reader.Starting? && s.writer.Writing? && s.life == Life(2, 0, false, false, 0, 0, 0)
    requires s.mail == Mail([], [], 0, false, false, [], []) && !s.saidBye && !s.offline && !s.readFailed
    ensures Inv(s)
  {
    StartCounted(s.reader, s.writer, s.life);
    StartInOrder(s.reader, s.writer, s.mail);
    StartByeHeard(s);
  }

  lemma StartCounted(r: Reader, w: Writer, l: Life)
    requires r.Starting? && w.Writing? && l == Life(2, 0, false, false, 0, 0, 0)
    ensures Counted(r, w, l)
  {
  }

  lemma StartInOrder(r: Reader, w: Writer, m: Mail)
    requires r.Starting? && m == Mail([], [], 0, false, false, [], [])
    ensures InOrder(r, w, m)
  {
  }

  lemma StartByeHeard(s: State)
    requires s.mail.toMain == [] && s.mail.toWriter == [] && s.writer.Writing?
    requires !s.saidBye && !s.offline && !s.readFailed
    ensures ByeHeard(s)
  {
  }

  lemma {:induction false} TraceInv(tr: seq<State>, sts: seq<Step>, k: nat)
    requires Trace(tr, sts) && k <= |sts|
    ensures Inv(tr[k])
  {
    if k == 0 {
      StartInv(tr[0]);
    } else {
      TraceInv(tr, sts, k - 1);
      NextInv(tr[k - 1], sts[k - 1]);
    }
  }

  lemma ReachableInv(s: State)
    requires Reachable(s)
    ensures Inv(s)
  {
    var tr, sts :| Trace(tr, sts) && tr[|sts|] == s;
    TraceInv(tr, sts, |sts|);
  }

  /** A step of the reader or the writer thread, each of which uses the transport object. */
  predicate ThreadStep(st: Step) {
    !st.List? && !st.MainTakes? && !st.MainSends? && !st.MainRemoves?
  }

  /**
   In every interleaving the transport is closed and deleted at most once, closed exactly when
   both threads have dropped their reference, deleted only after that, and never touched by a
   thread once deleted; the reference count is positive whenever a thread drops its reference.
   */
  lemma ClosedAndDeletedOnce(s: State, st: Step)
    requires Reachable(s)
    ensures && s.life.kicks <= 1 && s.life.closed <= 1 && s.life.deleted <= s.life.closed
            && (s.life.closed == 1 <==> s.reader.ReaderDone? && s.writer.WriterDone?)
            && (s.life.deleted == 1 && ThreadStep(st) ==> !Enabled(s, st))
            && (Enabled(s, st) && (st.UnrefByReader? || st.UnrefByWriter?) ==> s.life.refCount > 0)
            && (s.life.deleted == 1 && !s.readFailed ==> s.offline)
  {
    ReachableInv(s);
  }

  /**
   What main sends after it has echoed SYNC(1) reaches write_to_remote in order: as long as the
   writer runs, it is what was written followed by what is still ahead of the writer and will find
   it active; and afterwards what was written is a prefix of it.
   */
  lemma NothingIgnoredAfterEcho(s: State)
    requires Reachable(s)
    ensures var m := s.mail;
            && m.wrote <= m.sent
            && (s.writer.Writing? && m.active ==> m.sent == m.wrote + DataOf(m.toWriter))
            && (s.writer.Writing? && m.echoed && !m.active ==>
                  m.wrote == [] && Opens(m.toWriter, m.syncToken) && m.sent == Behind(m.toWriter, m.syncToken))
  {
    ReachableInv(s);
  }

  predicate KickStep(st: Step) {
    st.KickByReader? || st.KickByWriter?
  }

  /**
   The transport has been kicked if and only if a thread on its way out found it listed. A thread that leaves
   before main has listed the transport does not kick it.
   */
  lemma {:induction false} KickedIff(tr: seq<State>, sts: seq<Step>, n: nat)
    requires Trace(tr, sts) && n <= |sts|
    ensures tr[n].life.kicks == if exists k :: 0 <= k < n && KickStep(sts[k]) && tr[k].life.listed then 1 else 0
  {
    if n > 0 {
      KickedIff(tr, sts, n - 1);
      var st := sts[n - 1];
      assert tr[n] == Next(tr[n - 1], st);
      if exists k :: 0 <= k < n && KickStep(sts[k]) && tr[k].life.listed {
        var k :| 0 <= k < n && KickStep(sts[k]) && tr[k].life.listed;
        assert k == n - 1 || k < n - 1;
      }
    }
  }

  /** Nothing is left to do but to send more packets or to fail. */
  ghost predicate Settled(s: State) {
    forall st :: Enabled(s, st) ==> st.MainSends? || st.WriterFails?
  }

  lemma SettledMeans(s: State)
    requires Settled(s)
    ensures s.life.registered && s.reader.ReaderDone? && (s.writer.Writing? || s.writer.WriterDone?)
    ensures s.life.removals == 0 && (s.writer.Writing? ==> s.mail.toWriter == [])
    ensures s.life.deleted == 0 ==> s.mail.toMain == []
  {
    assert !Enabled(s, List) && !Enabled(s, ReaderStart(true)) && !Enabled(s, ReaderLost);
    assert !Enabled(s, ReaderBye(true)) && !Enabled(s, KickByReader) && !Enabled(s, UnrefByReader);
    assert !Enabled(s, WriterTakes) && !Enabled(s, KickByWriter) && !Enabled(s, UnrefByWriter);
    assert !Enabled(s, MainTakes([])) && !Enabled(s, MainRemoves);
  }

  /**
   When everything has come to rest the transport is gone if and only if the reader managed to post a
   SYNC(0), or the writer's read failed.
   */
  lemma RestsDeleted(s: State)
    requires Reachable(s) && Settled(s)
    ensures s.life.deleted == 1 <==> s.saidBye || s.readFailed
  {
    ReachableInv(s);
    SettledMeans(s);
  }

  /** A reader whose very first write fails leaves without a SYNC(0): the writer waits and the transport stays. */
  lemma FailedPostLeaks()
    ensures exists s :: Reachable(s) && Settled(s) && s.life.deleted == 0 && s.life.refCount == 1
  {
    var s1 := Next(START, List);
    var s2 := Next(s1, ReaderStart(false));
    var s3 := Next(s2, KickByReader);
    var s4 := Next(s3, UnrefByReader);
    assert Trace([START, s1, s2, s3, s4], [List, ReaderStart(false), KickByReader, UnrefByReader]);
    assert Settled(s4);
  }
}
