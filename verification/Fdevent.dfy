/**
 The event loop (adb/fdevent.cpp): a poll table, a list of pending fdevents and flag bits that
 must agree, while callbacks install, change and remove fdevents.
 */
module Fdevent {
  import opened Lists

  /** The event bits FDE_READ, FDE_WRITE, FDE_ERROR and FDE_DONT_CLOSE. */
  datatype Bits = Bits(read: bool, write: bool, error: bool, dontClose: bool) {
    function And(b: Bits): Bits {
      Bits(read && b.read, write && b.write, error && b.error, dontClose && b.dontClose)
    }
    function Or(b: Bits): Bits {
      Bits(read || b.read, write || b.write, error || b.error, dontClose || b.dontClose)
    }
  }

  const NONE := Bits(false, false, false, false)
  const READ := Bits(true, false, false, false)

  /** An fdevent. `wants` are the event bits of its state, `events` what is to be reported. */
  datatype Fde = Fde(fd: int, wants: Bits, active: bool, pending: bool, events: Bits, forceEof: bool)

  /** An entry of the poll table: POLLIN and POLLOUT of its pollfd. */
  datatype Node = Node(fde: nat, pollIn: bool, pollOut: bool)

  /** `fdes` are the fdevent objects by address, `nodes` the poll table by fd. */
  datatype Loop = Loop(nodes: map<nat, Node>, pending: seq<nat>, fdes: map<nat, Fde>)

  /** revents: POLLIN, POLLOUT, and any of POLLERR, POLLHUP, POLLNVAL, POLLRDHUP. */
  datatype Poll = Poll(readable: bool, writable: bool, broken: bool)

  // ---- operations ----

  function Installed(l: Loop, f: nat, fd: nat): Loop {
    l.(fdes := l.fdes[f := Fde(fd, NONE, true, false, NONE, false)], nodes := l.nodes[fd := Node(f, false, false)])
  }

  function Removed(l: Loop, f: nat): Loop
    requires f in l.fdes
  {
    var e := l.fdes[f];
    if !e.active then l
    else
      Loop(l.nodes - {e.fd},
           if e.pending then Without(l.pending, f) else l.pending,
           l.fdes[f := e.(fd := if e.wants.dontClose then e.fd else -1,
                          wants := NONE, active := false, pending := false, events := NONE)])
  }

  /** fdevent_set; its CHECK is that an fdevent whose bits change is in the poll table. */
  function Changed(l: Loop, f: nat, b: Bits): Loop
    requires f in l.fdes && (l.fdes[f].wants == b || (l.fdes[f].fd >= 0 && l.fdes[f].fd in l.nodes))
  {
    var e := l.fdes[f];
    if e.wants == b then l
    else
      var nodes := l.nodes[e.fd := Node(f, b.read, b.write)];
      var e1 := e.(wants := b);
      if !e.pending then l.(nodes := nodes, fdes := l.fdes[f := e1])
      else
        var events := e.events.And(b);
        if events == NONE then
          Loop(nodes, Without(l.pending, f), l.fdes[f := e1.(events := NONE, pending := false)])
        else
          l.(nodes := nodes, fdes := l.fdes[f := e1.(events := events)])
  }

  /** What a poll result is turned into: a fault is reported as a read. */
  function EventsOf(p: Poll): Bits {
    Bits(p.readable || p.broken, p.writable, p.broken, false)
  }

  /** One poll result in fdevent_process. */
  function Noted(l: Loop, fd: nat, p: Poll): Loop
    requires fd in l.nodes && l.nodes[fd].fde in l.fdes
  {
    var f := l.nodes[fd].fde;
    if EventsOf(p) == NONE then l
    else
      l.(fdes := l.fdes[f := l.fdes[f].(events := l.fdes[f].events.Or(EventsOf(p)), pending := true)],
         pending := l.pending + [f])
  }

  /** The front of the pending list is taken off and reported. */
  function Taken(l: Loop): Loop
    requires l.pending != [] && l.pending[0] in l.fdes
  {
    var f := l.pending[0];
    l.(pending := l.pending[1..], fdes := l.fdes[f := l.fdes[f].(events := NONE, pending := false)])
  }

  /**
   The exit of a subprocess: its fd is marked and, unless data is `left` in it, a read is added to what
   is pending. If nothing is, the callback is called at once, which leaves the loop as it was.
   */
  function Forced(l: Loop, f: nat, left: bool): Loop
    requires f in l.fdes
  {
    var e := l.fdes[f].(forceEof := true);
    l.(fdes := l.fdes[f := if !left && e.pending then e.(events := e.events.Or(READ)) else e])
  }

  /** What a callback may do to the loop. */
  datatype Op = Install(f: nat, fd: int) | Remove(f: nat) | Set(f: nat, b: Bits) | Force(f: nat, left: bool)

  /** The demands of the operations: the CHECKs on them, and that an fdevent in use is not installed again. */
  predicate Allowed(l: Loop, op: Op) {
    match op
    case Install(f, fd) => fd >= 0 && fd !in l.nodes && (f in l.fdes ==> !l.fdes[f].active)
    case Remove(f) => f in l.fdes
    case Set(f, b) => f in l.fdes && (l.fdes[f].active || l.fdes[f].wants == b)
    case Force(f, _) => f in l.fdes && l.fdes[f].active
  }

  // ---- consistency ----

  ghost predicate NodeOk(l: Loop, fd: nat)
    requires fd in l.nodes
  {
    var n := l.nodes[fd];
    && n.fde in l.fdes && l.fdes[n.fde].active && l.fdes[n.fde].fd == fd
    && n.pollIn == l.fdes[n.fde].wants.read && n.pollOut == l.fdes[n.fde].wants.write
  }

  ghost predicate FdeOk(l: Loop, f: nat)
    requires f in l.fdes
  {
    var e := l.fdes[f];
    && (e.active ==> e.fd >= 0 && e.fd in l.nodes && l.nodes[e.fd].fde == f)
    && (e.pending <==> f in l.pending)
    && (e.pending ==> e.active && e.events != NONE && (e.events.write ==> e.wants.write))
    && (!e.pending ==> e.events == NONE)
  }

  /**
   The poll table holds exactly the active fdevents with their interest bits; the pending list has
   no duplicates and holds exactly the fdevents flagged pending, each with something to report and
   a writable report only where one is wanted.
   */
  ghost predicate Valid(l: Loop) {
    && (forall fd :: fd in l.nodes ==> NodeOk(l, fd))
    && (forall f :: f in l.fdes ==> FdeOk(l, f))
    && NoRepeats(l.pending) && (forall f :: f in l.pending ==> f in l.fdes)
  }

  /** An operation on a consistent loop, in which no lookup in the table can fail. */
  ghost function Apply(l: Loop, op: Op): Loop
    requires Valid(l) && Allowed(l, op)
  {
    match op
    case Install(f, fd) => Installed(l, f, fd)
    case Remove(f) => Removed(l, f)
    case Set(f, b) => assert FdeOk(l, f); Changed(l, f, b)
    case Force(f, left) => Forced(l, f, left)
  }

  lemma InstallValid(l: Loop, f: nat, fd: nat)
    requires Valid(l) && Allowed(l, Install(f, fd))
    ensures Valid(Installed(l, f, fd))
  {
    assert f in l.fdes ==> FdeOk(l, f);
  }

  lemma RemoveValid(l: Loop, f: nat)
    requires Valid(l) && f in l.fdes
    ensures Valid(Removed(l, f)) && |Removed(l, f).pending| <= |l.pending|
    ensures !Removed(l, f).fdes[f].active && f !in Removed(l, f).pending
  {
    assert FdeOk(l, f);
  }

  /** An active fdevent with new bits, still in order by itself, leaves the loop in order. */
  lemma RewriteValid(l: Loop, f: nat, e: Fde, pending: seq<nat>)
    requires Valid(l) && f in l.fdes && l.fdes[f].active && e.active && e.fd == l.fdes[f].fd >= 0
    requires NoRepeats(pending) && forall g :: g in pending ==> g in l.fdes
    requires forall g :: g in l.fdes && g != f ==> (g in pending <==> g in l.pending)
    requires e.pending <==> f in pending
    requires e.pending ==> e.events != NONE && (e.events.write ==> e.wants.write)
    requires !e.pending ==> e.events == NONE
    ensures Valid(Loop(l.nodes[e.fd := Node(f, e.wants.read, e.wants.write)], pending, l.fdes[f := e]))
  {
    var l' := Loop(l.nodes[e.fd := Node(f, e.wants.read, e.wants.write)], pending, l.fdes[f := e]);
    forall fd | fd in l'.nodes && fd != e.fd ensures NodeOk(l', fd) {
      assert NodeOk(l, fd) && FdeOk(l, f);
    }
    forall g | g in l'.fdes && g != f ensures FdeOk(l', g) {
      assert FdeOk(l, g) && FdeOk(l, f);
    }
  }

  lemma ChangeValid(l: Loop, f: nat, b: Bits)
    requires Valid(l) && Allowed(l, Set(f, b))
    ensures l.fdes[f].wants == b || (l.fdes[f].fd >= 0 && l.fdes[f].fd in l.nodes)
    ensures Valid(Changed(l, f, b)) && |Changed(l, f, b).pending| <= |l.pending|
  {
    assert FdeOk(l, f);
    if l.fdes[f].wants != b {
      var l' := Changed(l, f, b);
      RewriteValid(l, f, l'.fdes[f], l'.pending);
    }
  }

  lemma TakeValid(l: Loop)
    requires Valid(l) && l.pending != []
    ensures Valid(Taken(l))
  {
    assert FdeOk(l, l.pending[0]);
    assert l.pending[0] !in l.pending[1..];
  }

  /** Every operation keeps the loop consistent, and none makes the pending list longer. */
  lemma ApplyValid(l: Loop, op: Op)
    requires Valid(l) && Allowed(l, op)
    ensures Valid(Apply(l, op)) && |Apply(l, op).pending| <= |l.pending|
  {
    match op
    case Install(f, fd) => InstallValid(l, f, fd);
    case Remove(f) => RemoveValid(l, f);
    case Set(f, b) => ChangeValid(l, f, b);
    case Force(f, _) => assert FdeOk(l, f);
  }

  // ---- what each operation does, told apart from how ----

  /** Nothing but the fdevent `f`, the table entry of `fd` and the place of `f` in the pending list has changed. */
  ghost predicate OnlyTouches(l: Loop, l': Loop, f: nat, fd: int) {
    && l'.fdes.Keys == l.fdes.Keys + {f} && (forall g :: g in l.fdes && g != f ==> l'.fdes[g] == l.fdes[g])
    && (forall d :: d != fd ==> (d in l'.nodes <==> d in l.nodes) && (d in l.nodes ==> l'.nodes[d] == l.nodes[d]))
    && Without(l'.pending, f) == Without(l.pending, f)
  }

  /** An installed fdevent is in the table under its fd, wants nothing, has nothing to report and is not marked. */
  lemma InstallOutcome(l: Loop, f: nat, fd: nat)
    requires Valid(l) && Allowed(l, Install(f, fd))
    ensures var l' := Apply(l, Install(f, fd)); var e := l'.fdes[f];
            && OnlyTouches(l, l', f, fd) && fd in l'.nodes && l'.nodes[fd].fde == f && e.fd == fd && e.active
            && !e.wants.read && !e.wants.write && !e.wants.error && !e.wants.dontClose && !e.pending && !e.forceEof
            && !l'.nodes[fd].pollIn && !l'.nodes[fd].pollOut
  {
  }

  /** A removed fdevent is neither polled nor pending, wants nothing, and its fd is closed unless it was to be kept. */
  lemma RemoveOutcome(l: Loop, f: nat)
    requires Valid(l) && f in l.fdes
    ensures var l' := Apply(l, Remove(f)); var e, e' := l.fdes[f], l'.fdes[f];
            && OnlyTouches(l, l', f, e.fd) && !e'.active && f !in l'.pending && e'.forceEof == e.forceEof
            && (if !e.active then l' == l
                else && e.fd !in l'.nodes && e'.fd == (if e.wants.dontClose then e.fd else -1)
                     && !e'.wants.read && !e'.wants.write && !e'.wants.error && !e'.wants.dontClose)
  {
    assert FdeOk(l, f);
    WithoutTwice(l.pending, f);
  }

  /**
   An fdevent that is set wants exactly the bits given, and is polled for them. Of what it was about to be told
   it is told what is among them, if anything.
   */
  lemma SetOutcome(l: Loop, f: nat, b: Bits)
    requires Valid(l) && Allowed(l, Set(f, b)) && l.fdes[f].active
    ensures var l' := Apply(l, Set(f, b)); var e, e' := l.fdes[f], l'.fdes[f];
            && OnlyTouches(l, l', f, e.fd) && e'.wants == b && e'.fd == e.fd && e'.active && e'.forceEof == e.forceEof
            && l'.nodes[e.fd].pollIn == b.read && l'.nodes[e.fd].pollOut == b.write
            && (e.wants != b ==>
                  && (e'.events.read <==> e.events.read && b.read) && (e'.events.write <==> e.events.write && b.write)
                  && (e'.events.error <==> e.events.error && b.error)
                  && (e'.events.dontClose <==> e.events.dontClose && b.dontClose))
            && (e.wants == b ==> l' == l)
            && (f in l'.pending <==> e'.events != NONE)
  {
    SetTouches(l, f, b);
    SetTells(l, f, b);
  }

  lemma SetTouches(l: Loop, f: nat, b: Bits)
    requires Valid(l) && Allowed(l, Set(f, b))
    ensures OnlyTouches(l, Apply(l, Set(f, b)), f, l.fdes[f].fd)
  {
    assert FdeOk(l, f);
    WithoutTwice(l.pending, f);
  }

  lemma SetTells(l: Loop, f: nat, b: Bits)
    requires Valid(l) && Allowed(l, Set(f, b)) && l.fdes[f].active
    ensures var l' := Apply(l, Set(f, b)); var e, e' := l.fdes[f], l'.fdes[f];
            && e.fd in l'.nodes && l'.nodes[e.fd].pollIn == b.read && l'.nodes[e.fd].pollOut == b.write
            && (f in l'.pending <==> e'.events != NONE)
  {
    ChangeValid(l, f, b);
    assert FdeOk(l, f) && FdeOk(Apply(l, Set(f, b)), f) && NodeOk(l, l.fdes[f].fd);
  }

  /** An fdevent whose subprocess has gone is marked; if it is pending and nothing is left, it is told to read. */
  lemma ForceOutcome(l: Loop, f: nat, left: bool)
    requires Valid(l) && Allowed(l, Force(f, left))
    ensures var l' := Apply(l, Force(f, left)); var e, e' := l.fdes[f], l'.fdes[f];
            && OnlyTouches(l, l', f, e.fd) && l'.nodes == l.nodes && l'.pending == l.pending
            && e' == e.(forceEof := true, events := e'.events)
            && (e'.events.read <==> e.events.read || (!left && e.pending))
            && e'.events.write == e.events.write && e'.events.error == e.events.error
            && e'.events.dontClose == e.events.dontClose
  {
    assert FdeOk(l, f);
  }

  /** The callback called at once is told to read, and nothing else. */
  lemma DirectOutcome(l: Loop, f: nat, left: bool)
    requires Valid(l) && Allowed(l, Force(f, left))
    ensures var calls := Direct(l, Force(f, left));
            if left || l.fdes[f].pending then calls == []
            else && |calls| == 1 && calls[0].f == f && Due(calls[0])
                 && calls[0].events.read && !calls[0].events.write && !calls[0].events.error
                 && calls[0].fde == l.fdes[f].(forceEof := true, pending := true, events := calls[0].events)
  {
  }

  lemma {:induction false} WithoutTwice(ids: seq<nat>, id: nat)
    ensures Without(Without(ids, id), id) == Without(ids, id)
  {
    if ids != [] {
      WithoutTwice(ids[1..], id);
      if ids[0] != id {
        assert ([ids[0]] + Without(ids[1..], id))[1..] == Without(ids[1..], id);
      }
    }
  }

  // ---- one turn of the loop ----

  /** The state of the descriptors when poll() is called. */
  datatype Round = Round(readable: set<nat>, writable: set<nat>, broken: set<nat>)

  /** poll() reports readiness only where it was asked for, but faults always. */
  function Revents(n: Node, fd: nat, r: Round): Poll {
    Poll(n.pollIn && fd in r.readable, n.pollOut && fd in r.writable, fd in r.broken)
  }

  /**
   The fdevent of `fd` is to be told that it can be read if that was asked for and is so, or if its fd is
   broken; that it can be written if that was asked for and is so; and of an error if its fd is broken. It
   is pending if that is anything.
   */
  ghost predicate Reported(l: Loop, fd: nat, r: Round)
    requires fd in l.nodes && l.nodes[fd].fde in l.fdes
  {
    var n := l.nodes[fd];
    var b := l.fdes[n.fde].events;
    && (b.read <==> (n.pollIn && fd in r.readable) || fd in r.broken)
    && (b.write <==> n.pollOut && fd in r.writable)
    && (b.error <==> fd in r.broken) && !b.dontClose
    && (n.fde in l.pending <==> b.read || b.write || b.error)
  }

  /** While poll results are noted: `todo` are the descriptors still to be looked at. */
  ghost predicate Noting(l: Loop, todo: set<nat>, r: Round) {
    && Valid(l) && todo <= l.nodes.Keys
    && (forall fd :: fd in todo ==> l.nodes[fd].fde !in l.pending)
    && (forall fd :: fd in l.nodes && fd !in todo ==> Reported(l, fd, r))
  }

  lemma NoteOne(l: Loop, todo: set<nat>, r: Round, fd: nat)
    requires Noting(l, todo, r) && fd in todo
    ensures Noting(Noted(l, fd, Revents(l.nodes[fd], fd, r)), todo - {fd}, r)
  {
    var f := l.nodes[fd].fde;
    var l' := Noted(l, fd, Revents(l.nodes[fd], fd, r));
    assert NodeOk(l, fd) && FdeOk(l, f);
    forall g | g in l'.fdes ensures FdeOk(l', g) {
      assert FdeOk(l, g);
    }
    forall d | d in l'.nodes ensures NodeOk(l', d) && (d != fd ==> l.nodes[d].fde != f) {
      assert NodeOk(l, d);
    }
  }

  /** What a callback was told, and what its fdevent was at that moment. */
  datatype Call = Call(f: nat, events: Bits, fde: Fde)

  /** The report was due: a live fdevent flagged pending, something to say, and a writable report only if wanted. */
  predicate Due(c: Call) {
    && c.fde.active && c.fde.pending && c.events != NONE && c.events == c.fde.events
    && (c.events.write ==> c.fde.wants.write)
  }

  /** The callback that an operation calls itself. */
  ghost function Direct(l: Loop, op: Op): seq<Call>
    requires Valid(l) && Allowed(l, op)
  {
    if op.Force? && !op.left && !l.fdes[op.f].pending
    then [Call(op.f, READ, l.fdes[op.f].(forceEof := true, events := READ, pending := true))]
    else []
  }

  /** A callback after it did its operations, or those before one whose CHECK failed. */
  datatype Scripted = Scripted(l: Loop, direct: seq<Call>, ok: bool)

  ghost function RunScript(l: Loop, script: seq<Op>, direct: seq<Call>): (r: Scripted)
    requires Valid(l)
    ensures Valid(r.l) && |r.l.pending| <= |l.pending|
    decreases |script|
  {
    if script == [] then Scripted(l, direct, true)
    else if !Allowed(l, script[0]) then Scripted(l, direct, false)
    else
      ApplyValid(l, script[0]);
      RunScript(Apply(l, script[0]), script[1..], direct + Direct(l, script[0]))
  }

  /** The inner loop of fdevent_loop: what each turn reported, and what its callback called itself. */
  datatype Dispatched = Dispatched(l: Loop, calls: seq<Call>, direct: seq<seq<Call>>, ok: bool)

  function First(scripts: seq<seq<Op>>): seq<Op> {
    if scripts == [] then [] else scripts[0]
  }

  function Later(scripts: seq<seq<Op>>): seq<seq<Op>> {
    if scripts == [] then [] else scripts[1..]
  }

  /** The callback of the first pending fdevent does the first script, and so on until nothing is pending. */
  ghost function RunPending(l: Loop, scripts: seq<seq<Op>>, calls: seq<Call>, direct: seq<seq<Call>>): (r: Dispatched)
    requires Valid(l)
    ensures Valid(r.l) && (r.ok ==> r.l.pending == [])
    decreases |l.pending|
  {
    if l.pending == [] then Dispatched(l, calls, direct, true)
    else
      TakeValid(l);
      var s := RunScript(Taken(l), First(scripts), []);
      if s.ok then RunPending(s.l, Later(scripts), calls + [FrontCall(l)], direct + [s.direct])
      else Dispatched(s.l, calls + [FrontCall(l)], direct + [s.direct], false)
  }

  /** What the first pending fdevent is told. */
  ghost function FrontCall(l: Loop): Call
    requires l.pending != [] && l.pending[0] in l.fdes
  {
    var f := l.pending[0];
    Call(f, l.fdes[f].events, l.fdes[f])
  }

  lemma RunPendingStep(l: Loop, scripts: seq<seq<Op>>, calls: seq<Call>, direct: seq<seq<Call>>, s: Scripted)
    requires Valid(l) && l.pending != [] && Valid(Taken(l)) && s == RunScript(Taken(l), First(scripts), [])
    ensures RunPending(l, scripts, calls, direct)
         == if s.ok then RunPending(s.l, Later(scripts), calls + [FrontCall(l)], direct + [s.direct])
            else Dispatched(s.l, calls + [FrontCall(l)], direct + [s.direct], false)
  {
  }

  /** The operations of a callback can all be done, one after the other. */
  ghost predicate Goes(l: Loop, script: seq<Op>)
    requires Valid(l)
    decreases |script|
  {
    script == [] ||
    (Allowed(l, script[0]) && (ApplyValid(l, script[0]); Goes(Apply(l, script[0]), script[1..])))
  }

  /** Where they lead. */
  ghost function Gone(l: Loop, script: seq<Op>): Loop
    requires Valid(l) && Goes(l, script)
    decreases |script|
  {
    if script == [] then l else (ApplyValid(l, script[0]); Gone(Apply(l, script[0]), script[1..]))
  }

  /** A callback does all its operations if and only if the CHECKs of each hold when its turn comes. */
  lemma {:induction false} ScriptRunsIff(l: Loop, script: seq<Op>, direct: seq<Call>)
    requires Valid(l)
    ensures var r := RunScript(l, script, direct);
            (r.ok <==> Goes(l, script)) && (r.ok ==> r.l == Gone(l, script))
    decreases |script|
  {
    if script != [] && Allowed(l, script[0]) {
      ApplyValid(l, script[0]);
      ScriptRunsIff(Apply(l, script[0]), script[1..], direct + Direct(l, script[0]));
    }
  }

  /** The callback of the first pending fdevent does the first script, and the loop goes on with the others. */
  lemma FirstDoesFirst(l: Loop, script: seq<Op>, others: seq<seq<Op>>, calls: seq<Call>, direct: seq<seq<Call>>)
    requires Valid(l) && l.pending != [] && Valid(Taken(l))
    ensures var s := RunScript(Taken(l), script, []);
            RunPending(l, [script] + others, calls, direct)
            == if s.ok then RunPending(s.l, others, calls + [FrontCall(l)], direct + [s.direct])
               else Dispatched(s.l, calls + [FrontCall(l)], direct + [s.direct], false)
  {
    assert ([script] + others)[1..] == others;
    RunPendingStep(l, [script] + others, calls, direct, RunScript(Taken(l), script, []));
  }

  /** A callback that removes an fdevent, or changes what it is to be told of. */
  predicate Drops(script: seq<Op>, f: nat) {
    script != [] && (script[0] == Remove(f) || (script[0].Set? && script[0].f == f) || Drops(script[1..], f))
  }

  lemma ApplyPending(l: Loop, op: Op, f: nat)
    requires Valid(l) && Allowed(l, op)
    ensures f in Apply(l, op).pending ==> f in l.pending
    ensures f in l.pending && op != Remove(f) && !(op.Set? && op.f == f) ==> f in Apply(l, op).pending
  {
    if op.Remove? || op.Set? {
    }
  }

  lemma {:induction false} ScriptPending(l: Loop, script: seq<Op>, direct: seq<Call>, f: nat)
    requires Valid(l)
    ensures var r := RunScript(l, script, direct);
            && (f in r.l.pending ==> f in l.pending)
            && (f in l.pending && !Drops(script, f) ==> f in r.l.pending)
    decreases |script|
  {
    if script != [] && Allowed(l, script[0]) {
      ApplyValid(l, script[0]);
      ApplyPending(l, script[0], f);
      ScriptPending(Apply(l, script[0]), script[1..], direct + Direct(l, script[0]), f);
    }
  }

  lemma {:induction false} CallsGrow(l: Loop, scripts: seq<seq<Op>>, calls: seq<Call>, direct: seq<seq<Call>>)
    requires Valid(l)
    ensures calls <= RunPending(l, scripts, calls, direct).calls
    ensures l.pending != [] ==> calls + [FrontCall(l)] <= RunPending(l, scripts, calls, direct).calls
    decreases |l.pending|
  {
    if l.pending != [] {
      TakeValid(l);
      var s := RunScript(Taken(l), First(scripts), []);
      RunPendingStep(l, scripts, calls, direct, s);
      if s.ok {
        CallsGrow(s.l, Later(scripts), calls + [FrontCall(l)], direct + [s.direct]);
      }
    }
  }

  /**
   In turn `i` of those after the first `n` calls `f` is called, or the callback that is called removes
   it or changes what it is to be told of.
   */
  predicate HasTurn(scripts: seq<seq<Op>>, all: seq<Call>, n: nat, i: nat, f: nat) {
    n + i < |all| && (all[n + i].f == f || (i < |scripts| && Drops(scripts[i], f)))
  }

  lemma FirstTurn(l: Loop, scripts: seq<seq<Op>>, calls: seq<Call>, direct: seq<seq<Call>>, f: nat, r: Dispatched)
    requires Valid(l) && r == RunPending(l, scripts, calls, direct)
    requires l.pending != [] && (l.pending[0] == f || Drops(First(scripts), f))
    ensures HasTurn(scripts, r.calls, |calls|, 0, f)
  {
    CallsGrow(l, scripts, calls, direct);
    var told := calls + [FrontCall(l)];
    assert r.calls[|calls|] == told[|calls|];
  }

  lemma LaterTurn(scripts: seq<seq<Op>>, all: seq<Call>, n: nat, n': nat, i: nat, f: nat) returns (i': nat)
    requires HasTurn(Later(scripts), all, n', i, f) && n' == n + 1
    ensures HasTurn(scripts, all, n, i', f)
  {
    i' := i + 1;
  }

  /** Unless a CHECK fails, every pending fdevent has its turn. */
  lemma {:induction false} EachIsCalled(l: Loop, scripts: seq<seq<Op>>, calls: seq<Call>, direct: seq<seq<Call>>,
                                        f: nat, r: Dispatched)
    returns (i: nat)
    requires Valid(l) && f in l.pending && r == RunPending(l, scripts, calls, direct) && r.ok
    ensures HasTurn(scripts, r.calls, |calls|, i, f)
    decreases |l.pending|
  {
    if l.pending[0] == f || Drops(First(scripts), f) {
      FirstTurn(l, scripts, calls, direct, f, r);
      i := 0;
    } else {
      var next, told, more := StillPending(l, scripts, calls, direct, f, r);
      i := EachIsCalled(next, Later(scripts), told, more, f, r);
      i := LaterTurn(scripts, r.calls, |calls|, |told|, i, f);
    }
  }

  lemma StillPending(l: Loop, scripts: seq<seq<Op>>, calls: seq<Call>, direct: seq<seq<Call>>, f: nat, r: Dispatched)
    returns (next: Loop, told: seq<Call>, more: seq<seq<Call>>)
    requires Valid(l) && f in l.pending && r == RunPending(l, scripts, calls, direct) && r.ok
    requires l.pending[0] != f && !Drops(First(scripts), f)
    ensures Valid(next) && f in next.pending && |next.pending| < |l.pending| && |told| == |calls| + 1
    ensures r == RunPending(next, Later(scripts), told, more)
  {
    TakeValid(l);
    var s := RunScript(Taken(l), First(scripts), []);
    RunPendingStep(l, scripts, calls, direct, s);
    ScriptPending(Taken(l), First(scripts), [], f);
    next, told, more := s.l, calls + [FrontCall(l)], direct + [s.direct];
  }

  /** The loop calls only what was pending when it began. */
  lemma {:induction false} CalledWerePending(l: Loop, scripts: seq<seq<Op>>, calls: seq<Call>, direct: seq<seq<Call>>,
                                             i: nat)
    requires Valid(l) && |calls| <= i < |RunPending(l, scripts, calls, direct).calls|
    ensures RunPending(l, scripts, calls, direct).calls[i].f in l.pending
    decreases |l.pending|
  {
    if l.pending != [] {
      TakeValid(l);
      CallsGrow(l, scripts, calls, direct);
      var c, s := FrontCall(l), RunScript(Taken(l), First(scripts), []);
      RunPendingStep(l, scripts, calls, direct, s);
      if i > |calls| {
        CalledWerePending(s.l, Later(scripts), calls + [c], direct + [s.direct], i);
        ScriptPending(Taken(l), First(scripts), [], RunPending(l, scripts, calls, direct).calls[i].f);
      } else {
        assert (calls + [c])[i] == c;
      }
    }
  }

  /** It calls none of them twice. */
  lemma {:induction false} CalledOnce(l: Loop, scripts: seq<seq<Op>>, calls: seq<Call>, direct: seq<seq<Call>>,
                                      i: nat, j: nat)
    requires Valid(l) && |calls| <= i < j < |RunPending(l, scripts, calls, direct).calls|
    ensures var all := RunPending(l, scripts, calls, direct).calls; all[i].f != all[j].f
    decreases |l.pending|
  {
    if l.pending != [] {
      TakeValid(l);
      CallsGrow(l, scripts, calls, direct);
      var c, s := FrontCall(l), RunScript(Taken(l), First(scripts), []);
      RunPendingStep(l, scripts, calls, direct, s);
      if i > |calls| {
        CalledOnce(s.l, Later(scripts), calls + [c], direct + [s.direct], i, j);
      } else {
        assert (calls + [c])[i] == c;
        CalledWerePending(s.l, Later(scripts), calls + [c], direct + [s.direct], j);
        ScriptPending(Taken(l), First(scripts), [], RunPending(l, scripts, calls, direct).calls[j].f);
        assert l.pending[0] !in l.pending[1..];
      }
    }
  }

  /** The next entry of an unordered table. */
  method AnyOf(fds: set<nat>) returns (fd: nat)
    requires fds != {}
    ensures fd in fds
  {
    fd :| fd in fds;
  }

  class EventLoop {
    var nodes: map<nat, Node>
    var pending: seq<nat>
    var fdes: map<nat, Fde>

    ghost function State(): Loop
      reads this
    {
      Loop(nodes, pending, fdes)
    }

    constructor ()
      ensures Valid(State()) && pending == [] && nodes == map[]
    {
      nodes, pending, fdes := map[], [], map[];
    }

    /** fdevent_install. */
    method InstallFde(f: nat, fd: int)
      requires Valid(State()) && Allowed(State(), Install(f, fd))
      modifies this
      ensures State() == Apply(old(State()), Install(f, fd))
    {
      fdes := fdes[f := Fde(fd, NONE, true, false, NONE, false)];
      nodes := nodes[fd := Node(f, false, false)];
    }

    /** fdevent_remove. */
    method RemoveFde(f: nat)
      requires Valid(State()) && f in fdes
      modifies this
      ensures State() == Apply(old(State()), Remove(f))
    {
      var e := fdes[f];
      if e.active {
        nodes := nodes - {e.fd};
        if e.pending {
          pending := Filtered(pending, f);
        }
        if !e.wants.dontClose {
          e := e.(fd := -1);
        }
        fdes := fdes[f := e.(wants := NONE, active := false, pending := false, events := NONE)];
      }
    }

    /** fdevent_set with fdevent_update; fdevent_add and fdevent_del call it with bits added or taken away. */
    method SetFde(f: nat, b: Bits)
      requires Valid(State()) && Allowed(State(), Set(f, b))
      modifies this
      ensures State() == Apply(old(State()), Set(f, b))
    {
      var e := fdes[f];
      if e.wants == b {
        return;
      }
      assert FdeOk(State(), f);
      nodes := nodes[e.fd := Node(f, b.read, b.write)];
      e := e.(wants := b);
      if e.pending {
        e := e.(events := e.events.And(b));
        if e.events == NONE {
          pending := Filtered(pending, f);
          e := e.(pending := false);
        }
      }
      fdes := fdes[f := e];
    }

    method Note(fd: nat, r: Round)
      requires fd in nodes && nodes[fd].fde in fdes
      modifies this`fdes, this`pending
      ensures State() == Noted(old(State()), fd, Revents(nodes[fd], fd, r))
    {
      var f := nodes[fd].fde;
      var b := EventsOf(Revents(nodes[fd], fd, r));
      if b != NONE {
        fdes := fdes[f := fdes[f].(events := fdes[f].events.Or(b), pending := true)];
        pending := pending + [f];
      }
    }

    /** fdevent_process: the table is walked in whatever order it is stored. */
    method Process(r: Round)
      requires Valid(State()) && pending == []
      modifies this
      ensures Valid(State()) && nodes == old(nodes)
      ensures forall fd :: fd in nodes ==> Reported(State(), fd, r)
    {
      var todo := nodes.Keys;
      forall fd | fd in nodes ensures NodeOk(State(), fd) {
      }
      while todo != {}
        invariant Noting(State(), todo, r) && nodes == old(nodes)
        decreases todo
      {
        var fd := AnyOf(todo);
        NoteOne(State(), todo, r, fd);
        assert NodeOk(State(), fd);
        Note(fd, r);
        todo := todo - {fd};
      }
    }

    /**
     fdevent_subproc_event_func. A direct call is flagged pending, reports the read and clears both
     again; what its callback does are the operations that follow.
     */
    method ForceEof(f: nat, left: bool) returns (calls: seq<Call>)
      requires Valid(State()) && Allowed(State(), Force(f, left))
      modifies this
      ensures State() == Apply(old(State()), Force(f, left))
      ensures calls == if left || old(fdes)[f].pending then []
                       else [Call(f, READ, old(fdes)[f].(forceEof := true, events := READ, pending := true))]
      ensures AllDue(calls)
    {
      calls := [];
      assert FdeOk(State(), f);
      fdes := fdes[f := fdes[f].(forceEof := true)];
      if !left {
        fdes := fdes[f := fdes[f].(events := fdes[f].events.Or(READ))];
        if !fdes[f].pending {
          fdes := fdes[f := fdes[f].(pending := true)];
          calls := [Call(f, fdes[f].events, fdes[f])];
          fdes := fdes[f := fdes[f].(events := NONE, pending := false)];
        }
      }
    }

    /** One operation of a callback, and the callback it calls itself, if any. */
    method Do(op: Op) returns (calls: seq<Call>)
      requires Valid(State()) && Allowed(State(), op)
      modifies this
      ensures State() == Apply(old(State()), op) && calls == Direct(old(State()), op) && AllDue(calls)
    {
      calls := [];
      match op
      case Install(f, fd) => InstallFde(f, fd);
      case Remove(f) => RemoveFde(f);
      case Set(f, b) => SetFde(f, b);
      case Force(f, left) => calls := ForceEof(f, left);
    }

    /** What a callback does, up to an operation whose CHECK fails, which ends the program. */
    method CallBack(script: seq<Op>) returns (direct: seq<Call>, ok: bool)
      requires Valid(State())
      modifies this
      ensures Valid(State()) && Scripted(State(), direct, ok) == RunScript(old(State()), script, [])
      ensures AllDue(direct)
    {
      direct, ok := [], true;
      var k := 0;
      assert script[0..] == script;
      while k < |script|
        invariant k <= |script| && Valid(State()) && ok
        invariant RunScript(State(), script[k..], direct) == RunScript(old(State()), script, [])
        invariant AllDue(direct)
      {
        assert script[k..][1..] == script[k + 1..];
        if !Permits(script[k]) {
          ok := false;
          return;
        }
        ApplyValid(State(), script[k]);
        var more := Do(script[k]);
        direct := direct + more;
        k := k + 1;
      }
    }

    /** fdevent_call_fdfunc, for the first pending fdevent. */
    method CallFront(script: seq<Op>) returns (call: Call, direct: seq<Call>, ok: bool)
      requires Valid(State()) && pending != []
      modifies this
      ensures Valid(State()) && Valid(Taken(old(State()))) && call == FrontCall(old(State()))
      ensures Scripted(State(), direct, ok) == RunScript(Taken(old(State())), script, [])
      ensures Due(call) && AllDue(direct)
    {
      var f := pending[0];
      assert FdeOk(State(), f);
      TakeValid(State());
      call := Call(f, fdes[f].events, fdes[f]);
      pending := pending[1..];
      fdes := fdes[f := fdes[f].(events := NONE, pending := false)];
      direct, ok := CallBack(script);
    }

    /**
     The inner loop of fdevent_loop: the callback of turn k does `scripts[k]`. The pending list only
     shrinks, so the loop ends; every report is due; the map lookups and the pending flag are never amiss.
     */
    method Dispatch(scripts: seq<seq<Op>>) returns (calls: seq<Call>, direct: seq<seq<Call>>, aborted: bool)
      requires Valid(State())
      modifies this
      ensures Valid(State()) && (!aborted ==> pending == [])
      ensures Dispatched(State(), calls, direct, !aborted) == RunPending(old(State()), scripts, [], [])
      ensures AllDue(calls) && EachDue(direct)
    {
      calls, direct, aborted := [], [], false;
      var left := scripts;
      ghost var run := RunPending(State(), scripts, [], []);
      while pending != []
        invariant Valid(State()) && !aborted && RunPending(State(), left, calls, direct) == run
        invariant AllDue(calls) && EachDue(direct)
        decreases |pending|
      {
        ghost var l := State();
        var call, more, ok := CallFront(First(left));
        RunPendingStep(l, left, calls, direct, Scripted(State(), more, ok));
        OneMoreDue(calls, call, direct, more);
        calls, direct := calls + [call], direct + [more];
        if !ok {
          aborted := true;
          return;
        }
        left := Later(left);
      }
    }

    /** The CHECKs of an operation. */
    predicate Permits(op: Op)
      reads this
      ensures Permits(op) <==> Allowed(State(), op)
    {
      match op
      case Install(f, fd) => fd >= 0 && fd !in nodes && (f in fdes ==> !fdes[f].active)
      case Remove(f) => f in fdes
      case Set(f, b) => f in fdes && (fdes[f].active || fdes[f].wants == b)
      case Force(f, _) => f in fdes && fdes[f].active
    }

    method OneTurn(round: Round, scripts: seq<seq<Op>>) returns (turn: Turn)
      requires Valid(State()) && pending == []
      modifies this
      ensures Turned(turn, round, scripts) && turn.end == State()
      ensures turn.polled.nodes == old(nodes) && (turn.ok ==> pending == [])
    {
      Process(round);
      var polled := Loop(nodes, pending, fdes);
      var calls, direct, aborted := Dispatch(scripts);
      turn := Turn(polled, calls, Loop(nodes, pending, fdes), !aborted);
    }

    /** fdevent_loop, for as many turns as there are rounds, or until a CHECK fails. */
    method Run(rounds: seq<Round>, scripts: seq<seq<seq<Op>>>) returns (turns: seq<Turn>, aborted: bool)
      requires Valid(State()) && pending == []
      modifies this
      ensures Valid(State()) && Turns(old(nodes), rounds, scripts, turns)
      ensures if aborted then turns != [] && !turns[|turns| - 1].ok else |turns| == |rounds| && AllWell(turns)
      ensures nodes == EndNodes(old(nodes), turns)
    {
      turns, aborted := [], false;
      while |turns| < |rounds|
        invariant Turns(old(nodes), rounds, scripts, turns) && nodes == EndNodes(old(nodes), turns)
        invariant Valid(State()) && pending == [] && !aborted && AllWell(turns)
      {
        var turn := OneTurn(rounds[|turns|], Scripts(scripts, |turns|));
        OneMoreTurn(old(nodes), rounds, scripts, turns, turn);
        turns := turns + [turn];
        if !turn.ok {
          aborted := true;
          return;
        }
      }
    }
  }

  function Scripts(scripts: seq<seq<seq<Op>>>, k: nat): seq<seq<Op>> {
    if k < |scripts| then scripts[k] else []
  }

  predicate AllDue(calls: seq<Call>) {
    forall k :: 0 <= k < |calls| ==> Due(calls[k])
  }

  predicate EachDue(direct: seq<seq<Call>>) {
    forall k :: 0 <= k < |direct| ==> AllDue(direct[k])
  }

  lemma OneMoreDue(calls: seq<Call>, call: Call, direct: seq<seq<Call>>, more: seq<Call>)
    requires AllDue(calls) && Due(call) && EachDue(direct) && AllDue(more)
    ensures AllDue(calls + [call]) && EachDue(direct + [more])
  {
  }

  /** The table that the next poll finds. */
  function EndNodes(nodes: map<nat, Node>, turns: seq<Turn>): map<nat, Node> {
    if turns == [] then nodes else turns[|turns| - 1].end.nodes
  }

  predicate AllWell(turns: seq<Turn>) {
    forall k :: 0 <= k < |turns| ==> turns[k].ok
  }

  /** Each turn polls what the one before left, and only the last may have ended the program. */
  ghost predicate Turns(nodes: map<nat, Node>, rounds: seq<Round>, scripts: seq<seq<seq<Op>>>, turns: seq<Turn>) {
    |turns| <= |rounds| && forall k :: 0 <= k < |turns| ==>
      && Turned(turns[k], rounds[k], Scripts(scripts, k)) && AllWell(turns[..k])
      && turns[k].polled.nodes == EndNodes(nodes, turns[..k])
  }

  lemma OneMoreTurn(nodes: map<nat, Node>, rounds: seq<Round>, scripts: seq<seq<seq<Op>>>, turns: seq<Turn>, turn: Turn)
    requires Turns(nodes, rounds, scripts, turns) && |turns| < |rounds| && AllWell(turns)
    requires Turned(turn, rounds[|turns|], Scripts(scripts, |turns|)) && turn.polled.nodes == EndNodes(nodes, turns)
    ensures Turns(nodes, rounds, scripts, turns + [turn])
  {
    var all := turns + [turn];
    forall k | 0 <= k < |all|
      ensures Turned(all[k], rounds[k], Scripts(scripts, k)) && AllWell(all[..k])
      ensures all[k].polled.nodes == EndNodes(nodes, all[..k])
    {
      assert all[..k] == turns[..k];
      assert turns[..|turns|] == turns;
    }
  }

  /** One turn of the loop: a poll leaves `polled`, and the callbacks bring it to `end`. */
  datatype Turn = Turn(polled: Loop, calls: seq<Call>, end: Loop, ok: bool)

  ghost predicate Turned(t: Turn, r: Round, scripts: seq<seq<Op>>) {
    && Polled(t.polled, r) && AllDue(t.calls) && Valid(t.end)
    && var run := RunPending(t.polled, scripts, [], []); run.calls == t.calls && run.l == t.end && run.ok == t.ok
  }

  /** After a poll: the table is consistent, and each fdevent in it has what poll reported for it. */
  ghost predicate Polled(l: Loop, r: Round) {
    Valid(l) && forall fd :: fd in l.nodes ==> NodeOk(l, fd) && Reported(l, fd, r)
  }
}
