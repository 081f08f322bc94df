/** Local listeners and the disconnect lists of transports (adb/adb_listeners.cpp, adb/transport.cpp). */
module Listeners {
  import opened Bytes
  import opened Lists

  datatype Option<T> = None | Some(value: T)

  /** `id` stands for the listener's address, which is also what its disconnect hook points to. */
  datatype Listener = Listener(id: nat, name: string, connectTo: string, transport: Option<nat>)

  /** The listener list, each transport's disconnect list, and the next fresh address. */
  datatype State = State(listeners: seq<Listener>, hooks: map<nat, seq<nat>>, next: nat)

  datatype Status = Ok | InternalError | CannotBind | CannotRebind | NotFound

  /** Such a listener serves adb itself and cannot be repurposed. */
  predicate Special(connectTo: string) {
    connectTo != "" && connectTo[0] == '*'
  }

  lemma SpecialIs(rest: string, c: char)
    ensures Special("*" + rest) && !Special("") && (Special([c] + rest) <==> c == '*')
  {
  }

  function Hooks(s: State, t: nat): seq<nat> {
    if t in s.hooks then s.hooks[t] else []
  }

  function RemoveHook(s: State, t: Option<nat>, id: nat): State {
    if t.None? then s else s.(hooks := s.hooks[t.value := Without(Hooks(s, t.value), id)])
  }

  function AddHook(s: State, t: Option<nat>, id: nat): State {
    if t.None? then s else s.(hooks := s.hooks[t.value := Hooks(s, t.value) + [id]])
  }

  // ---- the operations ----

  /** The first listener of a name, or how many there are. */
  function Find(ls: seq<Listener>, name: string): (k: nat)
    ensures k <= |ls| && (k < |ls| ==> ls[k].name == name)
    ensures forall j :: 0 <= j < k ==> ls[j].name != name
  {
    if ls == [] then 0
    else if ls[0].name == name then 0
    else
      var k := Find(ls[1..], name);
      assert forall j :: 0 < j < k + 1 ==> ls[j] == ls[1..][j - 1];
      k + 1
  }

  /** free_listener. */
  function Free(s: State, k: nat): State
    requires k < |s.listeners|
  {
    var l := s.listeners[k];
    RemoveHook(s, l.transport, l.id).(listeners := s.listeners[..k] + s.listeners[k + 1..])
  }

  /** Taking over an existing listener. */
  function Rebind(s: State, k: nat, connectTo: string, t: Option<nat>): State
    requires k < |s.listeners|
  {
    var l := s.listeners[k];
    var moved := if l.transport == t then s else AddHook(RemoveHook(s, l.transport, l.id), t, l.id);
    moved.(listeners := s.listeners[k := l.(connectTo := connectTo, transport := t)])
  }

  function Add(s: State, name: string, connectTo: string, t: Option<nat>): State {
    AddHook(s, t, s.next).(listeners := s.listeners + [Listener(s.next, name, connectTo, t)], next := s.next + 1)
  }

  datatype Result = Result(state: State, status: Status)

  /** install_listener; `binds` says whether the local name can be listened on. */
  function Install(s: State, name: string, connectTo: string, t: Option<nat>, noRebind: bool, binds: bool): Result {
    var k := Find(s.listeners, name);
    if k < |s.listeners| then
      if Special(s.listeners[k].connectTo) then Result(s, InternalError)
      else if noRebind then Result(s, CannotRebind)
      else Result(Rebind(s, k, connectTo, t), Ok)
    else if !binds then Result(s, CannotBind)
    else Result(Add(s, name, connectTo, t), Ok)
  }

  function Remove(s: State, name: string): Result {
    var k := Find(s.listeners, name);
    if k < |s.listeners| then Result(Free(s, k), Ok) else Result(s, NotFound)
  }

  function RemoveAll(s: State, k: nat): State
    requires k <= |s.listeners|
    decreases |s.listeners| - k
  {
    if k == |s.listeners| then s
    else if Special(s.listeners[k].connectTo) then RemoveAll(s, k + 1)
    else RemoveAll(Free(s, k), k)
  }

  lemma RemoveAllStep(s: State, k: nat, t: State, j: nat)
    requires k < |s.listeners|
    requires if Special(s.listeners[k].connectTo) then t == s && j == k + 1 else t == Free(s, k) && j == k
    ensures RemoveAll(s, k) == RemoveAll(t, j)
  {
  }

  /** listener_disconnect: the transport is forgotten first, so that its disconnect list is left alone. */
  function DropId(ls: seq<Listener>, id: nat): seq<Listener> {
    if ls == [] then []
    else if ls[0].id == id then ls[1..]
    else [ls[0]] + DropId(ls[1..], id)
  }

  function DropIds(ls: seq<Listener>, ids: seq<nat>): seq<Listener>
    decreases |ids|
  {
    if ids == [] then ls else DropIds(DropId(ls, ids[0]), ids[1..])
  }

  /** RunDisconnects: every hook is called in turn, and then the list is cleared. */
  function RunDisconnects(s: State, t: nat): State {
    s.(listeners := DropIds(s.listeners, Hooks(s, t)), hooks := s.hooks[t := []])
  }

  // ---- what every operation keeps ----

  predicate Bound(ls: seq<Listener>, id: nat, t: nat) {
    exists i :: 0 <= i < |ls| && ls[i].id == id && ls[i].transport == Some(t)
  }

  predicate Distinct(ls: seq<Listener>) {
    forall i, j :: 0 <= i < j < |ls| ==> ls[i].name != ls[j].name && ls[i].id != ls[j].id
  }

  predicate Numbered(ls: seq<Listener>, next: nat) {
    forall i :: 0 <= i < |ls| ==> ls[i].id < next
  }

  /** Only a special listener may be without a transport. */
  predicate Attached(ls: seq<Listener>) {
    forall i :: 0 <= i < |ls| && ls[i].transport.None? ==> Special(ls[i].connectTo)
  }

  /** A hook is in a transport's list exactly once if its listener is bound to it, and otherwise not. */
  ghost predicate Hooked(ls: seq<Listener>, hooks: seq<nat>, t: nat) {
    NoRepeats(hooks) && forall id: nat :: id in hooks <==> Bound(ls, id, t)
  }

  ghost predicate Inv(s: State) {
    && Distinct(s.listeners) && Numbered(s.listeners, s.next) && Attached(s.listeners)
    && forall t: nat :: Hooked(s.listeners, Hooks(s, t), t)
  }

  predicate Named(ls: seq<Listener>, name: string) {
    exists i :: 0 <= i < |ls| && ls[i].name == name
  }

  /** The listener of a name, if there is one. */
  function Of(ls: seq<Listener>, name: string): Option<Listener> {
    var k := Find(ls, name);
    if k < |ls| then Some(ls[k]) else None
  }

  lemma NamedIs(ls: seq<Listener>, name: string)
    ensures Named(ls, name) <==> Find(ls, name) < |ls|
  {
  }

  /**
   A listener is installed unless its name is taken by a special one, or by any and it is not to be rebound,
   or cannot be bound. Then it, and no other, has the name and leads to the destination and the transport
   given; a listener that was there before keeps its place in memory. Every other listener stays.
   */
  lemma InstallOutcome(s: State, name: string, connectTo: string, t: Option<nat>, noRebind: bool, binds: bool)
    requires Distinct(s.listeners)
    ensures var r := Install(s, name, connectTo, t, noRebind, binds); var was := Of(s.listeners, name);
            && r.status == (if was.None? then (if binds then Ok else CannotBind)
                            else if Special(was.value.connectTo) then InternalError
                            else if noRebind then CannotRebind else Ok)
            && (!r.status.Ok? ==> r.state == s)
            && (r.status.Ok? ==> r.state.next == s.next + if was.None? then 1 else 0)
            && (r.status.Ok? && was.Some? && was.value.transport == t ==> r.state.hooks == s.hooks)
            && (r.status.Ok? ==>
                  var l := Listener(if was.None? then s.next else was.value.id, name, connectTo, t);
                  forall k :: k in r.state.listeners <==> k == l || (k in s.listeners && k.name != name))
  {
    var k := Find(s.listeners, name);
    var r := Install(s, name, connectTo, t, noRebind, binds);
    if r.status.Ok? {
      var l := Listener(if k == |s.listeners| then s.next else s.listeners[k].id, name, connectTo, t);
      if k < |s.listeners| {
        ReplacedOne(s.listeners, k, l);
      } else {
        assert r.state.listeners == s.listeners + [l];
      }
    }
  }

  lemma ReplacedOne(ls: seq<Listener>, k: nat, l: Listener)
    requires Distinct(ls) && k < |ls|
    ensures forall x :: x in ls[k := l] <==> x == l || (x in ls && x.name != ls[k].name)
  {
    var after := ls[k := l];
    forall x
      ensures x in after <==> x == l || (x in ls && x.name != ls[k].name)
    {
      assert after[k] == l;
      if x in ls && x.name != ls[k].name {
        var i :| 0 <= i < |ls| && ls[i] == x;
        assert after[i] == x;
      }
    }
  }

  /** A listener is removed if and only if there is one of that name; every other one stays. */
  lemma RemoveOutcome(s: State, name: string)
    requires Distinct(s.listeners)
    ensures var r := Remove(s, name);
            && r.status == (if Named(s.listeners, name) then Ok else NotFound)
            && (r.status.NotFound? ==> r.state == s)
            && forall l :: l in r.state.listeners <==> l in s.listeners && l.name != name
  {
    NamedIs(s.listeners, name);
    var k := Find(s.listeners, name);
    if k < |s.listeners| {
      DroppedOne(s.listeners, k);
    }
  }

  lemma DroppedOne(ls: seq<Listener>, k: nat)
    requires Distinct(ls) && k < |ls|
    ensures forall x :: x in ls[..k] + ls[k + 1..] <==> x in ls && x.name != ls[k].name
  {
    var after := ls[..k] + ls[k + 1..];
    forall x
      ensures x in after <==> x in ls && x.name != ls[k].name
    {
      if x in ls && x.name != ls[k].name {
        var i :| 0 <= i < |ls| && ls[i] == x;
        assert after[if i < k then i else i - 1] == x;
      }
      if x in after {
        var i :| 0 <= i < |after| && after[i] == x;
        assert ls[if i < k then i else i + 1] == x;
      }
    }
  }

  lemma FreeInv(s: State, k: nat)
    requires Inv(s) && k < |s.listeners|
    ensures Inv(Free(s, k))
  {
    var l, after := s.listeners[k], Free(s, k);
    forall t: nat
      ensures Hooked(after.listeners, Hooks(after, t), t)
    {
      assert Hooked(s.listeners, Hooks(s, t), t);
      forall id: nat
        ensures Bound(after.listeners, id, t) <==> Bound(s.listeners, id, t) && id != l.id
      {
        OneFewer(s.listeners, k, id, t);
      }
      assert Bound(s.listeners, l.id, t) ==> l.transport == Some(t);
    }
  }

  lemma OneFewer(ls: seq<Listener>, k: nat, id: nat, t: nat)
    requires Distinct(ls) && k < |ls|
    ensures Bound(ls[..k] + ls[k + 1..], id, t) <==> Bound(ls, id, t) && id != ls[k].id
  {
    var after := ls[..k] + ls[k + 1..];
    assert forall i :: 0 <= i < |after| ==> after[i] == if i < k then ls[i] else ls[i + 1];
    if Bound(ls, id, t) && id != ls[k].id {
      var i :| 0 <= i < |ls| && ls[i].id == id && ls[i].transport == Some(t);
      var j := if i < k then i else i - 1;
      assert after[j] == ls[i];
    }
  }

  lemma RebindInv(s: State, k: nat, connectTo: string, t: Option<nat>)
    requires Inv(s) && k < |s.listeners| && s.listeners[k].transport.Some? && t.Some?
    ensures Inv(Rebind(s, k, connectTo, t))
  {
    var l, after := s.listeners[k], Rebind(s, k, connectTo, t);
    forall u: nat
      ensures Hooked(after.listeners, Hooks(after, u), u)
    {
      assert Hooked(s.listeners, Hooks(s, u), u);
      forall id: nat
        ensures Bound(after.listeners, id, u) <==> if id == l.id then t == Some(u) else Bound(s.listeners, id, u)
      {
        OneMoved(s.listeners, k, l.(connectTo := connectTo, transport := t), id, u);
      }
      assert Bound(s.listeners, l.id, u) <==> l.transport == Some(u);
    }
  }

  lemma OneMoved(ls: seq<Listener>, k: nat, l: Listener, id: nat, t: nat)
    requires Distinct(ls) && k < |ls| && l.id == ls[k].id
    ensures Bound(ls[k := l], id, t) <==> if id == l.id then l.transport == Some(t) else Bound(ls, id, t)
  {
    var after := ls[k := l];
    if id == l.id {
      assert after[k] == l;
    } else if Bound(ls, id, t) {
      var i :| 0 <= i < |ls| && ls[i].id == id && ls[i].transport == Some(t);
      assert after[i] == ls[i];
    }
  }

  lemma AddInv(s: State, name: string, connectTo: string, t: Option<nat>)
    requires Inv(s) && Find(s.listeners, name) == |s.listeners| && (t.None? ==> Special(connectTo))
    ensures Inv(Add(s, name, connectTo, t))
  {
    var after := Add(s, name, connectTo, t);
    forall u: nat
      ensures Hooked(after.listeners, Hooks(after, u), u)
    {
      assert Hooked(s.listeners, Hooks(s, u), u);
      forall id: nat
        ensures Bound(after.listeners, id, u) <==> Bound(s.listeners, id, u) || (id == s.next && t == Some(u))
      {
        OneMore(s.listeners, Listener(s.next, name, connectTo, t), id, u);
      }
      assert !Bound(s.listeners, s.next, u);
    }
  }

  lemma OneMore(ls: seq<Listener>, l: Listener, id: nat, t: nat)
    ensures Bound(ls + [l], id, t) <==> Bound(ls, id, t) || (id == l.id && l.transport == Some(t))
  {
    var after := ls + [l];
    assert after[|ls|] == l;
    if Bound(ls, id, t) {
      var i :| 0 <= i < |ls| && ls[i].id == id && ls[i].transport == Some(t);
      assert after[i] == ls[i];
    }
  }

  lemma {:induction false} RemoveAllInv(s: State, k: nat)
    requires Inv(s) && k <= |s.listeners| && forall i :: 0 <= i < k ==> Special(s.listeners[i].connectTo)
    ensures Inv(RemoveAll(s, k)) && RemoveAll(s, k).listeners == Specials(s.listeners)
    decreases |s.listeners| - k
  {
    if k == |s.listeners| {
      SpecialsAll(s.listeners);
    } else if Special(s.listeners[k].connectTo) {
      RemoveAllInv(s, k + 1);
    } else {
      FreeInv(s, k);
      SpecialsWithout(s.listeners, k);
      RemoveAllInv(Free(s, k), k);
    }
  }

  function Specials(ls: seq<Listener>): seq<Listener> {
    if ls == [] then [] else (if Special(ls[0].connectTo) then [ls[0]] else []) + Specials(ls[1..])
  }

  lemma {:induction false} SpecialsAll(ls: seq<Listener>)
    requires forall i :: 0 <= i < |ls| ==> Special(ls[i].connectTo)
    ensures Specials(ls) == ls
  {
    if ls != [] {
      SpecialsAll(ls[1..]);
    }
  }

  lemma {:induction false} SpecialsWithout(ls: seq<Listener>, k: nat)
    requires k < |ls| && !Special(ls[k].connectTo)
    ensures Specials(ls[..k] + ls[k + 1..]) == Specials(ls)
  {
    if k == 0 {
      assert ls[..0] + ls[1..] == ls[1..];
      assert Specials(ls) == [] + Specials(ls[1..]);
    } else {
      var after := ls[..k] + ls[k + 1..];
      assert after[1..] == ls[1..][..k - 1] + ls[1..][k..] && after[0] == ls[0];
      SpecialsWithout(ls[1..], k - 1);
    }
  }

  // ---- disconnecting ----

  /** The listeners not bound to a transport, in order. */
  function NotBoundTo(ls: seq<Listener>, t: nat): (r: seq<Listener>)
    ensures forall i :: 0 <= i < |r| ==> r[i].transport != Some(t)
  {
    if ls == [] then [] else (if ls[0].transport == Some(t) then [] else [ls[0]]) + NotBoundTo(ls[1..], t)
  }

  lemma {:induction false} DropIdIs(ls: seq<Listener>, id: nat, t: nat)
    requires Distinct(ls) && Bound(ls, id, t)
    ensures exists k :: && 0 <= k < |ls| && ls[k].id == id && ls[k].transport == Some(t)
                        && DropId(ls, id) == ls[..k] + ls[k + 1..]
  {
    var k :| 0 <= k < |ls| && ls[k].id == id && ls[k].transport == Some(t);
    DropIdAt(ls, k);
  }

  lemma {:induction false} DropIdAt(ls: seq<Listener>, k: nat)
    requires k < |ls| && forall j :: 0 <= j < k ==> ls[j].id != ls[k].id
    ensures DropId(ls, ls[k].id) == ls[..k] + ls[k + 1..]
  {
    if k == 0 {
      assert ls[..0] + ls[1..] == ls[1..];
    } else {
      DropIdAt(ls[1..], k - 1);
      assert ls[..k] + ls[k + 1..] == [ls[0]] + (ls[1..][..k - 1] + ls[1..][k..]);
    }
  }

  lemma {:induction false} NotBoundWithout(ls: seq<Listener>, k: nat, t: nat)
    requires k < |ls| && ls[k].transport == Some(t)
    ensures NotBoundTo(ls[..k] + ls[k + 1..], t) == NotBoundTo(ls, t)
  {
    if k == 0 {
      assert ls[..0] + ls[1..] == ls[1..];
      assert NotBoundTo(ls, t) == [] + NotBoundTo(ls[1..], t);
    } else {
      var after := ls[..k] + ls[k + 1..];
      assert after[1..] == ls[1..][..k - 1] + ls[1..][k..] && after[0] == ls[0];
      NotBoundWithout(ls[1..], k - 1, t);
    }
  }

  lemma {:induction false} NoneBound(ls: seq<Listener>, t: nat)
    requires forall id: nat :: !Bound(ls, id, t)
    ensures NotBoundTo(ls, t) == ls
  {
    if ls != [] {
      assert ls[0].transport == Some(t) ==> Bound(ls, ls[0].id, t);
      forall id: nat
        ensures !Bound(ls[1..], id, t)
      {
        assert !Bound(ls, id, t);
        assert forall i :: 0 <= i < |ls[1..]| ==> ls[1..][i] == ls[i + 1];
      }
      NoneBound(ls[1..], t);
    }
  }

  /** Calling the hooks of a transport frees exactly the listeners bound to it. */
  lemma {:induction false} DropIdsIs(ls: seq<Listener>, ids: seq<nat>, t: nat)
    requires Distinct(ls) && Hooked(ls, ids, t)
    ensures DropIds(ls, ids) == NotBoundTo(ls, t)
    decreases |ids|
  {
    if ids == [] {
      NoneBound(ls, t);
    } else {
      assert ids[0] in ids;
      DropIdIs(ls, ids[0], t);
      var k :| && 0 <= k < |ls| && ls[k].id == ids[0] && ls[k].transport == Some(t)
               && DropId(ls, ids[0]) == ls[..k] + ls[k + 1..];
      var after := ls[..k] + ls[k + 1..];
      forall id: nat
        ensures id in ids[1..] <==> Bound(after, id, t)
      {
        OneFewer(ls, k, id, t);
        assert id in ids <==> id == ids[0] || id in ids[1..];
      }
      DistinctWithout(ls, k);
      DropIdsIs(after, ids[1..], t);
      NotBoundWithout(ls, k, t);
    }
  }

  lemma DistinctWithout(ls: seq<Listener>, k: nat)
    requires Distinct(ls) && k < |ls|
    ensures Distinct(ls[..k] + ls[k + 1..])
  {
  }

  lemma {:induction false} NotBoundIn(ls: seq<Listener>, t: nat)
    ensures forall l :: l in NotBoundTo(ls, t) ==> l in ls
  {
    if ls != [] {
      NotBoundIn(ls[1..], t);
    }
  }

  lemma DistinctAhead(l: Listener, r: seq<Listener>)
    requires Distinct(r) && forall x :: x in r ==> x.name != l.name && x.id != l.id
    ensures Distinct([l] + r)
  {
  }

  lemma {:induction false} NotBoundDistinct(ls: seq<Listener>, t: nat)
    requires Distinct(ls)
    ensures Distinct(NotBoundTo(ls, t))
  {
    if ls != [] {
      NotBoundDistinct(ls[1..], t);
      NotBoundIn(ls[1..], t);
      var r := NotBoundTo(ls[1..], t);
      assert [] + r == r;
      assert forall l :: l in ls[1..] ==> l.name != ls[0].name && l.id != ls[0].id;
      DistinctAhead(ls[0], r);
    }
  }

  lemma {:induction false} NotBoundBinds(ls: seq<Listener>, t: nat, id: nat, u: nat)
    ensures Bound(NotBoundTo(ls, t), id, u) <==> Bound(ls, id, u) && u != t
  {
    if ls != [] {
      var r := NotBoundTo(ls[1..], t);
      NotBoundBinds(ls[1..], t, id, u);
      assert ls == [ls[0]] + ls[1..];
      OneAhead(ls[0], ls[1..], id, u);
      OneAhead(ls[0], r, id, u);
      assert [] + r == r;
    }
  }

  lemma OneAhead(l: Listener, ls: seq<Listener>, id: nat, t: nat)
    ensures Bound([l] + ls, id, t) <==> Bound(ls, id, t) || (id == l.id && l.transport == Some(t))
  {
    var after := [l] + ls;
    assert after[0] == l;
    if Bound(ls, id, t) {
      var i :| 0 <= i < |ls| && ls[i].id == id && ls[i].transport == Some(t);
      assert after[i + 1] == ls[i];
    }
  }

  /** After RunDisconnects the listeners are those that were bound elsewhere, and nothing hangs on the transport. */
  lemma RunDisconnectsInv(s: State, t: nat)
    requires Inv(s)
    ensures Inv(RunDisconnects(s, t)) && RunDisconnects(s, t).listeners == NotBoundTo(s.listeners, t)
    ensures Hooks(RunDisconnects(s, t), t) == []
    ensures forall u: nat :: u != t ==> Hooks(RunDisconnects(s, t), u) == Hooks(s, u)
  {
    assert Hooked(s.listeners, Hooks(s, t), t);
    DropIdsIs(s.listeners, Hooks(s, t), t);
    NotBoundIn(s.listeners, t);
    NotBoundDistinct(s.listeners, t);
    var after := RunDisconnects(s, t);
    assert forall i :: 0 <= i < |after.listeners| ==> after.listeners[i] in s.listeners;
    forall u: nat
      ensures Hooked(after.listeners, Hooks(after, u), u)
    {
      assert Hooked(s.listeners, Hooks(s, u), u);
      forall id: nat
        ensures Bound(after.listeners, id, u) <==> Bound(s.listeners, id, u) && u != t
      {
        NotBoundBinds(s.listeners, t, id, u);
      }
    }
  }

  // ---- every run ----

  datatype Op =
    | InstallOp(name: string, connectTo: string, transport: Option<nat>, noRebind: bool, binds: bool)
    | RemoveOp(name: string)
    | RemoveAllOp
    | DisconnectOp(t: nat)

  /** install_listener follows the transports of a rebinding, so both must be there. */
  predicate Allowed(s: State, op: Op) {
    op.InstallOp? && op.transport.None? ==>
      && Special(op.connectTo)
      && var k := Find(s.listeners, op.name);
         k < |s.listeners| ==> op.noRebind || Special(s.listeners[k].connectTo)
  }

  function Apply(s: State, op: Op): State {
    match op
    case InstallOp(name, connectTo, t, noRebind, binds) => Install(s, name, connectTo, t, noRebind, binds).state
    case RemoveOp(name) => Remove(s, name).state
    case RemoveAllOp => RemoveAll(s, 0)
    case DisconnectOp(t) => RunDisconnects(s, t)
  }

  lemma ApplyInv(s: State, op: Op)
    requires Inv(s) && Allowed(s, op)
    ensures Inv(Apply(s, op))
  {
    match op
    case InstallOp(name, connectTo, t, noRebind, binds) =>
      var k := Find(s.listeners, name);
      if k < |s.listeners| {
        if !Special(s.listeners[k].connectTo) && !noRebind {
          RebindInv(s, k, connectTo, t);
        }
      } else if binds {
        AddInv(s, name, connectTo, t);
      }
    case RemoveOp(name) =>
      if Find(s.listeners, name) < |s.listeners| {
        FreeInv(s, Find(s.listeners, name));
      }
    case RemoveAllOp => RemoveAllInv(s, 0);
    case DisconnectOp(t) => RunDisconnectsInv(s, t);
  }

  predicate Run(states: seq<State>, ops: seq<Op>) {
    |states| == |ops| + 1 && states[0] == State([], map[], 0) &&
    forall k :: 0 <= k < |ops| ==> Allowed(states[k], ops[k]) && states[k + 1] == Apply(states[k], ops[k])
  }

  lemma {:induction false} RunInv(states: seq<State>, ops: seq<Op>, n: nat)
    requires Run(states, ops) && n < |states|
    ensures Inv(states[n])
  {
    if n == 0 {
      forall t: nat
        ensures Hooked(states[0].listeners, Hooks(states[0], t), t)
      {
      }
    } else {
      RunInv(states, ops, n - 1);
      ApplyInv(states[n - 1], ops[n - 1]);
    }
  }

  /**
   In every run: local names are unique, every listener but special ones has a transport (which
   format_listeners relies on), a listener's hook is in a transport's disconnect list exactly
   once if and only if the listener is bound to it, and after a disconnect no listener refers to that
   transport while those bound elsewhere are all still there.
   */
  lemma ListenersAndHooksAgree(states: seq<State>, ops: seq<Op>, n: nat, t: nat, id: nat)
    requires Run(states, ops) && n < |states|
    ensures Distinct(states[n].listeners) && Attached(states[n].listeners)
    ensures multiset(Hooks(states[n], t))[id] == if Bound(states[n].listeners, id, t) then 1 else 0
    ensures n > 0 && ops[n - 1] == DisconnectOp(t) ==>
              states[n].listeners == NotBoundTo(states[n - 1].listeners, t) && !Bound(states[n].listeners, id, t)
    ensures n > 0 && ops[n - 1] == RemoveAllOp ==> states[n].listeners == Specials(states[n - 1].listeners)
  {
    RunInv(states, ops, n);
    assert Hooked(states[n].listeners, Hooks(states[n], t), t);
    CountOf(Hooks(states[n], t), id);
    if n > 0 {
      RunInv(states, ops, n - 1);
      if ops[n - 1] == DisconnectOp(t) {
        RunDisconnectsInv(states[n - 1], t);
      } else if ops[n - 1] == RemoveAllOp {
        RemoveAllInv(states[n - 1], 0);
      }
    }
  }

  lemma {:induction false} CountOf(ids: seq<nat>, id: nat)
    requires NoRepeats(ids)
    ensures multiset(ids)[id] == if id in ids then 1 else 0
  {
    if ids != [] {
      CountOf(ids[1..], id);
      assert ids == [ids[0]] + ids[1..];
      assert ids[0] !in ids[1..];
    }
  }

  // ---- the lists as they are changed in place ----

  class Table {
    var listeners: seq<Listener>
    var hooks: map<nat, seq<nat>>
    var next: nat

    constructor ()
      ensures Value() == State([], map[], 0)
    {
      listeners, hooks, next := [], map[], 0;
    }

    function Value(): State
      reads this
    {
      State(listeners, hooks, next)
    }

    method AddDisconnect(t: nat, id: nat)
      modifies this`hooks
      ensures Value() == AddHook(old(Value()), Some(t), id)
    {
      hooks := hooks[t := (if t in hooks then hooks[t] else []) + [id]];
    }

    /** std::list::remove walks the list and drops every match. */
    method RemoveDisconnect(t: nat, id: nat)
      modifies this`hooks
      ensures Value() == RemoveHook(old(Value()), Some(t), id)
    {
      var ids := if t in hooks then hooks[t] else [];
      var kept := Filtered(ids, id);
      hooks := hooks[t := kept];
    }

    method FreeListener(k: nat)
      requires k < |listeners|
      modifies this
      ensures Value() == Free(old(Value()), k)
    {
      var l := listeners[k];
      listeners := listeners[..k] + listeners[k + 1..];
      if l.transport.Some? {
        RemoveDisconnect(l.transport.value, l.id);
      }
    }

    method RemoveListener(name: string) returns (status: Status)
      modifies this
      ensures Result(Value(), status) == Remove(old(Value()), name)
    {
      var k := 0;
      while k < |listeners|
        invariant k <= |listeners| && forall j :: 0 <= j < k ==> listeners[j].name != name
      {
        if listeners[k].name == name {
          FreeListener(k);
          return Ok;
        }
        k := k + 1;
      }
      return NotFound;
    }

    method RemoveAllListeners()
      modifies this
      ensures Value() == RemoveAll(old(Value()), 0)
    {
      var k := 0;
      ghost var goal := RemoveAll(Value(), 0);
      while k < |listeners|
        invariant k <= |listeners| && RemoveAll(Value(), k) == goal
        decreases |listeners| - k
      {
        ghost var s, j := Value(), k;
        if Special(listeners[k].connectTo) {
          k := k + 1;
        } else {
          FreeListener(k);
        }
        RemoveAllStep(s, j, Value(), k);
      }
    }

    method InstallListener(name: string, connectTo: string, t: Option<nat>, noRebind: bool, binds: bool)
      returns (status: Status)
      requires Inv(Value()) && Allowed(Value(), InstallOp(name, connectTo, t, noRebind, binds))
      modifies this
      ensures Result(Value(), status) == Install(old(Value()), name, connectTo, t, noRebind, binds)
      ensures Inv(Value())
    {
      ApplyInv(Value(), InstallOp(name, connectTo, t, noRebind, binds));
      var k := 0;
      while k < |listeners|
        invariant k <= |listeners| && forall j :: 0 <= j < k ==> listeners[j].name != name
        invariant unchanged(this)
      {
        var l := listeners[k];
        if l.name == name {
          if Special(l.connectTo) {
            return InternalError;
          }
          if noRebind {
            return CannotRebind;
          }
          if l.transport != t {
            RemoveDisconnect(l.transport.value, l.id);
            AddDisconnect(t.value, l.id);
          }
          listeners := listeners[k := l.(connectTo := connectTo, transport := t)];
          return Ok;
        }
        k := k + 1;
      }
      if !binds {
        return CannotBind;
      }
      var l := Listener(next, name, connectTo, t);
      next := next + 1;
      listeners := listeners + [l];
      if t.Some? {
        AddDisconnect(t.value, l.id);
      }
      return Ok;
    }

    /** listener_disconnect. */
    method Forget(id: nat)
      modifies this`listeners
      ensures listeners == DropId(old(listeners), id)
    {
      var k := 0;
      while k < |listeners| && listeners[k].id != id
        invariant k <= |listeners| && forall j :: 0 <= j < k ==> listeners[j].id != id
      {
        k := k + 1;
      }
      if k < |listeners| {
        DropIdAt(listeners, k);
        listeners := listeners[..k] + listeners[k + 1..];
      } else {
        DropNone(listeners, id);
      }
    }

    method DisconnectAll(t: nat)
      modifies this
      ensures Value() == RunDisconnects(old(Value()), t)
    {
      var ids, i := if t in hooks then hooks[t] else [], 0;
      while i < |ids|
        invariant i <= |ids| && DropIds(listeners, ids[i..]) == DropIds(old(listeners), ids)
        invariant hooks == old(hooks) && next == old(next)
      {
        Forget(ids[i]);
        assert ids[i..][1..] == ids[i + 1..];
        i := i + 1;
      }
      hooks := hooks[t := []];
    }
  }

  lemma {:induction false} DropNone(ls: seq<Listener>, id: nat)
    requires forall j :: 0 <= j < |ls| ==> ls[j].id != id
    ensures DropId(ls, id) == ls
  {
    if ls != [] {
      DropNone(ls[1..], id);
    }
  }
}
