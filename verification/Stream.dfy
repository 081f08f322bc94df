/**
 One multiplexed stream, seen apart from all others: the state of the local socket at each end
 (adb/sockets.cpp) and the messages in flight between them.

 The functions on `Half` are the local socket operations; the endpoint module applies the same
 functions to the sockets in its table.
 */
module Stream {
  import opened Bytes

  /** Where a local socket is: not created, on the live list, on the closing list, or freed. */
  datatype Phase = Absent | Live | Draining | Gone

  /** Why a socket left the live list, or lost what was still queued on the closing list. */
  datatype Cause = Running | PeerClosed | LocalClosed | WriteFailed | Dropped

  /**
   A local socket. `up`: has a peer; `rd`, `wr`: armed for FDE_READ, FDE_WRITE; `queue`: packets
   waiting for the fd. `sent` is what was read from the fd and handed to the peer, `got` what the
   fd accepted; both outlive the socket.
   */
  datatype Half = Half(phase: Phase, up: bool, rd: bool, wr: bool, queue: seq<bytes>,
                       sent: bytes, got: bytes, cause: Cause)

  /** A message of one stream. `MFail` is CLOSE(0, id), the answer to a refused OPEN. */
  datatype Msg = MOpen | MOkay | MWrte(data: bytes) | MClse | MFail

  /** The net effect of a run of adb_write calls: bytes taken, then EAGAIN or an error. */
  datatype WriteOutcome = WriteOutcome(n: nat, err: bool)

  /** The net effect of a run of adb_read calls. */
  datatype ReadOutcome = ReadOutcome(data: bytes, eof: bool)

  /** One call of the event function: the event bits and what the system calls return. */
  datatype Event = Event(write: bool, read: bool, wo: WriteOutcome, ro: ReadOutcome)

  datatype Effect = Effect(h: Half, out: seq<Msg>)

  const NO_SOCKET := Half(Absent, false, false, false, [], [], [], Running)

  function Min(a: nat, b: nat): nat {
    if a < b then a else b
  }

  /** A socket on the live list or the closing list, so still known to the event loop. */
  predicate Open(h: Half) {
    h.phase.Live? || h.phase.Draining?
  }

  /** The queue after the fd took its first `n` bytes. */
  function Drop(queue: seq<bytes>, n: nat): (r: seq<bytes>)
  {
    if queue == [] then []
    else if n >= |queue[0]| then Drop(queue[1..], n - |queue[0]|)
    else [queue[0][n..]] + queue[1..]
  }

  lemma {:induction false} DropCat(queue: seq<bytes>, n: nat)
    requires n <= |Cat(queue)|
    ensures Cat(Drop(queue, n)) == Cat(queue)[n..]
    ensures n < |Cat(queue)| ==> 0 < |Drop(queue, n)| <= |queue|
    ensures n == |Cat(queue)| ==> Drop(queue, n) == []
  {
    if queue != [] {
      if n >= |queue[0]| {
        DropCat(queue[1..], n - |queue[0]|);
      } else {
        assert ([queue[0][n..]] + queue[1..])[1..] == queue[1..];
      }
    }
  }

  /** local_socket_ready. */
  function Ready(h: Half): Half {
    h.(rd := true)
  }

  /** local_socket_close; `why.WriteFailed?` is has_write_error. */
  function Close(h: Half, why: Cause): Effect
    requires Open(h)
  {
    var out := if h.up then [MClse] else [];
    if h.phase.Draining? || why.WriteFailed? || h.queue == [] then
      Effect(h.(phase := Gone, up := false, rd := false, wr := false, queue := [],
                cause := if h.phase.Draining? && h.queue == [] then h.cause else why), out)
    else
      Effect(h.(phase := Draining, up := false, rd := false, cause := why), out)
  }

  /** local_socket_enqueue, with the OKAY its caller sends when it returns 0. */
  function Enqueue(h: Half, data: bytes, wo: WriteOutcome): Effect
    requires h.phase.Live?
  {
    if h.queue != [] then
      Effect(h.(queue := h.queue + [data], wr := true), [])
    else
      var n := Min(wo.n, |data|);
      var h' := h.(got := h.got + data[..n]);
      if n == |data| then Effect(h', [MOkay])
      else if wo.err then Close(h', WriteFailed)
      else Effect(h'.(queue := [data[n..]], wr := true), [])
  }

  /** The FDE_WRITE part of local_socket_event_func; `more` says that the FDE_READ part follows. */
  function WriteEvent(h: Half, wo: WriteOutcome): (r: (Effect, bool))
    requires Open(h)
  {
    var all := Cat(h.queue);
    var n := Min(wo.n, |all|);
    var h' := h.(queue := Drop(h.queue, n), got := h.got + all[..n]);
    if n < |all| then
      (if wo.err then Close(h', WriteFailed) else Effect(h', []), false)
    else
      var h'' := h'.(queue := []);
      if h.phase.Draining? then (Close(h'', h.cause), false)
      else (Effect(h''.(wr := false), [MOkay]), true)
  }

  /** The FDE_READ part. Without a peer the data is thrown away. */
  function ReadEvent(h: Half, ro: ReadOutcome): Effect
    requires Open(h)
  {
    var forward := ro.data != [] && h.up;
    var h' := if forward then h.(sent := h.sent + ro.data, rd := false) else h;
    var out := if forward then [MWrte(ro.data)] else [];
    if ro.eof then
      var e := Close(h', if h.phase.Live? then LocalClosed else Dropped);
      Effect(e.h, out + e.out)
    else
      Effect(h', out)
  }

  /** local_socket_event_func. */
  function HandleEvent(h: Half, ev: Event): Effect
    requires Open(h)
  {
    var w := if ev.write then WriteEvent(h, ev.wo) else (Effect(h, []), true);
    if w.1 && ev.read then
      var r := ReadEvent(w.0.h, ev.ro);
      Effect(r.h, w.0.out + r.out)
    else
      w.0
  }

  // ---- what every operation keeps ----

  /**
   The standing facts about one socket: it is armed for writing exactly when packets are queued,
   packets are queued only for a connected or a closing socket, and only a connected socket is
   armed for reading.
   */
  predicate HalfOk(h: Half) {
    match h.phase
    case Absent => h == NO_SOCKET
    case Live => (h.wr <==> h.queue != []) && (h.queue != [] ==> h.up) && (h.rd ==> h.up) && h.cause.Running?
    case Draining => !h.up && !h.rd && h.wr && h.queue != [] && !h.cause.Running?
    case Gone => !h.up && !h.rd && !h.wr && h.queue == [] && !h.cause.Running?
  }
}
