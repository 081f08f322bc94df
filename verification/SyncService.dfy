/** The two ends of a sync session as they run, on descriptors that give and take what they like. */
module SyncService {
  import opened Bytes
  import opened Io
  import opened Sync

  // ---- loops common to both ends ----

  /** One turn of the body loop takes a piece off the front. */
  lemma TakeStep(b: bytes, n: nat, piece: bytes, rest: bytes)
    requires |b| >= 8 && Word(b, 0) == ID_DATA && Word(b, 1) == n <= SYNC_DATA_MAX && n <= |b| - 8
    requires piece == b[8..8 + n] && rest == b[8 + n..]
    ensures TakeBody(b) == After(piece, TakeBody(rest))
  {
  }

  lemma AfterBoth(got: bytes, piece: bytes, body: Body)
    ensures After(got, After(piece, body)) == After(got + piece, body)
  {
    if body.Body? {
      assert got + (piece + body.data) == got + piece + body.data;
    }
  }

  lemma AfterNothing(body: Body)
    ensures After([], body) == body
  {
    if body.Body? {
      assert [] + body.data == body.data;
    }
  }

  function After(got: bytes, body: Body): Body {
    match body
    case BadBody => BadBody
    case Body(data, stamp, rest) => Body(got + data, stamp, rest)
  }

  /** Reads a request, a data header or a status. */
  method ReadPair(input: InFd) returns (ok: bool, id: u32, n: u32)
    modifies input
    ensures ok ==> var b := old(input.rest); |b| >= 8 && Word(b, 0) == id && Word(b, 1) == n && input.rest == b[8..]
    ensures 0 !in old(input.gives) ==> 0 !in input.gives && (ok <==> |old(input.rest)| >= 8)
  {
    ghost var b := input.rest;
    var head;
    ok, head := ReadFdExactly(input, 8);
    if !ok {
      return false, 0, 0;
    }
    assert b[0..4] == head[0..4] && b[4..8] == head[4..8];
    return true, Word(head, 0), Word(head, 1);
  }

  /** The stream ends inside a body, before anything in it is wrong. */
  predicate BodyEnds(b: bytes)
    decreases |b|
  {
    |b| < 8 ||
    (Word(b, 0) == ID_DATA && Word(b, 1) <= SYNC_DATA_MAX && (|b| - 8 < Word(b, 1) || BodyEnds(b[8 + Word(b, 1)..])))
  }

  /** The receiving loop of handle_send_file and of sync_recv, into a file. */
  method ReceiveBody(input: InFd, file: OutFd) returns (ok: bool, stamp: u32, ended: bool)
    requires input != (file as object)
    modifies input, file
    ensures ok ==> After(old(file.written), TakeBody(old(input.rest))) == Body(file.written, stamp, input.rest)
    ensures ended ==> !ok
    ensures 0 !in old(input.gives) && Fails !in old(file.does) ==>
              && 0 !in input.gives && (ok <==> TakeBody(old(input.rest)).Body?)
              && (ended <==> BodyEnds(old(input.rest)))
  {
    ghost var whole, ends := After(file.written, TakeBody(input.rest)), BodyEnds(input.rest);
    ok, stamp, ended := false, 0, false;
    while true
      invariant After(file.written, TakeBody(input.rest)) == whole && BodyEnds(input.rest) == ends && !ended
      invariant 0 !in old(input.gives) ==> 0 !in input.gives
      invariant Fails !in old(file.does) ==> Fails !in file.does
      decreases |input.rest|
    {
      ghost var b := input.rest;
      var read, id, size := ReadPair(input);
      if !read {
        return false, 0, true;
      }
      if id == ID_DONE {
        assert file.written + [] == file.written;
        return true, size, false;
      }
      if id != ID_DATA || size > SYNC_DATA_MAX {
        return false, 0, false;
      }
      var more, data := ReadFdExactly(input, size);
      if !more {
        return false, 0, true;
      }
      assert data == b[8..8 + size] && input.rest == b[8 + size..];
      TakeStep(b, size, data, input.rest);
      AfterBoth(file.written, data, TakeBody(input.rest));
      var wrote := WriteFdExactly(file, data);
      if !wrote {
        return false, 0, false;
      }
    }
  }

  // ---- the server ----

  method DoStat(out: OutFd, files: Files, path: bytes) returns (ok: bool)
    modifies out
    ensures ok ==> out.written == old(out.written) + StatBytes(files, path)
    ensures Fails !in old(out.does) ==> ok && Fails !in out.does
  {
    var st := File(0, 0, []);
    if path in files {
      st := files[path];
    }
    ok := WriteFdExactly(out, Le32(ID_STAT) + Le32(st.mode) + Le32(Low32(|st.data|)) + Le32(Low32(st.time)));
  }

  method SendDent(out: OutFd, d: Dent) returns (ok: bool)
    requires |d.name| < MAX_NAME
    modifies out
    ensures ok ==> out.written == old(out.written) + DentBytes(ID_DENT, d)
    ensures Fails !in old(out.does) ==> ok && Fails !in out.does
  {
    var head := DentBytes(ID_DENT, d)[..20];
    ok := WriteFdExactly(out, head);
    if ok {
      ok := WriteFdExactly(out, d.name);
    }
    assert DentBytes(ID_DENT, d) == head + d.name;
    Joined(old(out.written), head, d.name);
  }

  method DoList(out: OutFd, files: Files, dir: bytes, names: seq<bytes>) returns (ok: bool)
    requires forall k :: 0 <= k < |names| ==> |names[k]| < MAX_NAME
    modifies out
    ensures ok ==> out.written == old(out.written) + DentsBytes(Entries(files, dir, names))
    ensures Fails !in old(out.does) ==> ok && Fails !in out.does
  {
    ghost var rest := Entries(files, dir, names);
    ghost var all := out.written + DentsBytes(rest);
    var i := 0;
    assert names[0..] == names;
    while i < |names|
      invariant i <= |names| && rest == Entries(files, dir, names[i..])
      invariant out.written + DentsBytes(rest) == all
      invariant Fails !in old(out.does) ==> Fails !in out.does
    {
      var path := dir + [47] + names[i];
      assert names[i..][1..] == names[i + 1..];
      ghost var more := Entries(files, dir, names[i + 1..]);
      if path in files {
        var d := Dent(files[path].mode, Low32(|files[path].data|), Low32(files[path].time), names[i]);
        assert rest == [d] + more;
        DentsStep(d, more);
        Joined(out.written, DentBytes(ID_DENT, d), DentsBytes(more));
        ok := SendDent(out, d);
        if !ok {
          return;
        }
      }
      rest := more;
      i := i + 1;
    }
    ok := WriteFdExactly(out, DentBytes(ID_DONE, Dent(0, 0, 0, [])));
  }

  lemma DentsStep(d: Dent, more: seq<Dent>)
    requires |d.name| < MAX_NAME && ShortNames(more)
    ensures ShortNames([d] + more) && DentsBytes([d] + more) == DentBytes(ID_DENT, d) + DentsBytes(more)
  {
    assert ([d] + more)[1..] == more;
  }

  method SendFrame(out: OutFd, data: bytes) returns (ok: bool)
    requires |data| <= SYNC_DATA_MAX
    modifies out
    ensures ok ==> out.written == old(out.written) + Frame(data)
    ensures Fails !in old(out.does) ==> ok && Fails !in out.does
  {
    ok := WriteFdExactly(out, Pair(ID_DATA, |data|));
    if ok {
      ok := WriteFdExactly(out, data);
    }
    Joined(old(out.written), Pair(ID_DATA, |data|), data);
  }

  /** What do_recv has yet to send of a file. */
  ghost function Unsent(file: InFd): bytes
    reads file
  {
    Frames(Chop(file.rest, file.gives))
  }

  method ReadPiece(file: InFd) returns (r: int, buffer: bytes)
    modifies file
    ensures r == -1 || r == |buffer| <= SYNC_DATA_MAX
    ensures r > 0 ==> old(Unsent(file)) == Frame(buffer) + Unsent(file) && |file.rest| < |old(file.rest)|
    ensures r == 0 ==> old(Unsent(file)) == []
    ensures 0 !in old(file.gives) ==> 0 !in file.gives && r >= 0
  {
    ghost var data, gives := file.rest, file.gives;
    r, buffer := file.AdbRead(SYNC_DATA_MAX);
    if r > 0 {
      ChopStep(data, gives);
    }
  }

  /** One turn of do_recv's loop: at the end, failed, or with a piece moved from the file to the stream. */
  method SendPiece(out: OutFd, file: InFd) returns (ok: bool, ended: bool)
    modifies out, file
    ensures ok && !ended ==> && out.written + Unsent(file) == old(out.written + Unsent(file))
                             && |file.rest| < |old(file.rest)|
    ensures ok && ended ==> out.written == old(out.written) && old(Unsent(file)) == []
    ensures Fails !in old(out.does) ==> Fails !in out.does
    ensures 0 !in old(file.gives) ==> 0 !in file.gives && (Fails !in old(out.does) ==> ok)
  {
    var r, buffer := ReadPiece(file);
    if r <= 0 {
      return r == 0, true;
    }
    ghost var frame, more := Frame(buffer), Unsent(file);
    Joined(out.written, frame, more);
    ok := SendFrame(out, buffer);
    ended := false;
  }

  method DoRecv(out: OutFd, file: InFd) returns (ok: bool)
    modifies out, file
    ensures ok ==> out.written == old(out.written) + (old(Unsent(file)) + Pair(ID_DONE, 0))
    ensures Fails !in old(out.does) ==> Fails !in out.does && (0 !in old(file.gives) ==> ok)
  {
    var ended := false;
    while !ended
      invariant out.written + (if ended then [] else Unsent(file)) == old(out.written + Unsent(file))
      invariant Fails !in old(out.does) ==> Fails !in out.does
      invariant 0 !in old(file.gives) ==> 0 !in file.gives
      decreases !ended, |file.rest|
    {
      ok, ended := SendPiece(out, file);
      if !ok {
        return;
      }
    }
    Joined(old(out.written), old(Unsent(file)), Pair(ID_DONE, 0));
    ok := WriteFdExactly(out, Pair(ID_DONE, 0));
  }

  /** One read of a file takes the first piece off it. */
  lemma ChopStep(data: bytes, gives: seq<nat>)
    requires Amount(SYNC_DATA_MAX, |data|, gives) > 0
    ensures var n := Amount(SYNC_DATA_MAX, |data|, gives);
            var more := Chop(data[n..], if gives == [] then [] else gives[1..]);
            Chop(data, gives) == [data[..n]] + more && Frames(Chop(data, gives)) == Frame(data[..n]) + Frames(more)
  {
    var n := Amount(SYNC_DATA_MAX, |data|, gives);
    var more := Chop(data[n..], if gives == [] then [] else gives[1..]);
    assert ([data[..n]] + more)[1..] == more;
  }

  /** The stream begins with a whole request for a path that is not too long. */
  predicate Requests(up: bytes) {
    |up| >= 8 && Word(up, 1) <= MAX_PATH && Word(up, 1) <= |up| - 8
  }

  predicate Parsed(up: bytes, id: u32, name: bytes, rest: bytes) {
    && Requests(up) && id == Word(up, 0)
    && name == up[8..8 + Word(up, 1)] && rest == up[8 + Word(up, 1)..]
  }

  lemma ServeParsed(files: Files, up: bytes, env: Env, id: u32, name: bytes, rest: bytes)
    requires Real(env)
    ensures Parsed(up, id, name, rest) ==> ServeOne(files, up, env) == Handle(files, id, CString(name), rest, env)
    ensures !Requests(up) ==> ServeOne(files, up, env) == Over
  {
  }

  /** A request and its path. */
  method ReadCommand(input: InFd) returns (ok: bool, id: u32, name: bytes)
    modifies input
    ensures ok ==> Parsed(old(input.rest), id, name, input.rest)
    ensures 0 !in old(input.gives) ==> 0 !in input.gives && (ok <==> Requests(old(input.rest)))
  {
    ghost var up := input.rest;
    name := [];
    var n;
    ok, id, n := ReadPair(input);
    if !ok || n > MAX_PATH {
      return false, id, [];
    }
    ok, name := ReadFdExactly(input, n);
    if ok {
      assert name == up[8..8 + n] && input.rest == up[8 + n..];
    }
  }

  function Ascii(s: string): bytes {
    seq(|s|, k requires 0 <= k < |s| => s[k] as int % 256)
  }

  /** What begins the stream where a link's DATA is expected. */
  datatype LinkData = LinkData(data: bytes, rest: bytes) | WrongData | DataEnds

  function TakeData(b: bytes): LinkData {
    if |b| < 8 then DataEnds
    else if Word(b, 0) != ID_DATA || Word(b, 1) > SYNC_DATA_MAX then WrongData
    else if |b| - 8 < Word(b, 1) then DataEnds
    else LinkData(b[8..8 + Word(b, 1)], b[8 + Word(b, 1)..])
  }

  method ReadLinkData(input: InFd) returns (ok: bool, data: bytes, ended: bool)
    modifies input
    ensures ok ==> TakeData(old(input.rest)) == LinkData(data, input.rest) && !ended
    ensures 0 !in old(input.gives) ==>
              && 0 !in input.gives && (ok <==> TakeData(old(input.rest)).LinkData?)
              && (ended <==> TakeData(old(input.rest)).DataEnds?)
  {
    ghost var b := input.rest;
    var read, id, size := ReadPair(input);
    if !read {
      return false, [], true;
    }
    if id != ID_DATA || size > SYNC_DATA_MAX {
      return false, [], false;
    }
    ok, data := ReadFdExactly(input, size);
    ended := !ok;
    assert ok ==> data == b[8..8 + size] && input.rest == b[8 + size..];
  }

  /** The stream ends inside a link, before anything in it is wrong. */
  predicate LinkEnds(files: Files, path: bytes, b: bytes, env: Env) {
    match TakeData(b)
    case LinkData(data, rest) => |rest| < 8 && CanLink(files, path, TargetIn(data, env))
    case WrongData => false
    case DataEnds => true
  }

  lemma LinkOutcome(files: Files, path: bytes, b: bytes, env: Env)
    ensures LinkServed(files, path, b, env)
         == match TakeData(b)
            case LinkData(data, rest) =>
              if CanLink(files, path, TargetIn(data, env)) && |rest| >= 8 && Word(rest, 0) == ID_DONE
              then Served(files[path := Linked(TargetIn(data, env), env.now)], Pair(ID_OKAY, 0), rest[8..])
              else Over
            case _ => Over
  {
  }

  predicate SendEnds(files: Files, spec: Spec, rest: bytes, env: Env) {
    spec.Spec? && spec.mode < 0x8000_0000 &&
    if IsLink(spec.mode) then LinkEnds(files, spec.path, rest, env)
    else !DirectoryAt(files, spec.path) && BodyEnds(rest)
  }

  /** A command that ends the session without a word: QUIT, and a SEND of which only a part has come. */
  predicate Silent(files: Files, id: u32, name: bytes, rest: bytes, env: Env) {
    id == ID_QUIT || (id == ID_SEND && SendEnds(files, ReadSpec(name), rest, env))
  }

  predicate SilentOne(files: Files, up: bytes, env: Env) {
    Requests(up) && Silent(files, Word(up, 0), CString(up[8..8 + Word(up, 1)]), up[8 + Word(up, 1)..], env)
  }

  /** Nothing was written, or else one FAIL message. */
  ghost predicate Refused(silent: bool, before: bytes, after: bytes) {
    if silent then after == before
    else exists reason: bytes :: |reason| < 0x1_0000_0000 && after == before + FailBytes(reason)
  }

  function FailBytes(reason: bytes): bytes
    requires |reason| < 0x1_0000_0000
  {
    Pair(ID_FAIL, |reason|) + reason
  }

  method SendSyncFail(out: OutFd, reason: string)
    requires |reason| < 0x1_0000_0000
    modifies out
    ensures Fails !in old(out.does) ==> Fails !in out.does && Refused(false, old(out.written), out.written)
  {
    var text := Ascii(reason);
    var ok := WriteFdExactly(out, Pair(ID_FAIL, |text|));
    if ok {
      ok := WriteFdExactly(out, text);
    }
    Joined(old(out.written), Pair(ID_FAIL, |text|), text);
    assert FailBytes(text) == Pair(ID_FAIL, |text|) + text;
  }

  /** The service on one connection, over the device's files. */
  class Server {
    var files: Files
    const input: InFd
    const out: OutFd

    constructor (files: Files, input: InFd, out: OutFd)
      ensures this.files == files && this.input == input && this.out == out
    {
      this.files, this.input, this.out := files, input, out;
    }

    ghost predicate Sound()
      reads this, input, out
    {
      0 !in input.gives && Fails !in out.does
    }

    /** The answer to a command that is not served. */
    method Refuse(reason: string) returns (ok: bool, ghost wrote: bytes)
      requires |reason| < 0x1_0000_0000
      modifies out
      ensures !ok && wrote == []
      ensures old(Sound()) ==> Sound() && Refused(false, old(out.written), out.written)
    {
      SendSyncFail(out, reason);
      return false, [];
    }

    method Okay() returns (ok: bool, ghost wrote: bytes)
      modifies out
      ensures wrote == Pair(ID_OKAY, 0) && (ok ==> out.written == old(out.written) + wrote)
      ensures old(Sound()) ==> Sound() && ok
    {
      wrote := Pair(ID_OKAY, 0);
      ok := WriteFdExactly(out, Pair(ID_OKAY, 0));
    }

    /** handle_send_link: the link is made before DONE is read. */
    method HandleSendLink(path: bytes, env: Env) returns (ok: bool, ghost wrote: bytes)
      modifies this, input, out
      ensures ok ==> LinkServed(old(files), path, old(input.rest), env) == Served(files, wrote, input.rest)
      ensures ok ==> out.written == old(out.written) + wrote
      ensures old(Sound()) ==> Sound() && (ok <==> LinkServed(old(files), path, old(input.rest), env).Served?)
      ensures old(Sound()) && !ok ==>
                Refused(LinkEnds(old(files), path, old(input.rest), env), old(out.written), out.written)
    {
      LinkOutcome(files, path, input.rest, env);
      var read, data, ended := ReadLinkData(input);
      if ended {
        return false, [];
      }
      if !read {
        ok, wrote := Refuse("invalid data message: expected ID_DATA");
        return;
      }
      var target := TargetIn(data, env);
      if !CanLink(files, path, target) {
        ok, wrote := Refuse("symlink failed");
        return;
      }
      files := files[path := Linked(target, env.now)];
      var last, end, stamp := ReadPair(input);
      if !last {
        return false, [];
      }
      if end != ID_DONE {
        ok, wrote := Refuse("invalid data message: expected ID_DONE");
        return;
      }
      ok, wrote := Okay();
    }

    /** handle_send_file, with what writes to the new file do. */
    method HandleSendFile(path: bytes, mode: nat, disk: seq<Write>) returns (ok: bool, ghost wrote: bytes)
      requires mode < 0x8000_0000
      modifies this, input, out
      ensures ok ==> FileServed(old(files), path, mode, old(input.rest)) == Served(files, wrote, input.rest)
      ensures ok ==> out.written == old(out.written) + wrote
      ensures old(Sound()) && Fails !in disk ==>
                Sound() && (ok <==> FileServed(old(files), path, mode, old(input.rest)).Served?)
      ensures old(Sound()) && Fails !in disk && !ok ==>
                Refused(!DirectoryAt(old(files), path) && BodyEnds(old(input.rest)), old(out.written), out.written)
    {
      if DirectoryAt(files, path) {
        ok, wrote := Refuse("couldn't create file");
        return;
      }
      var file := new OutFd(disk);
      var received, stamp, ended := ReceiveBody(input, file);
      if ended {
        return false, [];
      }
      if !received {
        ok, wrote := Refuse("invalid data message");
        return;
      }
      AfterNothing(TakeBody(old(input.rest)));
      files := files[path := Pushed(mode, stamp, file.written)];
      ok, wrote := Okay();
    }

    method DoSend(name: bytes, env: Env, disk: seq<Write>) returns (ok: bool, ghost wrote: bytes)
      modifies this, input, out
      ensures ok ==> SendServed(old(files), ReadSpec(name), old(input.rest), env) == Served(files, wrote, input.rest)
      ensures ok ==> out.written == old(out.written) + wrote
      ensures old(Sound()) && Fails !in disk ==>
                Sound() && (ok <==> SendServed(old(files), ReadSpec(name), old(input.rest), env).Served?)
      ensures old(Sound()) && Fails !in disk && !ok ==>
                Refused(SendEnds(old(files), ReadSpec(name), old(input.rest), env), old(out.written), out.written)
    {
      var spec := ReadSpec(name);
      if spec.BadSpec? || spec.mode >= 0x8000_0000 {
        ok, wrote := Refuse("bad mode");
      } else if IsLink(spec.mode) {
        ok, wrote := HandleSendLink(spec.path, env);
      } else {
        ok, wrote := HandleSendFile(spec.path, spec.mode, disk);
      }
    }

    method Dispatch(id: u32, name: bytes, env: Env, disk: seq<Write>) returns (ok: bool, ghost wrote: bytes)
      requires Real(env)
      modifies this, input, out
      ensures ok ==> Handle(old(files), id, name, old(input.rest), env) == Served(files, wrote, input.rest)
      ensures ok ==> out.written == old(out.written) + wrote
      ensures old(Sound()) && Faultless(env, disk) ==>
                Sound() && (ok <==> Handle(old(files), id, name, old(input.rest), env).Served?)
      ensures old(Sound()) && Faultless(env, disk) && !ok ==>
                Refused(Silent(old(files), id, name, old(input.rest), env), old(out.written), out.written)
    {
      if id == ID_STAT {
        wrote := StatBytes(files, name);
        ok := DoStat(out, files, name);
      } else if id == ID_LIST {
        wrote := DentsBytes(Entries(files, name, env.names));
        ok := DoList(out, files, name, env.names);
      } else if id == ID_SEND {
        ok, wrote := DoSend(name, env, disk);
      } else if id == ID_RECV {
        if !Readable(files, name, env) {
          ok, wrote := Refuse("open failed");
          return;
        }
        var file := new InFd(ContentOf(files, name, env), env.gives);
        wrote := Unsent(file) + Pair(ID_DONE, 0);
        ok := DoRecv(out, file);
      } else if id == ID_QUIT {
        ok, wrote := false, [];
      } else {
        ok, wrote := Refuse("unknown command");
      }
    }

    /** handle_sync_command: it goes on exactly when the command is served, and otherwise says FAIL or nothing. */
    method HandleSyncCommand(env: Env, disk: seq<Write>) returns (ok: bool, ghost wrote: bytes)
      requires Real(env)
      modifies this, input, out
      ensures ok ==> ServeOne(old(files), old(input.rest), env) == Served(files, wrote, input.rest)
      ensures ok ==> out.written == old(out.written) + wrote
      ensures old(Sound()) && Faultless(env, disk) ==>
                Sound() && (ok <==> ServeOne(old(files), old(input.rest), env).Served?)
      ensures old(Sound()) && Faultless(env, disk) && !ok ==>
                Refused(SilentOne(old(files), old(input.rest), env), old(out.written), out.written)
    {
      var read, id, name := ReadCommand(input);
      ServeParsed(files, old(input.rest), env, id, name, input.rest);
      if !read {
        ok, wrote := Refuse("command read failure");
        return;
      }
      ok, wrote := Dispatch(id, CString(name), env, disk);
    }

    /** One turn of the command loop, which makes a session of `n` commands one longer. */
    method ServeNext(envs: seq<Env>, n: nat, disk: seq<Write>, ghost first: Files, ghost up: bytes, ghost wrote: bytes)
      returns (ok: bool, ghost more: bytes)
      requires n < |envs| && Real(envs[n]) && Session(first, up, envs[..n], wrote, files, input.rest)
      modifies this, input, out
      ensures ok ==> Session(first, up, envs[..n + 1], wrote + more, files, input.rest)
      ensures ok ==> out.written == old(out.written) + more
      ensures old(Sound()) && Faultless(envs[n], disk) ==>
                Sound() && (!ok ==> StopsAt(old(files), old(input.rest), envs[n], old(out.written), out.written))
    {
      ok, more := HandleSyncCommand(envs[n], disk);
      if ok {
        SessionUpTo(first, up, envs, n, wrote, old(files), old(input.rest), Served(files, more, input.rest));
      }
    }

    /**
     file_sync_service: commands one after the other until one is not served. `mid` and `left` are the
     files and the stream at the end of the session served; without faults the loop stops before the last
     command exactly where one is not served, and then says FAIL or, as the case may be, nothing.
     */
    method FileSyncService(envs: seq<Env>, disks: seq<seq<Write>>)
      returns (served: nat, ghost wrote: bytes, ghost mid: Files, ghost left: bytes)
      requires |disks| == |envs| && forall k :: 0 <= k < |envs| ==> Real(envs[k])
      modifies this, input, out
      ensures served <= |envs| && Session(old(files), old(input.rest), envs[..served], wrote, mid, left)
      ensures served == |envs| ==> mid == files && left == input.rest && out.written == old(out.written) + wrote
      ensures old(Sound()) && AllFaultless(envs, disks) ==>
                Sound() && (served < |envs| ==>
                              StopsAt(mid, left, envs[served], old(out.written) + wrote, out.written))
    {
      ghost var sound := Sound() && AllFaultless(envs, disks);
      served, wrote, mid, left := 0, [], files, input.rest;
      assert envs[..0] == [];
      while served < |envs|
        invariant served <= |envs| && mid == files && left == input.rest
        invariant Session(old(files), old(input.rest), envs[..served], wrote, mid, left)
        invariant out.written == old(out.written) + wrote
        invariant sound ==> Sound()
      {
        assert sound ==> Faultless(envs[served], disks[served]);
        ghost var more: bytes;
        var ok;
        ok, more := ServeNext(envs, served, disks[served], old(files), old(input.rest), wrote);
        if !ok {
          return;
        }
        Joined(old(out.written), wrote, more);
        served, wrote, mid, left := served + 1, wrote + more, files, input.rest;
      }
    }
  }

  /** The next command is not served, and draws FAIL or nothing. */
  ghost predicate StopsAt(files: Files, up: bytes, env: Env, before: bytes, after: bytes)
    requires Real(env)
  {
    !ServeOne(files, up, env).Served? && Refused(SilentOne(files, up, env), before, after)
  }

  /** No read of a file and no write to one fails. */
  predicate Faultless(env: Env, disk: seq<Write>) {
    Fails !in disk && 0 !in env.gives
  }

  predicate AllFaultless(envs: seq<Env>, disks: seq<seq<Write>>)
    requires |disks| == |envs|
  {
    forall k :: 0 <= k < |envs| ==> Faultless(envs[k], disks[k])
  }

  lemma SessionOne(files: Files, up: bytes, env: Env, s: Served)
    requires Real(env) && s.Served? && ServeOne(files, up, env) == s
    ensures Session(files, up, [env], s.out, s.files, s.rest)
  {
    assert s.out + [] == s.out && [env][1..] == [];
    assert Session(s.files, s.rest, [], [], s.files, s.rest);
    SessionStep(files, up, [env], s, [], s.files, s.rest);
  }

  lemma SessionFirst(files: Files, up: bytes, envs: seq<Env>, out: bytes, after: Files, rest: bytes)
    returns (s: Served, later: bytes)
    requires envs != [] && Session(files, up, envs, out, after, rest)
    ensures Real(envs[0]) && s == ServeOne(files, up, envs[0]) && s.Served?
    ensures out == s.out + later && Session(s.files, s.rest, envs[1..], later, after, rest)
  {
    s := ServeOne(files, up, envs[0]);
    later := out[|s.out|..];
    Prefixed(s.out, out);
  }

  lemma {:induction false} SessionMore(files: Files, up: bytes, envs: seq<Env>, out: bytes, mid: Files, left: bytes,
                                       env: Env, last: Served)
    requires Session(files, up, envs, out, mid, left) && Real(env) && last.Served? && ServeOne(mid, left, env) == last
    ensures Session(files, up, envs + [env], out + last.out, last.files, last.rest)
    decreases |envs|
  {
    if envs == [] {
      assert envs + [env] == [env] && out + last.out == last.out;
      SessionOne(files, up, env, last);
    } else {
      var s, later := SessionFirst(files, up, envs, out, mid, left);
      SessionMore(s.files, s.rest, envs[1..], later, mid, left, env, last);
      var all := envs + [env];
      assert all[1..] == envs[1..] + [env] && all[0] == envs[0];
      Joined(s.out, later, last.out);
      SessionStep(files, up, all, s, later + last.out, last.files, last.rest);
    }
  }

  lemma SessionUpTo(files: Files, up: bytes, envs: seq<Env>, n: nat, out: bytes, mid: Files, left: bytes, last: Served)
    requires n < |envs| && Session(files, up, envs[..n], out, mid, left)
    requires Real(envs[n]) && last.Served? && ServeOne(mid, left, envs[n]) == last
    ensures Session(files, up, envs[..n + 1], out + last.out, last.files, last.rest)
  {
    OneMore(envs, n);
    SessionMore(files, up, envs[..n], out, mid, left, envs[n], last);
  }
}
