/** The client's end of a sync session (adb/file_sync_client.cpp). */
module SyncClient {
  import opened Bytes
  import opened Io
  import opened Sync
  import opened SyncService

  /** A file to be copied, as far as the comparison with the device goes. */
  datatype CopyInfo = CopyInfo(rpath: bytes, time: nat, mode: u32, size: nat, skip: bool)

  /** S_ISREG and S_ISLNK of the bits two modes share. */
  predicate BothRegular(a: u32, b: u32) {
    (a as bv32) & (b as bv32) & 0xF000 == 0x8000
  }

  predicate BothLinks(a: u32, b: u32) {
    (a as bv32) & (b as bv32) & 0xF000 == 0xA000
  }

  /** What the device has is as good as the local file. */
  predicate UpToDate(ci: CopyInfo, st: Answer)
    requires st.StatIs?
  {
    st.size == ci.size && ((BothRegular(ci.mode, st.mode) && st.time == ci.time)
                           || (BothLinks(ci.mode, st.mode) && st.time >= ci.time))
  }

  /** The file type bits of a mode. */
  function Kind(mode: u32): bv32 {
    (mode as bv32) & 0xF000
  }

  /** Regular file, link, socket, directory, block and character device, pipe, and nothing at all. */
  predicate RealKind(k: bv32) {
    k in {0x8000, 0xA000, 0xC000, 0x4000, 0x6000, 0x2000, 0x1000, 0}
  }

  /**
   A file or link is skipped if and only if the device has one of the same size that is a link, if it is a
   link, and not older, or else is a regular file, a link or a socket, and of the same time.
   */
  lemma SkippedIff(ci: CopyInfo, st: Answer)
    requires st.StatIs? && (Kind(ci.mode) == 0x8000 || Kind(ci.mode) == 0xA000) && RealKind(Kind(st.mode))
    ensures UpToDate(ci, st)
       <==> && st.size == ci.size
            && if Kind(ci.mode) == 0xA000 && Kind(st.mode) == 0xA000 then st.time >= ci.time
               else Kind(st.mode) in {0x8000, 0xA000, 0xC000} && st.time == ci.time
    ensures Marked(ci, st) == ci.(skip := ci.skip || UpToDate(ci, st))
  {
    SharedKind(ci.mode as bv32, st.mode as bv32);
  }

  /** What is skipped is there, unless a file, link or socket of another kind has its size and time. */
  lemma SkippedForItsKindIff(ci: CopyInfo, st: Answer)
    requires st.StatIs? && (Kind(ci.mode) == 0x8000 || Kind(ci.mode) == 0xA000) && RealKind(Kind(st.mode))
    ensures (UpToDate(ci, st) ==> Kind(st.mode) == Kind(ci.mode))
       <==> !(&& st.size == ci.size && st.time == ci.time && Kind(st.mode) != Kind(ci.mode)
              && Kind(st.mode) in {0x8000, 0xA000, 0xC000})
  {
    SkippedIff(ci, st);
  }

  lemma SharedKind(a: bv32, b: bv32)
    requires (a & 0xF000 == 0x8000 || a & 0xF000 == 0xA000) && RealKind(b & 0xF000)
    ensures a & b & 0xF000 == 0xA000 <==> a & 0xF000 == 0xA000 && b & 0xF000 == 0xA000
    ensures a & b & 0xF000 == 0x8000
       <==> b & 0xF000 == 0x8000 || b & 0xF000 == 0xC000 || (a & 0xF000 == 0x8000 && b & 0xF000 == 0xA000)
  {
    assert a & b & 0xF000 == (a & 0xF000) & (b & 0xF000);
  }

  /** A file is skipped though the device has a link, whose target happens to be as long as the file. */
  lemma LinkPassesForFile()
    ensures var ci := CopyInfo([47, 102], 5, 0x81A4, 3, false);
            Marked(ci, StatIs(0xA1FF, 3, 5)).skip && Kind(0xA1FF) != Kind(0x81A4)
  {
    assert (0x81A4 as bv32) & (0xA1FF as bv32) & 0xF000 == 0x8000;
  }

  function Marked(ci: CopyInfo, st: Answer): CopyInfo
    requires st.StatIs?
  {
    if UpToDate(ci, st) then ci.(skip := true) else ci
  }

  function Paths(list: seq<CopyInfo>): (ps: seq<bytes>)
    ensures |ps| == |list| && forall k :: 0 <= k < |ps| ==> ps[k] == list[k].rpath
  {
    if list == [] then [] else [list[0].rpath] + Paths(list[1..])
  }

  // ---- sending files ----

  /** One read of the local file: the first piece of it. */
  method ReadChunk(file: InFd) returns (r: int, buffer: bytes)
    modifies file
    ensures r == -1 || r == |buffer| <= SYNC_DATA_MAX
    ensures r > 0 ==> && Chop(old(file.rest), old(file.gives)) == [buffer] + Chop(file.rest, file.gives)
                      && |file.rest| < |old(file.rest)|
    ensures r == 0 ==> Chop(old(file.rest), old(file.gives)) == []
    ensures 0 !in old(file.gives) ==> 0 !in file.gives && r >= 0
  {
    ghost var data, gives := file.rest, file.gives;
    r, buffer := file.AdbRead(SYNC_DATA_MAX);
    if r > 0 {
      ChopStep(data, gives);
      assert buffer == data[..r];
    }
  }

  lemma KeptStep(buffer: bytes, more: seq<bytes>, polls: seq<bool>)
    requires |buffer| <= SYNC_DATA_MAX && Fits(more)
    ensures var kept := Kept([buffer] + more, polls);
            && Fits(kept)
            && Frames(kept) == Frame(buffer)
                               + if polls != [] && polls[0] then []
                                 else Frames(Kept(more, if polls == [] then [] else polls[1..]))
  {
    var cs := [buffer] + more;
    assert cs[1..] == more;
    if polls != [] && polls[0] {
      var one := [buffer];
      assert one[1..] == [];
      assert Frames(one) == Frame(buffer) + Frames(one[1..]);
    } else {
      var rest := Kept(more, if polls == [] then [] else polls[1..]);
      assert ([buffer] + rest)[1..] == rest;
    }
  }

  method SendPieces(out: OutFd, file: InFd, polls: seq<bool>) returns (ok: bool)
    modifies out, file
    ensures ok ==> out.written == old(out.written) + Frames(Kept(Chop(old(file.rest), old(file.gives)), polls))
    ensures Fails !in old(out.does) ==> Fails !in out.does && (0 !in old(file.gives) ==> ok)
  {
    var left := polls;
    ghost var rest := Chop(file.rest, file.gives);
    ghost var all := out.written + Frames(Kept(rest, polls));
    while true
      invariant rest == Chop(file.rest, file.gives) && out.written + Frames(Kept(rest, left)) == all
      invariant Fails !in old(out.does) ==> Fails !in out.does
      invariant 0 !in old(file.gives) ==> 0 !in file.gives
      decreases |file.rest|
    {
      var r, buffer := ReadChunk(file);
      if r <= 0 {
        return r == 0;
      }
      ghost var more := Chop(file.rest, file.gives);
      KeptStep(buffer, more, left);
      Joined(out.written, Frame(buffer), Frames(Kept(more, if left == [] then [] else left[1..])));
      ok := WriteFdExactly(out, Pair(ID_DATA, r) + buffer);
      if !ok {
        return;
      }
      if left != [] && left[0] {
        assert Frame(buffer) + [] == Frame(buffer);
        return true;
      }
      left := if left == [] then [] else left[1..];
      rest := more;
    }
  }

  /** A request, one DATA message, whose size field has 32 bits, and DONE. */
  function SmallFile(spec: bytes, mtime: u32, data: bytes): bytes
    requires |spec| <= MAX_PATH
  {
    Request(ID_SEND, spec) + (Pair(ID_DATA, Low32(|data|)) + data) + Pair(ID_DONE, mtime)
  }

  lemma SmallFileIs(spec: bytes, mtime: u32, data: bytes)
    requires |spec| <= MAX_PATH && |data| <= SYNC_DATA_MAX
    ensures SmallFile(spec, mtime, data) == Request(ID_SEND, spec) + Frames([data]) + Pair(ID_DONE, mtime)
  {
    FramesOne(data);
    assert Low32(|data|) == |data|;
  }

  // ---- reading answers ----

  lemma AfterBothDents(got: seq<Dent>, d: Dent, l: Listing)
    ensures AfterDents(got, AfterDents([d], l)) == AfterDents(got + [d], l)
  {
    if l.Listing? {
      assert got + ([d] + l.dents) == got + [d] + l.dents;
    }
  }

  lemma HeadWords(b: bytes, head: bytes, n: nat)
    requires |head| == 4 * n && head <= b
    ensures forall k :: 0 <= k < n ==> Word(b, k) == Word(head, k)
  {
    forall k | 0 <= k < n
      ensures Word(b, k) == Word(head, k)
    {
      assert b[4 * k..4 * k + 4] == head[4 * k..4 * k + 4];
    }
  }

  /** The entries of a directory, up to DONE. */
  method ReceiveListing(input: InFd) returns (ok: bool, dents: seq<Dent>)
    modifies input
    ensures ok ==> TakeListing(old(input.rest)) == Listing(dents, input.rest)
    ensures 0 !in old(input.gives) ==> 0 !in input.gives && (ok <==> TakeListing(old(input.rest)).Listing?)
  {
    dents := [];
    ghost var whole := TakeListing(input.rest);
    assert AfterDents([], whole) == whole by {
      if whole.Listing? {
        assert [] + whole.dents == whole.dents;
      }
    }
    while true
      invariant AfterDents(dents, TakeListing(input.rest)) == whole
      invariant 0 !in old(input.gives) ==> 0 !in input.gives
      decreases |input.rest|
    {
      ghost var b := input.rest;
      var read, head := ReadFdExactly(input, 20);
      if !read {
        return false, dents;
      }
      HeadWords(b, head, 5);
      if Word(head, 0) == ID_DONE {
        assert dents + [] == dents;
        return true, dents;
      }
      var n := Word(head, 4);
      if Word(head, 0) != ID_DENT || n > MAX_NAME {
        return false, dents;
      }
      var named, name := ReadFdExactly(input, n);
      if !named {
        return false, dents;
      }
      assert name == b[20..20 + n] && input.rest == b[20 + n..];
      var d := Dent(Word(head, 1), Word(head, 2), Word(head, 3), name);
      ListStep(b, d, n, input.rest);
      AfterBothDents(dents, d, TakeListing(input.rest));
      dents := dents + [d];
    }
  }

  /** A FAIL status with its reason. */
  predicate FailAt(b: bytes) {
    |b| >= 8 && Word(b, 0) == ID_FAIL && Word(b, 1) <= |b| - 8
  }

  class SyncConnection {
    const input: InFd
    const out: OutFd
    var expectDone: bool

    constructor (input: InFd, out: OutFd)
      ensures this.input == input && this.out == out && !expectDone
    {
      this.input, this.out, expectDone := input, out, false;
    }

    ghost predicate Sound()
      reads this, input, out
    {
      0 !in input.gives && Fails !in out.does
    }

    method SendRequest(id: u32, path: bytes) returns (ok: bool)
      modifies out
      ensures ok ==> |path| <= MAX_PATH && out.written == old(out.written) + Request(id, path)
      ensures |path| > MAX_PATH ==> !ok && out.written == old(out.written)
      ensures old(Sound()) ==> Sound() && (ok <==> |path| <= MAX_PATH)
    {
      if |path| > MAX_PATH {
        return false;
      }
      ok := WriteFdExactly(out, Pair(id, |path|) + path);
    }

    /** SendSmallFile: request, data and end in one write. */
    method SendSmallFile(spec: bytes, mtime: u32, data: bytes) returns (ok: bool)
      modifies this, out
      ensures ok ==> |spec| <= MAX_PATH && expectDone
      ensures ok ==> out.written == old(out.written) + SmallFile(spec, mtime, data)
      ensures old(Sound()) ==> Sound() && (ok <==> |spec| <= MAX_PATH)
    {
      if |spec| > MAX_PATH {
        return false;
      }
      var buf := Pair(ID_SEND, |spec|) + spec + (Pair(ID_DATA, Low32(|data|)) + data) + Pair(ID_DONE, mtime);
      ok := WriteFdExactly(out, buf);
      expectDone := true;
    }

    /** SendLargeFile: the file as it is read, until its end or until a poll reports something. */
    method SendLargeFile(spec: bytes, mtime: u32, file: InFd, polls: seq<bool>) returns (ok: bool)
      requires file != input
      modifies this, out, file
      ensures ok ==> |spec| <= MAX_PATH && expectDone
      ensures ok ==> out.written == old(out.written)
                                    + (Request(ID_SEND, spec)
                                       + Frames(Kept(Chop(old(file.rest), old(file.gives)), polls))
                                       + Pair(ID_DONE, mtime))
      ensures old(Sound()) && 0 !in old(file.gives) ==> Sound() && (ok <==> |spec| <= MAX_PATH)
    {
      ghost var pieces := Frames(Kept(Chop(file.rest, file.gives), polls));
      ok := SendRequest(ID_SEND, spec);
      if !ok {
        return;
      }
      ok := SendPieces(out, file, polls);
      if !ok {
        return;
      }
      expectDone := true;
      Joined(old(out.written), Request(ID_SEND, spec), pieces);
      Joined(old(out.written), Request(ID_SEND, spec) + pieces, Pair(ID_DONE, mtime));
      ok := WriteFdExactly(out, Pair(ID_DONE, mtime));
    }

    method CopyDone(ghost c: Command) returns (ok: bool)
      requires c.Send?
      modifies this, input
      ensures ok ==> TakeAnswer(c, old(input.rest)) == Taken(Okay, input.rest) && !expectDone
      ensures old(Sound()) ==> Sound() && (ok <==> TakeAnswer(c, old(input.rest)).Taken?)
      ensures var b := old(input.rest);
              old(Sound()) && FailAt(b) ==> !ok && expectDone == old(expectDone) && input.rest == b[8 + Word(b, 1)..]
    {
      ghost var b := input.rest;
      var read, id, n := ReadPair(input);
      if !read {
        return false;
      }
      if id == ID_OKAY {
        expectDone := false;
        return true;
      }
      if id == ID_FAIL {
        var reported, reason := ReadFdExactly(input, n);
        assert reported ==> input.rest == b[8 + n..];
      }
      return false;
    }

    /**
     sync_send: on success the stream has grown by one SEND, and OKAY was read. `data` is the content of
     a regular file or what readlink gives of a link, which goes out as a small file with its NUL.
     */
    method SyncSend(path: bytes, mode: nat, mtime: u32, data: bytes, gives: seq<nat>, polls: seq<bool>)
      returns (ok: bool)
      requires Clean(path) && mode < 0x8000_0000 && (IsLink(mode) ==> Clean(data) && 0 < |data| < PATH_MAX)
      modifies this, input, out
      ensures var c := Push(path, mode, mtime, data, gives, polls);
              && (ok ==> && Sendable(c) && out.written == old(out.written) + Wire(c) && !expectDone
                         && TakeAnswer(c, old(input.rest)) == Taken(Okay, input.rest))
              && (old(Sound()) && 0 !in gives ==>
                    Sound() && (ok <==> |SpecBytes(path, mode)| <= MAX_PATH && TakeAnswer(c, old(input.rest)).Taken?))
    {
      var spec := SpecBytes(path, mode);
      ghost var c := Push(path, mode, mtime, data, gives, polls);
      if IsLink(mode) {
        ok := SendSmallFile(spec, mtime, data + [0]);
        if ok {
          SmallFileIs(spec, mtime, data + [0]);
        }
      } else if |data| < SYNC_DATA_MAX {
        ok := SendSmallFile(spec, mtime, data);
        if ok {
          SmallFileIs(spec, mtime, data);
        }
      } else {
        var file := new InFd(data, gives);
        ok := SendLargeFile(spec, mtime, file, polls);
      }
      if ok {
        SentIs(path, mode, mtime, data, gives, polls, 0);
        assert out.written == old(out.written) + Wire(c);
        ok := CopyDone(c);
      }
    }

    method SyncFinishStat() returns (ok: bool, st: Answer)
      modifies input
      ensures ok ==> st.StatIs? && forall path :: TakeAnswer(Stat(path), old(input.rest)) == Taken(st, input.rest)
      ensures old(Sound()) ==> Sound() && forall path :: ok <==> TakeAnswer(Stat(path), old(input.rest)).Taken?
    {
      ghost var b := input.rest;
      st := Okay;
      var read, head := ReadFdExactly(input, 16);
      if !read {
        return false, st;
      }
      HeadWords(b, head, 4);
      if Word(head, 0) != ID_STAT {
        return false, st;
      }
      return true, StatIs(Word(head, 1), Word(head, 2), Word(head, 3));
    }

    method SyncLs(path: bytes) returns (ok: bool, dents: seq<Dent>)
      requires Clean(path)
      modifies input, out
      ensures ok ==> Sendable(Ls(path)) && out.written == old(out.written) + Wire(Ls(path))
      ensures ok ==> TakeAnswer(Ls(path), old(input.rest)) == Taken(Names(dents), input.rest)
      ensures old(Sound()) ==>
                Sound() && (ok <==> |path| <= MAX_PATH && TakeAnswer(Ls(path), old(input.rest)).Taken?)
    {
      dents := [];
      ok := SendRequest(ID_LIST, path);
      if ok {
        ok, dents := ReceiveListing(input);
      }
    }

    /** sync_recv: STAT, then RECV into a new file. */
    method SyncRecv(path: bytes, disk: seq<Write>) returns (ok: bool, st: Answer, file: OutFd)
      requires Clean(path)
      modifies input, out
      ensures fresh(file)
      ensures ok ==> |path| <= MAX_PATH && out.written == old(out.written) + Wires([Stat(path), Recv(path)])
      ensures ok ==> Answers([Stat(path), Recv(path)], old(input.rest), [st, Content(file.written)], input.rest)
      ensures old(Sound()) && Fails !in disk ==>
                Sound() && (ok <==> |path| <= MAX_PATH && Answered([Stat(path), Recv(path)], old(input.rest)))
    {
      AnsweredBoth(Stat(path), Recv(path), input.rest);
      file := new OutFd(disk);
      st := Okay;
      ok := SendRequest(ID_STAT, path);
      if !ok {
        return;
      }
      ok, st := SyncFinishStat();
      if !ok {
        return;
      }
      ghost var mid := input.rest;
      ok := SendRequest(ID_RECV, path);
      if !ok {
        return;
      }
      var stamp: u32, ended: bool;
      ok, stamp, ended := ReceiveBody(input, file);
      AfterNothing(TakeBody(mid));
      WiresBoth(Stat(path), Recv(path));
      Joined(old(out.written), Wire(Stat(path)), Wire(Recv(path)));
      if ok {
        assert TakeAnswer(Recv(path), mid) == Taken(Content(file.written), input.rest);
        AnswersBoth(Stat(path), Recv(path), old(input.rest), Taken(st, mid), Taken(Content(file.written), input.rest));
      }
    }

    /** The first loop of a pipelined comparison: one STAT request per file. */
    method SendStats(paths: seq<bytes>) returns (ok: bool)
      requires forall k :: 0 <= k < |paths| ==> Clean(paths[k])
      modifies out
      ensures ok ==> (forall k :: 0 <= k < |paths| ==> Sendable(Stat(paths[k])))
                     && out.written == old(out.written) + Wires(Stats(paths))
      ensures old(Sound()) ==> Sound() && (ok <==> forall k :: 0 <= k < |paths| ==> Sendable(Stat(paths[k])))
    {
      var i := 0;
      assert Stats(paths[..0]) == [];
      while i < |paths|
        invariant i <= |paths| && forall k :: 0 <= k < i ==> Sendable(Stat(paths[k]))
        invariant out.written == old(out.written) + Wires(Stats(paths[..i]))
        invariant old(Sound()) ==> Sound()
      {
        ok := SendRequest(ID_STAT, paths[i]);
        if !ok {
          assert old(Sound()) ==> !Sendable(Stat(paths[i]));
          return;
        }
        WiresUpTo(paths, i);
        Joined(old(out.written), Wires(Stats(paths[..i])), Wire(Stat(paths[i])));
        i := i + 1;
      }
      assert paths[..i] == paths;
      ok := true;
    }

    /**
     The second loop: one answer per file, the list being marked in place. It stops at the first answer
     that is none, in front of which `left` is what is left of the stream.
     */
    method FinishStats(list: array<CopyInfo>, ghost paths: seq<bytes>)
      returns (ok: bool, ghost answers: seq<Answer>, ghost left: bytes)
      requires |paths| == list.Length
      modifies input, list
      ensures MarkedBy(list[..], old(list[..]), answers) && (ok ==> |answers| == |paths| && left == input.rest)
      ensures Answers(Stats(paths[..|answers|]), old(input.rest), answers, left)
      ensures old(Sound()) ==> Sound() && (ok <==> Answered(Stats(paths), old(input.rest)))
    {
      answers, left := [], input.rest;
      var i := 0;
      assert Stats(paths[..0]) == [] && paths[0..] == paths;
      while i < list.Length
        invariant i <= list.Length && |answers| == i && MarkedBy(list[..], old(list[..]), answers)
        invariant left == input.rest && Answers(Stats(paths[..i]), old(input.rest), answers, left)
        invariant Answered(Stats(paths), old(input.rest)) <==> Answered(Stats(paths[i..]), left)
        invariant old(Sound()) ==> Sound()
      {
        ghost var now := list[..];
        AnsweredFrom(paths, i, left);
        var st: Answer;
        ok, st := SyncFinishStat();
        if !ok {
          return;
        }
        AnswersUpTo(paths, i, old(input.rest), answers, left, Taken(st, input.rest));
        MarkOne(now, old(list[..]), answers, st);
        list[i] := Marked(list[i], st);
        assert list[..] == now[i := Marked(now[i], st)];
        answers, left := answers + [st], input.rest;
        i := i + 1;
      }
      ok := true;
    }

    /**
     The comparison of copy_local_dir_remote: all the requests, then all the answers. The i-th answer
     read decides on the i-th file.
     */
    method MarkUpToDate(list: array<CopyInfo>) returns (ok: bool, ghost answers: seq<Answer>, ghost left: bytes)
      requires forall k :: 0 <= k < list.Length ==> Clean(list[k].rpath)
      modifies input, out, list
      ensures MarkedBy(list[..], old(list[..]), answers) && (ok ==> |answers| == list.Length && left == input.rest)
      ensures var paths := Paths(old(list[..]));
              && Answers(Stats(paths[..|answers|]), old(input.rest), answers, left)
              && (ok ==> forall k :: 0 <= k < list.Length ==> Sendable(Stat(paths[k])))
              && (ok ==> out.written == old(out.written) + Wires(Stats(paths)))
              && (old(Sound()) ==>
                    Sound() && (ok <==> (forall k :: 0 <= k < list.Length ==> Sendable(Stat(paths[k])))
                                        && Answered(Stats(paths), old(input.rest))))
    {
      answers, left := [], input.rest;
      var paths := Paths(list[..]);
      assert Stats(paths[..0]) == [];
      ok := SendStats(paths);
      if ok {
        ok, answers, left := FinishStats(list, paths);
      }
    }
  }

  /** The files answered for are marked as their own answer says, and nothing else has changed. */
  predicate MarkedBy(now: seq<CopyInfo>, before: seq<CopyInfo>, answers: seq<Answer>) {
    && |answers| <= |now| == |before|
    && (forall a :: a in answers ==> a.StatIs?)
    && forall k :: 0 <= k < |now| ==> now[k] == if k < |answers| then Marked(before[k], answers[k]) else before[k]
  }

  lemma MarkOne(now: seq<CopyInfo>, before: seq<CopyInfo>, answers: seq<Answer>, st: Answer)
    requires MarkedBy(now, before, answers) && |answers| < |now| && st.StatIs?
    ensures MarkedBy(now[|answers| := Marked(now[|answers|], st)], before, answers + [st])
  {
  }

  lemma StatsUpTo(paths: seq<bytes>, n: nat)
    requires n < |paths|
    ensures Stats(paths[..n + 1]) == Stats(paths[..n]) + [Stat(paths[n])]
  {
  }

  lemma WiresUpTo(paths: seq<bytes>, n: nat)
    requires n < |paths| && forall k :: 0 <= k <= n ==> Sendable(Stat(paths[k]))
    ensures Wires(Stats(paths[..n + 1])) == Wires(Stats(paths[..n])) + Wire(Stat(paths[n]))
  {
    StatsUpTo(paths, n);
    WiresAppend(Stats(paths[..n]), Stat(paths[n]));
  }

  lemma AnswersUpTo(paths: seq<bytes>, n: nat, down: bytes, answers: seq<Answer>, mid: bytes, t: Taken)
    requires n < |paths| && Answers(Stats(paths[..n]), down, answers, mid)
    requires t.Taken? && TakeAnswer(Stat(paths[n]), mid) == t
    ensures Answers(Stats(paths[..n + 1]), down, answers + [t.answer], t.rest)
  {
    StatsUpTo(paths, n);
    AnswersAppend(Stats(paths[..n]), down, answers, mid, Stat(paths[n]), t);
  }

  lemma WiresBoth(a: Command, b: Command)
    requires Sendable(a) && Sendable(b)
    ensures Wires([a, b]) == Wire(a) + Wire(b)
  {
    assert [a, b][1..] == [b] && [b][1..] == [];
    assert Wires([b]) == Wire(b) + Wires([b][1..]);
  }

  lemma AnsweredBoth(a: Command, b: Command, down: bytes)
    ensures var t := TakeAnswer(a, down);
            Answered([a, b], down) <==> t.Taken? && TakeAnswer(b, t.rest).Taken?
  {
    var t := TakeAnswer(a, down);
    assert [a, b][1..] == [b] && [b][1..] == [];
    if t.Taken? {
      assert Answered([b], t.rest) <==> TakeAnswer(b, t.rest).Taken?;
    }
  }

  lemma AnswersBoth(a: Command, b: Command, down: bytes, t: Taken, u: Taken)
    requires t.Taken? && u.Taken? && TakeAnswer(a, down) == t && TakeAnswer(b, t.rest) == u
    ensures Answers([a, b], down, [t.answer, u.answer], u.rest)
  {
    assert [a, b][1..] == [b] && [b][1..] == [];
    assert Answers([b][1..], u.rest, [], u.rest);
    AnswersStep([b], t.rest, u, [], u.rest);
    assert [u.answer] + [] == [u.answer];
    AnswersStep([a, b], down, t, [u.answer], u.rest);
    assert [t.answer] + [u.answer] == [t.answer, u.answer];
  }

  lemma AnsweredFrom(paths: seq<bytes>, i: nat, down: bytes)
    requires i < |paths|
    ensures var t := TakeAnswer(Stat(paths[i]), down);
            Answered(Stats(paths[i..]), down) <==> t.Taken? && Answered(Stats(paths[i + 1..]), t.rest)
  {
    assert Stats(paths[i..])[1..] == Stats(paths[i + 1..]);
  }

  lemma {:induction false} WiresAppend(cs: seq<Command>, c: Command)
    requires Sendable(c) && forall k :: 0 <= k < |cs| ==> Sendable(cs[k])
    ensures Wires(cs + [c]) == Wires(cs) + Wire(c)
  {
    if cs == [] {
      assert cs + [c] == [c] && [c][1..] == [];
      assert Wires([c]) == Wire(c) + Wires([c][1..]);
    } else {
      assert (cs + [c])[1..] == cs[1..] + [c];
      WiresAppend(cs[1..], c);
      Joined(Wire(cs[0]), Wires(cs[1..]), Wire(c));
    }
  }

  lemma {:induction false} AnswersAppend(cs: seq<Command>, down: bytes, answers: seq<Answer>, mid: bytes, c: Command,
                                         t: Taken)
    requires Answers(cs, down, answers, mid) && t.Taken? && TakeAnswer(c, mid) == t
    ensures Answers(cs + [c], down, answers + [t.answer], t.rest)
    decreases |cs|
  {
    if cs == [] {
      assert cs + [c] == [c] && [c][1..] == [] && answers + [t.answer] == [t.answer] && [t.answer] + [] == [t.answer];
      assert Answers([c][1..], t.rest, [], t.rest);
      AnswersStep([c], mid, t, [], t.rest);
    } else {
      var first := TakeAnswer(cs[0], down);
      AnswersAppend(cs[1..], first.rest, answers[1..], mid, c, t);
      var all := cs + [c];
      assert all[1..] == cs[1..] + [c] && answers + [t.answer] == [first.answer] + (answers[1..] + [t.answer]);
      AnswersStep(all, down, first, answers[1..] + [t.answer], t.rest);
    }
  }
}
