/**
 The sync protocol (adb/file_sync_service.cpp, adb/file_sync_client.cpp): requests, answers and
 file bodies on the two byte streams of a session, and what keeps the two ends aligned.
 */
module Sync {
  import opened Bytes
  import opened Io

  const ID_STAT: u32 := 0x54415453
  const ID_LIST: u32 := 0x5453494C
  const ID_SEND: u32 := 0x444E4553
  const ID_RECV: u32 := 0x56434552
  const ID_DENT: u32 := 0x544E4544
  const ID_DONE: u32 := 0x454E4F44
  const ID_DATA: u32 := 0x41544144
  const ID_OKAY: u32 := 0x59414B4F
  const ID_FAIL: u32 := 0x4C494146
  const ID_QUIT: u32 := 0x54495551
  const SYNC_DATA_MAX := 65536
  const MAX_PATH := 1024
  const MAX_NAME := 256
  const PATH_MAX := 4096
  const COMMA: byte := 44

  // ---- words and messages ----

  /** A SyncRequest, a data header or a status: an id and a number. */
  function Pair(id: u32, n: u32): (b: bytes)
    ensures |b| == 8
  {
    Le32(id) + Le32(n)
  }

  function Word(b: bytes, k: nat): u32
    requires 4 * k + 4 <= |b|
  {
    FromLe32(b[4 * k..4 * k + 4])
  }

  lemma PairWords(id: u32, n: u32, tail: bytes)
    ensures var b := Pair(id, n) + tail;
            Word(b, 0) == id && Word(b, 1) == n && b[8..] == tail
  {
    var b := Pair(id, n) + tail;
    assert b[0..4] == Le32(id) && b[4..8] == Le32(n);
    Le32RoundTrip(id);
    Le32RoundTrip(n);
  }

  /** The ids of requests spell them. */
  lemma RequestsSpell()
    ensures Le32(ID_STAT) == [83, 84, 65, 84] && Le32(ID_LIST) == [76, 73, 83, 84]
    ensures Le32(ID_SEND) == [83, 69, 78, 68] && Le32(ID_RECV) == [82, 69, 67, 86] && Le32(ID_QUIT) == [81, 85, 73, 84]
  {
  }

  /** So do those of what follows them and answers them. */
  lemma AnswersSpell()
    ensures Le32(ID_DENT) == [68, 69, 78, 84] && Le32(ID_DONE) == [68, 79, 78, 69] && Le32(ID_DATA) == [68, 65, 84, 65]
    ensures Le32(ID_OKAY) == [79, 75, 65, 89] && Le32(ID_FAIL) == [70, 65, 73, 76]
  {
  }

  // ---- file bodies ----

  function Frame(c: bytes): bytes
    requires |c| < 0x1_0000_0000
  {
    Pair(ID_DATA, |c|) + c
  }

  predicate Fits(cs: seq<bytes>) {
    forall k :: 0 <= k < |cs| ==> |cs[k]| <= SYNC_DATA_MAX
  }

  function Frames(cs: seq<bytes>): bytes
    requires Fits(cs)
  {
    if cs == [] then [] else Frame(cs[0]) + Frames(cs[1..])
  }

  lemma FramesOne(data: bytes)
    requires |data| <= SYNC_DATA_MAX
    ensures Frames([data]) == Frame(data)
  {
    var one := [data];
    assert Frames(one) == Frame(data) + Frames(one[1..]) && one[1..] == [];
  }

  datatype Body = Body(data: bytes, stamp: u32, rest: bytes) | BadBody

  /** The loops of handle_send_file and sync_recv: DATA messages up to a DONE. */
  function TakeBody(b: bytes): Body
    decreases |b|
  {
    if |b| < 8 then BadBody
    else if Word(b, 0) == ID_DONE then Body([], Word(b, 1), b[8..])
    else if Word(b, 0) != ID_DATA || Word(b, 1) > SYNC_DATA_MAX || |b| - 8 < Word(b, 1) then BadBody
    else
      var n := Word(b, 1);
      match TakeBody(b[8 + n..])
      case BadBody => BadBody
      case Body(data, stamp, rest) => Body(b[8..8 + n] + data, stamp, rest)
  }

  lemma TakeFrame(c: bytes, more: bytes)
    requires |c| <= SYNC_DATA_MAX
    ensures var b := Frame(c) + more;
            && |b| - 8 >= |c| && Word(b, 0) == ID_DATA && Word(b, 1) == |c|
            && b[8..8 + |c|] == c && b[8 + |c|..] == more
  {
    var b := Frame(c) + more;
    assert b == Pair(ID_DATA, |c|) + (c + more);
    PairWords(ID_DATA, |c|, c + more);
    assert b[8..][..|c|] == c && b[8..][|c|..] == more;
  }

  /** However a file is cut, the body taken is the file. */
  lemma {:induction false} BodyRoundTrip(cs: seq<bytes>, stamp: u32, tail: bytes)
    requires Fits(cs)
    ensures TakeBody(Frames(cs) + Pair(ID_DONE, stamp) + tail) == Body(Cat(cs), stamp, tail)
  {
    var done := Pair(ID_DONE, stamp) + tail;
    if cs == [] {
      assert Frames(cs) + Pair(ID_DONE, stamp) + tail == done;
      PairWords(ID_DONE, stamp, tail);
    } else {
      var more := Frames(cs[1..]) + Pair(ID_DONE, stamp) + tail;
      assert Frames(cs) + Pair(ID_DONE, stamp) + tail == Frame(cs[0]) + more;
      TakeFrame(cs[0], more);
      BodyRoundTrip(cs[1..], stamp, tail);
    }
  }

  /** handle_send_link: exactly one DATA message, and then DONE. */
  function TakeLink(b: bytes): Body {
    if |b| < 8 || Word(b, 0) != ID_DATA || Word(b, 1) > SYNC_DATA_MAX || |b| - 8 < Word(b, 1) then BadBody
    else
      var n := Word(b, 1);
      var more := b[8 + n..];
      if |more| < 8 || Word(more, 0) != ID_DONE then BadBody else Body(b[8..8 + n], Word(more, 1), more[8..])
  }

  lemma LinkRoundTrip(data: bytes, stamp: u32, tail: bytes)
    requires |data| <= SYNC_DATA_MAX
    ensures TakeLink(Frames([data]) + Pair(ID_DONE, stamp) + tail) == Body(data, stamp, tail)
  {
    var one, done := [data], Pair(ID_DONE, stamp) + tail;
    assert Frames(one) == Frame(data) + Frames(one[1..]) && one[1..] == [];
    assert Frames(one) + Pair(ID_DONE, stamp) + tail == Frame(data) + done;
    TakeFrame(data, done);
    PairWords(ID_DONE, stamp, tail);
  }

  /** What successive reads of a file give: each at most a buffer, and at most what `gives` allows. */
  function Chop(data: bytes, gives: seq<nat>): (cs: seq<bytes>)
    ensures Fits(cs)
    decreases |data|
  {
    if data == [] then []
    else
      var most := if gives == [] || gives[0] == 0 || gives[0] > SYNC_DATA_MAX then SYNC_DATA_MAX else gives[0];
      var n := if most < |data| then most else |data|;
      var more := Chop(data[n..], if gives == [] then [] else gives[1..]);
      [data[..n]] + more
  }

  /** The pieces make up the file, and none is empty. */
  lemma {:induction false} ChopIs(data: bytes, gives: seq<nat>)
    ensures Cat(Chop(data, gives)) == data && NoneEmpty(Chop(data, gives))
    decreases |data|
  {
    if data != [] {
      var most := if gives == [] || gives[0] == 0 || gives[0] > SYNC_DATA_MAX then SYNC_DATA_MAX else gives[0];
      var n := if most < |data| then most else |data|;
      var more := Chop(data[n..], if gives == [] then [] else gives[1..]);
      ChopIs(data[n..], if gives == [] then [] else gives[1..]);
      assert data == data[..n] + data[n..];
      assert ([data[..n]] + more)[1..] == more;
    }
  }

  predicate NoneEmpty(cs: seq<bytes>) {
    forall k :: 0 <= k < |cs| ==> cs[k] != []
  }

  // ---- directory entries ----

  datatype Dent = Dent(mode: u32, size: u32, time: u32, name: bytes)

  function DentBytes(id: u32, d: Dent): bytes
    requires |d.name| < 0x1_0000_0000
  {
    Le32(id) + Le32(d.mode) + Le32(d.size) + Le32(d.time) + Le32(|d.name|) + d.name
  }

  predicate ShortNames(ds: seq<Dent>) {
    forall k :: 0 <= k < |ds| ==> |ds[k].name| < 0x1_0000_0000
  }

  function DentsBytes(ds: seq<Dent>): bytes
    requires ShortNames(ds)
  {
    if ds == [] then DentBytes(ID_DONE, Dent(0, 0, 0, []))
    else DentBytes(ID_DENT, ds[0]) + DentsBytes(ds[1..])
  }

  /** A listing is its entries, each with mode, size, time, length and name, and DONE with four zeros. */
  lemma ListingLayout(ds: seq<Dent>)
    requires ShortNames(ds)
    ensures DentsBytes([]) == Le32(ID_DONE) + Le32(0) + Le32(0) + Le32(0) + Le32(0)
    ensures ds != [] ==> var d := ds[0];
              DentsBytes(ds) == Le32(ID_DENT) + Le32(d.mode) + Le32(d.size) + Le32(d.time) + Le32(|d.name|) + d.name
                                + DentsBytes(ds[1..])
  {
  }

  datatype Listing = Listing(dents: seq<Dent>, rest: bytes) | BadListing

  /** sync_ls, after its request. */
  function TakeListing(b: bytes): Listing
    decreases |b|
  {
    if |b| < 20 then BadListing
    else if Word(b, 0) == ID_DONE then Listing([], b[20..])
    else if Word(b, 0) != ID_DENT || Word(b, 4) > MAX_NAME || |b| - 20 < Word(b, 4) then BadListing
    else
      var n := Word(b, 4);
      match TakeListing(b[20 + n..])
      case BadListing => BadListing
      case Listing(more, rest) => Listing([Dent(Word(b, 1), Word(b, 2), Word(b, 3), b[20..20 + n])] + more, rest)
  }

  lemma DentWords(id: u32, d: Dent, tail: bytes)
    requires |d.name| < 0x1_0000_0000
    ensures var b := DentBytes(id, d) + tail; var n := |d.name|;
            && |b| >= 20 + n && Word(b, 0) == id && Word(b, 1) == d.mode && Word(b, 2) == d.size && Word(b, 3) == d.time
            && Word(b, 4) == n && b[20..20 + n] == d.name && b[20 + n..] == tail
  {
    var b := DentBytes(id, d) + tail;
    assert b[0..4] == Le32(id) && b[4..8] == Le32(d.mode) && b[8..12] == Le32(d.size);
    assert b[12..16] == Le32(d.time) && b[16..20] == Le32(|d.name|);
    Le32RoundTrip(id);
    Le32RoundTrip(d.mode);
    Le32RoundTrip(d.size);
    Le32RoundTrip(d.time);
    Le32RoundTrip(|d.name|);
  }

  function AfterDents(got: seq<Dent>, l: Listing): Listing {
    match l
    case BadListing => BadListing
    case Listing(ds, rest) => Listing(got + ds, rest)
  }

  lemma ListStep(b: bytes, d: Dent, n: nat, rest: bytes)
    requires |b| >= 20 && Word(b, 0) == ID_DENT && Word(b, 4) == n <= MAX_NAME && n <= |b| - 20
    requires d == Dent(Word(b, 1), Word(b, 2), Word(b, 3), b[20..20 + n]) && rest == b[20 + n..]
    ensures TakeListing(b) == AfterDents([d], TakeListing(rest))
  {
  }

  predicate ClientTakes(ds: seq<Dent>) {
    forall k :: 0 <= k < |ds| ==> |ds[k].name| <= MAX_NAME
  }

  /** A listing reads back if and only if no name is longer than the client's buffer. */
  lemma {:induction false} ListingRoundTrip(ds: seq<Dent>, tail: bytes)
    requires ShortNames(ds)
    ensures TakeListing(DentsBytes(ds) + tail) == if ClientTakes(ds) then Listing(ds, tail) else BadListing
  {
    if ds == [] {
      DentWords(ID_DONE, Dent(0, 0, 0, []), tail);
    } else {
      var more := DentsBytes(ds[1..]) + tail;
      Joined(DentBytes(ID_DENT, ds[0]), DentsBytes(ds[1..]), tail);
      TakeDent(ds[0], more);
      ListingRoundTrip(ds[1..], tail);
      assert ds == [ds[0]] + ds[1..];
      assert ClientTakes(ds) <==> |ds[0].name| <= MAX_NAME && ClientTakes(ds[1..]);
    }
  }

  lemma TakeDent(d: Dent, more: bytes)
    requires |d.name| < 0x1_0000_0000
    ensures TakeListing(DentBytes(ID_DENT, d) + more)
         == if |d.name| <= MAX_NAME then AfterDents([d], TakeListing(more)) else BadListing
  {
    DentWords(ID_DENT, d, more);
    if |d.name| <= MAX_NAME {
      ListStep(DentBytes(ID_DENT, d) + more, d, |d.name|, more);
    }
  }

  // ---- paths and modes ----

  predicate Clean(s: bytes) {
    0 !in s
  }

  function Decimal(n: nat): (s: bytes)
    ensures s != [] && forall k :: 0 <= k < |s| ==> 48 <= s[k] <= 57
  {
    if n < 10 then [48 + n] else Decimal(n / 10) + [48 + n % 10]
  }

  function FromDecimal(s: bytes): nat
    requires forall k :: 0 <= k < |s| ==> 48 <= s[k] <= 57
  {
    if s == [] then 0 else 10 * FromDecimal(s[..|s| - 1]) + (s[|s| - 1] - 48)
  }

  lemma {:induction false} DecimalRoundTrip(n: nat)
    ensures FromDecimal(Decimal(n)) == n && (Decimal(n)[0] == 48 ==> n == 0)
  {
    var s := Decimal(n);
    if n < 10 {
      assert s[..|s| - 1] == [];
    } else {
      DecimalRoundTrip(n / 10);
      assert s[..|s| - 1] == Decimal(n / 10) && s[|s| - 1] == 48 + n % 10;
      assert s[0] == Decimal(n / 10)[0];
    }
  }

  function LastComma(s: bytes): (k: int)
    ensures -1 <= k < |s|
    ensures k >= 0 ==> s[k] == COMMA
    ensures forall j :: k < j < |s| ==> s[j] != COMMA
  {
    if s == [] then -1
    else if s[|s| - 1] == COMMA then |s| - 1
    else LastComma(s[..|s| - 1])
  }

  datatype Spec = Spec(path: bytes, mode: nat) | BadSpec

  /** do_send's reading of "path,mode"; of the forms of a number, the one the client writes. */
  function ReadSpec(s: bytes): Spec {
    var k := LastComma(s);
    if k < 0 then BadSpec
    else
      var m := s[k + 1..];
      if m == [] || (exists j :: 0 <= j < |m| && !(48 <= m[j] <= 57)) || (m[0] == 48 && |m| > 1) then BadSpec
      else Spec(s[..k], FromDecimal(m))
  }

  function SpecBytes(path: bytes, mode: nat): bytes {
    path + [COMMA] + Decimal(mode)
  }

  /** A path may itself hold commas. */
  lemma SpecRoundTrip(path: bytes, mode: nat)
    ensures ReadSpec(SpecBytes(path, mode)) == Spec(path, mode)
    ensures Clean(path) ==> Clean(SpecBytes(path, mode))
  {
    var s, m := SpecBytes(path, mode), Decimal(mode);
    assert s[|path|] == COMMA && forall j :: |path| < j < |s| ==> s[j] == m[j - |path| - 1];
    assert LastComma(s) == |path|;
    assert s[|path| + 1..] == m && s[..|path|] == path;
    DecimalRoundTrip(mode);
    ZeroAlone(mode);
  }

  lemma {:induction false} ZeroAlone(n: nat)
    ensures Decimal(n)[0] == 48 ==> |Decimal(n)| == 1
  {
    if n >= 10 {
      DecimalRoundTrip(n / 10);
      assert Decimal(n)[0] == Decimal(n / 10)[0];
    }
  }

  /** do_send's permission bits. */
  function PermissionBits(mode: bv32): bv32 {
    var m := mode & 0x1FF;
    var n := m | ((m >> 3) & 0x38);
    n | ((n >> 3) & 0x7)
  }

  /** The user keeps their bits, the group has them added to its own, and others have both. */
  lemma PermissionBitsAre(mode: bv32)
    ensures var p := PermissionBits(mode);
            && p & 0x1C0 == mode & 0x1C0
            && p & 0x38 == (mode | (mode >> 3)) & 0x38
            && p & 0x7 == (mode | (mode >> 3) | (mode >> 6)) & 0x7
            && p & 0xFFFFFE00 == 0
  {
    var m := mode & 0x1FF;
    var n := m | ((m >> 3) & 0x38);
    assert n & 0x38 == (mode | (mode >> 3)) & 0x38;
  }

  predicate IsLink(mode: nat) {
    mode / 4096 % 16 == 10
  }

  predicate IsDirectory(mode: nat) {
    mode / 4096 % 16 == 4
  }

  /** The four bits above the lowest twelve tell the kind of a file: 10 is a link, 4 a directory. */
  lemma KindsAre(high: nat, kind: nat, low: nat)
    requires kind < 16 && low < 4096
    ensures var mode := (high * 16 + kind) * 4096 + low;
            (IsLink(mode) <==> kind == 10) && (IsDirectory(mode) <==> kind == 4)
  {
    var mode := (high * 16 + kind) * 4096 + low;
    assert mode / 4096 == high * 16 + kind;
    assert (high * 16 + kind) % 16 == kind;
  }

  function Low32(n: nat): u32 {
    n % 0x1_0000_0000
  }

  // ---- the server ----

  /** A file as lstat sees it; `data` is the content of a regular file and the target of a link. */
  datatype File = File(mode: u32, time: nat, data: bytes)
  type Files = map<bytes, File>

  /**
   What the system does during a command: how much each read gives, what readdir lists, where open
   ends up when it follows a link, the time, and what is left in the buffer behind a message.
   */
  datatype Env = Env(gives: seq<nat>, names: seq<bytes>, reaches: bytes, now: nat, stale: bytes)

  predicate Real(env: Env) {
    forall k :: 0 <= k < |env.names| ==> |env.names[k]| < MAX_NAME
  }

  /** The file that open reaches: links are followed. */
  function Reached(files: Files, path: bytes, env: Env): bytes {
    if path in files && IsLink(files[path].mode) then env.reaches else path
  }

  /** open and read succeed: there is a file at the end of the links, and it is not a directory. */
  predicate Readable(files: Files, path: bytes, env: Env) {
    var p := Reached(files, path, env);
    path in files && p in files && !IsLink(files[p].mode) && !IsDirectory(files[p].mode)
  }

  function ContentOf(files: Files, path: bytes, env: Env): bytes
    requires Readable(files, path, env)
  {
    files[Reached(files, path, env)].data
  }

  /** A file that is no directory can be read, and gives its own content; a link what it leads to, if that can. */
  lemma ReadsThroughLinks(files: Files, path: bytes, env: Env)
    requires path in files
    ensures var f := files[path]; var p := env.reaches;
            if !IsLink(f.mode) then
              && (Readable(files, path, env) <==> !IsDirectory(f.mode))
              && (Readable(files, path, env) ==> ContentOf(files, path, env) == f.data)
            else
              && (Readable(files, path, env) <==> p in files && !IsLink(files[p].mode) && !IsDirectory(files[p].mode))
              && (Readable(files, path, env) ==> ContentOf(files, path, env) == files[p].data)
    ensures !Readable(files - {path}, path, env)
  {
  }

  function StatBytes(files: Files, path: bytes): bytes {
    var st := if path in files then files[path] else File(0, 0, []);
    Le32(ID_STAT) + Le32(st.mode) + Le32(Low32(|st.data|)) + Le32(Low32(st.time))
  }

  function Entries(files: Files, dir: bytes, names: seq<bytes>): (ds: seq<Dent>)
    requires forall k :: 0 <= k < |names| ==> |names[k]| < MAX_NAME
    ensures ClientTakes(ds) && ShortNames(ds)
  {
    if names == [] then []
    else
      var path := dir + [47] + names[0];
      var more := Entries(files, dir, names[1..]);
      if path !in files then more
      else [Dent(files[path].mode, Low32(|files[path].data|), Low32(files[path].time), names[0])] + more
  }

  /** Each listed name that has a file has one entry, with what lstat says of it, in order; the others have none. */
  lemma {:induction false} EntriesAre(files: Files, dir: bytes, names: seq<bytes>)
    requires forall k :: 0 <= k < |names| ==> |names[k]| < MAX_NAME
    ensures var ds := Entries(files, dir, names);
            && NamesOf(ds) == Present(files, dir, names)
            && forall k :: 0 <= k < |ds| ==>
                 var path := dir + [47] + ds[k].name;
                 && path in files && ds[k].mode == files[path].mode
                 && ds[k].size == |files[path].data| % 0x1_0000_0000 && ds[k].time == files[path].time % 0x1_0000_0000
  {
    if names != [] {
      EntriesAre(files, dir, names[1..]);
      var ds, more := Entries(files, dir, names), Entries(files, dir, names[1..]);
      if dir + [47] + names[0] in files {
        assert ds[1..] == more;
      }
    }
  }

  function NamesOf(ds: seq<Dent>): seq<bytes> {
    if ds == [] then [] else [ds[0].name] + NamesOf(ds[1..])
  }

  function Present(files: Files, dir: bytes, names: seq<bytes>): seq<bytes> {
    if names == [] then []
    else (if dir + [47] + names[0] in files then [names[0]] else []) + Present(files, dir, names[1..])
  }

  function Pushed(mode: nat, time: u32, data: bytes): File
    requires mode < 0x8000_0000
  {
    File((0x8000 | PermissionBits(mode as bv32)) as int, time, data)
  }

  /** A new link, whose permission bits mean nothing. */
  function Linked(target: bytes, now: nat): File {
    File(0xA1FF, now, target)
  }

  /** A command is served, or it ends the session: a refusal, a failure, QUIT. */
  datatype Served = Served(files: Files, out: bytes, rest: bytes) | Over

  /** A directory is neither unlinked nor opened for writing. */
  predicate DirectoryAt(files: Files, path: bytes) {
    path in files && IsDirectory(files[path].mode)
  }

  /** What symlink makes of the buffer, as a C string. */
  function TargetIn(data: bytes, env: Env): bytes {
    CString(data + env.stale)
  }

  /** symlink refuses an empty or overlong target, and a path that is taken. */
  predicate CanLink(files: Files, path: bytes, target: bytes) {
    0 < |target| < PATH_MAX && !DirectoryAt(files, path)
  }

  /** A link is made if and only if its target has 1 to 4095 bytes and no directory is in its way. */
  lemma LinkMadeIff(files: Files, path: bytes, rest: bytes, env: Env)
    requires TakeLink(rest).Body?
    ensures var target := TargetIn(TakeLink(rest).data, env); var s := LinkServed(files, path, rest, env);
            && (s.Served? <==> 1 <= |target| <= 4095 && !(path in files && IsDirectory(files[path].mode)))
            && (s.Served? ==> s.files == files[path := File(0xA000 + 0x1FF, env.now, target)])
  {
  }

  function LinkServed(files: Files, path: bytes, rest: bytes, env: Env): Served {
    match TakeLink(rest)
    case BadBody => Over
    case Body(data, _, more) =>
      if !CanLink(files, path, TargetIn(data, env)) then Over
      else Served(files[path := Linked(TargetIn(data, env), env.now)], Pair(ID_OKAY, 0), more)
  }

  function FileServed(files: Files, path: bytes, mode: nat, rest: bytes): Served
    requires mode < 0x8000_0000
  {
    if DirectoryAt(files, path) then Over
    else match TakeBody(rest)
         case BadBody => Over
         case Body(data, stamp, more) => Served(files[path := Pushed(mode, stamp, data)], Pair(ID_OKAY, 0), more)
  }

  function SendServed(files: Files, spec: Spec, rest: bytes, env: Env): Served {
    if spec.BadSpec? || spec.mode >= 0x8000_0000 then Over
    else if IsLink(spec.mode) then LinkServed(files, spec.path, rest, env)
    else FileServed(files, spec.path, spec.mode, rest)
  }

  function RecvServed(files: Files, path: bytes, rest: bytes, env: Env): Served {
    if !Readable(files, path, env) then Over
    else Served(files, Frames(Chop(ContentOf(files, path, env), env.gives)) + Pair(ID_DONE, 0), rest)
  }

  function Handle(files: Files, id: u32, name: bytes, rest: bytes, env: Env): Served
    requires Real(env)
  {
    if id == ID_STAT then Served(files, StatBytes(files, name), rest)
    else if id == ID_LIST then Served(files, DentsBytes(Entries(files, name, env.names)), rest)
    else if id == ID_SEND then SendServed(files, ReadSpec(name), rest, env)
    else if id == ID_RECV then RecvServed(files, name, rest, env)
    else Over
  }

  /** handle_sync_command on what the client has written. */
  function ServeOne(files: Files, up: bytes, env: Env): Served
    requires Real(env)
  {
    if |up| < 8 || Word(up, 1) > MAX_PATH || |up| - 8 < Word(up, 1) then Over
    else
      var n := Word(up, 1);
      Handle(files, Word(up, 0), CString(up[8..8 + n]), up[8 + n..], env)
  }

  /**
   STAT and LIST are always served and change nothing; RECV is if the path can be read, and changes nothing; SEND is
   if it names a path and a mode, no directory is in its way, and its body, or the target of its link, is whole and
   will do, and changes the file at that path alone. Nothing else is served.
   */
  lemma HandledIff(files: Files, id: u32, name: bytes, rest: bytes, env: Env)
    requires Real(env)
    ensures var s := Handle(files, id, name, rest, env); var spec := ReadSpec(name);
            && (s.Served? <==>
                  || id == ID_STAT || id == ID_LIST || (id == ID_RECV && Readable(files, name, env))
                  || (id == ID_SEND && spec.Spec? && spec.mode < 0x8000_0000
                      && !(spec.path in files && IsDirectory(files[spec.path].mode))
                      && if IsLink(spec.mode)
                         then TakeLink(rest).Body? && 1 <= |TargetIn(TakeLink(rest).data, env)| <= 4095
                         else TakeBody(rest).Body?))
            && (s.Served? && id != ID_SEND ==> s.files == files && s.rest == rest)
            && (s.Served? && id == ID_SEND ==>
                  s.out == Pair(ID_OKAY, 0) && s.files - {spec.path} == files - {spec.path})
  {
  }

  // ---- the client ----

  datatype Command =
    | Stat(path: bytes)
    | Ls(path: bytes)
    | Send(path: bytes, mode: nat, mtime: u32, pieces: seq<bytes>)
    | Recv(path: bytes)

  function Request(id: u32, path: bytes): bytes
    requires |path| <= MAX_PATH
  {
    Pair(id, |path|) + path
  }

  /** A link's target with its NUL, as readlink and sync_send make it. */
  predicate LinkText(data: bytes) {
    2 <= |data| <= PATH_MAX && data[|data| - 1] == 0 && Clean(data[..|data| - 1])
  }

  /** The file of a SEND: its pieces, or the one message that holds a link's target. */
  predicate Pieces(mode: nat, pieces: seq<bytes>) {
    Fits(pieces) && (IsLink(mode) ==> |pieces| == 1 && LinkText(pieces[0]))
  }

  /** A path and a mode that go into a request. */
  predicate Addressable(path: bytes, mode: nat) {
    Clean(path) && |SpecBytes(path, mode)| <= MAX_PATH && mode < 0x8000_0000
  }

  /** What SendRequest accepts, of C strings and modes. */
  predicate Sendable(c: Command) {
    match c
    case Send(path, mode, _, pieces) => Addressable(path, mode) && Pieces(mode, pieces)
    case _ => Clean(c.path) && |c.path| <= MAX_PATH
  }

  function Wire(c: Command): bytes
    requires Sendable(c)
  {
    match c
    case Stat(path) => Request(ID_STAT, path)
    case Ls(path) => Request(ID_LIST, path)
    case Send(path, mode, mtime, pieces) =>
      Request(ID_SEND, SpecBytes(path, mode)) + Frames(pieces) + Pair(ID_DONE, mtime)
    case Recv(path) => Request(ID_RECV, path)
  }

  datatype Answer = StatIs(mode: u32, size: u32, time: u32) | Names(dents: seq<Dent>) | Okay | Content(data: bytes)
  datatype Taken = Taken(answer: Answer, rest: bytes) | NoAnswer

  /** sync_finish_stat, sync_ls, CopyDone and sync_recv: reading the answer to a command. */
  function TakeAnswer(c: Command, down: bytes): Taken {
    match c
    case Stat(_) =>
      if |down| < 16 || Word(down, 0) != ID_STAT then NoAnswer
      else Taken(StatIs(Word(down, 1), Word(down, 2), Word(down, 3)), down[16..])
    case Ls(_) =>
      (match TakeListing(down)
       case BadListing => NoAnswer
       case Listing(ds, rest) => Taken(Names(ds), rest))
    case Send(_, _, _, _) =>
      if |down| < 8 || Word(down, 0) != ID_OKAY then NoAnswer else Taken(Okay, down[8..])
    case Recv(_) =>
      match TakeBody(down)
      case BadBody => NoAnswer
      case Body(data, _, rest) => Taken(Content(data), rest)
  }

  // ---- what a command means ----

  predicate Succeeds(files: Files, c: Command, env: Env) {
    && Sendable(c)
    && (c.Recv? ==> Readable(files, c.path, env))
    && (c.Send? ==> !DirectoryAt(files, c.path))
  }

  /** The file a SEND leaves. */
  function Sent(c: Command, now: nat): File
    requires c.Send? && Sendable(c)
  {
    if IsLink(c.mode) then Linked(c.pieces[0][..|c.pieces[0]| - 1], now) else Pushed(c.mode, c.mtime, Cat(c.pieces))
  }

  function Effect(files: Files, c: Command, env: Env): Files
    requires Sendable(c)
  {
    if c.Send? then files[c.path := Sent(c, env.now)] else files
  }

  function Meaning(files: Files, c: Command, env: Env): Answer
    requires Succeeds(files, c, env) && Real(env)
  {
    match c
    case Stat(path) =>
      if path !in files then StatIs(0, 0, 0)
      else StatIs(files[path].mode, Low32(|files[path].data|), Low32(files[path].time))
    case Ls(path) => Names(Entries(files, path, env.names))
    case Send(_, _, _, _) => Okay
    case Recv(path) => Content(ContentOf(files, path, env))
  }

  lemma ReadRequest(id: u32, path: bytes, tail: bytes)
    requires |path| <= MAX_PATH
    ensures var up := Request(id, path) + tail;
            && Word(up, 0) == id && Word(up, 1) == |path| && |up| - 8 >= |path|
            && up[8..8 + |path|] == path && up[8 + |path|..] == tail
  {
    var up := Request(id, path) + tail;
    assert up == Pair(id, |path|) + (path + tail);
    PairWords(id, |path|, path + tail);
    assert up[8..][..|path|] == path && up[8..][|path|..] == tail;
  }

  lemma ServeRequest(files: Files, id: u32, path: bytes, env: Env, tail: bytes)
    requires |path| <= MAX_PATH && Clean(path) && Real(env)
    ensures ServeOne(files, Request(id, path) + tail, env) == Handle(files, id, path, tail, env)
  {
    ReadRequest(id, path, tail);
  }

  /** The bytes the server writes in answer. */
  function Reply(files: Files, c: Command, env: Env): bytes
    requires Succeeds(files, c, env) && Real(env)
  {
    match c
    case Stat(path) => StatBytes(files, path)
    case Ls(path) => DentsBytes(Entries(files, path, env.names))
    case Send(_, _, _, _) => Pair(ID_OKAY, 0)
    case Recv(path) => Frames(Chop(ContentOf(files, path, env), env.gives)) + Pair(ID_DONE, 0)
  }

  lemma ServeSend(files: Files, c: Command, env: Env, tail: bytes)
    requires c.Send? && Succeeds(files, c, env) && Real(env)
    ensures ServeOne(files, Wire(c) + tail, env) == Served(Effect(files, c, env), Pair(ID_OKAY, 0), tail)
  {
    var spec, more := SpecBytes(c.path, c.mode), Frames(c.pieces) + Pair(ID_DONE, c.mtime) + tail;
    SpecRoundTrip(c.path, c.mode);
    assert Wire(c) + tail == Request(ID_SEND, spec) + more;
    ServeRequest(files, ID_SEND, spec, env, more);
    assert Handle(files, ID_SEND, spec, more, env) == SendServed(files, Spec(c.path, c.mode), more, env);
    if IsLink(c.mode) {
      ServeLink(files, c, env, tail);
    } else {
      BodyRoundTrip(c.pieces, c.mtime, tail);
    }
  }

  lemma ServeLink(files: Files, c: Command, env: Env, tail: bytes)
    requires c.Send? && Succeeds(files, c, env) && IsLink(c.mode)
    ensures LinkServed(files, c.path, Frames(c.pieces) + Pair(ID_DONE, c.mtime) + tail, env)
         == Served(Effect(files, c, env), Pair(ID_OKAY, 0), tail)
  {
    var data, rest := c.pieces[0], Frames(c.pieces) + Pair(ID_DONE, c.mtime) + tail;
    assert c.pieces == [data];
    LinkRoundTrip(data, c.mtime, tail);
    TargetRead(data, env);
    LinkMade(files, c.path, rest, env, Body(data, c.mtime, tail));
  }

  lemma LinkMade(files: Files, path: bytes, rest: bytes, env: Env, body: Body)
    requires TakeLink(rest) == body && body.Body? && CanLink(files, path, TargetIn(body.data, env))
    ensures LinkServed(files, path, rest, env)
         == Served(files[path := Linked(TargetIn(body.data, env), env.now)], Pair(ID_OKAY, 0), body.rest)
  {
  }

  lemma TargetRead(data: bytes, env: Env)
    requires LinkText(data)
    ensures TargetIn(data, env) == data[..|data| - 1]
  {
    var target := data[..|data| - 1];
    assert data + env.stale == target + ([0] + env.stale);
    TargetFound(target, env.stale);
  }

  lemma {:induction false} TargetFound(target: bytes, stale: bytes)
    requires Clean(target)
    ensures CString(target + ([0] + stale)) == target
  {
    var b := target + ([0] + stale);
    if target != [] {
      assert b[1..] == target[1..] + ([0] + stale);
      TargetFound(target[1..], stale);
    }
  }

  /** The server takes exactly the command off its stream, and does what it means. */
  lemma ServeConsumes(files: Files, c: Command, env: Env, tail: bytes)
    requires Succeeds(files, c, env) && Real(env)
    ensures ServeOne(files, Wire(c) + tail, env) == Served(Effect(files, c, env), Reply(files, c, env), tail)
  {
    match c
    case Stat(path) => ServeRequest(files, ID_STAT, path, env, tail);
    case Ls(path) => ServeRequest(files, ID_LIST, path, env, tail);
    case Recv(path) => ServeRequest(files, ID_RECV, path, env, tail);
    case Send(_, _, _, _) => ServeSend(files, c, env, tail);
  }

  /** The client takes exactly the answer off its stream, and reads from it what the command means. */
  lemma AnswerConsumes(files: Files, c: Command, env: Env, tail: bytes)
    requires Succeeds(files, c, env) && Real(env)
    ensures TakeAnswer(c, Reply(files, c, env) + tail) == Taken(Meaning(files, c, env), tail)
  {
    match c
    case Stat(path) => StatWords(files, path, tail);
    case Ls(path) => ListingRoundTrip(Entries(files, path, env.names), tail);
    case Recv(path) =>
      ChopIs(ContentOf(files, path, env), env.gives);
      BodyRoundTrip(Chop(ContentOf(files, path, env), env.gives), 0, tail);
    case Send(_, _, _, _) => PairWords(ID_OKAY, 0, tail);
  }

  lemma StatWords(files: Files, path: bytes, tail: bytes)
    ensures var b := StatBytes(files, path) + tail; var st := if path in files then files[path] else File(0, 0, []);
            && |b| >= 16 && Word(b, 0) == ID_STAT && Word(b, 1) == st.mode && Word(b, 2) == Low32(|st.data|)
            && Word(b, 3) == Low32(st.time) && b[16..] == tail
  {
    var b := StatBytes(files, path) + tail;
    var st := if path in files then files[path] else File(0, 0, []);
    assert b[0..4] == Le32(ID_STAT) && b[4..8] == Le32(st.mode);
    assert b[8..12] == Le32(Low32(|st.data|)) && b[12..16] == Le32(Low32(st.time));
    Le32RoundTrip(ID_STAT);
    Le32RoundTrip(st.mode);
    Le32RoundTrip(Low32(|st.data|));
    Le32RoundTrip(Low32(st.time));
  }

  // ---- whole sessions ----

  /** Serving one command for each of `envs` writes `out`, and leaves the files and the stream so. */
  predicate Session(files: Files, up: bytes, envs: seq<Env>, out: bytes, after: Files, rest: bytes)
    decreases |envs|
  {
    if envs == [] then out == [] && after == files && rest == up
    else Real(envs[0]) &&
         match ServeOne(files, up, envs[0])
         case Served(next, wrote, more) => wrote <= out && Session(next, more, envs[1..], out[|wrote|..], after, rest)
         case _ => false
  }

  /** Reading the answers to these commands one after the other. */
  predicate Answers(cs: seq<Command>, down: bytes, answers: seq<Answer>, rest: bytes) {
    |cs| == |answers| &&
    if cs == [] then rest == down
    else match TakeAnswer(cs[0], down)
         case NoAnswer => false
         case Taken(a, more) => a == answers[0] && Answers(cs[1..], more, answers[1..], rest)
  }

  /** Each of these commands finds its answer. */
  predicate Answered(cs: seq<Command>, down: bytes) {
    cs == [] || (TakeAnswer(cs[0], down).Taken? && Answered(cs[1..], TakeAnswer(cs[0], down).rest))
  }

  predicate AllSucceed(files: Files, cs: seq<Command>, envs: seq<Env>)
    decreases |cs|
  {
    |cs| == |envs| &&
    (cs != [] ==> && Succeeds(files, cs[0], envs[0]) && Real(envs[0])
                  && AllSucceed(Effect(files, cs[0], envs[0]), cs[1..], envs[1..]))
  }

  function Wires(cs: seq<Command>): bytes
    requires forall k :: 0 <= k < |cs| ==> Sendable(cs[k])
  {
    if cs == [] then [] else Wire(cs[0]) + Wires(cs[1..])
  }

  function Replies(files: Files, cs: seq<Command>, envs: seq<Env>): bytes
    requires AllSucceed(files, cs, envs)
    decreases |cs|
  {
    if cs == [] then [] else Reply(files, cs[0], envs[0]) + Replies(Effect(files, cs[0], envs[0]), cs[1..], envs[1..])
  }

  function Meanings(files: Files, cs: seq<Command>, envs: seq<Env>): (r: seq<Answer>)
    requires AllSucceed(files, cs, envs)
    ensures |r| == |cs|
    decreases |cs|
  {
    if cs == [] then []
    else [Meaning(files, cs[0], envs[0])] + Meanings(Effect(files, cs[0], envs[0]), cs[1..], envs[1..])
  }

  function Effects(files: Files, cs: seq<Command>, envs: seq<Env>): Files
    requires |cs| == |envs| && forall k :: 0 <= k < |cs| ==> Sendable(cs[k])
    decreases |cs|
  {
    if cs == [] then files else Effects(Effect(files, cs[0], envs[0]), cs[1..], envs[1..])
  }

  lemma {:induction false} SucceedParts(files: Files, cs: seq<Command>, envs: seq<Env>)
    requires AllSucceed(files, cs, envs)
    ensures forall k :: 0 <= k < |cs| ==> Sendable(cs[k]) && Real(envs[k])
    decreases |cs|
  {
    if cs != [] {
      SucceedParts(Effect(files, cs[0], envs[0]), cs[1..], envs[1..]);
      assert forall k :: 1 <= k < |cs| ==> cs[k] == cs[1..][k - 1] && envs[k] == envs[1..][k - 1];
    }
  }

  /**
   Over any sequence of successful commands, whether or not the client waits for each answer before
   the next request: the server consumes exactly what the client wrote, and the client, reading one
   answer per command, consumes exactly what the server wrote; each answer is the one the command
   means for the files as they were left by the commands before it.
   */
  lemma {:induction false} SessionsStayAligned(files: Files, cs: seq<Command>, envs: seq<Env>, up: bytes, down: bytes)
    requires AllSucceed(files, cs, envs)
    ensures forall k :: 0 <= k < |cs| ==> Sendable(cs[k]) && Real(envs[k])
    ensures Session(files, Wires(cs) + up, envs, Replies(files, cs, envs), Effects(files, cs, envs), up)
    ensures Answers(cs, Replies(files, cs, envs) + down, Meanings(files, cs, envs), down)
    decreases |cs|
  {
    ServerAligned(files, cs, envs, up);
    ClientAligned(files, cs, envs, down);
  }

  lemma {:induction false} ServerAligned(files: Files, cs: seq<Command>, envs: seq<Env>, up: bytes)
    requires AllSucceed(files, cs, envs)
    ensures forall k :: 0 <= k < |cs| ==> Sendable(cs[k]) && Real(envs[k])
    ensures Session(files, Wires(cs) + up, envs, Replies(files, cs, envs), Effects(files, cs, envs), up)
    decreases |cs|
  {
    SucceedParts(files, cs, envs);
    if cs == [] {
      assert Wires(cs) + up == up;
    } else {
      var next := Effect(files, cs[0], envs[0]);
      ServerAligned(next, cs[1..], envs[1..], up);
      WiresStep(cs, up);
      var more, out, after := Wires(cs[1..]) + up, Replies(next, cs[1..], envs[1..]), Effects(next, cs[1..], envs[1..]);
      ServeThen(files, cs[0], envs, more, out, after, up);
    }
  }

  lemma {:induction false} ClientAligned(files: Files, cs: seq<Command>, envs: seq<Env>, down: bytes)
    requires AllSucceed(files, cs, envs)
    ensures Answers(cs, Replies(files, cs, envs) + down, Meanings(files, cs, envs), down)
    decreases |cs|
  {
    if cs == [] {
      assert Replies(files, cs, envs) + down == down;
    } else {
      var next := Effect(files, cs[0], envs[0]);
      ClientAligned(next, cs[1..], envs[1..], down);
      var more := Replies(next, cs[1..], envs[1..]);
      Joined(Reply(files, cs[0], envs[0]), more, down);
      AnswerThen(files, cs, envs[0], more + down, Meanings(next, cs[1..], envs[1..]), down);
    }
  }

  lemma WiresStep(cs: seq<Command>, up: bytes)
    requires cs != [] && forall k :: 0 <= k < |cs| ==> Sendable(cs[k])
    ensures Wires(cs) + up == Wire(cs[0]) + (Wires(cs[1..]) + up)
  {
    Joined(Wire(cs[0]), Wires(cs[1..]), up);
  }

  lemma ServeThen(files: Files, c: Command, envs: seq<Env>, more: bytes, out: bytes, after: Files, rest: bytes)
    requires envs != [] && Real(envs[0])
    requires Succeeds(files, c, envs[0]) && Session(Effect(files, c, envs[0]), more, envs[1..], out, after, rest)
    ensures Session(files, Wire(c) + more, envs, Reply(files, c, envs[0]) + out, after, rest)
  {
    ServeConsumes(files, c, envs[0], more);
    var s := Served(Effect(files, c, envs[0]), Reply(files, c, envs[0]), more);
    SessionStep(files, Wire(c) + more, envs, s, out, after, rest);
  }

  lemma AnswerThen(files: Files, cs: seq<Command>, env: Env, more: bytes, answers: seq<Answer>, rest: bytes)
    requires cs != [] && Real(env) && Succeeds(files, cs[0], env) && Answers(cs[1..], more, answers, rest)
    ensures Answers(cs, Reply(files, cs[0], env) + more, [Meaning(files, cs[0], env)] + answers, rest)
  {
    AnswerConsumes(files, cs[0], env, more);
    AnswersStep(cs, Reply(files, cs[0], env) + more, Taken(Meaning(files, cs[0], env), more), answers, rest);
  }

  lemma SessionStep(files: Files, up: bytes, envs: seq<Env>, s: Served, out: bytes, after: Files, rest: bytes)
    requires envs != [] && Real(envs[0])
    requires ServeOne(files, up, envs[0]) == s && s.Served? && Session(s.files, s.rest, envs[1..], out, after, rest)
    ensures Session(files, up, envs, s.out + out, after, rest)
  {
    assert (s.out + out)[|s.out|..] == out;
  }

  lemma AnswersStep(cs: seq<Command>, down: bytes, t: Taken, answers: seq<Answer>, rest: bytes)
    requires cs != [] && TakeAnswer(cs[0], down) == t && t.Taken? && Answers(cs[1..], t.rest, answers, rest)
    ensures Answers(cs, down, [t.answer] + answers, rest)
  {
    assert ([t.answer] + answers)[1..] == answers;
  }

  // ---- what a session does for its user ----

  function Stats(paths: seq<bytes>): (cs: seq<Command>)
    ensures |cs| == |paths| && forall k :: 0 <= k < |cs| ==> cs[k] == Stat(paths[k])
  {
    seq(|paths|, k requires 0 <= k < |paths| => Stat(paths[k]))
  }

  /** The i-th answer to a pipeline of STATs is the i-th file's. */
  lemma {:induction false} PipelinedStats(files: Files, paths: seq<bytes>, envs: seq<Env>, i: nat)
    requires AllSucceed(files, Stats(paths), envs) && i < |paths|
    ensures Real(envs[i]) && Sendable(Stat(paths[i]))
    ensures Meanings(files, Stats(paths), envs)[i] == Meaning(files, Stat(paths[i]), envs[i])
    decreases i
  {
    if i > 0 {
      assert Stats(paths)[1..] == Stats(paths[1..]);
      PipelinedStats(files, paths[1..], envs[1..], i - 1);
    }
  }

  /** SendLargeFile stops after a piece when it is told that something has arrived, or that poll failed. */
  function Kept(cs: seq<bytes>, polls: seq<bool>): (kept: seq<bytes>)
    ensures Fits(cs) ==> Fits(kept)
  {
    if cs == [] then []
    else if polls != [] && polls[0] then [cs[0]]
    else [cs[0]] + Kept(cs[1..], if polls == [] then [] else polls[1..])
  }

  predicate StopsEarly(n: nat, polls: seq<bool>) {
    exists k :: 0 <= k < n - 1 && k < |polls| && polls[k]
  }

  lemma StopsEarlyStep(n: nat, polls: seq<bool>)
    requires n >= 1 && polls != [] && !polls[0]
    ensures StopsEarly(n, polls) <==> StopsEarly(n - 1, polls[1..])
  {
    if StopsEarly(n, polls) {
      var k :| 0 <= k < n - 1 && k < |polls| && polls[k];
      assert polls[1..][k - 1];
    }
    if StopsEarly(n - 1, polls[1..]) {
      var k :| 0 <= k < n - 2 && k < |polls[1..]| && polls[1..][k];
      assert polls[k + 1];
    }
  }

  lemma {:induction false} KeptIs(cs: seq<bytes>, polls: seq<bool>)
    requires NoneEmpty(cs) && Fits(cs)
    ensures Fits(Kept(cs, polls)) && Cat(Kept(cs, polls)) <= Cat(cs)
    ensures Cat(Kept(cs, polls)) == Cat(cs) <==> !StopsEarly(|cs|, polls)
    decreases |cs|
  {
    if cs != [] {
      if polls != [] && polls[0] {
        var one := [cs[0]];
        assert Cat(one) == cs[0] + Cat(one[1..]) && one[1..] == [];
        if |cs| > 1 {
          assert StopsEarly(|cs|, polls);
          assert Cat(cs[1..]) == cs[1] + Cat(cs[1..][1..]);
        } else {
          assert cs[1..] == [];
        }
      } else {
        var later := if polls == [] then [] else polls[1..];
        KeptIs(cs[1..], later);
        if polls != [] {
          StopsEarlyStep(|cs|, polls);
        }
        KeptTail(cs[0], Kept(cs[1..], later), Cat(cs[1..]));
      }
    }
  }

  lemma KeptTail(c: bytes, kept: seq<bytes>, all: bytes)
    ensures Cat([c] + kept) == c + Cat(kept)
    ensures Cat(kept) <= all ==> c + Cat(kept) <= c + all
    ensures c + Cat(kept) == c + all <==> Cat(kept) == all
  {
    assert ([c] + kept)[1..] == kept;
    if c + Cat(kept) == c + all {
      assert Cat(kept) == (c + Cat(kept))[|c|..] == (c + all)[|c|..] == all;
    }
  }

  /**
   What sync_send sends: the target of a link, in `data`, with its NUL; a small file in one piece; and
   of a large one what is read until a poll stops it.
   */
  function SentPieces(mode: nat, data: bytes, gives: seq<nat>, polls: seq<bool>): (cs: seq<bytes>) {
    if IsLink(mode) then [data + [0]]
    else if |data| < SYNC_DATA_MAX then [data]
    else Kept(Chop(data, gives), polls)
  }

  /** A push of `data`, or of a link to it. */
  function Push(path: bytes, mode: nat, mtime: u32, data: bytes, gives: seq<nat>, polls: seq<bool>): Command {
    Send(path, mode, mtime, SentPieces(mode, data, gives, polls))
  }

  /** What can be pushed: any regular file, and any target that readlink gives. */
  predicate Pushable(path: bytes, mode: nat, data: bytes) {
    Addressable(path, mode) && (IsLink(mode) ==> Clean(data) && 0 < |data| < PATH_MAX)
  }

  /**
   A push is served unless a directory is in its way, and touches no other file. It leaves the source's
   bytes, or the link's target, if and only if it was a link, a small file, or no poll reported anything
   before its last piece; otherwise the copy is cut short there.
   */
  lemma PushCopiesIff(files: Files, path: bytes, mode: nat, mtime: u32, data: bytes, gives: seq<nat>,
                      polls: seq<bool>, env: Env)
    requires Pushable(path, mode, data)
    ensures var c := Push(path, mode, mtime, data, gives, polls);
            && Sendable(c) && (Succeeds(files, c, env) <==> !DirectoryAt(files, path))
            && var after := Effect(files, c, env);
               && after.Keys == files.Keys + {path}
               && (forall p :: p in files && p != path ==> after[p] == files[p])
               && Copied(after[path], mode, mtime, data)
               && (after[path].data == data
                   <==> IsLink(mode) || |data| < SYNC_DATA_MAX || !StopsEarly(|Chop(data, gives)|, polls))
  {
    SentIs(path, mode, mtime, data, gives, polls, env.now);
  }

  /** What a push makes of a file, at least: a link, or a regular file of its time, that holds a prefix. */
  ghost predicate Copied(f: File, mode: nat, mtime: u32, data: bytes) {
    && f.data <= data && (IsLink(f.mode) <==> IsLink(mode)) && !IsDirectory(f.mode)
    && (!IsLink(mode) ==> f.time == mtime && KeepsMode(f.mode, mode))
  }

  /** A regular file whose user has the permissions sent, its group those and the user's, others all of them. */
  ghost predicate KeepsMode(got: u32, mode: nat) {
    mode < 0x8000_0000 && exists p: bv32 :: Widens(p, got, mode)
  }

  predicate Widens(p: bv32, got: u32, mode: nat)
    requires mode < 0x8000_0000
  {
    var m := mode as bv32;
    && got == (0x8000 | p) as int && p & 0x1C0 == m & 0x1C0 && p & 0x38 == (m | (m >> 3)) & 0x38
    && p & 0x7 == (m | (m >> 3) | (m >> 6)) & 0x7 && p & 0xFFFF_FE00 == 0
  }

  lemma PushedKeepsMode(mode: nat, time: u32, data: bytes)
    requires mode < 0x8000_0000
    ensures KeepsMode(Pushed(mode, time, data).mode, mode)
  {
    PermissionBitsAre(mode as bv32);
    assert Widens(PermissionBits(mode as bv32), Pushed(mode, time, data).mode, mode);
  }

  lemma SentIs(path: bytes, mode: nat, mtime: u32, data: bytes, gives: seq<nat>, polls: seq<bool>, now: nat)
    requires Pushable(path, mode, data)
    ensures var c := Push(path, mode, mtime, data, gives, polls);
            && Sendable(c) && Copied(Sent(c, now), mode, mtime, data)
            && (Sent(c, now).data == data
                <==> IsLink(mode) || |data| < SYNC_DATA_MAX || !StopsEarly(|Chop(data, gives)|, polls))
  {
    if IsLink(mode) {
      LinkSent(path, mode, mtime, data, gives, polls, now);
    } else {
      FileSent(path, mode, mtime, data, gives, polls, now);
    }
  }

  lemma LinkSent(path: bytes, mode: nat, mtime: u32, data: bytes, gives: seq<nat>, polls: seq<bool>, now: nat)
    requires Pushable(path, mode, data) && IsLink(mode)
    ensures var c := Push(path, mode, mtime, data, gives, polls); Sendable(c) && Sent(c, now) == Linked(data, now)
  {
    assert (data + [0])[..|data|] == data;
  }

  lemma FileSent(path: bytes, mode: nat, mtime: u32, data: bytes, gives: seq<nat>, polls: seq<bool>, now: nat)
    requires Pushable(path, mode, data) && !IsLink(mode)
    ensures var c := Push(path, mode, mtime, data, gives, polls);
            && Sendable(c)
            && var f := Sent(c, now);
               && f.data <= data && f.time == mtime && !IsLink(f.mode) && !IsDirectory(f.mode)
               && KeepsMode(f.mode, mode)
               && (f.data == data <==> |data| < SYNC_DATA_MAX || !StopsEarly(|Chop(data, gives)|, polls))
  {
    RegularFile(mode as bv32);
    PushedKeepsMode(mode, mtime, Cat(SentPieces(mode, data, gives, polls)));
    if |data| < SYNC_DATA_MAX {
      var one := [data];
      assert Cat(one) == data + Cat(one[1..]) && one[1..] == [];
    } else {
      ChopIs(data, gives);
      KeptIs(Chop(data, gives), polls);
    }
  }

  /** A file of two pieces whose first poll fails. */
  lemma PollFailureTruncates(files: Files, path: bytes, mode: nat, mtime: u32, data: bytes, env: Env)
    requires Addressable(path, mode) && !IsLink(mode) && |data| > SYNC_DATA_MAX
    ensures var c := Push(path, mode, mtime, data, [], [true]);
            Sendable(c) && Effect(files, c, env)[path].data != data
  {
    PushCopiesIff(files, path, mode, mtime, data, [], [true], env);
    var more := Chop(data[SYNC_DATA_MAX..], []);
    assert Chop(data, []) == [data[..SYNC_DATA_MAX]] + more;
    ChopIs(data[SYNC_DATA_MAX..], []);
    assert more != [];
    assert [true][0];
  }

  /**
   A file that has been pushed comes back unchanged when it is pulled, however either end reads it. A
   link that has been pushed is reported as long as its target, and pulled as the file it leads to.
   */
  lemma PushThenPull(files: Files, path: bytes, mode: nat, mtime: u32, data: bytes, gives: seq<nat>, envs: seq<Env>)
    requires Pushable(path, mode, data) && |path| <= MAX_PATH && !DirectoryAt(files, path)
    requires |envs| == 3 && Real(envs[0]) && Real(envs[1]) && Real(envs[2])
    ensures var c := Push(path, mode, mtime, data, gives, []);
            var cs := [c, Stat(path), Recv(path)];
            && Sendable(c)
            && var after := Effect(files, c, envs[0]);
               && (!IsLink(mode) ==> Readable(after, path, envs[2]))
               && (Readable(after, path, envs[2]) ==>
                     && AllSucceed(files, cs, envs)
                     && var answers := Meanings(files, cs, envs);
                        && answers[0] == Okay && answers[1].StatIs? && answers[1].size == Low32(|data|)
                        && (IsLink(answers[1].mode) <==> IsLink(mode))
                        && (!IsLink(mode) ==> answers[1].time == mtime && KeepsMode(answers[1].mode, mode))
                        && answers[2] == Content(if IsLink(mode) then after[envs[2].reaches].data else data))
  {
    var c := Push(path, mode, mtime, data, gives, []);
    PushCopiesIff(files, path, mode, mtime, data, gives, [], envs[0]);
    var after := Effect(files, c, envs[0]);
    if Readable(after, path, envs[2]) {
      ThreeCommands(files, after, c, path, envs);
    }
  }

  lemma ThreeCommands(files: Files, after: Files, c: Command, path: bytes, envs: seq<Env>)
    requires c.Send? && |envs| == 3 && Real(envs[0]) && Real(envs[1]) && Real(envs[2])
    requires Succeeds(files, c, envs[0]) && after == Effect(files, c, envs[0])
    requires Clean(path) && |path| <= MAX_PATH && Readable(after, path, envs[2])
    ensures AllSucceed(files, [c, Stat(path), Recv(path)], envs)
    ensures Meanings(files, [c, Stat(path), Recv(path)], envs)
         == [Okay, Meaning(after, Stat(path), envs[1]), Meaning(after, Recv(path), envs[2])]
  {
    var cs, ds, es := [c, Stat(path), Recv(path)], [Stat(path), Recv(path)], [Recv(path)];
    assert cs[1..] == ds && ds[1..] == es && es[1..] == [];
    var e1, e2 := envs[1..], envs[2..];
    assert e1[1..] == e2 && e2[1..] == [];
    assert AllSucceed(after, es, e2);
    assert AllSucceed(after, ds, e1);
    assert Meanings(after, es, e2) == [Meaning(after, Recv(path), envs[2])];
    assert Meanings(after, ds, e1) == [Meaning(after, Stat(path), envs[1]), Meaning(after, Recv(path), envs[2])];
  }

  /** A pushed file is a regular one. */
  lemma RegularFile(mode: bv32)
    ensures (0x8000 | PermissionBits(mode)) as int / 4096 % 16 == 8
  {
    var b := 0x8000 | PermissionBits(mode);
    assert b >> 12 == 8;
    assert 0x8000 <= b <= 0x81FF;
    assert 0x8000 <= b as int <= 0x81FF;
  }
}
