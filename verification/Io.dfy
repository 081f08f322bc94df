/** Exact transfers over descriptors that give and take less than asked (adb/adb_io.cpp). */
module Io {
  import opened Bytes

  type u32 = x: int | 0 <= x < 0x1_0000_0000

  // ---- 32-bit words, least significant byte first ----

  function Le32(x: u32): (b: bytes)
    ensures |b| == 4
  {
    [x % 256, x / 256 % 256, x / 65536 % 256, x / 16777216]
  }

  function FromLe32(b: bytes): (x: u32)
    requires |b| == 4
  {
    b[0] as int + 256 * (b[1] as int) + 65536 * (b[2] as int) + 16777216 * (b[3] as int)
  }

  lemma Le32RoundTrip(x: u32)
    ensures FromLe32(Le32(x)) == x
  {
    var b1, b2, b3 := x / 256, x / 65536, x / 16777216;
    assert x == 256 * b1 + x % 256;
    assert b1 / 256 == b2 && b1 == 256 * b2 + b1 % 256;
    assert b2 / 256 == b3 && b2 == 256 * b3 + b2 % 256;
  }

  /** The bytes of a word stand for it, the least significant one first. */
  lemma Le32Little(x: u32)
    ensures var b := Le32(x);
            x == b[0] as int + 256 * (b[1] as int) + 65536 * (b[2] as int) + 16777216 * (b[3] as int)
  {
    Le32RoundTrip(x);
  }

  /** A word in front of anything else. */
  lemma Le32Ahead(x: u32, rest: bytes)
    ensures var b := Le32(x) + rest; FromLe32(b[..4]) == x && b[4..] == rest
  {
    var b := Le32(x) + rest;
    assert b[..4] == Le32(x);
    Le32RoundTrip(x);
  }

  // ---- descriptors ----

  /**
   A descriptor to read from. `rest` is what has yet to be read; `gives` bounds what each further
   adb_read returns, 0 being an error, and after that each returns all it can.
   */
  function Amount(len: nat, left: nat, gives: seq<nat>): (n: nat)
    ensures n <= len && n <= left && (gives != [] ==> n <= gives[0])
    ensures n == len || n == left || (gives != [] && n == gives[0])
  {
    var n := if len < left then len else left;
    if gives != [] && gives[0] < n then gives[0] else n
  }

  class InFd {
    var rest: bytes
    var gives: seq<nat>

    constructor (content: bytes, pieces: seq<nat>)
      ensures rest == content && gives == pieces
    {
      rest, gives := content, pieces;
    }

    method AdbRead(len: nat) returns (r: int, data: bytes)
      modifies this
      ensures r == -1 || r == |data|
      ensures data <= old(rest) && rest == old(rest)[|data|..] && |data| <= len
      ensures r == 0 ==> len == 0 || old(rest) == []
      ensures r >= 0 ==> r == Amount(len, |old(rest)|, old(gives))
      ensures gives == if old(gives) == [] then [] else old(gives)[1..]
      ensures r == -1 ==> 0 in old(gives) && data == []
      ensures |gives| <= |old(gives)| && forall g :: g in gives ==> g in old(gives)
    {
      var n := if len < |rest| then len else |rest|;
      if gives != [] {
        var g := gives[0];
        gives := gives[1..];
        if g == 0 {
          return -1, [];
        }
        n := if g < n then g else n;
      }
      data := rest[..n];
      rest := rest[n..];
      r := n;
    }
  }

  /** ReadFdExactly. */
  method ReadFdExactly(fd: InFd, len: nat) returns (ok: bool, buf: bytes)
    modifies fd
    ensures ok ==> |buf| == len && len <= |old(fd.rest)| && buf == old(fd.rest)[..len] && fd.rest == old(fd.rest)[len..]
    ensures 0 !in old(fd.gives) ==> 0 !in fd.gives && (ok <==> len <= |old(fd.rest)|)
  {
    buf := [];
    while |buf| < len
      invariant |buf| <= len && |buf| <= |old(fd.rest)| && buf == old(fd.rest)[..|buf|]
                && fd.rest == old(fd.rest)[|buf|..]
      invariant 0 !in old(fd.gives) ==> 0 !in fd.gives
      decreases len - |buf|
    {
      var r, data := fd.AdbRead(len - |buf|);
      if r <= 0 {
        return false, buf;
      }
      buf := buf + data;
    }
    ok := true;
  }

  /** What one adb_write does: takes some bytes, would block, or fails. */
  datatype Write = Takes(n: nat) | Again | Fails

  /**
   A descriptor to write to. `written` is all it has accepted; `does` says what each further
   adb_write does, and after that each takes everything.
   */
  class OutFd {
    var written: bytes
    var does: seq<Write>

    constructor (script: seq<Write>)
      ensures written == [] && does == script
    {
      written, does := [], script;
    }

    method AdbWrite(data: bytes) returns (r: int, again: bool)
      modifies this
      ensures -1 <= r <= |data|
      ensures r >= 0 ==> written == old(written) + data[..r]
      ensures r == -1 ==> written == old(written)
      ensures r == -1 && !again ==> Fails in old(does)
      ensures |does| < |old(does)| || (old(does) == [] && does == [] && r == |data|)
      ensures forall d :: d in does ==> d in old(does)
    {
      again := false;
      var n := |data|;
      if does != [] {
        var d := does[0];
        does := does[1..];
        match d {
          case Takes(k) => n := if k < n then k else n;
          case Again => return -1, true;
          case Fails => return -1, false;
        }
      }
      written := written + data[..n];
      r := n;
    }
  }

  /** WriteFdExactly: EAGAIN is waited out. */
  method WriteFdExactly(fd: OutFd, data: bytes) returns (ok: bool)
    modifies fd
    ensures ok ==> fd.written == old(fd.written) + data
    ensures !ok ==> old(fd.written) <= fd.written <= old(fd.written) + data
    ensures Fails !in old(fd.does) ==> ok && Fails !in fd.does
  {
    var n := 0;
    assert data[..0] == [];
    while n < |data|
      invariant n <= |data| && fd.written == old(fd.written) + data[..n]
      invariant Fails !in old(fd.does) ==> Fails !in fd.does
      decreases |fd.does|, |data| - n
    {
      var r, again := fd.AdbWrite(data[n..]);
      if r == -1 {
        if !again {
          return false;
        }
      } else {
        SplitTake(data, n, r);
        n := n + r;
      }
    }
    assert data[..n] == data;
    ok := true;
  }

  lemma SplitTake(data: bytes, n: nat, r: nat)
    requires n + r <= |data|
    ensures data[..n] + data[n..][..r] == data[..n + r]
  {
  }
}
