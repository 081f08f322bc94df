/** Bytes and byte strings, shared by every module. */
module Bytes {
  type byte = b: int | 0 <= b < 256
  type bytes = seq<byte>

  /** The bytes of a list of packets, in order. */
  function Cat(parts: seq<bytes>): (r: bytes)
  {
    if parts == [] then [] else parts[0] + Cat(parts[1..])
  }

  lemma {:induction false} CatAppend(parts: seq<bytes>, last: bytes)
    ensures Cat(parts + [last]) == Cat(parts) + last
  {
    if parts == [] {
      assert parts + [last] == [last];
      assert [last][1..] == [];
      assert Cat([last]) == last + Cat([last][1..]);
    } else {
      assert (parts + [last])[1..] == parts[1..] + [last];
      CatAppend(parts[1..], last);
    }
  }

  /** A buffer read as a C string. */
  function CString(b: bytes): (s: bytes)
    ensures |s| <= |b| && (0 !in b ==> s == b)
  {
    if b == [] || b[0] == 0 then [] else [b[0]] + CString(b[1..])
  }

  lemma OneMore<T>(s: seq<T>, n: nat)
    requires n < |s|
    ensures s[..n + 1] == s[..n] + [s[n]]
  {
  }

  lemma Prefixed<T>(a: seq<T>, b: seq<T>)
    requires a <= b
    ensures b == a + b[|a|..]
  {
  }

  lemma Joined<T>(a: seq<T>, b: seq<T>, c: seq<T>)
    ensures a + (b + c) == a + b + c
  {
  }
}
