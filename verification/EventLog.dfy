/** Lists of values for the event log (bootstat/event_log_list_builder.cpp). */
module EventLog {
  import opened Bytes
  import opened Io

  const MAX_PAYLOAD := 511
  const TYPE_INT: byte := 0
  const TYPE_STRING: byte := 2
  const TYPE_LIST: byte := 3

  type int32 = x: int | -0x8000_0000 <= x < 0x8000_0000

  datatype Value = Int(n: int32) | Str(s: bytes)

  function Unsigned(n: int32): u32 {
    if n < 0 then n + 0x1_0000_0000 else n
  }

  function Signed(n: u32): int32 {
    if n >= 0x8000_0000 then n - 0x1_0000_0000 else n
  }

  /** Lengths are ints. */
  predicate Fits(v: Value) {
    v.Str? ==> |v.s| < 0x8000_0000
  }

  predicate AllFit(vs: seq<Value>) {
    forall k :: 0 <= k < |vs| ==> Fits(vs[k])
  }

  function Encode(v: Value): (b: bytes)
    requires Fits(v)
    ensures |b| == if v.Int? then 5 else 5 + |v.s|
  {
    match v
    case Int(n) => [TYPE_INT] + Le32(Unsigned(n))
    case Str(s) => [TYPE_STRING] + Le32(|s|) + s
  }

  /** A value is its type, 0 or 2, and a word: the number, or the length of the bytes that follow. */
  lemma EncodeLayout(v: Value)
    requires Fits(v)
    ensures v.Int? ==> Encode(v) == [0] + Le32(if v.n < 0 then v.n + 0x1_0000_0000 else v.n)
    ensures v.Str? ==> Encode(v) == [2] + Le32(|v.s|) + v.s
  {
  }

  function EncodeAll(vs: seq<Value>): (b: bytes)
    requires AllFit(vs)
    ensures |b| >= 5 * |vs|
  {
    if vs == [] then [] else Encode(vs[0]) + EncodeAll(vs[1..])
  }

  lemma {:induction false} EncodeAllAppend(vs: seq<Value>, v: Value)
    requires AllFit(vs) && Fits(v)
    ensures AllFit(vs + [v]) && EncodeAll(vs + [v]) == EncodeAll(vs) + Encode(v)
  {
    if vs == [] {
      assert vs + [v] == [v] && [v][1..] == [];
      assert EncodeAll([v]) == Encode(v) + EncodeAll([v][1..]);
    } else {
      var all := vs + [v];
      assert all[1..] == vs[1..] + [v] && all[0] == vs[0];
      EncodeAllAppend(vs[1..], v);
      Joined(Encode(vs[0]), EncodeAll(vs[1..]), Encode(v));
    }
  }

  // ---- reading a list ----

  datatype Decoded = Decoded(values: seq<Value>) | Malformed

  function DecodeItems(b: bytes, count: nat): Decoded
    decreases count
  {
    if count == 0 then (if b == [] then Decoded([]) else Malformed)
    else if |b| < 5 then Malformed
    else
      var word := FromLe32(b[1..5]);
      if b[0] == TYPE_INT then Ahead(Int(Signed(word)), DecodeItems(b[5..], count - 1))
      else if b[0] == TYPE_STRING && word <= |b| - 5 then
        Ahead(Str(b[5..5 + word]), DecodeItems(b[5 + word..], count - 1))
      else Malformed
  }

  function Ahead(v: Value, d: Decoded): Decoded {
    if d.Malformed? then Malformed else Decoded([v] + d.values)
  }

  function Decode(b: bytes): Decoded {
    if |b| < 2 || b[0] != TYPE_LIST then Malformed else DecodeItems(b[2..], b[1])
  }

  lemma DecodeOne(v: Value, more: bytes, count: nat)
    requires Fits(v)
    ensures DecodeItems(Encode(v) + more, count + 1) == Ahead(v, DecodeItems(more, count))
  {
    var b := Encode(v) + more;
    match v
    case Int(n) =>
      assert b[1..5] == Le32(Unsigned(n)) && b[5..] == more;
      Le32RoundTrip(Unsigned(n));
    case Str(s) =>
      assert b[1..5] == Le32(|s|) && b[5..5 + |s|] == s && b[5 + |s|..] == more;
      Le32RoundTrip(|s|);
  }

  lemma {:induction false} DecodeEncoded(vs: seq<Value>)
    requires AllFit(vs)
    ensures DecodeItems(EncodeAll(vs), |vs|) == Decoded(vs)
  {
    if vs != [] {
      DecodeEncoded(vs[1..]);
      DecodeNext(vs, EncodeAll(vs[1..]));
    }
  }

  lemma DecodeNext(vs: seq<Value>, more: bytes)
    requires vs != [] && Fits(vs[0]) && DecodeItems(more, |vs| - 1) == Decoded(vs[1..])
    ensures DecodeItems(Encode(vs[0]) + more, |vs|) == Decoded(vs)
  {
    DecodeOne(vs[0], more, |vs| - 1);
    assert vs == [vs[0]] + vs[1..];
  }

  // ---- the builder ----

  /** A builder that has accepted `values`; `checked` says that every debug check has passed. */
  datatype State = State(values: seq<Value>, checked: bool)

  function Size(s: State): nat
    requires AllFit(s.values)
  {
    2 + |EncodeAll(s.values)|
  }

  /** What IsSpaceAvailable demands: for an int one byte more than it takes. */
  function Needs(v: Value): nat {
    if v.Int? then 6 else 5 + |v.s|
  }

  /** Append: whether the value is taken, and whether the debug checks of AppendData pass. */
  function Append(s: State, v: Value): State
    requires AllFit(s.values) && Fits(v)
  {
    if Size(s) + Needs(v) > MAX_PAYLOAD then s
    else State(s.values + [v], s.checked && Size(s) + |Encode(v)| < MAX_PAYLOAD)
  }

  /** An int is taken if six bytes are left of the 511, a string if five and its own are. */
  lemma TakenIff(s: State, v: Value)
    requires AllFit(s.values) && Fits(v)
    ensures var free := 511 - Size(s);
            && (Append(s, v).values == s.values + [v] <==> free >= if v.Int? then 6 else 5 + |v.s|)
            && (Append(s, v).values != s.values + [v] ==> Append(s, v) == s)
  {
    assert |s.values + [v]| == |s.values| + 1;
  }

  predicate Valid(s: State) {
    AllFit(s.values) && Size(s) <= MAX_PAYLOAD
  }

  lemma AppendValid(s: State, v: Value)
    requires Valid(s) && Fits(v)
    ensures Valid(Append(s, v)) && (Append(s, v) != s ==> Size(Append(s, v)) == Size(s) + |Encode(v)|)
  {
    EncodeAllAppend(s.values, v);
  }

  /** The payload handed out by Release. */
  function Released(s: State): bytes
    requires Valid(s)
  {
    assert 5 * |s.values| <= |EncodeAll(s.values)|;
    [TYPE_LIST, |s.values|] + EncodeAll(s.values)
  }

  /** A list is its type, 3, its count and its values. */
  lemma ListLayout(s: State)
    requires Valid(s)
    ensures Released(s) == [3, |s.values|] + EncodeAll(s.values)
  {
  }

  function AppendAll(s: State, vs: seq<Value>): (r: State)
    requires Valid(s) && AllFit(vs)
    ensures Valid(r)
    decreases |vs|
  {
    if vs == [] then s else AppendValid(s, vs[0]); AppendAll(Append(s, vs[0]), vs[1..])
  }

  /** The values whose append returns true, in order, from a given size on. */
  function Accepted(size: nat, vs: seq<Value>): (r: seq<Value>)
    requires AllFit(vs)
    decreases |vs|
  {
    if vs == [] then []
    else if size + Needs(vs[0]) > MAX_PAYLOAD then Accepted(size, vs[1..])
    else [vs[0]] + Accepted(size + |Encode(vs[0])|, vs[1..])
  }

  lemma {:induction false} AppendAllIs(s: State, vs: seq<Value>)
    requires Valid(s) && AllFit(vs)
    ensures AppendAll(s, vs).values == s.values + Accepted(Size(s), vs)
    decreases |vs|
  {
    if vs != [] {
      AppendValid(s, vs[0]);
      AppendAllIs(Append(s, vs[0]), vs[1..]);
      AcceptedStep(s, vs);
    }
  }

  lemma AcceptedStep(s: State, vs: seq<Value>)
    requires Valid(s) && AllFit(vs) && vs != []
    ensures Valid(Append(s, vs[0]))
    ensures s.values + Accepted(Size(s), vs)
         == Append(s, vs[0]).values + Accepted(Size(Append(s, vs[0])), vs[1..])
  {
    AppendValid(s, vs[0]);
    var next := Append(s, vs[0]);
    if Size(s) + Needs(vs[0]) <= MAX_PAYLOAD {
      TakenGrows(s, vs[0]);
      AcceptedFirst(Size(s), Size(next), vs);
      Joined(s.values, [vs[0]], Accepted(Size(next), vs[1..]));
    } else {
      assert next == s;
    }
  }

  lemma AcceptedFirst(size: nat, next: nat, vs: seq<Value>)
    requires AllFit(vs) && vs != [] && size + Needs(vs[0]) <= MAX_PAYLOAD && next == size + |Encode(vs[0])|
    ensures Accepted(size, vs) == [vs[0]] + Accepted(next, vs[1..])
  {
  }

  lemma TakenGrows(s: State, v: Value)
    requires Valid(s) && Fits(v) && Size(s) + Needs(v) <= MAX_PAYLOAD
    ensures AllFit(Append(s, v).values) && Append(s, v).values == s.values + [v]
    ensures Size(Append(s, v)) == Size(s) + |Encode(v)|
  {
    EncodeAllAppend(s.values, v);
  }

  /**
   After any appends the payload is at most 511 bytes, its count byte is the number of items, and it
   decodes to exactly the values whose append returned true, in order.
   */
  lemma ReleasedDecodes(vs: seq<Value>)
    requires AllFit(vs)
    ensures var s := AppendAll(State([], true), vs);
            && |Released(s)| <= MAX_PAYLOAD && |s.values| <= 101 && Released(s)[1] == |s.values|
            && s.values == Accepted(2, vs) && Decode(Released(s)) == Decoded(s.values)
  {
    var s := AppendAll(State([], true), vs);
    AppendAllIs(State([], true), vs);
    assert [] + Accepted(2, vs) == Accepted(2, vs);
    assert Released(s)[2..] == EncodeAll(s.values);
    DecodeEncoded(s.values);
  }

  /** The debug checks fail if and only if a value fills the payload to its last byte; only a string can. */
  lemma ChecksPassIff(s: State, v: Value)
    requires Valid(s) && Fits(v) && s.checked
    ensures Append(s, v).checked <==> !(v.Str? && Size(s) + 5 + |v.s| == MAX_PAYLOAD)
  {
  }

  /** Over any appends: the checks have all passed if and only if the payload was not filled to its last byte. */
  lemma {:induction false} AllChecksPassIff(s: State, vs: seq<Value>)
    requires Valid(s) && AllFit(vs) && (s.checked <==> Size(s) < MAX_PAYLOAD)
    ensures AppendAll(s, vs).checked <==> Size(AppendAll(s, vs)) < MAX_PAYLOAD
    decreases |vs|
  {
    if vs != [] {
      AppendValid(s, vs[0]);
      AllChecksPassIff(Append(s, vs[0]), vs[1..]);
    }
  }

  /** A string of 504 bytes in an empty list. */
  lemma FullPayloadFailsCheck(v: Value)
    requires v.Str? && |v.s| == 504
    ensures var s := Append(State([], true), v);
            s.values == [v] && !s.checked && Size(s) == MAX_PAYLOAD
  {
    AppendValid(State([], true), v);
    assert [] + [v] == [v];
  }

  class EventLogListBuilder {
    var count: nat
    var size: nat
    const payload: array<byte>
    var checked: bool
    ghost var values: seq<Value>

    ghost predicate Ok()
      reads this, payload
    {
      && payload.Length == MAX_PAYLOAD && size <= MAX_PAYLOAD && count == |values| && Valid(State(values, checked))
      && payload[..size] == [TYPE_LIST, 0] + EncodeAll(values)
    }

    ghost function Contents(): State
      reads this
    {
      State(values, checked)
    }

    constructor ()
      ensures Ok() && fresh(payload) && Contents() == State([], true)
    {
      payload := new byte[MAX_PAYLOAD](_ => 0);
      count, size, checked, values := 0, 0, true, [];
      new;
      AppendByte(TYPE_LIST);
      size := size + 1;
      assert payload[..2] == [TYPE_LIST, 0];
    }

    method AppendByte(b: byte)
      requires size < payload.Length
      modifies this`size, this`checked, payload
      ensures size == old(size) + 1 && payload[..size] == old(payload[..size]) + [b]
      ensures forall k :: size <= k < payload.Length ==> payload[k] == old(payload[k])
      ensures checked == (old(checked) && old(size) + 1 < MAX_PAYLOAD)
    {
      checked := checked && size + 1 < MAX_PAYLOAD;
      payload[size] := b;
      size := size + 1;
    }

    method AppendData(data: bytes)
      requires size + |data| <= payload.Length
      modifies this`size, this`checked, payload
      ensures size == old(size) + |data| && payload[..size] == old(payload[..size]) + data
      ensures checked == (old(checked) && old(size) + |data| < MAX_PAYLOAD)
    {
      checked := checked && size + |data| < MAX_PAYLOAD;
      var i := 0;
      while i < |data|
        invariant i <= |data| && payload[..size + i] == old(payload[..size]) + data[..i]
        modifies payload
      {
        payload[size + i] := data[i];
        i := i + 1;
      }
      assert data[..i] == data;
      size := size + |data|;
    }

    method IsSpaceAvailable(valueSize: nat) returns (ok: bool)
      ensures ok <==> size + valueSize + 1 <= MAX_PAYLOAD
    {
      ok := size + (valueSize + 1) <= MAX_PAYLOAD;
    }

    method AppendInt(value: int32) returns (ok: bool)
      requires Ok()
      modifies this, payload
      ensures Ok() && Contents() == Append(old(Contents()), Int(value)) && (ok <==> |values| > |old(values)|)
    {
      ok := IsSpaceAvailable(4 + 1);
      if !ok {
        return;
      }
      ghost var before := payload[..size];
      AppendByte(TYPE_INT);
      AppendData(Le32(Unsigned(value)));
      IntAppended(before, value);
      Extended(before, values, Int(value));
      count := count + 1;
      values := values + [Int(value)];
    }

    method AppendString(value: bytes) returns (ok: bool)
      requires Ok() && |value| < 0x8000_0000
      modifies this, payload
      ensures Ok() && Contents() == Append(old(Contents()), Str(value)) && (ok <==> |values| > |old(values)|)
    {
      ok := IsSpaceAvailable(4 + |value|);
      if !ok {
        return;
      }
      ghost var before := payload[..size];
      AppendByte(TYPE_STRING);
      AppendData(Le32(|value|));
      AppendData(value);
      StringAppended(before, value);
      Extended(before, values, Str(value));
      count := count + 1;
      values := values + [Str(value)];
    }

    method Release() returns (log: bytes)
      requires Ok()
      modifies this, payload
      ensures log == Released(old(Contents()))
    {
      assert 5 * |values| <= |EncodeAll(values)|;
      payload[1] := count;
      log := payload[..size];
    }
  }

  lemma IntAppended(before: bytes, n: int32)
    ensures before + [TYPE_INT] + Le32(Unsigned(n)) == before + Encode(Int(n))
  {
  }

  lemma StringAppended(before: bytes, s: bytes)
    requires |s| < 0x8000_0000
    ensures before + [TYPE_STRING] + Le32(|s|) + s == before + Encode(Str(s))
  {
  }

  lemma Extended(before: bytes, vs: seq<Value>, v: Value)
    requires AllFit(vs) && Fits(v) && before == [TYPE_LIST, 0] + EncodeAll(vs)
    ensures AllFit(vs + [v]) && before + Encode(v) == [TYPE_LIST, 0] + EncodeAll(vs + [v])
  {
    EncodeAllAppend(vs, v);
    Joined([TYPE_LIST, 0], EncodeAll(vs), Encode(v));
  }
}
