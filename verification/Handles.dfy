/** The table of file handles and its search hint (adb/sysdeps_win32.cpp). */
module Handles {
  const MAX_HANDLES := 2048

  /** Which slots are in use, and where the search for a free one starts. */
  datatype Table = Table(used: seq<bool>, next: nat)

  /** The first free slot from a place on, or the end of the table. */
  function FirstFree(used: seq<bool>, from: nat): (k: nat)
    requires from <= |used|
    ensures from <= k <= |used| && (k < |used| ==> !used[k])
    ensures forall j :: from <= j < k ==> used[j]
    decreases |used| - from
  {
    if from == |used| || !used[from] then from else FirstFree(used, from + 1)
  }

  datatype Op = Alloc | Close(slot: nat)

  /** An operation and the slot it gave, |used| standing for failure. */
  datatype Outcome = Outcome(table: Table, slot: nat)

  function Apply(t: Table, op: Op): Outcome
    requires t.next <= |t.used|
  {
    match op
    case Alloc =>
      var k := FirstFree(t.used, t.next);
      if k == |t.used| then Outcome(t, k) else Outcome(Table(t.used[k := true], k + 1), k)
    case Close(slot) =>
      if slot >= |t.used| then Outcome(t, slot)
      else Outcome(Table(t.used[slot := false], if t.next > slot then slot else t.next), slot)
  }

  /** The allocator without a hint. */
  function Plain(used: seq<bool>, op: Op): (seq<bool>, nat) {
    match op
    case Alloc => var k := FirstFree(used, 0); if k == |used| then (used, k) else (used[k := true], k)
    case Close(slot) => if slot >= |used| then (used, slot) else (used[slot := false], slot)
  }

  predicate Inv(t: Table) {
    t.next <= |t.used| && forall j :: 0 <= j < t.next ==> t.used[j]
  }

  lemma {:induction false} SkipUsed(used: seq<bool>, from: nat, upTo: nat)
    requires from <= upTo <= |used| && forall j :: from <= j < upTo ==> used[j]
    ensures FirstFree(used, from) == FirstFree(used, upTo)
    decreases |used| - from
  {
    if from < upTo {
      SkipUsed(used, from + 1, upTo);
    }
  }

  /** One operation keeps the hint exact, and does what it would do without the hint. */
  lemma ApplyPlain(t: Table, op: Op)
    requires Inv(t)
    ensures Inv(Apply(t, op).table)
    ensures (Apply(t, op).table.used, Apply(t, op).slot) == Plain(t.used, op)
  {
    SkipUsed(t.used, 0, t.next);
  }

  function Slots(t: Table, ops: seq<Op>): seq<nat>
    requires Inv(t)
    decreases |ops|
  {
    if ops == [] then [] else ApplyPlain(t, ops[0]); [Apply(t, ops[0]).slot] + Slots(Apply(t, ops[0]).table, ops[1..])
  }

  function PlainSlots(used: seq<bool>, ops: seq<Op>): seq<nat>
    decreases |ops|
  {
    if ops == [] then [] else [Plain(used, ops[0]).1] + PlainSlots(Plain(used, ops[0]).0, ops[1..])
  }

  /** Over every sequence of operations the hinted table gives the same slots as a scan from zero. */
  lemma {:induction false} HintIsExact(t: Table, ops: seq<Op>)
    requires Inv(t)
    ensures Slots(t, ops) == PlainSlots(t.used, ops)
    decreases |ops|
  {
    if ops != [] {
      ApplyPlain(t, ops[0]);
      HintIsExact(Apply(t, ops[0]).table, ops[1..]);
    }
  }

  class HandleTable {
    const used: array<bool>
    var next: nat

    ghost function Value(): Table
      reads this, used
    {
      Table(used[..], next)
    }

    constructor ()
      ensures fresh(used) && used.Length == MAX_HANDLES && Inv(Value()) && next == 0
              && forall j :: 0 <= j < used.Length ==> !used[j]
    {
      used := new bool[MAX_HANDLES](_ => false);
      next := 0;
    }

    /** _fh_alloc: the lowest free slot, and failure only when there is none. */
    method Alloc() returns (ok: bool, slot: nat)
      requires Inv(Value())
      modifies this, used
      ensures Inv(Value()) && Value() == Apply(old(Value()), Op.Alloc).table
      ensures ok ==> slot < used.Length && !old(used[slot]) && used[..] == old(used[..])[slot := true]
      ensures ok ==> forall j :: 0 <= j < slot ==> old(used[j])
      ensures !ok ==> unchanged(this) && unchanged(used) && forall j :: 0 <= j < used.Length ==> used[j]
    {
      ApplyPlain(Value(), Op.Alloc);
      slot := next;
      while slot < used.Length
        invariant next <= slot <= used.Length && forall j :: 0 <= j < slot ==> used[j]
        invariant FirstFree(used[..], next) == FirstFree(used[..], slot)
      {
        if !used[slot] {
          next := slot + 1;
          used[slot] := true;
          return true, slot;
        }
        slot := slot + 1;
      }
      return false, slot;
    }

    /** _fh_close, of a handle in use or not. */
    method Close(slot: nat)
      requires Inv(Value()) && slot < used.Length
      modifies this, used
      ensures Inv(Value()) && Value() == Apply(old(Value()), Op.Close(slot)).table
    {
      ApplyPlain(Value(), Op.Close(slot));
      if next > slot {
        next := slot;
      }
      if used[slot] {
        used[slot] := false;
      }
    }
  }
}
