/** Lists of addresses, as std::list keeps them. */
module Lists {

  predicate NoRepeats(ids: seq<nat>) {
    forall i, j :: 0 <= i < j < |ids| ==> ids[i] != ids[j]
  }

  /** std::list::remove. */
  function Without(ids: seq<nat>, id: nat): (r: seq<nat>)
    ensures forall x :: x in r <==> x in ids && x != id
    ensures |r| <= |ids| && (NoRepeats(ids) ==> NoRepeats(r))
  {
    if ids == [] then []
    else if ids[0] == id then Without(ids[1..], id)
    else
      var rest := Without(ids[1..], id);
      assert NoRepeats(ids) ==> NoRepeats(ids[1..]) && ids[0] !in rest;
      [ids[0]] + rest
  }

  lemma WithoutStep(ids: seq<nat>, i: nat, id: nat)
    requires i < |ids|
    ensures Without(ids[i..], id)
         == if ids[i] == id then Without(ids[i + 1..], id) else [ids[i]] + Without(ids[i + 1..], id)
  {
    assert ids[i..][1..] == ids[i + 1..];
  }

  /** The loop of std::list::remove. */
  method Filtered(ids: seq<nat>, id: nat) returns (kept: seq<nat>)
    ensures kept == Without(ids, id)
  {
    kept := [];
    var i := 0;
    ghost var rest := Without(ids, id);
    assert ids[0..] == ids && kept + rest == rest;
    while i < |ids|
      invariant i <= |ids| && rest == Without(ids[i..], id) && kept + rest == Without(ids, id)
    {
      WithoutStep(ids, i, id);
      if ids[i] != id {
        assert kept + ([ids[i]] + Without(ids[i + 1..], id)) == kept + [ids[i]] + Without(ids[i + 1..], id);
        kept := kept + [ids[i]];
      }
      i := i + 1;
      rest := Without(ids[i..], id);
    }
    assert ids[i..] == [];
    assert rest == [] && kept + rest == kept;
  }
}
