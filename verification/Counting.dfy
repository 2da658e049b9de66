/** How often a number occurs in a list. */
module Counting {
  function Count(ids: seq<nat>, id: nat): nat {
    if ids == [] then 0 else (if ids[0] == id then 1 else 0) + Count(ids[1..], id)
  }

  lemma {:induction false} CountConcat(a: seq<nat>, b: seq<nat>, id: nat)
    ensures Count(a + b, id) == Count(a, id) + Count(b, id)
  {
    if a == [] { assert a + b == b; } else { CountConcat(a[1..], b, id); assert (a + b)[1..] == a[1..] + b; }
  }

  lemma {:induction false} CountSnoc(a: seq<nat>, x: nat, id: nat)
    ensures Count(a + [x], id) == Count(a, id) + if x == id then 1 else 0
  {
    CountConcat(a, [x], id);
    assert [x][1..] == [];
  }

  lemma {:induction false} CountFirst(ids: seq<nat>, id: nat)
    requires ids != []
    ensures Count(ids, id) == (if ids[0] == id then 1 else 0) + Count(ids[1..], id)
  {
  }
}
