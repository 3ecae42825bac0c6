/** Keyset pagination: the next batch of primary keys after a cursor. */
module Keyset {
  import opened Prelude

  lemma SmallestExists(ids: set<nat>, seed: nat)
    requires seed in ids
    ensures exists m :: m in ids && forall x :: x in ids ==> m <= x
  {
    if x :| x in ids && x < seed {
      SmallestExists(ids, x);
    }
  }

  function Smallest(ids: set<nat>): (m: nat)
    requires ids != {}
    ensures m in ids && forall x :: x in ids ==> m <= x
  {
    assert exists m :: m in ids && forall x :: x in ids ==> m <= x by {
      var seed :| seed in ids;
      SmallestExists(ids, seed);
    }
    var m :| m in ids && forall x :: x in ids ==> m <= x;
    m
  }

  /** The largest of the first `limit` keys. */
  function BatchLast(ids: set<nat>, limit: nat): (last: nat)
    requires ids != {} && limit > 0
    ensures last in ids
    ensures |set x | x in ids && x <= last| <= limit
    decreases limit
  {
    var m := Smallest(ids);
    if limit == 1 || ids == {m} then
      assert (set x | x in ids && x <= m) == {m};
      m
    else
      var rest := ids - {m};
      var last := BatchLast(rest, limit - 1);
      assert (set x | x in ids && x <= last) == (set x | x in rest && x <= last) + {m};
      last
  }

  predicate After(cursor: Option<nat>, id: nat) { cursor.None? || id > cursor.value }

  function Remaining(ids: set<nat>, cursor: Option<nat>): set<nat> {
    set id | id in ids && After(cursor, id)
  }
}
