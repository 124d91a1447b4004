/** What the whole model shares. */
module Basics {

  newtype byte = x: int | 0 <= x < 256

  type Bytes = seq<byte>

  datatype Option<+T> = None | Some(value: T)

  /** The first `n` elements, or all of them. */
  function Take<T>(s: seq<T>, n: nat): seq<T> {
    if |s| <= n then s else s[..n]
  }

  lemma Regroup<T>(a: seq<T>, b: seq<T>, c: seq<T>)
    ensures (a + b) + c == a + (b + c)
  {
  }

  /** The least of a non-empty set, which a sorted iteration reaches first. */
  predicate Lowest(least: nat, ids: set<nat>) {
    least in ids && forall x <- ids :: least <= x
  }

  lemma {:induction false} LowestExists(ids: set<nat>) returns (least: nat)
    requires ids != {}
    ensures Lowest(least, ids)
  {
    var some :| some in ids;
    least := some;
    var others := ids - {some};
    if others != {} {
      var rest := LowestExists(others);
      least := if rest < some then rest else some;
    }
    forall x | x in ids ensures least <= x {
      assert x == some || x in others;
    }
  }

  lemma ALowestExists(ids: set<nat>)
    requires ids != {}
    ensures exists least :: Lowest(least, ids)
  {
    var least := LowestExists(ids);
  }

  function Least(ids: set<nat>): (least: nat)
    requires ids != {}
    ensures Lowest(least, ids)
  {
    ALowestExists(ids);
    var least :| Lowest(least, ids);
    least
  }
}
