/** Vocabulary shared by the modules. */
module Sequences {
  /** No element occurs twice. */
  ghost predicate Distinct<T>(s: seq<T>) {
    forall i, j :: 0 <= i < j < |s| ==> s[i] != s[j]
  }

  /** The chosen positions, in increasing order. */
  ghost predicate Enumerates(ps: seq<nat>, chosen: set<nat>) {
    (forall i, j :: 0 <= i < j < |ps| ==> ps[i] < ps[j]) && forall x :: x in ps <==> x in chosen
  }

  /** One more chosen position, in front of all others. */
  lemma EnumeratesInFront(ps: seq<nat>, chosen: set<nat>, first: nat)
    requires Enumerates(ps, chosen) && forall x :: x in chosen ==> first < x
    ensures Enumerates([first] + ps, chosen + {first})
  {
    var qs := [first] + ps;
    forall i, j | 0 <= i < j < |qs| ensures qs[i] < qs[j] {
      assert qs[j] == ps[j - 1] && ps[j - 1] in ps;
      assert i > 0 ==> qs[i] == ps[i - 1];
    }
  }
}

module Reals {
  lemma ProductSign(x: real, y: real)
    requires 0.0 <= x && 0.0 <= y
    ensures 0.0 <= x * y
  {
  }

  /** A product under a name, which keeps nonlinear terms out of unfolded definitions. */
  function Times(x: real, y: real): real { x * y }

  /** The arithmetic that probabilities need. */
  lemma TimesFacts(x: real, y: real, z: real)
    ensures Times(x, Times(y, z)) == Times(y, Times(x, z))
    ensures Times(1.0, x) == x
    ensures 0.0 <= x && y <= z ==> Times(x, y) <= Times(x, z)
    ensures 0.0 <= x <= 1.0 && 0.0 <= y ==> 0.0 <= Times(x, y) <= y
  {
    assert x * (y * z) == y * (x * z);
    if 0.0 <= x && y <= z {
      ProductSign(x, z - y);
      assert x * (z - y) == x * z - x * y;
    }
    if 0.0 <= x <= 1.0 && 0.0 <= y {
      ProductSign(x, y);
      ProductSign(1.0 - x, y);
      assert (1.0 - x) * y == y - x * y;
    }
  }
}
