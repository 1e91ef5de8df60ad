/** How many of the first numbers have a property. */
module Counting {
  ghost function Below(n: nat, p: nat -> bool): set<nat> {
    set k: nat | k < n && p(k)
  }

  ghost function Count(n: nat, p: nat -> bool): nat {
    |Below(n, p)|
  }

  lemma {:induction false} CountNone(p: nat -> bool)
    ensures Count(0, p) == 0
  {
    assert Below(0, p) == {};
  }

  lemma {:induction false} CountNext(n: nat, p: nat -> bool)
    ensures Count(n + 1, p) == Count(n, p) + if p(n) then 1 else 0
  {
    if p(n) {
      assert Below(n + 1, p) == Below(n, p) + {n};
    } else {
      assert Below(n + 1, p) == Below(n, p);
    }
  }

  lemma {:induction false} CountSame(n: nat, p: nat -> bool, p': nat -> bool)
    requires forall k: nat | k < n :: p(k) == p'(k)
    ensures Count(n, p) == Count(n, p')
  {
    assert Below(n, p) == Below(n, p');
  }
}
