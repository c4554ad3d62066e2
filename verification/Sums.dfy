/** Sums over finite sets, where order cannot matter. */
module Sums {

  ghost function Over<T>(s: set<T>, f: T -> int): int {
    if s == {} then 0 else
      var x :| x in s;
      f(x) + Over(s - {x}, f)
  }

  lemma {:induction false} Add<T>(s: set<T>, x: T, f: T -> int)
    requires x !in s
    ensures Over(s + {x}, f) == Over(s, f) + f(x)
    decreases |s|
  {
    var t := s + {x};
    var y :| y in t && Over(t, f) == f(y) + Over(t - {y}, f);
    if y == x {
      assert t - {x} == s;
    } else {
      assert t - {y} == (s - {y}) + {x};
      Add(s - {y}, x, f);
      Add(s - {y}, y, f);
      assert (s - {y}) + {y} == s;
    }
  }

  lemma Remove<T>(s: set<T>, x: T, f: T -> int)
    requires x in s
    ensures Over(s, f) == Over(s - {x}, f) + f(x)
  {
    Add(s - {x}, x, f);
    assert (s - {x}) + {x} == s;
  }

  lemma {:induction false} Agree<T>(s: set<T>, f: T -> int, g: T -> int)
    requires forall x :: x in s ==> f(x) == g(x)
    ensures Over(s, f) == Over(s, g)
  {
    if s != {} {
      var x :| x in s;
      Remove(s, x, f);
      Remove(s, x, g);
      Agree(s - {x}, f, g);
    }
  }
}
