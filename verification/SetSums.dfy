/**
 Sums over finite sets.
 */
module SetSums {

  /** The sum of `f` over the set. */
  ghost function Sum<T(!new)>(s: set<T>, f: T -> int): int
    decreases |s|
  {
    if s == {} then 0
    else
      var x :| x in s;
      f(x) + Sum(s - {x}, f)
  }

  /** Whichever element is taken first. */
  lemma {:induction false} SumTakes<T(!new)>(s: set<T>, f: T -> int, x: T)
    requires x in s
    ensures Sum(s, f) == f(x) + Sum(s - {x}, f)
    decreases |s|
  {
    var y :| y in s && Sum(s, f) == f(y) + Sum(s - {y}, f);
    if y != x {
      SumTakes(s - {y}, f, x);
      SumTakes(s - {x}, f, y);
      assert s - {y} - {x} == s - {x} - {y};
    }
  }

  lemma {:induction false} SumOfUnion<T(!new)>(a: set<T>, b: set<T>, f: T -> int)
    requires a !! b
    ensures Sum(a + b, f) == Sum(a, f) + Sum(b, f)
    decreases |a|
  {
    if a == {} {
      assert a + b == b;
    } else {
      var x :| x in a;
      SumTakes(a, f, x);
      SumTakes(a + b, f, x);
      assert a + b - {x} == (a - {x}) + b;
      SumOfUnion(a - {x}, b, f);
    }
  }

  /** A sum of naturals is a natural, and zero just when each of them is. */
  lemma {:induction false} SumOfNaturals<T(!new)>(s: set<T>, f: T -> int)
    requires forall x | x in s :: f(x) >= 0
    ensures Sum(s, f) >= 0
    ensures Sum(s, f) == 0 <==> forall x | x in s :: f(x) == 0
    decreases |s|
  {
    if s != {} {
      var x :| x in s;
      SumTakes(s, f, x);
      SumOfNaturals(s - {x}, f);
    }
  }
}
