/** Sums of real-valued functions over finite sets, independent of any enumeration order. */
module FiniteSums {

  ghost function Sum<T(!new)>(s: set<T>, f: T -> real): real {
    if s == {} then 0.0
    else
      var x :| x in s;
      f(x) + Sum(s - {x}, f)
  }

  /** Any element can be taken out first, so the value does not depend on the choice made by `Sum`. */
  lemma {:induction false} SumTake<T(!new)>(s: set<T>, x: T, f: T -> real)
    requires x in s
    ensures Sum(s, f) == f(x) + Sum(s - {x}, f)
    decreases |s|
  {
    var y :| y in s && Sum(s, f) == f(y) + Sum(s - {y}, f);
    if y != x {
      SumTake(s - {y}, x, f);
      SumTake(s - {x}, y, f);
      assert s - {y} - {x} == s - {x} - {y};
    }
  }

  lemma SumAdd<T(!new)>(s: set<T>, x: T, f: T -> real)
    requires x !in s
    ensures Sum(s + {x}, f) == Sum(s, f) + f(x)
  {
    assert s + {x} - {x} == s;
    SumTake(s + {x}, x, f);
  }

  lemma {:induction false} SumSame<T(!new)>(s: set<T>, f: T -> real, g: T -> real)
    requires forall x :: x in s ==> f(x) == g(x)
    ensures Sum(s, f) == Sum(s, g)
    decreases |s|
  {
    if s != {} {
      var x :| x in s;
      SumTake(s, x, f);
      SumTake(s, x, g);
      SumSame(s - {x}, f, g);
    }
  }

  lemma {:induction false} SumMonotone<T(!new)>(s: set<T>, f: T -> real, g: T -> real)
    requires forall x :: x in s ==> f(x) <= g(x)
    ensures Sum(s, f) <= Sum(s, g)
    decreases |s|
  {
    if s != {} {
      var x :| x in s;
      SumTake(s, x, f);
      SumTake(s, x, g);
      SumMonotone(s - {x}, f, g);
    }
  }

  lemma {:induction false} SumDisjoint<T(!new)>(a: set<T>, b: set<T>, f: T -> real)
    requires a !! b
    ensures Sum(a + b, f) == Sum(a, f) + Sum(b, f)
    decreases |a|
  {
    if a == {} {
      assert a + b == b;
    } else {
      var x :| x in a;
      SumTake(a, x, f);
      SumTake(a + b, x, f);
      assert a + b - {x} == (a - {x}) + b;
      SumDisjoint(a - {x}, b, f);
    }
  }

  lemma {:induction false} SumNonNegative<T(!new)>(s: set<T>, f: T -> real)
    requires forall x :: x in s ==> f(x) >= 0.0
    ensures Sum(s, f) >= 0.0
    decreases |s|
  {
    if s != {} {
      var x :| x in s;
      SumTake(s, x, f);
      SumNonNegative(s - {x}, f);
    }
  }

  lemma SumSubset<T(!new)>(a: set<T>, b: set<T>, f: T -> real)
    requires a <= b
    requires forall x :: x in b ==> f(x) >= 0.0
    ensures Sum(a, f) <= Sum(b, f)
  {
    assert b == a + (b - a);
    SumDisjoint(a, b - a, f);
    SumNonNegative(b - a, f);
  }

  ghost function Image<T(!new), U(!new)>(s: set<T>, h: T -> U): set<U> {
    set x | x in s :: h(x)
  }

  ghost function Fiber<T(!new), U(!new)>(s: set<T>, h: T -> U, u: U): set<T> {
    set x | x in s && h(x) == u
  }

  /** The groups other than `u` are those of the set without the group of `u`. */
  lemma ImageWithoutFiber<T(!new), U(!new)>(s: set<T>, h: T -> U, u: U)
    ensures Image(s, h) - {u} == Image(s - Fiber(s, h, u), h)
  {
    forall v | v in Image(s, h) - {u}
      ensures v in Image(s - Fiber(s, h, u), h)
    {
      var x :| x in s && h(x) == v;
      assert x in s - Fiber(s, h, u);
    }
  }

  /** Grouping the terms of a sum by the value of `h` leaves the sum unchanged. */
  lemma {:induction false} SumPartition<T(!new), U(!new)>(s: set<T>, h: T -> U, f: T -> real, part: U -> real)
    requires forall u :: u in Image(s, h) ==> part(u) == Sum(Fiber(s, h, u), f)
    ensures Sum(s, f) == Sum(Image(s, h), part)
    decreases |s|
  {
    if s == {} {
      assert Image(s, h) == {};
    } else {
      var x :| x in s;
      var u := h(x);
      var rest := s - Fiber(s, h, u);
      assert x in Fiber(s, h, u);
      assert rest < s;
      SubsetSmaller(rest, s);
      assert s == Fiber(s, h, u) + rest;
      SumDisjoint(Fiber(s, h, u), rest, f);
      assert h(x) in Image(s, h);
      SumTake(Image(s, h), u, part);
      ImageWithoutFiber(s, h, u);
      forall v | v in Image(rest, h)
        ensures part(v) == Sum(Fiber(rest, h, v), f)
      {
        assert Fiber(s, h, v) == Fiber(rest, h, v);
      }
      SumPartition(rest, h, f, part);
    }
  }

  lemma {:induction false} SubsetSmaller<T>(a: set<T>, b: set<T>)
    requires a < b
    ensures |a| < |b|
  {
    assert b == a + (b - a);
    assert b - a != {};
  }

  /** Renaming the index set by an injective function leaves the sum unchanged. */
  lemma {:induction false} SumRename<T(!new), U(!new)>(s: set<T>, h: T -> U, f: U -> real, g: T -> real)
    requires forall x, y :: x in s && y in s && h(x) == h(y) ==> x == y
    requires forall x :: x in s ==> g(x) == f(h(x))
    ensures Sum(Image(s, h), f) == Sum(s, g)
    decreases |s|
  {
    if s == {} {
      assert Image(s, h) == {};
    } else {
      var x :| x in s;
      SumTake(s, x, g);
      SumTake(Image(s, h), h(x), f);
      assert Image(s, h) - {h(x)} == Image(s - {x}, h);
      SumRename(s - {x}, h, f, g);
    }
  }

  lemma {:induction false} SumZero<T(!new)>(s: set<T>, f: T -> real)
    requires forall x :: x in s ==> f(x) == 0.0
    ensures Sum(s, f) == 0.0
    decreases |s|
  {
    if s != {} {
      var x :| x in s;
      SumTake(s, x, f);
      SumZero(s - {x}, f);
    }
  }
}
