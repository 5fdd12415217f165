/** Shipping goods from sources with given supplies to sinks with given demands: some plan keeps within
    all of them and uses up every supply, or else meets every demand. */
module Transport {
  import opened FiniteSums

  ghost function Row<A(!new), B(!new)>(m: (A, B) -> real, x: A): B -> real {
    y => m(x, y)
  }

  ghost function Column<A(!new), B(!new)>(m: (A, B) -> real, y: B): A -> real {
    x => m(x, y)
  }

  ghost predicate Keeps<A(!new), B(!new)>(xs: set<A>, ys: set<B>, supply: A -> real, demand: B -> real, m: (A, B) -> real) {
    && (forall x, y :: m(x, y) >= 0.0)
    && (forall x :: x in xs ==> Sum(ys, Row(m, x)) <= supply(x))
    && (forall y :: y in ys ==> Sum(xs, Column(m, y)) <= demand(y))
  }

  ghost predicate UsesSupplies<A(!new), B(!new)>(xs: set<A>, ys: set<B>, supply: A -> real, m: (A, B) -> real) {
    forall x :: x in xs ==> Sum(ys, Row(m, x)) == supply(x)
  }

  ghost predicate MeetsDemands<A(!new), B(!new)>(xs: set<A>, ys: set<B>, demand: B -> real, m: (A, B) -> real) {
    forall y :: y in ys ==> Sum(xs, Column(m, y)) == demand(y)
  }

  ghost predicate IsPlan<A(!new), B(!new)>(xs: set<A>, ys: set<B>, supply: A -> real, demand: B -> real, m: (A, B) -> real) {
    Keeps(xs, ys, supply, demand, m) && (UsesSupplies(xs, ys, supply, m) || MeetsDemands(xs, ys, demand, m))
  }

  ghost function Transposed<A(!new), B(!new)>(m: (A, B) -> real): (B, A) -> real {
    (y, x) => m(x, y)
  }

  lemma TransposedPlan<A(!new), B(!new)>(xs: set<A>, ys: set<B>, supply: A -> real, demand: B -> real, m: (A, B) -> real)
    requires IsPlan(xs, ys, supply, demand, m)
    ensures IsPlan(ys, xs, demand, supply, Transposed(m))
  {
    var m' := Transposed(m);
    forall x
      ensures Sum(ys, Column(m', x)) == Sum(ys, Row(m, x))
    {
      SumSame(ys, Column(m', x), Row(m, x));
    }
    forall y
      ensures Sum(xs, Row(m', y)) == Sum(xs, Column(m, y))
    {
      SumSame(xs, Row(m', y), Column(m, y));
    }
  }

  /** What `y` still asks for after `amount` was shipped to it. */
  ghost function Less<B(!new)>(demand: B -> real, y: B, amount: real): B -> real {
    z => if z == y then demand(y) - amount else demand(z)
  }

  /** `m0` with all of the supply of `x` shipped to `y`. */
  ghost function Ship<A(!new), B(!new)>(m0: (A, B) -> real, x: A, y: B, amount: real): (A, B) -> real {
    (a, b) => if a != x then m0(a, b) else if b == y then amount else 0.0
  }

  lemma ShippedRow<A(!new), B(!new)>(m0: (A, B) -> real, x: A, y: B, amount: real, ys: set<B>, a: A)
    requires y in ys
    ensures Sum(ys, Row(Ship(m0, x, y, amount), a)) == if a == x then amount else Sum(ys, Row(m0, a))
  {
    var f := Row(Ship(m0, x, y, amount), a);
    if a == x {
      SumTake(ys, y, f);
      SumZero(ys - {y}, f);
    } else {
      SumSame(ys, f, Row(m0, a));
    }
  }

  lemma ShippedColumn<A(!new), B(!new)>(m0: (A, B) -> real, x: A, y: B, amount: real, xs: set<A>, b: B)
    requires x in xs
    ensures Sum(xs, Column(Ship(m0, x, y, amount), b)) == Sum(xs - {x}, Column(m0, b)) + if b == y then amount else 0.0
  {
    var f := Column(Ship(m0, x, y, amount), b);
    SumTake(xs, x, f);
    SumSame(xs - {x}, f, Column(m0, b));
  }

  lemma ShippedPlan<A(!new), B(!new)>(xs: set<A>, ys: set<B>, supply: A -> real, demand: B -> real, x: A, y: B, m0: (A, B) -> real)
    requires x in xs && y in ys && 0.0 <= supply(x)
    requires IsPlan(xs - {x}, ys, supply, Less(demand, y, supply(x)), m0)
    ensures IsPlan(xs, ys, supply, demand, Ship(m0, x, y, supply(x)))
  {
    var m := Ship(m0, x, y, supply(x));
    forall a
      ensures Sum(ys, Row(m, a)) == if a == x then supply(x) else Sum(ys, Row(m0, a))
    {
      ShippedRow(m0, x, y, supply(x), ys, a);
    }
    forall b
      ensures Sum(xs, Column(m, b)) == Sum(xs - {x}, Column(m0, b)) + if b == y then supply(x) else 0.0
    {
      ShippedColumn(m0, x, y, supply(x), xs, b);
    }
  }

  /** There is always a plan. */
  lemma {:induction false} Plan<A(!new), B(!new)>(xs: set<A>, ys: set<B>, supply: A -> real, demand: B -> real) returns (m: (A, B) -> real)
    requires forall x :: x in xs ==> supply(x) >= 0.0
    requires forall y :: y in ys ==> demand(y) >= 0.0
    ensures IsPlan(xs, ys, supply, demand, m)
    decreases |xs| + |ys|
  {
    if xs == {} || ys == {} {
      m := (x, y) => 0.0;
      forall x
        ensures Sum(ys, Row(m, x)) == 0.0
      {
        SumZero(ys, Row(m, x));
      }
      forall y
        ensures Sum(xs, Column(m, y)) == 0.0
      {
        SumZero(xs, Column(m, y));
      }
    } else {
      var x, y :| x in xs && y in ys;
      if supply(x) <= demand(y) {
        var m0 := Plan(xs - {x}, ys, supply, Less(demand, y, supply(x)));
        ShippedPlan(xs, ys, supply, demand, x, y, m0);
        m := Ship(m0, x, y, supply(x));
      } else {
        var m0 := Plan(ys - {y}, xs, demand, Less(supply, x, demand(y)));
        ShippedPlan(ys, xs, demand, supply, y, x, m0);
        TransposedPlan(ys, xs, demand, supply, Ship(m0, y, x, demand(y)));
        m := Transposed(Ship(m0, y, x, demand(y)));
      }
    }
  }
}
