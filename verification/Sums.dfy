/** Sums of integers over finite sets. */
module Sums {

  ghost function Pick<T>(s: set<T>): (x: T)
    requires s != {}
    ensures x in s
  {
    var x :| x in s; x
  }

  ghost function Sum<T>(s: set<T>, f: T -> int): int {
    if s == {} then 0 else f(Pick(s)) + Sum(s - {Pick(s)}, f)
  }

  lemma {:induction false} SumRemove<T>(s: set<T>, f: T -> int, x: T)
    requires x in s
    ensures Sum(s, f) == f(x) + Sum(s - {x}, f)
    decreases |s|
  {
    var y := Pick(s);
    if y != x {
      SumRemove(s - {y}, f, x);
      SumRemove(s - {x}, f, y);
      assert s - {y} - {x} == s - {x} - {y};
    }
  }

  lemma SumAdd<T>(s: set<T>, f: T -> int, x: T)
    requires x !in s
    ensures Sum(s + {x}, f) == f(x) + Sum(s, f)
  {
    SumRemove(s + {x}, f, x);
    assert s + {x} - {x} == s;
  }

  lemma {:induction false} SumUnion<T>(a: set<T>, b: set<T>, f: T -> int)
    requires a !! b
    ensures Sum(a + b, f) == Sum(a, f) + Sum(b, f)
    decreases |b|
  {
    if b == {} {
      assert a + b == a;
    } else {
      var x := Pick(b);
      SumUnion(a, b - {x}, f);
      assert a + b == (a + (b - {x})) + {x};
      SumAdd(a + (b - {x}), f, x);
    }
  }

  lemma {:induction false} SumSame<T>(s: set<T>, f: T -> int, g: T -> int)
    requires forall x :: x in s ==> f(x) == g(x)
    ensures Sum(s, f) == Sum(s, g)
    decreases |s|
  {
    if s != {} {
      SumSame(s - {Pick(s)}, f, g);
    }
  }

  lemma {:induction false} SumOfZeros<T>(s: set<T>, f: T -> int)
    requires forall x :: x in s ==> f(x) == 0
    ensures Sum(s, f) == 0
    decreases |s|
  {
    if s != {} {
      SumOfZeros(s - {Pick(s)}, f);
    }
  }

  lemma {:induction false} SumNatural<T>(s: set<T>, f: T -> int)
    requires forall x :: x in s ==> f(x) >= 0
    ensures Sum(s, f) >= 0
    decreases |s|
  {
    if s != {} {
      SumNatural(s - {Pick(s)}, f);
    }
  }

  lemma {:induction false} SumAtMost<T>(s: set<T>, f: T -> int, g: T -> int)
    requires forall x :: x in s ==> f(x) <= g(x)
    ensures Sum(s, f) <= Sum(s, g)
    ensures (exists x :: x in s && f(x) < g(x)) ==> Sum(s, f) < Sum(s, g)
    decreases |s|
  {
    if s != {} {
      SumAtMost(s - {Pick(s)}, f, g);
    }
  }

  lemma {:induction false} SumPlus<T>(s: set<T>, f: T -> int, g: T -> int, h: T -> int)
    requires forall x :: x in s ==> h(x) == f(x) + g(x)
    ensures Sum(s, h) == Sum(s, f) + Sum(s, g)
    decreases |s|
  {
    if s != {} {
      SumPlus(s - {Pick(s)}, f, g, h);
    }
  }

  /** A sum over the image of an injective function. */
  lemma {:induction false} SumImage<T, U>(s: set<T>, image: set<U>, h: T -> U, f: U -> int, g: T -> int)
    requires image == set x | x in s :: h(x)
    requires forall x, y :: x in s && y in s && h(x) == h(y) ==> x == y
    requires forall x :: x in s ==> g(x) == f(h(x))
    ensures Sum(image, f) == Sum(s, g)
    decreases |s|
  {
    if s == {} {
      assert image == {};
    } else {
      var x := Pick(s);
      var rest := set y | y in s - {x} :: h(y);
      SumImage(s - {x}, rest, h, f, g);
      assert image == rest + {h(x)};
      SumAdd(rest, f, h(x));
    }
  }

  /** Change of one term. */
  lemma SumChange<T>(s: set<T>, f: T -> int, g: T -> int, x: T)
    requires x in s
    requires forall y :: y in s && y != x ==> f(y) == g(y)
    ensures Sum(s, g) == Sum(s, f) - f(x) + g(x)
  {
    SumRemove(s, f, x);
    SumRemove(s, g, x);
    SumSame(s - {x}, f, g);
  }
}
