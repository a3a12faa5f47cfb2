/** Sums over finite sets. */
module SetSum {

  ghost function Sum<T(!new)>(s: set<T>, f: T -> nat): nat
    decreases |s|
  {
    if s == {} then 0 else var x :| x in s; f(x) + Sum(s - {x}, f)
  }

  lemma {:induction false} SumRemove<T(!new)>(s: set<T>, f: T -> nat, x: T)
    requires x in s
    ensures Sum(s, f) == f(x) + Sum(s - {x}, f)
    decreases |s|
  {
    var y :| y in s && Sum(s, f) == f(y) + Sum(s - {y}, f);
    if y != x {
      SumRemove(s - {y}, f, x);
      SumRemove(s - {x}, f, y);
      assert s - {y} - {x} == s - {x} - {y};
    }
  }

  /** Raising f by one on exactly the members of `on` raises the sum by their number. */
  lemma {:induction false} SumRaised<T(!new)>(s: set<T>, f: T -> nat, g: T -> nat, on: set<T>)
    requires on <= s
    requires forall x | x in s :: g(x) == f(x) + if x in on then 1 else 0
    ensures Sum(s, g) == Sum(s, f) + |on|
    decreases |s|
  {
    if s == {} {
      assert on == {};
    } else {
      var x :| x in s;
      SumRemove(s, f, x);
      SumRemove(s, g, x);
      SumRaised(s - {x}, f, g, on - {x});
      assert on == if x in on then on - {x} + {x} else on - {x};
    }
  }

  lemma {:induction false} SumZero<T(!new)>(s: set<T>, f: T -> nat)
    requires forall x | x in s :: f(x) == 0
    ensures Sum(s, f) == 0
    decreases |s|
  {
    if s != {} {
      var x :| x in s;
      SumRemove(s, f, x);
      SumZero(s - {x}, f);
    }
  }

  ghost function RealSum<T(!new)>(s: set<T>, f: T -> real): real
    decreases |s|
  {
    if s == {} then 0.0 else var x :| x in s; f(x) + RealSum(s - {x}, f)
  }

  lemma {:induction false} RealSumRemove<T(!new)>(s: set<T>, f: T -> real, x: T)
    requires x in s
    ensures RealSum(s, f) == f(x) + RealSum(s - {x}, f)
    decreases |s|
  {
    var y :| y in s && RealSum(s, f) == f(y) + RealSum(s - {y}, f);
    if y != x {
      RealSumRemove(s - {y}, f, x);
      RealSumRemove(s - {x}, f, y);
      assert s - {y} - {x} == s - {x} - {y};
    }
  }

  /** Only the values on the set matter. */
  lemma {:induction false} RealSumSame<T(!new)>(s: set<T>, f: T -> real, g: T -> real)
    requires forall x | x in s :: f(x) == g(x)
    ensures RealSum(s, f) == RealSum(s, g)
    decreases |s|
  {
    if s != {} {
      var x :| x in s;
      RealSumRemove(s, f, x);
      RealSumRemove(s, g, x);
      RealSumSame(s - {x}, f, g);
    }
  }

  lemma {:induction false} RealSumBounds<T(!new)>(s: set<T>, f: T -> real)
    requires forall x | x in s :: 0.0 < f(x) <= 1.0
    ensures 0.0 <= RealSum(s, f) <= |s| as real
    ensures s != {} ==> 0.0 < RealSum(s, f)
    decreases |s|
  {
    if s != {} {
      var x :| x in s;
      RealSumRemove(s, f, x);
      RealSumBounds(s - {x}, f);
    }
  }

  /** One step of a loop that moves every element from `rest` to `done`. */
  lemma MoveOne<T(!new)>(done: set<T>, rest: set<T>, x: T)
    requires x in rest && done !! rest
    ensures (done + {x}) !! (rest - {x}) && (done + {x}) + (rest - {x}) == done + rest
  {
  }

  lemma PutKeys<T(!new), V>(m: map<T, V>, x: T, v: V)
    ensures m[x := v].Keys == m.Keys + {x}
  {
  }
}
