/** Small vocabulary shared by every component of the model. */
module Basics {

  datatype Option<+T> = None | Some(value: T)

  /** Two finite sets related by a bijection, given by a function that is injective on the first, have one size. */
  lemma {:induction false} ImageSize<A, B>(xs: set<A>, ys: set<B>, f: A --> B)
    requires forall x | x in xs :: f.requires(x) && f(x) in ys
    requires forall x, x' | x in xs && x' in xs && f(x) == f(x') :: x == x'
    requires forall y | y in ys :: exists x :: x in xs && f(x) == y
    ensures |xs| == |ys|
  {
    if xs == {} {
      assert ys == {};
    } else {
      var x :| x in xs;
      ImageSize(xs - {x}, ys - {f(x)}, f);
    }
  }

  /** An injective function into a set cannot start from a larger one. */
  lemma {:induction false} InjectionSize<A, B>(xs: set<A>, ys: set<B>, f: A --> B)
    requires forall x | x in xs :: f.requires(x) && f(x) in ys
    requires forall x, x' | x in xs && x' in xs && f(x) == f(x') :: x == x'
    ensures |xs| <= |ys|
  {
    if xs != {} {
      var x :| x in xs;
      InjectionSize(xs - {x}, ys - {f(x)}, f);
    }
  }

  lemma {:induction false} SubsetSize<A>(xs: set<A>, ys: set<A>)
    requires xs <= ys
    ensures |xs| <= |ys|
    ensures |xs| == |ys| ==> xs == ys
  {
    if xs != {} {
      var x :| x in xs;
      SubsetSize(xs - {x}, ys - {x});
      assert xs == (xs - {x}) + {x} && ys == (ys - {x}) + {x};
    } else {
      assert |ys| == 0 ==> ys == {};
    }
  }
}
