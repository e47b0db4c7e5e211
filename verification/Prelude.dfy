/** Types shared by every component of the model. */
module Prelude {

  datatype Option<+T> = None | Some(value: T)

  datatype Result<+T, +E> = Ok(value: T) | Err(error: E)

  /** An unsigned 8-bit value. */
  type byte = b: int | 0 <= b < 0x100

  function Concat<T>(ss: seq<seq<T>>): seq<T> {
    if ss == [] then [] else ss[0] + Concat(ss[1..])
  }

  function Reverse<T>(s: seq<T>): (r: seq<T>)
    ensures |r| == |s|
  {
    if s == [] then [] else Reverse(s[1..]) + [s[0]]
  }

  lemma {:induction false} ConcatAppend<T>(a: seq<seq<T>>, b: seq<seq<T>>)
    ensures Concat(a + b) == Concat(a) + Concat(b)
  {
    if a == [] {
      assert a + b == b;
    } else {
      assert (a + b)[1..] == a[1..] + b;
      ConcatAppend(a[1..], b);
    }
  }

  lemma {:induction false} ReverseAppend<T>(a: seq<T>, b: seq<T>)
    ensures Reverse(a + b) == Reverse(b) + Reverse(a)
  {
    if a == [] {
      assert a + b == b;
    } else {
      assert (a + b)[1..] == a[1..] + b;
      ReverseAppend(a[1..], b);
    }
  }

  lemma {:induction false} ReverseTwice<T>(s: seq<T>)
    ensures Reverse(Reverse(s)) == s
  {
    if s != [] {
      ReverseAppend(Reverse(s[1..]), [s[0]]);
      ReverseTwice(s[1..]);
      assert Reverse([s[0]]) == [s[0]];
    }
  }

  lemma Associative<T>(a: seq<T>, b: seq<T>, c: seq<T>)
    ensures a + (b + c) == (a + b) + c
    ensures [] + a == a == a + []
  {}

  /** There are ms that fit the xs, in that order, with anything in between. */
  predicate Occur<X, M>(fits: (X, M) -> bool, xs: seq<X>, ms: seq<M>)
    decreases |ms|
  {
    || xs == []
    || (ms != [] && Occur(fits, xs, ms[1..]))
    || (ms != [] && fits(xs[0], ms[0]) && Occur(fits, xs[1..], ms[1..]))
  }

  /** Fewer occur too. */
  lemma {:induction false} FewerOccur<X, M>(fits: (X, M) -> bool, xs: seq<X>, ms: seq<M>)
    requires xs != [] && Occur(fits, xs, ms)
    ensures Occur(fits, xs[1..], ms)
    decreases |ms|
  {
    if Occur(fits, xs, ms[1..]) { FewerOccur(fits, xs, ms[1..]); }
  }

  /** Taking the first that fits is never a mistake. */
  lemma TakeFirst<X, M>(fits: (X, M) -> bool, xs: seq<X>, ms: seq<M>)
    requires xs != [] && ms != []
    ensures Occur(fits, xs, ms) <==> Occur(fits, if fits(xs[0], ms[0]) then xs[1..] else xs, ms[1..])
  {
    if Occur(fits, xs, ms[1..]) { FewerOccur(fits, xs, ms[1..]); }
  }
}
