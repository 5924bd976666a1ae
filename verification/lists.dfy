/** Sequence helpers shared by the decoders. */
module Lists {
  import opened Wrappers

  /** Applies `f` to every element and keeps the results that are present, in order. */
  function FilterMap<T, U>(f: T -> Option<U>, xs: seq<T>): (r: seq<U>)
    ensures |r| <= |xs|
  {
    if xs == [] then []
    else
      match f(xs[0])
      case Some(y) => [y] + FilterMap(f, xs[1..])
      case None => FilterMap(f, xs[1..])
  }

  /** Filtering two lists one after the other keeps their order. */
  lemma {:induction false} FilterMapAppend<T, U>(f: T -> Option<U>, a: seq<T>, b: seq<T>)
    ensures FilterMap(f, a + b) == FilterMap(f, a) + FilterMap(f, b)
  {
    if a == [] {
      assert a + b == b;
    } else {
      assert (a + b)[1..] == a[1..] + b;
      FilterMapAppend(f, a[1..], b);
    }
  }

  /** Every kept result is the result of some element. */
  lemma {:induction false} FilterMapSound<T, U>(f: T -> Option<U>, xs: seq<T>, k: nat)
    requires k < |FilterMap(f, xs)|
    ensures exists i | 0 <= i < |xs| :: f(xs[i]) == Some(FilterMap(f, xs)[k])
  {
    var rest := FilterMap(f, xs[1..]);
    if f(xs[0]).Some? && k == 0 {
      assert f(xs[0]) == Some(FilterMap(f, xs)[k]);
    } else {
      var k' := if f(xs[0]).Some? then k - 1 else k;
      assert FilterMap(f, xs)[k] == rest[k'];
      FilterMapSound(f, xs[1..], k');
      var i :| 0 <= i < |xs[1..]| && f(xs[1..][i]) == Some(rest[k']);
      assert xs[1..][i] == xs[i + 1];
    }
  }

  /** Every present result is kept. */
  lemma {:induction false} FilterMapComplete<T, U>(f: T -> Option<U>, xs: seq<T>, i: nat)
    requires i < |xs| && f(xs[i]).Some?
    ensures f(xs[i]).value in FilterMap(f, xs)
  {
    if i > 0 {
      assert xs[1..][i - 1] == xs[i];
      FilterMapComplete(f, xs[1..], i - 1);
    }
  }
}
