/**
 * The shape every fallback chain of the scraper shares: try the candidates in
 * order and stop at the first one that succeeds (`for ...: ... break`).
 */
module Chain {
  import opened Wrappers

  /** Index of the first element of `xs` satisfying `ok`, or `|xs|` when there is none. */
  function FirstIndex<T>(xs: seq<T>, ok: T -> bool): (k: nat)
    ensures k <= |xs|
    ensures forall i :: 0 <= i < k ==> !ok(xs[i])
    ensures k < |xs| ==> ok(xs[k])
    decreases |xs|
  {
    if xs == [] then 0
    else if ok(xs[0]) then 0
    else 1 + FirstIndex(xs[1..], ok)
  }

  /** The three facts above pin the index down: any index with them is `FirstIndex`. */
  lemma FirstIndexUnique<T>(xs: seq<T>, ok: T -> bool, k: nat)
    requires k <= |xs|
    requires forall i :: 0 <= i < k ==> !ok(xs[i])
    requires k < |xs| ==> ok(xs[k])
    ensures FirstIndex(xs, ok) == k
  {
  }

  /** Appending candidates after a success does not move the first success. */
  lemma FirstIndexAppend<T>(xs: seq<T>, ys: seq<T>, ok: T -> bool)
    ensures FirstIndex(xs, ok) < |xs| ==> FirstIndex(xs + ys, ok) == FirstIndex(xs, ok)
    ensures FirstIndex(xs, ok) == |xs| ==> FirstIndex(xs + ys, ok) == |xs| + FirstIndex(ys, ok)
  {
    var k := FirstIndex(xs, ok);
    var zs := xs + ys;
    assert forall i :: 0 <= i < |xs| ==> zs[i] == xs[i];
    assert forall i :: 0 <= i < |ys| ==> zs[|xs| + i] == ys[i];
    if k < |xs| {
      FirstIndexUnique(zs, ok, k);
    } else {
      FirstIndexUnique(zs, ok, |xs| + FirstIndex(ys, ok));
    }
  }

  /** The first element of `xs` satisfying `ok`, if any: a `for` loop that `break`s at the first success. */
  function FirstOk<T>(xs: seq<T>, ok: T -> bool): Option<T>
    decreases |xs|
  {
    if xs == [] then None
    else if ok(xs[0]) then Some(xs[0])
    else FirstOk(xs[1..], ok)
  }

  /** The search returns the element at `FirstIndex`, and nothing exactly when no element passes. */
  lemma {:induction false} FirstOkSpec<T>(xs: seq<T>, ok: T -> bool)
    ensures var k := FirstIndex(xs, ok);
            FirstOk(xs, ok) == if k < |xs| then Some(xs[k]) else None
    ensures FirstOk(xs, ok).None? <==> forall i :: 0 <= i < |xs| ==> !ok(xs[i])
    ensures FirstOk(xs, ok).Some? ==> FirstOk(xs, ok).value in xs && ok(FirstOk(xs, ok).value)
    decreases |xs|
  {
    if xs != [] && !ok(xs[0]) {
      FirstOkSpec(xs[1..], ok);
      assert forall i :: 1 <= i < |xs| ==> xs[1..][i - 1] == xs[i];
    }
  }

  /** The search loop: test the candidates in order and stop at the first that passes. */
  method FindFirst<T>(xs: seq<T>, ok: T -> bool) returns (r: Option<T>)
    ensures r == FirstOk(xs, ok)
  {
    var i := 0;
    while i < |xs|
      invariant 0 <= i <= |xs|
      invariant FirstOk(xs[i..], ok) == FirstOk(xs, ok)
    {
      assert xs[i..][1..] == xs[i + 1..];
      if ok(xs[i]) {
        return Some(xs[i]);
      }
      i := i + 1;
    }
    return None;
  }

  /** The values `f` produces over `xs`, in order: the loop that appends only on success. */
  function Collect<A, B>(xs: seq<A>, f: A -> Option<B>): (ys: seq<B>)
    ensures |ys| <= |xs|
    decreases |xs|
  {
    if xs == [] then []
    else
      Collect(xs[..|xs| - 1], f) + (match f(xs[|xs| - 1]) case Some(y) => [y] case None => [])
  }

  /** Every value collected is what `f` gives for some element. */
  lemma {:induction false} CollectFrom<A, B>(xs: seq<A>, f: A -> Option<B>)
    ensures forall y :: y in Collect(xs, f) ==> exists x :: x in xs && f(x) == Some(y)
    decreases |xs|
  {
    if xs != [] {
      var init := xs[..|xs| - 1];
      CollectFrom(init, f);
      assert forall x :: x in init ==> x in xs;
    }
  }

  /** One more element is one more optional value at the end. */
  lemma CollectSnoc<A, B>(xs: seq<A>, x: A, f: A -> Option<B>)
    ensures Collect(xs + [x], f) == Collect(xs, f) + (match f(x) case Some(y) => [y] case None => [])
  {
    assert (xs + [x])[..|xs|] == xs;
  }

  /** The prefix form of `CollectSnoc`, for loops over `xs[..i]`. */
  lemma CollectPrefix<A, B>(xs: seq<A>, i: nat, f: A -> Option<B>)
    requires i < |xs|
    ensures Collect(xs[..i + 1], f) == Collect(xs[..i], f) + (match f(xs[i]) case Some(y) => [y] case None => [])
  {
    assert xs[..i + 1][..i] == xs[..i];
  }

  /** Concatenation regroups freely. */
  lemma AppendAssociative<T>(a: seq<T>, b: seq<T>, c: seq<T>)
    ensures (a + b) + c == a + (b + c)
  {
  }

  /** An element with a value, listed twice, gives its value twice: collecting drops no repeats. */
  lemma CollectTwice<A, B>(x: A, y: B, f: A -> Option<B>)
    requires f(x) == Some(y)
    ensures Collect([x, x], f) == [y, y]
  {
    assert [x, x][..1] == [x];
    assert [x][..0] == [];
  }
}
