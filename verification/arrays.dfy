/** The `defined` array filter: drop every `undefined` element of an array,
    keeping the rest in order, and hand back the input itself when there is
    nothing to drop. `None` stands for `undefined`. */
module Arrays {
  import opened Wrappers

  /** Reference meaning of `defined`: the present elements of `xs`, in order. */
  function Present<T>(xs: seq<Option<T>>): (r: seq<T>)
  {
    if xs == [] then []
    else
      var init := Present(xs[..|xs| - 1]);
      match xs[|xs| - 1]
      case Some(x) => init + [x]
      case None => init
  }

  /** Every element of `xs` is present (the input holds no `undefined`). */
  predicate AllPresent<T>(xs: seq<Option<T>>)
  {
    forall i :: 0 <= i < |xs| ==> xs[i].Some?
  }

  /** Each element viewed again as an optional value (an upcast of `T[]`). */
  function Lift<T>(ys: seq<T>): (r: seq<Option<T>>)
    ensures |r| == |ys|
    ensures forall i :: 0 <= i < |ys| ==> r[i] == Some(ys[i])
  {
    seq(|ys|, i requires 0 <= i < |ys| => Some(ys[i]))
  }

  /** `defined(arr)`. `same` reports that the output is the input array
      itself (`output === input`): no copy is made when nothing is dropped. */
  method Defined<T>(arr: seq<Option<T>>) returns (r: seq<T>, same: bool)
    ensures r == Present(arr)
    ensures same <==> |r| == |arr|
    ensures same ==> Lift(r) == arr
  {
    // Scan for the first `undefined`; everything before it is kept as is.
    var i := 0;
    r := [];
    while i < |arr| && arr[i].Some?
      invariant 0 <= i <= |arr|
      invariant forall j :: 0 <= j < i ==> arr[j].Some?
      invariant r == Present(arr[..i])
      invariant Lift(r) == arr[..i]
    {
      PresentStep(arr, i);
      LiftStep(r, arr[i].value);
      assert arr[..i + 1] == arr[..i] + [arr[i]];
      r := r + [arr[i].value];
      i := i + 1;
    }
    if i == |arr| {
      assert arr[..i] == arr;
      same := true;
    } else {
      // arr[i] is undefined: copy the remaining present elements.
      same := false;
      PresentStep(arr, i);
      i := i + 1;
      while i < |arr|
        invariant 0 < i <= |arr|
        invariant r == Present(arr[..i])
        invariant |r| < i
      {
        PresentStep(arr, i);
        if arr[i].Some? {
          r := r + [arr[i].value];
        }
        i := i + 1;
      }
      assert arr[..i] == arr;
      PresentLength(arr);
    }
  }

  /** Extending the input by one element extends the output by that
      element when it is present. */
  lemma PresentStep<T>(xs: seq<Option<T>>, n: nat)
    requires n < |xs|
    ensures Present(xs[..n + 1]) == Present(xs[..n]) + (if xs[n].Some? then [xs[n].value] else [])
  {
    assert xs[..n + 1][..n] == xs[..n];
  }

  lemma LiftStep<T>(ys: seq<T>, y: T)
    ensures Lift(ys + [y]) == Lift(ys) + [Some(y)]
  {
  }

  /** The output is never longer than the input, and it is exactly as long
      precisely when the input holds no `undefined`. */
  lemma {:induction false} PresentLength<T>(xs: seq<Option<T>>)
    ensures |Present(xs)| <= |xs|
    ensures |Present(xs)| == |xs| <==> AllPresent(xs)
  {
    if xs != [] {
      var init := xs[..|xs| - 1];
      PresentLength(init);
      if AllPresent(xs) {
        assert AllPresent(init) by {
          forall i | 0 <= i < |init| ensures init[i].Some? {
            assert init[i] == xs[i];
          }
        }
      } else if AllPresent(init) {
        assert xs[|xs| - 1].None? by {
          forall i | 0 <= i < |xs| ensures xs[i].Some? || i == |xs| - 1 {
            if i < |xs| - 1 { assert xs[i] == init[i]; }
          }
        }
      }
    }
  }

  /** An empty or all-`undefined` input yields an empty output, and only
      such an input does. */
  lemma {:induction false} PresentEmpty<T>(xs: seq<Option<T>>)
    ensures Present(xs) == [] <==> forall i :: 0 <= i < |xs| ==> xs[i].None?
  {
    if xs != [] {
      var init := xs[..|xs| - 1];
      PresentEmpty(init);
      if forall i :: 0 <= i < |xs| ==> xs[i].None? {
        assert forall i :: 0 <= i < |init| ==> init[i] == xs[i];
      }
      if Present(xs) == [] {
        assert xs[|xs| - 1].None?;
        forall i | 0 <= i < |xs| ensures xs[i].None? {
          if i < |xs| - 1 { assert xs[i] == init[i]; }
        }
      }
    }
  }

  /** Duplicates are kept: every present value occurs in the output exactly
      as often as it occurs in the input, and nothing else occurs. */
  lemma {:induction false} PresentCounts<T>(xs: seq<Option<T>>, y: T)
    ensures multiset(Present(xs))[y] == multiset(xs)[Some(y)]
  {
    if xs != [] {
      var init, last := xs[..|xs| - 1], xs[|xs| - 1];
      PresentCounts(init, y);
      assert xs == init + [last];
      assert multiset(xs) == multiset(init) + multiset{last};
      var tail := if last.Some? then [last.value] else [];
      assert Present(xs) == Present(init) + tail;
      assert multiset(Present(xs)) == multiset(Present(init)) + multiset(tail);
    }
  }

  /** Order is preserved: the output for any prefix of the input is a
      prefix of the output for the whole input. */
  lemma {:induction false} PresentPrefix<T>(xs: seq<Option<T>>, n: nat)
    requires n <= |xs|
    ensures Present(xs[..n]) <= Present(xs)
    decreases |xs| - n
  {
    if n < |xs| {
      PresentPrefix(xs, n + 1);
      assert xs[..n + 1][..n] == xs[..n];
      assert Present(xs[..n]) <= Present(xs[..n + 1]);
    } else {
      assert xs[..n] == xs;
    }
  }
}
