/** The exceptions the L-system engine can raise, as values.

    Every Java exception that can escape the engine becomes a `Failure`; an
    operation that can throw returns a `Result` (or an `Outcome` when it has
    no value), so that the error paths are part of the model instead of being
    excluded by preconditions. */
module Failures {

  datatype Failure =
    /** `NoSuchElementException("Rule 'c' not found")` from `expand`. */
    | UnknownSymbol(symbol: char)
    /** `ArrayIndexOutOfBoundsException` for an access at `index`
        (`tokens[0]`, `tokens[1]`, `rules[0]`, `state[..][top]`). */
    | ArrayIndexOutOfBounds(index: int)
    /** `NullPointerException`: `lastInfo.getX()` when level 1 already
        overflows the canvas, so that no level was kept. */
    | NullReference
    /** `IndexOutOfBoundsException` from `ArrayList.get(index)`. */
    | IndexOutOfBounds(index: int)
    /** `ClassCastException`: a plain `FractalInfo` of type `GEOMETRIC` cast
        to `GeometricFractalInfo`. */
    | ClassCast
    /** `IllegalArgumentException` from `new BufferedImage(w, h, ...)` in
        `new TurtlePainter(w, h)` when a side is not positive. */
    | IllegalArgument

  datatype Option<+T> = None | Some(value: T)

  datatype Result<+T> = Ok(value: T) | Err(failure: Failure) {
    predicate IsFailure() { Err? }
    function PropagateFailure<U>(): Result<U>
      requires Err?
    {
      Err(failure)
    }
    function Extract(): T
      requires Ok?
    {
      value
    }
  }

  /** The outcome of an operation that returns nothing but may throw. */
  datatype Outcome = Pass | Fail(failure: Failure)

  /** `f` applied to every element of `xs` in order, as a loop that stops at
      the first exception does: the first failure is the result. */
  function MapResults<A, B>(xs: seq<A>, f: A -> Result<B>): (r: Result<seq<B>>)
    ensures r.Ok? <==> forall k :: 0 <= k < |xs| ==> f(xs[k]).Ok?
    ensures r.Ok? ==> |r.value| == |xs|
    ensures r.Ok? ==> forall k :: 0 <= k < |xs| ==> f(xs[k]) == Ok(r.value[k])
    ensures r.Err? ==> exists k :: 0 <= k < |xs| && f(xs[k]) == Err(r.failure)
                                   && forall j :: 0 <= j < k ==> f(xs[j]).Ok?
  {
    if xs == [] then Ok([])
    else
      var init := xs[..|xs| - 1];
      var last := |xs| - 1;
      var prev := MapResults(init, f);
      assert forall k :: 0 <= k < last ==> init[k] == xs[k];
      if prev.Err? then prev
      else if f(xs[last]).Err? then Err(f(xs[last]).failure)
      else Ok(prev.value + [f(xs[last]).value])
  }

  /** One more element: the prefix's failure, else the element's, else the
      element's value appended. */
  lemma MapResultsStep<A, B>(xs: seq<A>, f: A -> Result<B>, i: nat)
    requires i < |xs|
    ensures MapResults(xs[..i + 1], f) ==
              if MapResults(xs[..i], f).Err? then MapResults(xs[..i], f)
              else if f(xs[i]).Err? then Err(f(xs[i]).failure)
              else Ok(MapResults(xs[..i], f).value + [f(xs[i]).value])
  {
    assert xs[..i + 1][..i] == xs[..i];
  }

  /** A failure in a prefix of `xs` is the failure of the whole sequence. */
  lemma {:induction false} MapResultsFailsOnPrefix<A, B>(xs: seq<A>, f: A -> Result<B>, n: nat)
    requires n <= |xs| && MapResults(xs[..n], f).Err?
    ensures MapResults(xs, f) == MapResults(xs[..n], f)
    decreases |xs| - n
  {
    if n < |xs| {
      assert xs[..n + 1][..n] == xs[..n];
      MapResultsFailsOnPrefix(xs, f, n + 1);
    } else {
      assert xs[..n] == xs;
    }
  }
}
