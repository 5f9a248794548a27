/** Option and the exception-or-value outcome used throughout the model. */
module Wrappers {

  datatype Option<+T> = None | Some(value: T)

  /** What a Python call does: it returns a value or raises an exception
      whose text is `message`. */
  datatype Outcome<+T> = Returned(value: T) | Raised(message: string)

  /** The loop `for x in xs: out.append(f(x))` whose body may raise: the
      results of `f` in order, or the first exception, which ends the loop. */
  function Traverse<X, Y>(f: X -> Outcome<Y>, xs: seq<X>): Outcome<seq<Y>>
    decreases |xs|
  {
    if |xs| == 0 then Returned([])
    else
      match Traverse(f, xs[..|xs| - 1])
      case Raised(m) => Raised(m)
      case Returned(done) =>
        match f(xs[|xs| - 1])
        case Raised(m) => Raised(m)
        case Returned(y) => Returned(done + [y])
  }

  /** The loop raises exactly when some element raises, and then with the
      exception of the first such element; otherwise it yields one result
      per element, in order. */
  lemma {:induction false} TraversePointwise<X, Y>(f: X -> Outcome<Y>, xs: seq<X>)
    ensures Traverse(f, xs).Raised? <==> exists i :: 0 <= i < |xs| && f(xs[i]).Raised?
    ensures Traverse(f, xs).Raised? ==>
              exists i :: 0 <= i < |xs| && f(xs[i]) == Raised(Traverse(f, xs).message) &&
                          forall j :: 0 <= j < i ==> f(xs[j]).Returned?
    ensures Traverse(f, xs).Returned? ==>
              |Traverse(f, xs).value| == |xs| &&
              forall i :: 0 <= i < |xs| ==> f(xs[i]) == Returned(Traverse(f, xs).value[i])
    decreases |xs|
  {
    if |xs| > 0 {
      var init := xs[..|xs| - 1];
      TraversePointwise(f, init);
      assert forall i :: 0 <= i < |init| ==> init[i] == xs[i];
    }
  }

  /** Once an element has raised, the elements after it change nothing. */
  lemma {:induction false} TraverseRaisedPersists<X, Y>(f: X -> Outcome<Y>, xs: seq<X>, k: nat)
    requires k <= |xs| && Traverse(f, xs[..k]).Raised?
    ensures Traverse(f, xs) == Traverse(f, xs[..k])
    decreases |xs| - k
  {
    if k < |xs| {
      assert xs[..k + 1][..k] == xs[..k];
      TraverseRaisedPersists(f, xs, k + 1);
    } else {
      assert xs[..k] == xs;
    }
  }
}
