/** Results and errors shared by the whole model.
    The client terminates the process (log.Fatal or a runtime panic) on every
    malformed payload; here each such exit is an `Err` carrying its cause. */
module Outcomes {

  datatype Option<+T> = None | Some(value: T)

  datatype Error =
    | MissingKey(key: string)             // a type assertion `tmp[key].(string)` on an absent key
    | BadChoiceId(segment: string)        // strconv.Atoi rejected the text before the first comma
    | MissingChoiceLabel(segment: string) // a choice segment without a comma: `s[1]` is out of range
    | FetchFailed                         // the metadata request or the JSON decoding of its body failed
    | EmptyMetadata                       // the metadata list is empty, so `fields[0]` is out of range
    | NilMapWrite                         // an assignment into a nil Go map

  datatype Result<+T> = Ok(value: T) | Err(error: Error) {

    predicate IsFailure() {
      Err?
    }

    function PropagateFailure<U>(): Result<U>
      requires Err?
    {
      Err(error)
    }

    function Extract(): T
      requires Ok?
    {
      value
    }
  }

  /** `f` applied to each element in turn; the first failure ends the run. */
  function TryEach<A, B>(f: A -> Result<B>, xs: seq<A>): Result<seq<B>>
    decreases |xs|
  {
    if xs == [] then Ok([])
    else
      var ys :- TryEach(f, xs[..|xs| - 1]);
      var y :- f(xs[|xs| - 1]);
      Ok(ys + [y])
  }

  /** TryEach succeeds exactly when `f` succeeds on every element, and then
      holds one result per element, in order. */
  lemma {:induction false} TryEachSucceeds<A, B>(f: A -> Result<B>, xs: seq<A>)
    ensures TryEach(f, xs).Ok? <==> forall i :: 0 <= i < |xs| ==> f(xs[i]).Ok?
    ensures TryEach(f, xs).Ok? ==>
      && |TryEach(f, xs).value| == |xs|
      && forall i :: 0 <= i < |xs| ==> TryEach(f, xs).value[i] == f(xs[i]).value
    decreases |xs|
  {
    if xs != [] {
      var n := |xs| - 1;
      TryEachSucceeds(f, xs[..n]);
      assert forall i :: 0 <= i < n ==> xs[..n][i] == xs[i];
    }
  }

  /** A failed TryEach reports the failure of the first element that fails. */
  lemma {:induction false} TryEachFirstError<A, B>(f: A -> Result<B>, xs: seq<A>) returns (k: nat)
    requires TryEach(f, xs).Err?
    ensures k < |xs| && f(xs[k]) == Err(TryEach(f, xs).error)
    ensures forall i :: 0 <= i < k ==> f(xs[i]).Ok?
    decreases |xs|
  {
    var n := |xs| - 1;
    if TryEach(f, xs[..n]).Err? {
      k := TryEachFirstError(f, xs[..n]);
      assert forall i :: 0 <= i < k ==> xs[..n][i] == xs[i];
    } else {
      TryEachSucceeds(f, xs[..n]);
      assert forall i :: 0 <= i < n ==> xs[..n][i] == xs[i];
      k := n;
    }
  }

  /** One more element: TryEach unfolded once at the end of the list. */
  lemma TryEachStep<A, B>(f: A -> Result<B>, xs: seq<A>, i: nat)
    requires i < |xs|
    ensures TryEach(f, xs[..i + 1])
            == match TryEach(f, xs[..i])
               case Err(e) => Err(e)
               case Ok(ys) =>
                 match f(xs[i])
                 case Err(e) => Err(e)
                 case Ok(y) => Ok(ys + [y])
  {
    assert xs[..i + 1][..i] == xs[..i];
  }

  /** Once a prefix fails, the whole list fails the same way. */
  lemma {:induction false} TryEachFailsEarly<A, B>(f: A -> Result<B>, xs: seq<A>, n: nat)
    requires n <= |xs|
    requires TryEach(f, xs[..n]).Err?
    ensures TryEach(f, xs) == TryEach(f, xs[..n])
    decreases |xs| - n
  {
    if n < |xs| {
      TryEachStep(f, xs, n);
      TryEachFailsEarly(f, xs, n + 1);
    } else {
      assert xs[..n] == xs;
    }
  }
}
