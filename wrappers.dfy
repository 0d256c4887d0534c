/** Failure-compatible datatypes standing for Python's `None` and exceptions. */
module Wrappers {

  /** The Python exception classes that the modelled code raises or swallows. */
  datatype PyError = ValueError | IndexError | KeyError | TypeError | AttributeError | NameError

  /** A value that may be absent, as Python's `None`. */
  datatype Option<+T> = None | Some(value: T)

  /** The outcome of an expression that may raise. */
  datatype Result<+T> = Ok(value: T) | Err(error: PyError) {
    predicate IsFailure() { Err? }

    function PropagateFailure<U>(): Result<U>
      requires Err?
    {
      Err(error)
    }

    function Extract(): T
      requires Ok?
    {
      value
    }
  }

  /** The outcome of a statement that may raise. */
  datatype Outcome = Pass | Fail(error: PyError)

  /** `Pass` when `r` succeeded, otherwise the exception it carries. */
  function OutcomeOf<T>(r: Result<T>): (o: Outcome)
    ensures o.Pass? <==> r.Ok?
  {
    if r.Ok? then Pass else Fail(r.error)
  }

  /** A field assignment inside a try block: it happens only when the right-hand side did not raise. */
  function Assigned<T>(r: Result<T>, previous: T): T {
    if r.Ok? then r.value else previous
  }

  /** The values of the results that succeeded, in order: a loop that appends inside `try` and skips on `except`. */
  function Kept<T>(rs: seq<Result<T>>): (ks: seq<T>)
    ensures |ks| <= |rs|
  {
    if rs == [] then []
    else
      var init := Kept(rs[..|rs| - 1]);
      var r := rs[|rs| - 1];
      if r.Ok? then init + [r.value] else init
  }

  /** Results are independent: a failure drops only itself. */
  lemma {:induction false} KeptConcat<T>(a: seq<Result<T>>, b: seq<Result<T>>)
    ensures Kept(a + b) == Kept(a) + Kept(b)
    decreases |b|
  {
    if b == [] {
      assert a + b == a;
    } else {
      var b' := b[..|b| - 1];
      assert (a + b)[..|a + b| - 1] == a + b';
      assert (a + b)[|a + b| - 1] == b[|b| - 1];
      KeptConcat(a, b');
    }
  }

  /** Every kept value comes from a result that succeeded with it. */
  lemma {:induction false} KeptFrom<T>(rs: seq<Result<T>>)
    ensures forall i :: 0 <= i < |Kept(rs)| ==> exists j :: 0 <= j < |rs| && rs[j] == Ok(Kept(rs)[i])
  {
    if rs != [] {
      var init := rs[..|rs| - 1];
      KeptFrom(init);
      var ks := Kept(rs);
      var last := rs[|rs| - 1];
      assert ks == if last.Ok? then Kept(init) + [last.value] else Kept(init);
      forall i | 0 <= i < |ks| ensures exists j :: 0 <= j < |rs| && rs[j] == Ok(ks[i]) {
        if i < |Kept(init)| {
          var j :| 0 <= j < |init| && init[j] == Ok(Kept(init)[i]);
          assert rs[j] == init[j];
          assert ks[i] == Kept(init)[i];
        } else {
          assert rs[|rs| - 1] == Ok(ks[i]);
        }
      }
    } else {
      assert |Kept(rs)| == 0;
    }
  }

  /** Nothing is dropped exactly when every result succeeded. */
  lemma {:induction false} KeptAll<T>(rs: seq<Result<T>>)
    ensures |Kept(rs)| == |rs| <==> forall j :: 0 <= j < |rs| ==> rs[j].Ok?
  {
    if rs != [] {
      var init := rs[..|rs| - 1];
      KeptAll(init);
      assert forall j :: 0 <= j < |init| ==> rs[j] == init[j];
    }
  }

  /**
    The values of the results before the first failure, and that failure: a loop that appends
    without a `try`, so that the first exception ends it.
   */
  function UntilFailure<T>(rs: seq<Result<T>>): (r: (seq<T>, Outcome))
    ensures |r.0| <= |rs|
  {
    if rs == [] then ([], Pass)
    else
      var (vs, outcome) := UntilFailure(rs[..|rs| - 1]);
      if outcome.Fail? then (vs, outcome)
      else
        var last := rs[|rs| - 1];
        if last.Ok? then (vs + [last.value], Pass) else (vs, Fail(last.error))
  }

  /**
    The longest prefix that succeeds is kept: the outcome passes exactly when every result
    succeeded, and otherwise it is the failure of the first result that failed.
   */
  lemma {:induction false} UntilFailurePrefix<T>(rs: seq<Result<T>>)
    ensures var (vs, outcome) := UntilFailure(rs);
      (forall i :: 0 <= i < |vs| ==> rs[i] == Ok(vs[i])) &&
      (outcome.Pass? <==> |vs| == |rs|) &&
      (outcome.Fail? ==> rs[|vs|] == Err(outcome.error))
  {
    if rs != [] {
      var init := rs[..|rs| - 1];
      UntilFailurePrefix(init);
      assert forall i :: 0 <= i < |init| ==> rs[i] == init[i];
    } else {
      assert UntilFailure(rs) == ([], Pass);
    }
  }

  /** Once every result so far succeeded, the next one is appended or ends the loop with its error. */
  lemma {:induction false} UntilFailureSnoc<T>(rs: seq<Result<T>>, r: Result<T>)
    requires UntilFailure(rs).1.Pass?
    ensures UntilFailure(rs + [r]) == if r.Ok? then (UntilFailure(rs).0 + [r.value], Pass) else (UntilFailure(rs).0, Fail(r.error))
  {
    assert (rs + [r])[..|rs|] == rs;
  }

  /** After the first failure nothing more is appended. */
  lemma {:induction false} UntilFailureStop<T>(a: seq<Result<T>>, b: seq<Result<T>>)
    requires UntilFailure(a).1.Fail?
    ensures UntilFailure(a + b) == UntilFailure(a)
    decreases |b|
  {
    if b == [] {
      assert a + b == a;
    } else {
      var b' := b[..|b| - 1];
      assert (a + b)[..|a + b| - 1] == a + b';
      UntilFailureStop(a, b');
    }
  }

  /** The loop over `rs` at step `i`, every earlier result having succeeded: a success is appended. */
  lemma {:induction false} UntilFailureOkAt<T>(rs: seq<Result<T>>, i: nat)
    requires i < |rs| && rs[i].Ok? && UntilFailure(rs[..i]).1.Pass?
    ensures UntilFailure(rs[..i + 1]) == (UntilFailure(rs[..i]).0 + [rs[i].value], Pass)
  {
    assert rs[..i + 1] == rs[..i] + [rs[i]];
    UntilFailureSnoc(rs[..i], rs[i]);
  }

  /** The loop over `rs` at step `i`, every earlier result having succeeded: a failure ends it. */
  lemma {:induction false} UntilFailureErrAt<T>(rs: seq<Result<T>>, i: nat)
    requires i < |rs| && rs[i].Err? && UntilFailure(rs[..i]).1.Pass?
    ensures UntilFailure(rs) == (UntilFailure(rs[..i]).0, Fail(rs[i].error))
  {
    assert rs[..i + 1] == rs[..i] + [rs[i]];
    UntilFailureSnoc(rs[..i], rs[i]);
    assert rs == rs[..i + 1] + rs[i + 1..];
    UntilFailureStop(rs[..i + 1], rs[i + 1..]);
  }

  /** The next result appended to the ones kept so far. */
  lemma {:induction false} KeptSnoc<T>(rs: seq<Result<T>>, r: Result<T>)
    ensures Kept(rs + [r]) == if r.Ok? then Kept(rs) + [r.value] else Kept(rs)
  {
    assert (rs + [r])[..|rs|] == rs;
  }

  /** The loop over `rs` at step `i`: a success is appended, a failure is skipped. */
  lemma {:induction false} KeptAt<T>(rs: seq<Result<T>>, i: nat)
    requires i < |rs|
    ensures Kept(rs[..i + 1]) == if rs[i].Ok? then Kept(rs[..i]) + [rs[i].value] else Kept(rs[..i])
  {
    assert rs[..i + 1] == rs[..i] + [rs[i]];
    KeptSnoc(rs[..i], rs[i]);
  }
}
