// Shared result types: Python exceptions become the `Err` arm of a `Result`.
module Common {

  datatype Option<T> = None | Some(value: T)

  /** The exception classes the modelled code raises, each with its message. */
  datatype Error =
    | ValueError(msg: string)
    | RuntimeError(msg: string)
    | TypeError(msg: string)
    | AttributeError(msg: string)
    | KeyError(key: string)
    | IndexError(msg: string)
    | ZeroDivisionError
    | NoTargetsUpError(msg: string)
    | NotAllTargetsUpError(msg: string)
    | UnboundLocalError(msg: string)
    | AssertionError(msg: string)
    | NeverUpError(msg: string)

  datatype Result<T> = Ok(value: T) | Err(error: Error)
  {
    predicate IsFailure() { Err? }

    function PropagateFailure<U>(): Result<U>
      requires Err?
    {
      Err(error)
    }

    function Extract(): T
      requires Ok?
    {
      value
    }
  }

  /** A non-negative quantity of seconds, the range of every elapsed-time oracle. */
  type NonNeg = r: real | r >= 0.0

  /** Apply `f` to the items in order, threading a state and stopping at the first error. */
  function Fold<S, T>(s: S, items: seq<T>, f: (S, T) -> Result<S>): Result<S>
  {
    if |items| == 0 then Ok(s)
    else
      var s' :- Fold(s, items[..|items| - 1], f);
      f(s', items[|items| - 1])
  }

  /** A fold over one more item is the fold over the prefix followed by one application. */
  lemma FoldSnoc<S, T>(s: S, items: seq<T>, n: nat, f: (S, T) -> Result<S>)
    requires n < |items|
    ensures Fold(s, items[..n + 1], f) ==
      match Fold(s, items[..n], f)
      case Err(e) => Err(e)
      case Ok(s') => f(s', items[n])
  {
    assert items[..n + 1][..n] == items[..n];
  }

  /** Once a fold has failed, the later items change nothing. */
  lemma {:induction false} FoldErrSticks<S, T>(s: S, items: seq<T>, n: nat, f: (S, T) -> Result<S>)
    requires n <= |items| && Fold(s, items[..n], f).Err?
    ensures Fold(s, items, f) == Fold(s, items[..n], f)
    decreases |items| - n
  {
    if n < |items| {
      FoldSnoc(s, items, n, f);
      FoldErrSticks(s, items, n + 1, f);
    } else {
      assert items[..n] == items;
    }
  }

  /** A fold that succeeds applied `f` successfully to every item, from the state its prefix reached. */
  lemma {:induction false} FoldOkSteps<S, T>(s: S, items: seq<T>, n: nat, f: (S, T) -> Result<S>)
    requires Fold(s, items, f).Ok? && n < |items|
    ensures Fold(s, items[..n], f).Ok? && f(Fold(s, items[..n], f).value, items[n]).Ok?
    ensures Fold(s, items[..n + 1], f) == f(Fold(s, items[..n], f).value, items[n])
    decreases |items| - n
  {
    FoldSnoc(s, items, n, f);
    if Fold(s, items[..n + 1], f).Err? {
      FoldErrSticks(s, items, n + 1, f);
    } else if n + 1 < |items| {
      FoldOkSteps(s, items, n + 1, f);
    } else {
      assert items[..n + 1] == items;
    }
    if Fold(s, items[..n], f).Err? {
      FoldErrSticks(s, items, n, f);
    }
  }

  /** Apply `f` to every item, collecting the results in order and stopping at the first error. */
  function Each<T, U>(items: seq<T>, f: T -> Result<U>): (r: Result<seq<U>>)
    ensures r.Ok? ==> |r.value| == |items|
    ensures r.Ok? ==> forall i :: 0 <= i < |items| ==> f(items[i]) == Ok(r.value[i])
    ensures r.Ok? <==> forall i :: 0 <= i < |items| ==> f(items[i]).Ok?
  {
    if |items| == 0 then Ok([])
    else
      var first :- f(items[0]);
      var rest :- Each(items[1..], f);
      assert forall i :: 1 <= i < |items| ==> items[i] == items[1..][i - 1];
      Ok([first] + rest)
  }

  /** A fold whose steps fail exactly on the items outside `ok`, whatever the state, succeeds exactly when every item is in `ok`. */
  lemma {:induction false} FoldOkIff<S, T>(s: S, items: seq<T>, f: (S, T) -> Result<S>, ok: T -> bool)
    requires forall s': S, t: T :: f(s', t).Ok? <==> ok(t)
    ensures Fold(s, items, f).Ok? <==> forall i :: 0 <= i < |items| ==> ok(items[i])
  {
    if |items| > 0 {
      var n := |items| - 1;
      FoldOkIff(s, items[..n], f, ok);
      assert forall i :: 0 <= i < n ==> items[..n][i] == items[i];
    }
  }

  /** The results over one more item are the results over the prefix and one more result. */
  lemma EachSnoc<T, U>(items: seq<T>, n: nat, f: T -> Result<U>)
    requires n < |items| && Each(items[..n], f).Ok? && f(items[n]).Ok?
    ensures Each(items[..n + 1], f) == Ok(Each(items[..n], f).value + [f(items[n]).value])
  {
    var p := items[..n + 1];
    assert forall i :: 0 <= i < n ==> p[i] == items[..n][i];
    assert forall i :: 0 <= i < n + 1 ==> f(p[i]).Ok?;
    var want := Each(items[..n], f).value + [f(items[n]).value];
    var got := Each(p, f).value;
    assert forall i :: 0 <= i < n + 1 ==> got[i] == want[i];
    assert got == want;
  }

  /** The first item `f` fails on decides the error of `Each`. */
  lemma {:induction false} EachFails<T, U>(items: seq<T>, n: nat, f: T -> Result<U>)
    requires n < |items| && Each(items[..n], f).Ok? && f(items[n]).Err?
    ensures Each(items, f) == Err(f(items[n]).error)
    decreases n
  {
    if n > 0 {
      assert items[..n][0] == items[0];
      assert items[1..][..n - 1] == items[..n][1..];
      EachFails(items[1..], n - 1, f);
    }
  }

  /** Replace every element of `a` by its image under `f`, in place and in order, stopping at the first error. */
  method EachInPlace<T>(a: array<T>, f: T -> Result<T>) returns (r: Result<()>)
    modifies a
    ensures r.Ok? <==> Each(old(a[..]), f).Ok?
    ensures r.Ok? ==> a[..] == Each(old(a[..]), f).value
    ensures r.Err? ==> r.error == Each(old(a[..]), f).error
  {
    ghost var before := a[..];
    var i := 0;
    while i < a.Length
      invariant 0 <= i <= a.Length
      invariant forall k :: i <= k < a.Length ==> a[k] == before[k]
      invariant Each(before[..i], f).Ok?
      invariant a[..i] == Each(before[..i], f).value
    {
      var y := f(a[i]);
      if y.Err? {
        EachFails(before, i, f);
        return Err(y.error);
      }
      EachSnoc(before, i, f);
      ghost var done := a[..i];
      a[i] := y.value;
      assert a[..i + 1] == done + [y.value];
      i := i + 1;
    }
    assert before[..i] == before;
    assert a[..] == a[..i];
    return Ok(());
  }
}
