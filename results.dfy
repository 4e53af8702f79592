/** Option and Result: the shapes of Rust's `Option<T>` and `Result<T, E>` used by every solver. */
module Results {

  datatype Option<+T> = None | Some(value: T)

  /** `Result` is failure-compatible, so `:-` plays the part of Rust's `?` operator. */
  datatype Result<+T, +E> = Ok(value: T) | Err(error: E) {

    predicate IsFailure() {
      Err?
    }

    function PropagateFailure<U>(): Result<U, E>
      requires Err?
    {
      Err(error)
    }

    function Extract(): T
      requires Ok?
    {
      value
    }
  }

  /**
   * Every item converted, or the error of the first conversion that fails:
   * Rust's `map(parse)` followed by `try_collect`.
   */
  function TryCollect<A, T, E(==)>(items: seq<A>, parse: A -> Result<T, E>): (r: Result<seq<T>, E>)
    ensures r.Ok? <==> forall i :: 0 <= i < |items| ==> parse(items[i]).Ok?
    ensures r.Ok? ==> |r.value| == |items| && forall i :: 0 <= i < |items| ==> parse(items[i]) == Ok(r.value[i])
    ensures r.Err? ==>
      exists i :: 0 <= i < |items| && parse(items[i]).Err? && r == Err(parse(items[i]).error)
        && forall j :: 0 <= j < i ==> parse(items[j]).Ok?
    decreases |items|
  {
    if items == [] then Ok([])
    else match parse(items[0])
      case Err(e) => Err(e)
      case Ok(x) =>
        var rest := TryCollect(items[1..], parse);
        assert forall i :: 1 <= i < |items| ==> items[i] == items[1..][i - 1];
        match rest
        case Err(e) =>
          var i :|
            0 <= i < |items[1..]| && parse(items[1..][i]).Err? && rest.error == parse(items[1..][i]).error
              && forall j :: 0 <= j < i ==> parse(items[1..][j]).Ok?;
          assert parse(items[i + 1]).Err?;
          Err(e)
        case Ok(xs) => Ok([x] + xs)
  }

  /** When every item parses, collecting gives exactly the parsed values. */
  lemma TryCollectAllOk<A, T, E>(items: seq<A>, parse: A -> Result<T, E>, values: seq<T>)
    requires |values| == |items|
    requires forall i :: 0 <= i < |items| ==> parse(items[i]) == Ok(values[i])
    ensures TryCollect(items, parse) == Ok(values)
  {
    var r := TryCollect(items, parse);
    assert r.Ok?;
    forall i | 0 <= i < |items|
      ensures r.value[i] == values[i]
    {
      assert parse(items[i]) == Ok(r.value[i]);
    }
    assert r.value == values;
  }

  /** Rust's `Iterator::sum` over natural numbers. */
  function Sum(values: seq<nat>): nat
  {
    if values == [] then 0 else values[0] + Sum(values[1..])
  }
}
