/** Option and Result types shared by every module of the model. `Err` carries the
    message of the JavaScript `Error` the source throws on that path. */
module Common {

  datatype Option<+T> = None | Some(value: T) {
    function GetOr(default: T): T {
      match this
      case Some(v) => v
      case None => default
    }
  }

  datatype Result<+T> = Ok(value: T) | Err(message: string) {
    predicate IsFailure() {
      Err?
    }

    function PropagateFailure<U>(): Result<U>
      requires Err?
    {
      Err(message)
    }

    function Extract(): T
      requires Ok?
    {
      value
    }
  }

  /** The current time and the parsing of date strings, both in milliseconds since
      the Unix epoch: `moment()` is `now` and `moment(s)` is `instant(s)`. */
  datatype Clock = Clock(now: int, instant: string -> int)

  /** The Some values of `xs`, in order. */
  function Somes<T>(xs: seq<Option<T>>): (r: seq<T>)
    ensures |r| <= |xs|
  {
    if xs == [] then []
    else (if xs[0].Some? then [xs[0].value] else []) + Somes(xs[1..])
  }

  /** Every value kept by `Somes` comes from the input. */
  lemma {:induction false} SomesFromInput<T>(xs: seq<Option<T>>)
    ensures forall k :: 0 <= k < |Somes(xs)| ==> Some(Somes(xs)[k]) in xs
  {
    if xs != [] {
      SomesFromInput(xs[1..]);
      var rest := Somes(xs[1..]);
      forall k | 0 <= k < |Somes(xs)| ensures Some(Somes(xs)[k]) in xs {
        if xs[0].Some? {
          if k > 0 {
            assert Somes(xs)[k] == rest[k - 1];
            assert Some(rest[k - 1]) in xs[1..];
          }
        } else {
          assert Somes(xs)[k] == rest[k];
          assert Some(rest[k]) in xs[1..];
        }
      }
    }
  }

  /** `Somes` distributes over concatenation, so it keeps the input's order. */
  lemma {:induction false} SomesAppend<T>(xs: seq<Option<T>>, ys: seq<Option<T>>)
    ensures Somes(xs + ys) == Somes(xs) + Somes(ys)
  {
    if xs != [] {
      SomesAppend(xs[1..], ys);
      assert (xs + ys)[0] == xs[0];
      assert (xs + ys)[1..] == xs[1..] + ys;
    } else {
      assert xs + ys == ys;
    }
  }
}
