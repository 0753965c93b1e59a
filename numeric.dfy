/** Failure and number representations shared by the model. */
module Numeric {

  /** The C++ exceptions (or undefined accesses) that abort a computation of the source. */
  datatype Failure =
    | InvalidArgument      // std::stoi / std::stof found no number
    | OutOfRange           // std::vector::at or std::string::substr with a bad index, or a number too large
    | UndefinedAccess      // operator[] before the start of a vector (fewer than two id tokens)

  datatype Option<+T> = None | Some(value: T)

  datatype Result<+T> = Ok(value: T) | Err(error: Failure) {
    predicate IsFailure() { Err? }
    function PropagateFailure<U>(): Result<U> requires Err? { Err(error) }
    function Extract(): T requires Ok? { value }
  }

  /**
   * A double-precision result as far as the model needs it: a real number, or the
   * not-a-number and infinities that IEEE division by zero produces. Rounding is not modelled.
   */
  datatype Double = Finite(value: real) | NaN | PosInf | NegInf

  /** IEEE division of a sum by a count: x / 0 is NaN for x == 0 and an infinity otherwise. */
  function Divide(num: real, den: int): Double {
    if den != 0 then Finite(num / den as real)
    else if num == 0.0 then NaN
    else if num > 0.0 then PosInf
    else NegInf
  }

  /** x - d for a finite x. */
  function Minus(x: real, d: Double): Double {
    match d
    case Finite(v) => Finite(x - v)
    case NaN => NaN
    case PosInf => NegInf
    case NegInf => PosInf
  }

  /** d * d. */
  function Square(d: Double): Double {
    match d
    case Finite(v) => Finite(v * v)
    case NaN => NaN
    case _ => PosInf
  }

  /** d + e. */
  function Plus(d: Double, e: Double): Double {
    match (d, e)
    case (Finite(a), Finite(b)) => Finite(a + b)
    case (NaN, _) => NaN
    case (_, NaN) => NaN
    case (PosInf, NegInf) => NaN
    case (NegInf, PosInf) => NaN
    case (PosInf, _) => PosInf
    case (_, PosInf) => PosInf
    case _ => NegInf
  }

  function Abs(x: real): real { if x < 0.0 then -x else x }

  /** std::vector::at: the element, or std::out_of_range outside the vector. */
  function VectorAt<T>(v: seq<T>, k: int): (r: Result<T>)
    ensures r.Ok? <==> 0 <= k < |v|
    ensures r.Ok? ==> r.value == v[k]
    ensures r.Err? ==> r.error == OutOfRange
  {
    if 0 <= k < |v| then Ok(v[k]) else Err(OutOfRange)
  }

  /** C++ integer division of ints: the quotient truncated toward zero. */
  function CDiv(a: int, b: int): int
    requires b > 0
  {
    if a >= 0 then a / b else -((-a) / b)
  }

  /** C++ remainder: a == b * CDiv(a, b) + CMod(a, b), with the sign of a. */
  function CMod(a: int, b: int): (r: int)
    requires b > 0
    ensures a == b * CDiv(a, b) + r
    ensures a >= 0 ==> 0 <= r < b && CDiv(a, b) >= 0
    ensures a < 0 ==> -b < r <= 0 && CDiv(a, b) <= 0
  {
    a - b * CDiv(a, b)
  }

  /** For a non-negative dividend, quotient and remainder are the unique ones with 0 <= r < b. */
  lemma DivModUnique(a: int, b: int, q: int, r: int)
    requires b > 0 && a >= 0 && 0 <= r < b && a == b * q + r
    ensures CDiv(a, b) == q && CMod(a, b) == r
  {
    MulBound(b, q - CDiv(a, b));
  }

  lemma MulBound(b: int, d: int)
    requires b > 0
    ensures d >= 1 ==> b * d >= b
    ensures d <= -1 ==> b * d <= -b
  {
  }

  /**
   * Running steps in order until one throws: the values of the steps before the failing one,
   * and the failure (None when every step succeeded).
   */
  function Collect<T>(rs: seq<Result<T>>): (c: (seq<T>, Option<Failure>))
    ensures |c.0| <= |rs|
    ensures forall i :: 0 <= i < |c.0| ==> rs[i] == Ok(c.0[i])
    ensures c.1.None? ==> |c.0| == |rs|
    ensures c.1.Some? ==> |c.0| < |rs| && rs[|c.0|] == Err(c.1.value)
  {
    if |rs| == 0 then ([], None)
    else
      var front := rs[..|rs| - 1];
      var (vs, failure) := Collect(front);
      if failure.Some? then (vs, failure)
      else match rs[|rs| - 1]
        case Ok(v) => (vs + [v], None)
        case Err(e) => (vs, Some(e))
  }

  /** Once a prefix has failed, the steps after it change nothing. */
  lemma {:induction false} CollectFailed<T>(rs: seq<Result<T>>, n: nat)
    requires n <= |rs| && Collect(rs[..n]).1.Some?
    ensures Collect(rs) == Collect(rs[..n])
    decreases |rs|
  {
    if n < |rs| {
      var front := rs[..|rs| - 1];
      assert front[..n] == rs[..n];
      CollectFailed(front, n);
    } else {
      assert rs[..n] == rs;
    }
  }

  /** A successful step appends its value. */
  lemma CollectStep<T>(rs: seq<Result<T>>, i: nat, vs: seq<T>, v: T)
    requires i < |rs| && Collect(rs[..i]) == (vs, None) && rs[i] == Ok(v)
    ensures Collect(rs[..i + 1]) == (vs + [v], None)
  {
    assert rs[..i + 1][..i] == rs[..i];
  }

  /** The first failing step ends the collection with its error. */
  lemma CollectStops<T>(rs: seq<Result<T>>, i: nat)
    requires i < |rs| && Collect(rs[..i]).1.None? && rs[i].Err?
    ensures Collect(rs) == (Collect(rs[..i]).0, Some(rs[i].error))
  {
    assert rs[..i + 1][..i] == rs[..i];
    CollectFailed(rs, i + 1);
  }
}
