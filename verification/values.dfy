/** The Python and numpy values the trial script manipulates: floats that may be
    NaN, the errors the script can raise, and Python's subscript and int()
    conversion, written out so that their edge cases are explicit. */
module Values {

  datatype Option<+T> = None | Some(value: T)

  datatype Result<+T> = Ok(value: T) | Err(error: Error)

  /** The exceptions the script can run into. */
  datatype Error =
    | UnknownKeyboard(name: string)  // NameError raised for an unrecognised keyboard name
    | MissingLog                     // the session file, or its previous row, is not there
    | NaNToInt                       // ValueError: int() applied to NaN
    | IndexOutOfRange                // IndexError from a list or array subscript
    | UndefinedFrame                 // NameError: the data frame was never assigned
    | RaggedColumns                  // ValueError: DataFrame columns of different lengths
    | ScalarsOnly                    // ValueError: DataFrame of scalars without an index

  /** A float as numpy stores it: NaN or a finite value (infinities are not modelled). */
  datatype Num = NaN | Fin(v: real)

  /** Python's subscript of a sequence of length n: non-negative indices count
      from the front, negative ones from the back, anything else is an IndexError. */
  function PyIndex(n: nat, i: int): (r: Option<nat>)
    ensures r.Some? <==> 0 <= n + i && i < n
    ensures r.Some? ==> r.value < n && (r.value == i || r.value == n + i)
  {
    if 0 <= i < n then Some(i)
    else if i < 0 && 0 <= n + i then Some(n + i)
    else None
  }

  /** Python's int() on a finite float: truncation toward zero. */
  function Trunc(x: real): (r: int)
    ensures 0.0 <= x ==> r as real <= x < r as real + 1.0
    ensures x < 0.0 ==> r as real - 1.0 < x <= r as real
  {
    if x >= 0.0 then x.Floor else -((-x).Floor)
  }

  /** int() keeps whole numbers and is monotone. */
  lemma TruncMonotone(x: real, y: real)
    requires x <= y
    ensures Trunc(x) <= Trunc(y)
  {
  }

  lemma TruncOfWhole(n: int)
    ensures Trunc(n as real) == n
  {
  }
}
