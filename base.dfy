/** Shared vocabulary: bytes, the failures the loader and renderer can raise,
    a failure-compatible result type, and Python's list indexing. */
module Base {

  /** One byte of the archive, as Python's `ord` / `struct.unpack('B')` sees it. */
  type byte = b: int | 0 <= b < 256

  /** The exceptions the modelled Python code can raise. */
  datatype Error =
    | Truncated        // struct.unpack on a short read, or ord(b'') in read_8 / WADHeader
    | NegativeSeek     // file.seek to a negative offset
    | IndexOutOfRange  // a list subscript outside the list
    | RecursionLimit   // __make_node recursing deeper than the record count (a cyclic tree)
    | DivisionByZero   // remap_x / remap_y when the map extent is a single coordinate
    | LeafPassed       // side test or tree walk handed a subsector leaf
    | MissingLump      // a map attribute read before `load` assigned it (AttributeError)

  datatype Option<T> = None | Some(value: T)

  datatype Result<T> = Ok(value: T) | Fail(error: Error) {
    predicate IsFailure() { Fail? }

    function PropagateFailure<U>(): Result<U>
      requires Fail?
    {
      Fail(error)
    }

    function Extract(): T
      requires Ok?
    {
      value
    }
  }

  /** `xs` followed by the result of the rest of a loop: the shape of every
      "append records until done" loop invariant in this model. */
  function Prepend<T>(xs: seq<T>, r: Result<seq<T>>): Result<seq<T>>
  {
    match r
    case Ok(ys) => Ok(xs + ys)
    case Fail(e) => Fail(e)
  }

  /** Loop-invariant helper: an empty accumulator leaves the result as it is. */
  lemma PrependNil<T>(r: Result<seq<T>>)
    ensures Prepend([], r) == r
  {
    if r.Ok? {
      assert [] + r.value == r.value;
    }
  }

  /** Loop-invariant helper: when the rest is empty, the accumulator is the whole result. */
  lemma PrependDone<T>(xs: seq<T>)
    ensures Prepend(xs, Ok([])) == Ok(xs)
  {
    assert xs + [] == xs;
  }

  /** Loop-invariant helper: moving one more piece from the rest into the accumulator. */
  lemma PrependAppend<T>(xs: seq<T>, ys: seq<T>, r: Result<seq<T>>)
    ensures Prepend(xs, Prepend(ys, r)) == Prepend(xs + ys, r)
  {
    if r.Ok? {
      assert xs + (ys + r.value) == (xs + ys) + r.value;
    }
  }

  /** Python's `s[i]`: negative indices count from the end, anything else
      outside the list raises IndexError. */
  function PyIndex<T>(s: seq<T>, i: int): (r: Result<T>)
    ensures 0 <= i < |s| ==> r == Ok(s[i])
    ensures r.Fail? <==> !(-|s| <= i < |s|)
  {
    if 0 <= i < |s| then Ok(s[i])
    else if -|s| <= i < 0 then Ok(s[|s| + i])
    else Fail(IndexOutOfRange)
  }

  function Min(a: int, b: int): int { if a <= b then a else b }

  function Max(a: int, b: int): int { if a >= b then a else b }
}
