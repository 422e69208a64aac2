/** Types shared by the modules of this project. */
module Common {

  datatype Option<+T> = None | Some(value: T)

  datatype Result<+T> = Ok(value: T) | Raised

  function Min(a: int, b: int): int {
    if a <= b then a else b
  }

  function Max(a: int, b: int): int {
    if a <= b then b else a
  }

  /** The newest `n` items, or all of them if there are fewer. */
  function Last<T>(items: seq<T>, n: nat): (r: seq<T>)
    ensures |r| == Min(n, |items|)
  {
    if |items| <= n then items else items[|items| - n..]
  }
}
