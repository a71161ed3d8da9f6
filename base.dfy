/** Value types shared by every module of the model. */
module Base {

  /** Python's `None` or a present value. */
  datatype Option<+T> = None | Some(value: T) {
    /** `d.get(key, default)` once the lookup has produced this option. */
    function GetOr(default: T): T {
      if Some? then value else default
    }
  }

  /** A value, or the exception a Python expression raises instead. */
  datatype Result<+T, +E> = Ok(value: T) | Err(error: E)

  /** The Python exceptions the modelled code can raise. */
  datatype PyError =
    | RequestError            // `requests.get` or `raise_for_status` failed
    | TypeError
    | KeyError(key: string)
    | AttributeError
    | RuntimeError(message: string)

  /**
   * Python's `float()` applied to a text: `Some(v)` when it accepts the text,
   * `None` when it raises. It is a parameter of the model, not a definition of it.
   */
  type Parser = string -> Option<real>

  /**
   * One numeric cell of a data frame. Python `None` and `NaN` are both
   * `Missing`; a value that `float()` rejects (text) is `NonNumeric`.
   */
  datatype Cell = Missing | NonNumeric | Num(x: real)
}
