/** Option and Result, and the Python exceptions the modelled code can raise. */
module Wrappers {

  datatype Option<+T> = None | Some(value: T)

  /** The Python exceptions raised by the modelled code. */
  datatype PyError =
    | AttributeError  // e.g. `None.group(...)` after a failed regex match, `Block.split`
    | IndexError      // `[][-1]`, `list.pop()` on an empty list, `codes[1]` on a one-line block
    | TypeError       // a helper called with too few arguments
    | KeyError        // a dictionary lookup of a missing name
    | ValueError      // `list.index` of an element that is not in the list
    | KeyboardInterruptInBlock  // an interrupt while a block is being continued
    | NotDeclaredError          // `prepare` found statements to emit but no live name

  /** A value, or the exception that was raised instead. */
  datatype Result<+T> = Ok(value: T) | Err(error: PyError)
}
