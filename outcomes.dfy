/**
 * Values shared by every stage of the pipeline: an optional value, the
 * failures the Python code raises, a result that is either a value or one of
 * those failures, and the finite run of a lazy stream that may stop early.
 */
module Outcomes {

  datatype Option<+T> = None | Some(value: T)

  /** The exceptions the modelled code raises, one constructor per cause. */
  datatype Error =
    | DuplicateToken(token: string)    // ValueError: '<w>' already exists in the vocab
    | UnknownToken(token: string)      // ValueError: '<w>' does not exist
    | ReservedToken(token: string)     // ValueError: '<w>' is one of the reserved words
    | MissingAttribute(name: string)   // AttributeError: the object never set this attribute
    | KeyMissing                       // KeyError from a dictionary lookup
    | Unhashable                       // TypeError: a list used as a dictionary key
    | EmptyBatch                       // ValueError: max() arg is an empty sequence
    | EmptySeparator                   // ValueError: empty separator
    | EmptyConcat                      // RuntimeError: torch.cat on an empty list of tensors
    | RowIndexOutOfRange               // IndexError: a row index past the end of a tensor

  datatype Result<+T> = Ok(value: T) | Err(error: Error)

  /**
   * What a consumer observes when it pulls a Python generator to the end:
   * the items yielded, in order, and the exception that stopped it, if any.
   */
  datatype Run<+T> = Run(items: seq<T>, failure: Option<Error>)
}
