/**
 * Errors the core can raise, and the result type that carries them in
 * place of Python exceptions.
 */
module Outcomes {

  datatype Error =
    /** `range()` called with a step of zero (`ValueError`). */
    | RangeStepZero
    /** `ValueError: Unsupported LLM_PROVIDER: ...` */
    | UnsupportedLlmProvider(provider: string)
    /** `ValueError: Unsupported QUANT_MODE: ...` */
    | UnsupportedQuantMode(mode: string)
    /** `IndexError` from indexing an empty list. */
    | IndexOutOfRange

  datatype Result<+T> = Ok(value: T) | Err(error: Error)

  datatype Option<+T> = None | Some(value: T)
}
