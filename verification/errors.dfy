/** Outcome of an operation that Armadillo guards with a run-time check
    (`arma_debug_check`, `arma_stop`): either a value or the hard error the
    library would raise instead of returning. */
module Errors {

  datatype Result<+T> = Ok(value: T) | Err(reason: string)
}
