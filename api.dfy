/** The outcome of an external call (a REST request or an image upload), given to the model
    as an input value instead of being performed. */
module Api {

  datatype Option<+T> = None | Some(value: T)

  /** What an awaited request yields: the response body, or the thrown error's `message`. */
  datatype ApiResult<+T> = Success(data: T) | Failure(message: string)

  /** A request whose response body is not used (`await apiService.delete(...)`). */
  datatype Unit = Unit
}
