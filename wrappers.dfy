/** Small value types shared by every module of the model. */
module Wrappers {

  /** JavaScript's `null`/`undefined` versus a present value. */
  datatype Option<T> = None | Some(value: T)

  /**
   * What an awaited remote call (`fetch` or `fetchWithAuth` followed by
   * `response.json()`) produced, seen as one atomic outcome: it threw, it
   * answered with a status outside 200-299, or it answered with a payload.
   */
  datatype Reply<T> = Threw(message: string) | NotOk | Ok(payload: T)
}
