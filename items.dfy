/** Values shared by the clustering components: optional values, results that
    carry the exception a Java method would throw, and the analytic item
    wrapper that tags an item with its id, group, batch and iteration. */
module Items {

  /** A value or Java's `null`. */
  datatype Option<T> = None | Some(value: T)

  /** A returned value, or the exception that was thrown instead. */
  datatype Result<T, E> = Success(value: T) | Failure(error: E)

  /** Normal completion of a `void` method, or the exception it threw. */
  datatype Outcome<E> = Pass | Fail(error: E)

  /** An analytic item wrapper: the wrapped item together with the unique id,
      the clustering group, the batch and the iteration that produced it. */
  datatype ItemWrapper<T> = ItemWrapper(
    id: string,
    groupId: string,
    batchId: string,
    iteration: int,
    item: T)
}
