/** Failure-carrying values shared by the board engine and the table store.
    `Option` stands for a Java reference that may be null; `Result` stands for
    a value that may instead be an exception, carried as its message. */
module Results {

  datatype Option<+T> = None | Some(value: T)

  datatype Result<+T, +E> = Success(value: T) | Failure(error: E)
}
