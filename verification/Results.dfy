/** What an operation comes back with where the original may return an error or panic. */
module Results {
  datatype Result<T> = Done(value: T) | Refused
}
