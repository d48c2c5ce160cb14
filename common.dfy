/** Values shared by every part of the model: optional values, failure causes and call outcomes. */
module Common {

  datatype Option<T> = None | Some(value: T)

  /** A captured failure cause. The model keeps only what tells causes apart. */
  datatype Throwable =
    | IllegalState(message: string)   // ElasticsearchIllegalStateException, thrown by the node clients
    | Elasticsearch(message: string)  // ElasticsearchException, thrown by the HTTP client
    | NullPointer                     // a dereference of a null reference
    | Cause(description: string)      // a cause reported by a collaborator (bulk processor, transport)

  /** How a call on a client ends: it returns normally, or it throws. */
  datatype Outcome = Returned | Threw(exception: Throwable)

  const ClientIsClosed := "client is closed"
}
