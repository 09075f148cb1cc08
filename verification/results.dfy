/** Optional values and fallible results shared by the whole model.

    Java's `null` becomes `None`, and every exception the graph utilities can
    raise becomes one constructor of `Error`, carried by `Err`. */
module Results {

  /** A value that may be absent (Java's nullable reference). */
  datatype Option<+T> = None | Some(value: T)

  /** The failures the graph utilities and the iterations they consume can raise. */
  datatype Error =
    | MultipleStatements   // `single` saw a second match for its pattern
    | NotBooleanLiteral    // `booleanValue` found a literal whose label is not a boolean
    | NonLiteral           // `booleanValue` found an IRI or a blank node
    | MissingFirst         // a list node without an `rdf:first` value
    | MissingRest          // a list node without an `rdf:rest` value
    | ClassCast            // an `rdf:rest` value that is not a resource fails the `(Resource)` cast
    | NullSubject          // `list` was given a null subject
    | IllegalState         // `hasNext` or `next` on an iteration that is already closed
    | NoSuchElement        // `next` on an exhausted iteration
  {
    /** The failures reported as a query-evaluation exception; the other ones are
        Java runtime exceptions of distinct classes. */
    predicate IsEvaluationError()
    {
      MultipleStatements? || NotBooleanLiteral? || NonLiteral? || MissingFirst? || MissingRest?
    }
  }

  /** Either a value or the failure that prevented it. */
  datatype Result<+T> = Ok(value: T) | Err(error: Error)
}
