/** Failure-compatible Option and Result types, and the faults the extractor can raise.
    In BesApi.cs a fault is an exception escaping the fetch; here it is a value. */
module Wrappers {

  datatype Option<+T> = None | Some(value: T)

  /** What went wrong, named after the .NET exception the C# code would throw. */
  datatype Fault =
    | NullReference(what: string)   // a missing element, attribute or store row was dereferenced
    | Format(text: string)          // Int32.Parse / Convert.ToBoolean refused the text
    | Overflow(text: string)        // Int32.Parse: the number does not fit in 32 bits
    | NotSingle(what: string)       // Enumerable.Single found zero or several matches
    | NoElements(what: string)      // Enumerable.First / Last on an empty sequence
    | OutOfRange(what: string)      // Enumerable.ElementAt past the end
    | UriFormat(text: string)       // new Uri(text) refused the text

  datatype Result<+T> = Ok(value: T) | Err(error: Fault) {
    predicate IsFailure() {
      Err?
    }

    function PropagateFailure<U>(): Result<U>
      requires Err?
    {
      Err(error)
    }

    function Extract(): T
      requires Ok?
    {
      value
    }
  }

  /** A reference that BesApi.cs dereferences: null becomes a NullReference fault. */
  function Required<T>(o: Option<T>, what: string): (r: Result<T>)
    ensures r.Ok? <==> o.Some?
    ensures r.Ok? ==> r.value == o.value
    ensures r.Err? ==> r.error == NullReference(what)
  {
    match o
    case Some(v) => Ok(v)
    case None => Err(NullReference(what))
  }
}
