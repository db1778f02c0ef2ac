/** Option and Result wrappers, and the exceptions the modelled code raises. */
module Outcomes {

  datatype Option<+T> = None | Some(value: T)

  /** The Python exceptions that escape the modelled code. */
  datatype Error =
    | Http404(page: int)      // django.http.Http404: the requested page has no results
    | RuntimeError            // the wrapped-queryset chain did not end in time
    | AssertionError          // a failed `assert` (a keyset paginator over a non-unique ordering)
    | ValueError              // int() of a request parameter that is not a number
    | ValidationError         // a model's clean() refused the object
    | AttributeError          // an attribute read before it was ever assigned

  datatype Result<+T> = Ok(value: T) | Err(error: Error)

  /** A `raise` or a normal completion, for methods that return nothing. */
  datatype Outcome = Pass | Fail(error: Error)
}
