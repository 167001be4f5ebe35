/** Option and Result, and the Python exceptions the helpers can raise. */
module Wrappers {

  datatype Option<+T> = None | Some(value: T)

  /** A call that either returns a value or raises an exception. */
  datatype Result<+T, +E> = Ok(value: T) | Err(error: E)

  /** The exceptions that escape the modelled helpers. */
  datatype Failure =
    | NotImplemented(verb: string)   // fetch_response with a method other than GET or POST
    | IndexError                     // proxy_url.split('http://')[1] without 'http://'
    | KeyError                       // a missing section or option
    | AttributeError                 // .strip() on a configuration value that is not a string
    | TypeError                      // indexing a JSON configuration that was never read
    | UnicodeEncodeError             // auth_token.encode('ascii') on a non-ASCII token
    | FetchFailed                    // the JSON configuration could not be fetched or decoded
}
