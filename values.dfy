/**
  The Python values that flow through the dispatch pipeline, as a tagged union,
  and the exceptions that can be raised while a request is dispatched.
 */
module Values {
  import opened Utf8
  import opened Wrappers

  /** One element of a WSGI body list: a Python `str` or a `bytes` object. */
  datatype Chunk = Text(text: string) | Bytes(bytes: seq<Byte>)

  /** What a middleware or a handler can return. */
  datatype Value =
    | VTemplate(name: string, model: map<string, Value>)  // a `Template` marker object
    | VStr(s: string)                                     // a `str`
    | VNone                                               // `None`
    | VList(chunks: seq<Chunk>)                           // a list of body chunks
    | VDict(entries: map<string, Value>)                  // a `dict`
    | VOther(id: nat)                                     // any other object, by identity

  /**
    A raised exception: `RedirectError`, `HttpError`, or any other exception,
    named by its class and message.
   */
  datatype Error =
    | Redirect(location: string, status: string)
    | Http(status: string)
    | Fault(kind: string, message: string)

  /** Either a returned value or a raised exception. */
  datatype Outcome = Returned(value: Value) | Raised(error: Error)

  /** What indexing a Python list one past its end raises. */
  const IndexOutOfRange: Error := Fault("IndexError", "list index out of range")

  /** The renderer of the template engine: a template name and a model to text, or an exception. */
  type Renderer = (string, map<string, Value>) -> Result<string, Error>
}
