/**
  The decorators of a digwebs application: `get`, `post`, `put` and `delete`
  stamp a route and a method on a handler and give the same handler back;
  `view` wraps a handler so that the mapping it returns becomes a `Template`.
 */
module Decorators {
  import opened Wrappers
  import opened Values

  const ViewMessage := "Expect return a dict when using @view() decorator."

  /** A route handler: a callable carrying `__web_route__` and `__web_method__` once stamped. */
  class Handler {
    var webRoute: Option<string>
    var webMethod: Option<string>
    const call: seq<Value> -> Outcome

    constructor (call: seq<Value> -> Outcome)
      ensures webRoute == None && webMethod == None && this.call == call
    {
      webRoute := None;
      webMethod := None;
      this.call := call;
    }
  }

  /** The body of each routing decorator: stamp the attributes, return the function itself. */
  method Stamp(func: Handler, path: string, verb: string) returns (r: Handler)
    modifies func
    ensures r == func
    ensures func.webRoute == Some(path) && func.webMethod == Some(verb)
  {
    func.webRoute := Some(path);
    func.webMethod := Some(verb);
    r := func;
  }

  /** What the `view` wrapper gives for what the wrapped function gave. */
  function ViewResult(path: string, o: Outcome): (r: Outcome) {
    match o
    case Returned(VDict(m)) => Returned(VTemplate(path, m))
    case Returned(_) => Raised(Fault("ValueError", ViewMessage))
    case Raised(e) => Raised(e)
  }

  /**
    A view-wrapped handler returns a template exactly when the handler returned a
    mapping, named by the view's path and with that mapping as its model; any other
    returned value raises `ValueError`, and what the handler raised passes on.
   */
  lemma ViewMeaning(path: string, o: Outcome)
    ensures ViewResult(path, o).Returned? <==> o.Returned? && o.value.VDict?
    ensures o.Returned? && o.value.VDict? ==> ViewResult(path, o) == Returned(VTemplate(path, o.value.entries))
    ensures o.Returned? && !o.value.VDict? ==> ViewResult(path, o) == Raised(Fault("ValueError", ViewMessage))
    ensures o.Raised? ==> ViewResult(path, o) == o
  {
  }

  /**
    `view(path)(func)`: a new wrapper, which `functools.wraps` gives the wrapped
    function's attributes.
   */
  method View(path: string, func: Handler) returns (w: Handler)
    ensures fresh(w)
    ensures forall args :: w.call(args) == ViewResult(path, func.call(args))
    ensures w.webRoute == func.webRoute && w.webMethod == func.webMethod
  {
    var f := func.call;
    w := new Handler(args => ViewResult(path, f(args)));
    w.webRoute := func.webRoute;
    w.webMethod := func.webMethod;
  }
}
