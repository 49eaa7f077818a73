/**
  The `digwebs` application object and the WSGI callable it builds: the
  running flag that freezes the configuration, the ordering of the middleware
  list, the decorators, and `wsgi`, which sets up the per-request context, runs
  the chain, translates its outcome and always clears the context again.
 */
module Web {
  import opened Wrappers
  import opened Values
  import opened Responses
  import opened Chain
  import opened Translation
  import opened Priority
  import opened Decorators

  /** The `RuntimeError` that `_check_not_running` raises. */
  datatype AppError = RuntimeError(message: string)

  const RunningMessage := "Cannot modify digwebs when running."

  /** The application-wide configuration every request sees: `Dict(document_root=...)`. */
  datatype Application = Application(documentRoot: string)

  /** A WSGI environment, opaque to the core. */
  type Environ = map<string, string>

  /** The parsed request of one environment; how it is parsed is not part of this model. */
  datatype Request = Request(env: Environ)

  /**
    The per-request context: the three attributes `wsgi` sets at the start of a
    request and deletes at its end (None: the attribute is not set).
   */
  class RequestContext {
    var application: Option<Application>
    var request: Option<Request>
    var response: Option<Response>

    constructor ()
      ensures Cleared()
    {
      application, request, response := None, None, None;
    }

    /** No request is in progress: all three attributes are deleted. */
    predicate Cleared()
      reads this
    {
      application.None? && request.None? && response.None?
    }
  }

  /** The callables of a list of (callable, priority) entries, in list order. */
  function Callables(entries: seq<(Middleware, int)>): (r: seq<Middleware>) {
    seq(|entries|, k requires 0 <= k < |entries| => entries[k].0)
  }

  class Digwebs {
    var running: bool
    const documentRoot: string
    var templateEngine: Renderer
    var middleware: seq<(Middleware, int)>

    /** A digwebs that is not running, with the given engine and no middleware. */
    constructor (documentRoot: string, engine: Renderer)
      ensures !running && this.documentRoot == documentRoot
      ensures templateEngine == engine && middleware == []
    {
      running := false;
      this.documentRoot := documentRoot;
      templateEngine := engine;
      middleware := [];
    }

    /** `_check_not_running`: raises `RuntimeError` exactly when the application runs. */
    method CheckNotRunning() returns (r: Result<(), AppError>)
      ensures r == if running then Err(RuntimeError(RunningMessage)) else Ok(())
    {
      if running {
        return Err(RuntimeError(RunningMessage));
      }
      return Ok(());
    }

    /** The `template_engine` setter: stores the engine unless the application runs. */
    method SetTemplateEngine(engine: Renderer) returns (r: Result<(), AppError>)
      modifies this`templateEngine
      ensures r == if running then Err(RuntimeError(RunningMessage)) else Ok(())
      ensures templateEngine == if running then old(templateEngine) else engine
    {
      r := CheckNotRunning();
      if r.Err? {
        return;
      }
      templateEngine := engine;
    }

    /**
      `init_middlewares` once the middleware modules are loaded: the entries found
      are appended, then the whole list is sorted by priority.
     */
    method InitMiddlewares(discovered: seq<(Middleware, int)>)
      modifies this`middleware
      ensures middleware == SortByPriority(old(middleware) + discovered)
    {
      middleware := middleware + discovered;
      middleware := SortByPriority(middleware);
    }

    /**
      `get_wsgi_application`: the first call sets the running flag and builds the
      WSGI callable; every later call raises `RuntimeError`.
     */
    method GetWsgiApplication() returns (r: Result<WsgiApp, AppError>)
      modifies this`running
      ensures running
      ensures r.Err? <==> old(running)
      ensures r.Err? ==> r.error == RuntimeError(RunningMessage)
      ensures r.Ok? ==> fresh(r.value) && r.value.app == this
      ensures r.Ok? ==> r.value.application == Application(documentRoot)
    {
      var check := CheckNotRunning();
      if check.Err? {
        return Err(check.error);
      }
      running := true;
      var wsgi := new WsgiApp(this, Application(documentRoot));
      return Ok(wsgi);
    }

    /** `@get(path)` */
    method Get(path: string, func: Handler) returns (r: Handler)
      modifies func
      ensures r == func && func.webRoute == Some(path) && func.webMethod == Some("GET")
    {
      r := Stamp(func, path, "GET");
    }

    /** `@post(path)` */
    method Post(path: string, func: Handler) returns (r: Handler)
      modifies func
      ensures r == func && func.webRoute == Some(path) && func.webMethod == Some("POST")
    {
      r := Stamp(func, path, "POST");
    }

    /** `@put(path)` */
    method Put(path: string, func: Handler) returns (r: Handler)
      modifies func
      ensures r == func && func.webRoute == Some(path) && func.webMethod == Some("PUT")
    {
      r := Stamp(func, path, "PUT");
    }

    /** `@delete(path)` */
    method Delete(path: string, func: Handler) returns (r: Handler)
      modifies func
      ensures r == func && func.webRoute == Some(path) && func.webMethod == Some("DELETE")
    {
      r := Stamp(func, path, "DELETE");
    }

    /** `@view(path)`: a new handler that turns a returned mapping into a `Template`. */
    method View(path: string, func: Handler) returns (w: Handler)
      ensures fresh(w)
      ensures forall args :: w.call(args) == ViewResult(path, func.call(args))
      ensures w.webRoute == func.webRoute && w.webMethod == func.webMethod
    {
      w := Decorators.View(path, func);
    }
  }

  /** The WSGI callable `get_wsgi_application` returns, closing over the application. */
  class WsgiApp {
    const app: Digwebs
    const application: Application

    constructor (app: Digwebs, application: Application)
      ensures this.app == app && this.application == application
    {
      this.app := app;
      this.application := application;
    }

    /**
      `wsgi(env, start_response)`: the chain runs while the context holds this
      application, the request of `env` and a fresh response (`during` records
      the three attributes at that point); the reply handed to `start_response`
      and returned is the one `Serve` gives for the middleware list and template
      engine the application holds at the time of the request, on success with
      that response's own status and headers; and the context is cleared again.
     */
    method Call(ctx: RequestContext, env: Environ, traceback: Error -> string)
      returns (reply: Reply, ghost during: (Option<Application>, Option<Request>, Option<Response>), ghost response: Response)
      modifies ctx
      ensures fresh(response)
      ensures during == (Some(application), Some(Request(env)), Some(response))
      ensures ctx.Cleared()
      ensures reply == Serve(Callables(app.middleware), app.templateEngine, traceback)
      ensures var o := Dispatch(Callables(app.middleware), 0).outcome;
        o.Returned? && Translate(o.value, app.templateEngine).Ok? ==>
          reply.status == response.status && reply.headers == response.headers
    {
      ctx.application := Some(application);
      ctx.request := Some(Request(env));
      var resp := new Response();
      ctx.response := Some(resp);
      response := resp;

      during := (ctx.application, ctx.request, ctx.response);
      var run := Dispatch(Callables(app.middleware), 0);
      // the changes the middleware made to `ctx.response`, in the order they made them
      for k := 0 to |run.edits|
        invariant (resp.status, resp.headers) == ApplyEdits(DefaultStatus, [], run.edits[..k])
      {
        resp.Apply(run.edits[k]);
        assert run.edits[..k + 1][..k] == run.edits[..k];
      }
      assert run.edits[..|run.edits|] == run.edits;
      ghost var status0, hs0 := resp.status, resp.headers;
      assert Serve(Callables(app.middleware), app.templateEngine, traceback)
        == Respond(run.outcome, status0, hs0, app.templateEngine, traceback);

      var failure: Option<Error> := None;
      match run.outcome {
        case Returned(v) =>
          var r := v;
          if r.VTemplate? {
            var rendered := app.templateEngine(r.name, r.model);
            if rendered.Err? {
              failure := Some(rendered.error);
            } else {
              var tmp: seq<Chunk> := [];
              tmp := tmp + [Text(rendered.value)];
              assert tmp == [Text(rendered.value)];
              r := VList(tmp);
              assert Translate(v, app.templateEngine) == Ok(r);
            }
          }
          assert failure.Some? ==> Translate(v, app.templateEngine) == Err(failure.value);
          if failure.None? {
            if r.VStr? {
              var tmp: seq<Chunk> := [];
              tmp := tmp + [Bytes(Utf8.Encode(r.s))];
              assert tmp == [Bytes(Utf8.Encode(r.s))];
              r := VList(tmp);
            }
            if r.VNone? {
              r := VList([]);
            }
            assert Translate(v, app.templateEngine) == Ok(r);
            reply := Reply(resp.status, resp.headers, r);
          }
        case Raised(e) =>
          failure := Some(e);
      }

      assert failure.Some? ==> Respond(run.outcome, status0, hs0, app.templateEngine, traceback) == ErrorReply(failure.value, hs0, traceback);
      if failure.Some? {
        match failure.value {
          case Redirect(location, status) =>
            resp.SetHeader("Location", location);
            reply := Reply(status, resp.headers, VList([]));
          case Http(status) =>
            reply := Reply(status, resp.headers, VList([Text(ErrorPageHead), Text(status), Text(ErrorPageTail)]));
          case Fault(_, _) =>
            var stacks := traceback(failure.value);
            reply := Reply(InternalError, [], VList([Text(TracePageHead), Text(Escape(stacks)), Text(TracePageTail)]));
        }
      }

      assert reply == Respond(run.outcome, status0, hs0, app.templateEngine, traceback);
      // finally
      ctx.application := None;
      ctx.request := None;
      ctx.response := None;
    }
  }

  /**
    The running flag over an application's life: before `get_wsgi_application`
    the setter succeeds; the first `get_wsgi_application` succeeds; afterwards a
    second one and the setter both raise `RuntimeError`, and the setter leaves
    the engine in place.
   */
  method RunningLifecycle(root: string, engine: Renderer, other: Renderer, late: Renderer)
    returns (setBefore: Result<(), AppError>, first: bool, second: Result<(), AppError>, setAfter: Result<(), AppError>,
             ghost engineAfter: Renderer)
    ensures setBefore == Ok(())
    ensures first
    ensures second == Err(RuntimeError(RunningMessage))
    ensures setAfter == Err(RuntimeError(RunningMessage))
    ensures engineAfter == other
  {
    var app := new Digwebs(root, engine);
    setBefore := app.SetTemplateEngine(other);
    assert app.templateEngine == other;
    var w1 := app.GetWsgiApplication();
    first := w1.Ok?;
    var w2 := app.GetWsgiApplication();
    second := if w2.Ok? then Ok(()) else Err(w2.error);
    setAfter := app.SetTemplateEngine(late);
    engineAfter := app.templateEngine;
  }

  /** A view-wrapped handler that returns a mapping is answered with the rendering of its template. */
  lemma ViewRenders(path: string, model: map<string, Value>, render: Renderer, status: string, hs: Headers, traceback: Error -> string)
    requires render(path, model).Ok?
    ensures Respond(ViewResult(path, Returned(VDict(model))), status, hs, render, traceback)
      == Reply(status, hs, VList([Text(render(path, model).value)]))
  {
  }
}
