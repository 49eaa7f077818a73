# digwebs request dispatch, modelled in Dafny

This project models the request-dispatch core of the digwebs WSGI framework
(`www/web.py`). It proves properties of that model. The parts modelled are:

- **The middleware chain.** `dispatch(i)` fetches `middleware[i][0]` and calls it
  with a continuation that runs `dispatch(i + 1)`. Each middleware is one of a
  fixed set of behaviours (module `Chain`):
  - stop with a value;
  - raise;
  - pass the continuation's result on;
  - post-process that result;
  - rescue a failure of the continuation with a fallback value;
  - edit the response, then call on.

  The list is indexed *before* the end-of-chain test. So once the chain runs
  off its end, it raises `IndexError`, and `next` (which is `None`) is never
  reached. In particular, an application with no middleware answers every
  request with the 500 page.
- **Result translation.** The checks run in the source's order:
  - a `Template` becomes a one-element list holding its rendering. That element
    stays text: the `str` test that follows sees a list.
  - a `str` becomes a one-element list holding one bytes object, its UTF-8
    encoding;
  - `None` becomes `[]`;
  - anything else is returned unchanged.

  Status and headers come from the request's response object, after every
  middleware has made its edits.
- **Error translation.** The except clauses are tried in order:
  - `RedirectError` sets `Location` and gives an empty body;
  - `HttpError` gives a three-chunk page with the status in the middle;
  - any other exception gives `500 Internal Server Error`, no headers at all,
    and the trace with `<` and `>` escaped. The escaping is done in two passes,
    as on line 158, and is proved equal to a one-pass escape.

  An exception raised while rendering a template goes through these same
  clauses, because rendering happens inside the `try`.
- **The per-request context.** It is an explicit `RequestContext` object with
  the three attributes `application`, `request` and `response`. `wsgi` sets
  them before the chain runs and deletes them before it returns.
- **The application object.** The `_running` flag makes the `template_engine`
  setter and a second `get_wsgi_application` raise `RuntimeError`. The
  middleware list is sorted by priority with Python's stable sort. The model
  proves that this sort is ordered, is a permutation, keeps the order of equal
  priorities, and is the only list with these three properties.
- **The decorators.** `get`, `post`, `put` and `delete` stamp
  `__web_route__`/`__web_method__` and return the same handler. `view` turns a
  returned `dict` into a `Template` and raises `ValueError` on anything else.

Which parts are imperative:
- `wsgi` is a method over the context and a fresh `Response`. It applies the
  middleware's edits, runs the sequential type checks, and answers through the
  except clauses. It is proved equal to the pure `Translation.Serve`.
- The running flag, the engine and the middleware list are fields of the
  `Digwebs` class, and its methods update them.
- The chain and the escaping are pure functions, as in the source.

External collaborators are parameters:
- the template engine is a `Renderer` held by the application;
- the trace text of an exception comes from a `traceback` function;
- the middleware found by the directory scan is a list passed to
  `InitMiddlewares`;
- the WSGI environment is an opaque map.

## Model

| member | source | states |
|---|---|---|
| `Chain.DispatchOrder` | www/web.py:104-111 | from index i the chain calls middleware i, i+1, … in list order, each at most once; every one called except the last called its continuation, and the run stops at the first one that does not call on or at the end of the list |
| `Chain.DispatchEdits` | www/web.py:104-111 | the response edits of a run are exactly those of the edit-making middleware it called, in call order |
| `Chain.StopsAt` | www/web.py:104-111 | when the middleware before j call on, whatever they then do with the outcome, and the one at j does not, exactly i..j run and appending middleware after the list changes nothing |
| `Chain.ShortCircuit` | www/web.py:104-111 | when the middleware before j pass the outcome back untouched and the one at j does not call on, the outcome is what j returned or raised, only i..j ran, and appending middleware after the list changes nothing |
| `Chain.ChainEndRaises` | www/web.py:105-109 | when every middleware calls on unchanged, the last continuation indexes past the list and the run raises IndexError after calling all of them |
| `Translation.TranslateMeaning` | www/web.py:123-132 | a template becomes a single text chunk of its rendering, not re-encoded, or the renderer's exception; a str becomes a single bytes chunk that decodes back to the str; None becomes the empty list; every other value is returned unchanged |
| `Translation.TranslateIdempotent` | www/web.py:123-134 | a translated body passes through the checks again unchanged, whatever the engine |
| `Translation.SuccessUsesResponse` | www/web.py:104-134 | on success the reply's status and headers are those of a fresh response after the edits of exactly the middleware that ran, in call order, and its body is the translated value |
| `Translation.EscapeIsOnePass` | www/web.py:158 | the two replace passes equal escaping each character at once (`<` to `&lt;`, `>` to `&gt;`) |
| `Translation.EscapeMeaning` | www/web.py:158 | an escaped trace holds no `<` or `>`, and escaping leaves a trace unchanged exactly when it holds neither |
| `Translation.RedirectReply` | www/web.py:135-138 | a redirect answers with its own status, a Location header that reads back as its target, every other header kept, and an empty body |
| `Translation.HttpReply` | www/web.py:139-141 | a declared HTTP error answers with its status and the response's headers, the page `<html><body><h1>`, status, `</h1></body></html>`, independent of any trace |
| `Translation.FaultReply` | www/web.py:142-160 | any other exception answers 500 with an empty header list and the fixed trace page head, the trace with every `<` and `>` escaped, and the fixed tail; no `<` or `>` is left in the middle chunk |
| `Translation.PassingChainFaults` | www/web.py:105-160 | a chain whose middleware all pass on, the empty one included, always answers with the 500 page of the IndexError, with no headers |
| `Translation.EmptyChainFaults` | www/web.py:106-160 | with no middleware every request gets status 500 and the trace page of an IndexError |
| `Translation.LaterMiddlewareIrrelevant` | www/web.py:104-111 | once a middleware stops the chain, middleware added after it cannot change the reply, whatever the middleware before it do with the outcome |
| `Priority.SortSorted` | www/web.py:85-88 | the sorted middleware list is non-decreasing by priority and as long as the original |
| `Priority.SortPermutation` | www/web.py:88 | the sorted list holds the same entries as the original, each as often |
| `Priority.SortStable` | www/web.py:88 | for every priority the entries of that priority appear in the same order as before |
| `Priority.SortUnique` | www/web.py:85-88 | any list that is sorted by priority and keeps each priority's entries in order is the sorted list |
| `Responses.WithHeaderLookup` | www/web.py:136 | after set_header the header reads back as the value set, and every other header reads as before |
| `Responses.WithHeaderShape` | www/web.py:136 | set_header appends an absent header at the end, keeps the length when the header is present, and keeps every pair of another name |
| `Responses.WithHeaderUnique` | www/web.py:136 | set_header keeps header names unique |
| `Responses.Response.constructor` | www/web.py:120 | a new response has status "200 OK" and no headers |
| `Responses.Response.SetHeader` | www/web.py:136 | set_header replaces the response's headers by the set_header list and keeps its status |
| `Utf8.Encode` | www/web.py:129 | the UTF-8 encoding of a str takes between one and four bytes per character |
| `Utf8.DecodeEncode` | www/web.py:129 | decoding the UTF-8 encoding of a str gives the str back |
| `Utf8.EncodeInjective` | www/web.py:129 | distinct strs have distinct encodings |
| `Utf8.EncodeAscii` | www/web.py:129 | an ASCII str encodes to one byte per character, each the character's code point |
| `Decorators.Stamp` | www/web.py:188-191 | the decorator sets the route and method attributes on the function and returns that same function |
| `Decorators.ViewMeaning` | www/web.py:265-271 | a view-wrapped handler returns a Template exactly when the handler returned a dict, with the view's path as name and the dict as model; any other value raises ValueError with the source's message; raised exceptions pass on |
| `Decorators.View` | www/web.py:263-273 | view returns a new wrapper whose every call is the view result of the wrapped call, carrying the wrapped function's attributes |
| `Web.Digwebs.constructor` | www/web.py:31-58 | a new application is not running, holds the given document root and engine, and has no middleware |
| `Web.Digwebs.CheckNotRunning` | www/web.py:60-62 | raises RuntimeError("Cannot modify digwebs when running.") exactly when the application runs |
| `Web.Digwebs.SetTemplateEngine` | www/web.py:68-71 | the setter stores the engine when not running; when running it raises RuntimeError and leaves the engine as it was |
| `Web.Digwebs.InitMiddlewares` | www/web.py:83-88 | the discovered entries are appended and the whole list becomes its stable sort by priority |
| `Web.Digwebs.GetWsgiApplication` | www/web.py:97-115 | the running flag is set afterwards; the call raises RuntimeError exactly when it was already set, and otherwise returns a new WSGI callable over this application and Dict(document_root) |
| `Web.Digwebs.Get` | www/web.py:188-193 | stamps route path and method "GET" and returns the same handler |
| `Web.Digwebs.Post` | www/web.py:211-216 | stamps route path and method "POST" and returns the same handler |
| `Web.Digwebs.Put` | www/web.py:223-228 | stamps route path and method "PUT" and returns the same handler |
| `Web.Digwebs.Delete` | www/web.py:235-240 | stamps route path and method "DELETE" and returns the same handler |
| `Web.Digwebs.View` | www/web.py:242-275 | the view decorator of the application, as Decorators.View |
| `Web.WsgiApp.Call` | www/web.py:117-164 | the ghost output `during` equals the application, the request of env and the fresh response the method creates (the contract does not constrain the context's attributes between being set and being cleared); the reply handed to start_response and returned is Serve of the application's current middleware and engine, on success with that response's own status and headers; the three context attributes are deleted before it returns |
| `Web.RunningLifecycle` | www/web.py:60-99 | over one application, the setter succeeds before running, the first get_wsgi_application succeeds, and afterwards a second one and the setter both raise RuntimeError, the late setter leaving the earlier engine in place |
| `Web.ViewRenders` | www/web.py:123-126 | a view-wrapped handler that returns a dict is answered with the single rendered chunk of its template, under the response's status and headers |

## Left out

- Loading middleware modules from the document root's `middlewares` directory (lines 74-83). This is filesystem I/O and dynamic import. `InitMiddlewares` takes the discovered `(callable, priority)` entries as a parameter.
- `run` (lines 90-95). It is the wsgiref socket server.
- `datetime_filter` and `add_filter` (lines 42-53, 57). They depend on the wall clock and the calendar.
- Building the Jinja2 engine and rendering templates (lines 55-57, 125). These are library calls. The engine is a `Renderer` value, which may return an exception.
- Producing the traceback text and `logging.exception` (lines 143, 149-154). These are library I/O. The trace text is given by a `traceback` function parameter.
- `threading.local` (line 27). The context is an explicit `RequestContext` that the caller passes to `WsgiApp.Call`. Isolation between concurrent requests is not modelled.
- Parsing `Request(env)` (line 119). The request is an opaque wrapper around the environment.
  - `Request(env)` and `Response()` run before the `try`.
  - A failure there would leave `ctx.application` set. The model treats both as never failing.
- The commented-out debug branch (lines 144-148). It is dead code.
- Middleware that look at the request, or that call their continuation more than once.
  - Each middleware is one fixed behaviour, and it calls on at most once.
  - A middleware that decides per request is represented by the behaviour it shows for that request.
- Post-processing functions and the renderer's success path are total. An exception raised inside post-processing is not modelled.
- `www/response.py` is not part of this model. Setting a header replaces the first header of that name or appends a new one. The model has no case-folding of names and no cookie headers.
- The sort algorithm. Python's sort is Timsort, modelled as an insertion sort function. `Priority.SortUnique` shows that both give the same list.
- The class relation between `RedirectError` and `HttpError` (`errors.py` is not part of this model). They are disjoint variants of the error type, and the redirect clause is tried first, as in the source.
- `start_response` is not a separate call. `WsgiApp.Call` returns the status, headers and body together, as the single `start_response` call of the path that completes normally. If `start_response` on line 133 raised, the source would call it a second time from an except clause; `start_response` is taken never to fail.
- The two-step decorator factories (`get(path)` returning `_decorator`) are one method taking the path and the function. A handler's behaviour is a constant field, so stamping cannot change what it returns.
- `init_middlewares` does not check the running flag, and `wsgi` reads `self.middleware` at request time. So a later `InitMiddlewares` changes the chain of a running application. The model keeps this behaviour.
- Python strings holding lone surrogates (on which `encode('utf-8')` raises) cannot be represented as Dafny strings.
- Web.WsgiApp.Call: does not model an exception that escapes the except clauses (`set_header` on line 136 or `start_response` raising inside a clause, or a `BaseException` that `except Exception` on line 142 lets through). In the source the `finally` block still deletes the context attributes then; the model has only the normal exit.
- Web.WsgiApp.Call: the middleware do not read the context (middleware that look at the request are left out above), so the model records the three attributes at the point the chain starts in the ghost output `during` instead of letting the chain observe them. The contract states what `during` equals, but does not constrain the context's attributes between being set and being cleared; only that they are cleared at the end.
- Response edits by middleware. Only a `Touch` middleware edits the response, and only before calling on. An edit made after the continuation returns, by a middleware that stops or raises (a cookie set before raising `RedirectError`), or inside a rescue, has no behaviour of its own. It can be imitated by adding a `Touch` entry for that request, but then the indices in `Chain.DispatchOrder` and `Chain.DispatchEdits` no longer name the positions in the real middleware list.
- Decorators.ViewResult: dict keys are always strings, so the `TypeError` that `Template(path, **r)` on line 269 raises for a dict with non-string keys, and any clash of a key with the `Template` constructor's own parameters (the `Template` class is not part of this model), are not represented; every dict becomes a `Template`. The `logging.info` call on line 268 is left out, as logging I/O.
