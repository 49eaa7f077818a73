/**
  What `wsgi` does with the chain's outcome: the translation of a returned value
  into a body (lines 123-134), of a raised exception into an error response
  (lines 135-160), and the whole reply of one request.
 */
module Translation {
  import opened Wrappers
  import opened Utf8
  import opened Values
  import opened Responses
  import opened Chain

  /** What `wsgi` hands to `start_response` and returns. */
  datatype Reply = Reply(status: string, headers: Headers, body: Value)

  const InternalError := "500 Internal Server Error"
  const ErrorPageHead := "<html><body><h1>"
  const ErrorPageTail := "</h1></body></html>"
  const TracePageHead := "<html><body><h1>500 Internal Server Error</h1><div style=\"font-family:Monaco, Menlo, Consolas, 'Courier New', monospace;\"><pre>"
  const TracePageTail := "</pre></div></body></html>"

  // ---------------------------------------------------------------- results

  /**
    The checks of lines 123-132 on a returned value, in their order: a template
    becomes a one-chunk list of its rendering (the chunk stays text: it is already
    in a list when the `str` test runs), a `str` a one-element list holding one
    bytes object, its UTF-8 encoding, `None` the empty list, and anything else passes through. A rendering that
    raises gives that exception.
   */
  function Translate(v: Value, render: Renderer): (r: Result<Value, Error>) {
    match v
    case VTemplate(name, model) =>
      (match render(name, model)
       case Ok(text) => Ok(VList([Text(text)]))
       case Err(e) => Err(e))
    case VStr(s) => Ok(VList([Bytes(Encode(s))]))
    case VNone => Ok(VList([]))
    case _ => Ok(v)
  }

  /** What the translation of each kind of value means. */
  lemma TranslateMeaning(v: Value, render: Renderer)
    ensures v.VStr? ==>
      (var r := Translate(v, render);
       r.Ok? && r.value.VList? && |r.value.chunks| == 1 && r.value.chunks[0].Bytes?
       && Decode(r.value.chunks[0].bytes) == Some(v.s))
    ensures v.VTemplate? && render(v.name, v.model).Ok? ==>
      Translate(v, render) == Ok(VList([Text(render(v.name, v.model).value)]))
    ensures v.VTemplate? && render(v.name, v.model).Err? ==>
      Translate(v, render) == Err(render(v.name, v.model).error)
    ensures v.VNone? ==> Translate(v, render) == Ok(VList([]))
    ensures !v.VTemplate? && !v.VStr? && !v.VNone? ==> Translate(v, render) == Ok(v)
  {
    if v.VStr? {
      DecodeEncode(v.s);
    }
  }

  /** A translated body passes through a second translation unchanged. */
  lemma TranslateIdempotent(v: Value, render: Renderer, render': Renderer)
    requires Translate(v, render).Ok?
    ensures Translate(Translate(v, render).value, render') == Translate(v, render)
  {
  }

  // ---------------------------------------------------------------- escaping

  /** `s.replace(c, rep)` for a one-character needle. */
  function ReplaceChar(s: string, c: char, rep: string): (r: string) {
    if s == [] then [] else (if s[0] == c then rep else [s[0]]) + ReplaceChar(s[1..], c, rep)
  }

  /** `stacks.replace('<', '&lt;').replace('>', '&gt;')`, two passes as in line 158. */
  function Escape(s: string): (r: string) {
    ReplaceChar(ReplaceChar(s, '<', "&lt;"), '>', "&gt;")
  }

  /** The escape of one character, for the one-pass reference definition. */
  function EscapeChar(c: char): (r: string) {
    if c == '<' then "&lt;" else if c == '>' then "&gt;" else [c]
  }

  /** Reference definition: every character escaped at once. */
  function EscapeOnePass(s: string): (r: string) {
    if s == [] then [] else EscapeChar(s[0]) + EscapeOnePass(s[1..])
  }

  lemma {:induction false} ReplaceCharAppend(s: string, t: string, c: char, rep: string)
    ensures ReplaceChar(s + t, c, rep) == ReplaceChar(s, c, rep) + ReplaceChar(t, c, rep)
  {
    if s == [] {
      assert s + t == t;
    } else {
      assert (s + t)[0] == s[0] && (s + t)[1..] == s[1..] + t;
      ReplaceCharAppend(s[1..], t, c, rep);
    }
  }

  lemma {:induction false} ReplaceCharAbsent(s: string, c: char, rep: string)
    requires c !in s
    ensures ReplaceChar(s, c, rep) == s
  {
    if s != [] {
      ReplaceCharAbsent(s[1..], c, rep);
    }
  }

  /**
    The two passes agree with escaping every character at once: the `&gt;`
    pass never touches the `&lt;` the first pass put in.
   */
  lemma {:induction false} EscapeIsOnePass(s: string)
    ensures Escape(s) == EscapeOnePass(s)
  {
    if s != [] {
      var head := if s[0] == '<' then "&lt;" else [s[0]];
      assert ReplaceChar(s, '<', "&lt;") == head + ReplaceChar(s[1..], '<', "&lt;");
      ReplaceCharAppend(head, ReplaceChar(s[1..], '<', "&lt;"), '>', "&gt;");
      assert ReplaceChar(head, '>', "&gt;") == EscapeChar(s[0]) by {
        if s[0] == '<' {
          ReplaceCharAbsent(head, '>', "&gt;");
        } else {
          assert head == [s[0]] && [s[0]][1..] == [];
        }
      }
      EscapeIsOnePass(s[1..]);
    }
  }

  lemma {:induction false} OnePassNoBrackets(s: string)
    ensures '<' !in EscapeOnePass(s) && '>' !in EscapeOnePass(s)
  {
    if s != [] {
      OnePassNoBrackets(s[1..]);
    }
  }

  /**
    An escaped trace holds no `<` and no `>`, and escaping changes a trace
    exactly when it holds one of them.
   */
  lemma EscapeMeaning(s: string)
    ensures '<' !in Escape(s) && '>' !in Escape(s)
    ensures (Escape(s) == s) <==> ('<' !in s && '>' !in s)
  {
    EscapeIsOnePass(s);
    OnePassNoBrackets(s);
    if '<' !in s && '>' !in s {
      ReplaceCharAbsent(s, '<', "&lt;");
      ReplaceCharAbsent(s, '>', "&gt;");
    }
  }

  // ---------------------------------------------------------------- errors

  /**
    The `except` clauses of lines 135-160, tried in order: a redirect, a declared
    HTTP error, and any other exception, whose trace text the traceback module
    gives.
   */
  function ErrorReply(e: Error, hs: Headers, traceback: Error -> string): (r: Reply) {
    match e
    case Redirect(location, status) =>
      Reply(status, WithHeader(hs, "Location", location), VList([]))
    case Http(status) =>
      Reply(status, hs, VList([Text(ErrorPageHead), Text(status), Text(ErrorPageTail)]))
    case Fault(_, _) =>
      Reply(InternalError, [], VList([Text(TracePageHead), Text(Escape(traceback(e))), Text(TracePageTail)]))
  }

  /** A redirect answers with the redirect's status, a `Location` header naming its target, and no body. */
  lemma RedirectReply(location: string, status: string, hs: Headers, traceback: Error -> string)
    ensures var r := ErrorReply(Redirect(location, status), hs, traceback);
      && r.status == status && r.body == VList([])
      && ("Location", location) in r.headers
      && Lookup(r.headers, "Location") == Some(location)
      && (forall h :: h in hs && h.0 != "Location" ==> h in r.headers)
  {
    WithHeaderShape(hs, "Location", location);
    WithHeaderLookup(hs, "Location", location, "");
  }

  /**
    A declared HTTP error answers with its status and the response's headers, and
    the page of line 141, the status between a fixed head and tail; the trace
    plays no part in it.
   */
  lemma HttpReply(status: string, hs: Headers, traceback: Error -> string, traceback': Error -> string)
    ensures var r := ErrorReply(Http(status), hs, traceback);
      && r.status == status && r.headers == hs
      && r.body == VList([Text("<html><body><h1>"), Text(status), Text("</h1></body></html>")])
      && r == ErrorReply(Http(status), hs, traceback')
  {
  }

  /**
    Any other exception answers 500 with no headers at all, and the fixed trace
    page around the exception's trace, every character of it escaped, so that no
    `<` or `>` is left in the middle chunk.
   */
  lemma FaultReply(kind: string, message: string, hs: Headers, traceback: Error -> string)
    ensures var r := ErrorReply(Fault(kind, message), hs, traceback);
      && r.status == InternalError && r.headers == []
      && r.body == VList([Text(TracePageHead), Text(EscapeOnePass(traceback(Fault(kind, message)))), Text(TracePageTail)])
      && '<' !in r.body.chunks[1].text && '>' !in r.body.chunks[1].text
  {
    EscapeIsOnePass(traceback(Fault(kind, message)));
    EscapeMeaning(traceback(Fault(kind, message)));
  }

  // ---------------------------------------------------------------- one request

  /**
    The reply to one outcome of the chain, given the response's status and
    headers after the chain: the returned value translated (lines 123-134), or
    the exception, from the chain or from rendering, answered (lines 135-160).
   */
  function Respond(o: Outcome, status: string, hs: Headers, render: Renderer, traceback: Error -> string): (r: Reply) {
    match o
    case Returned(v) =>
      (match Translate(v, render)
       case Ok(body) => Reply(status, hs, body)
       case Err(e) => ErrorReply(e, hs, traceback))
    case Raised(e) => ErrorReply(e, hs, traceback)
  }

  /** The reply `wsgi` gives for a chain of middleware, from a fresh response. */
  function Serve(chain: seq<Middleware>, render: Renderer, traceback: Error -> string): (r: Reply) {
    var run := Dispatch(chain, 0);
    var (status, hs) := ApplyEdits(DefaultStatus, [], run.edits);
    Respond(run.outcome, status, hs, render, traceback)
  }

  /**
    On success the reply carries the status and headers of the response object
    after the edits of exactly the middleware that ran, in call order, applied to
    a fresh response, and the translated value as body.
   */
  lemma SuccessUsesResponse(chain: seq<Middleware>, render: Renderer, traceback: Error -> string)
    requires Dispatch(chain, 0).outcome.Returned?
    requires Translate(Dispatch(chain, 0).outcome.value, render).Ok?
    ensures forall t :: 0 <= t < |Dispatch(chain, 0).ran| ==> Dispatch(chain, 0).ran[t] < |chain|
    ensures (Serve(chain, render, traceback).status, Serve(chain, render, traceback).headers)
      == ApplyEdits(DefaultStatus, [], EditsAt(chain, Dispatch(chain, 0).ran))
    ensures Serve(chain, render, traceback).body == Translate(Dispatch(chain, 0).outcome.value, render).value
  {
    DispatchEdits(chain, 0);
  }

  /**
    A chain whose middleware all pass on, the empty chain among them, always
    answers with the 500 page of the `IndexError` raised at the end of the list.
   */
  lemma PassingChainFaults(chain: seq<Middleware>, render: Renderer, traceback: Error -> string)
    requires forall k :: 0 <= k < |chain| ==> Transparent(chain[k])
    ensures Serve(chain, render, traceback) == ErrorReply(IndexOutOfRange, [], traceback)
    ensures Serve(chain, render, traceback).status == InternalError
    ensures Serve(chain, render, traceback).headers == []
  {
    ChainEndRaises(chain, 0);
  }

  /** An empty middleware list answers every request with the 500 page. */
  lemma EmptyChainFaults(render: Renderer, traceback: Error -> string)
    ensures Serve([], render, traceback).status == InternalError
    ensures Serve([], render, traceback).body
      == VList([Text(TracePageHead), Text(Escape(traceback(IndexOutOfRange))), Text(TracePageTail)])
  {
  }

  /**
    Once a middleware stops the chain, middleware after it cannot change the
    reply, whatever the middleware before it do with the continuation's outcome.
   */
  lemma LaterMiddlewareIrrelevant(chain: seq<Middleware>, j: nat, more: seq<Middleware>, render: Renderer, traceback: Error -> string)
    requires j < |chain|
    requires forall k :: 0 <= k < j ==> CallsNext(chain[k])
    requires !CallsNext(chain[j])
    ensures Serve(chain + more, render, traceback) == Serve(chain, render, traceback)
  {
    StopsAt(chain, 0, j);
  }
}
