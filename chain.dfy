/**
  The middleware chain of `get_wsgi_application`. `dispatch(i)` fetches
  `middleware[i]` and calls it with a continuation that runs `dispatch(i + 1)`.
  The list is indexed before the end-of-chain test, so `dispatch(len)` raises
  `IndexError` instead of falling through to `next`.
 */
module Chain {
  import opened Values
  import opened Responses

  /** What one middleware does when it is called with its continuation. */
  datatype Middleware =
    | Stop(result: Value)                // returns without calling on
    | Raise(error: Error)                // raises without calling on
    | CallNext                           // returns what the continuation returns
    | CallNextThen(post: Value -> Value) // post-processes what the continuation returns
    | Rescue(fallback: Value)            // calls on, and returns `fallback` if that raises
    | Touch(edit: Edit)                  // edits the response, then calls on

  /** Whether the middleware calls its continuation. */
  predicate CallsNext(m: Middleware) {
    !m.Stop? && !m.Raise?
  }

  /** Whether the middleware passes the continuation's outcome back untouched. */
  predicate Transparent(m: Middleware) {
    m.CallNext? || m.Touch?
  }

  /** What a middleware that does not call on gives. */
  function OwnOutcome(m: Middleware): (o: Outcome)
    requires !CallsNext(m)
  {
    if m.Stop? then Returned(m.result) else Raised(m.error)
  }

  /**
    One run of the chain from some index: its outcome, the indices of the
    middleware that were called, in call order, and the response edits they made,
    in the order they made them.
   */
  datatype Run = Run(outcome: Outcome, ran: seq<nat>, edits: seq<Edit>)

  /** `dispatch(i)` over the callables of the sorted middleware list. */
  function Dispatch(chain: seq<Middleware>, i: nat): (r: Run)
    decreases |chain| - i
  {
    if i >= |chain| then
      Run(Raised(IndexOutOfRange), [], [])
    else
      match chain[i]
      case Stop(v) => Run(Returned(v), [i], [])
      case Raise(e) => Run(Raised(e), [i], [])
      case CallNext =>
        var n := Dispatch(chain, i + 1);
        Run(n.outcome, [i] + n.ran, n.edits)
      case CallNextThen(post) =>
        var n := Dispatch(chain, i + 1);
        Run(if n.outcome.Returned? then Returned(post(n.outcome.value)) else n.outcome, [i] + n.ran, n.edits)
      case Rescue(v) =>
        var n := Dispatch(chain, i + 1);
        Run(if n.outcome.Raised? then Returned(v) else n.outcome, [i] + n.ran, n.edits)
      case Touch(e) =>
        var n := Dispatch(chain, i + 1);
        Run(n.outcome, [i] + n.ran, [e] + n.edits)
  }

  /** The edits made by the middleware at the given indices, in that order. */
  function EditsAt(chain: seq<Middleware>, idx: seq<nat>): (edits: seq<Edit>)
    requires forall t :: 0 <= t < |idx| ==> idx[t] < |chain|
  {
    if idx == [] then []
    else (if chain[idx[0]].Touch? then [chain[idx[0]].edit] else []) + EditsAt(chain, idx[1..])
  }

  /**
    Middleware run in list order, each at most once: the run from `i` calls
    `i, i+1, …` up to the first one that does not call on (or to the end of the
    list), and every one of them but the last called its continuation.
   */
  lemma {:induction false} DispatchOrder(chain: seq<Middleware>, i: nat)
    ensures var r := Dispatch(chain, i);
      && (i >= |chain| ==> r.ran == [])
      && (i < |chain| ==> 1 <= |r.ran| <= |chain| - i)
      && (forall t :: 0 <= t < |r.ran| ==> r.ran[t] == i + t)
      && (forall t :: 0 <= t < |r.ran| - 1 ==> CallsNext(chain[r.ran[t]]))
      && (|r.ran| >= 1 && i + |r.ran| < |chain| ==> !CallsNext(chain[i + |r.ran| - 1]))
    decreases |chain| - i
  {
    if i < |chain| && CallsNext(chain[i]) {
      DispatchOrder(chain, i + 1);
    }
  }

  /** The edits of a run are those of the `Touch` middleware it called, in call order. */
  lemma {:induction false} DispatchEdits(chain: seq<Middleware>, i: nat)
    ensures forall t :: 0 <= t < |Dispatch(chain, i).ran| ==> Dispatch(chain, i).ran[t] < |chain|
    ensures Dispatch(chain, i).edits == EditsAt(chain, Dispatch(chain, i).ran)
    decreases |chain| - i
  {
    DispatchOrder(chain, i);
    if i < |chain| && CallsNext(chain[i]) {
      DispatchOrder(chain, i + 1);
      DispatchEdits(chain, i + 1);
      var r := Dispatch(chain, i);
      assert r.ran[1..] == Dispatch(chain, i + 1).ran;
    }
  }

  /**
    Middleware after the stopping one are never reached: when every middleware
    from `i` up to `j` calls on, whatever it then does with the continuation's
    outcome, and the one at `j` does not call on, the run calls exactly `i..j`,
    and middleware appended after the list change nothing.
   */
  lemma {:induction false} StopsAt(chain: seq<Middleware>, i: nat, j: nat)
    requires i <= j < |chain|
    requires forall k :: i <= k < j ==> CallsNext(chain[k])
    requires !CallsNext(chain[j])
    ensures |Dispatch(chain, i).ran| == j - i + 1
    ensures forall more :: Dispatch(chain + more, i) == Dispatch(chain, i)
    decreases j - i
  {
    if i < j {
      StopsAt(chain, i + 1, j);
    }
    forall more ensures Dispatch(chain + more, i) == Dispatch(chain, i) {
      assert (chain + more)[i] == chain[i];
    }
  }

  /**
    Short circuit: when every middleware from `i` up to `j` passes the
    continuation's outcome back untouched and the one at `j` does not call on,
    the outcome is whatever the one at `j` returned or raised, and the run calls
    exactly `i..j`; no later middleware runs.
   */
  lemma {:induction false} ShortCircuit(chain: seq<Middleware>, i: nat, j: nat)
    requires i <= j < |chain|
    requires forall k :: i <= k < j ==> Transparent(chain[k])
    requires !CallsNext(chain[j])
    ensures Dispatch(chain, i).outcome == OwnOutcome(chain[j])
    ensures |Dispatch(chain, i).ran| == j - i + 1
    ensures forall t :: 0 <= t < |Dispatch(chain, i).ran| ==> Dispatch(chain, i).ran[t] <= j
    ensures forall more :: Dispatch(chain + more, i) == Dispatch(chain, i)
    decreases j - i
  {
    if i < j {
      ShortCircuit(chain, i + 1, j);
    }
    StopsAt(chain, i, j);
  }

  /**
    End of the chain: when every middleware from `i` on passes on, the last
    continuation indexes past the end of the list and the run raises
    `IndexError`, after calling every middleware from `i`.
   */
  lemma {:induction false} ChainEndRaises(chain: seq<Middleware>, i: nat)
    requires forall k :: i <= k < |chain| ==> Transparent(chain[k])
    ensures Dispatch(chain, i).outcome == Raised(IndexOutOfRange)
    ensures |Dispatch(chain, i).ran| == if i < |chain| then |chain| - i else 0
    decreases |chain| - i
  {
    if i < |chain| {
      ChainEndRaises(chain, i + 1);
    }
  }
}
