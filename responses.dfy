/**
  The response object of one request: a status line and an ordered list of
  header pairs, with `set_header` replacing the value of a header already
  present and appending a new one otherwise.
 */
module Responses {
  import opened Wrappers

  type Header = (string, string)
  type Headers = seq<Header>

  const DefaultStatus := "200 OK"

  /** The value of the first header called `name`, if any. */
  function Lookup(hs: Headers, name: string): (r: Option<string>) {
    if hs == [] then None
    else if hs[0].0 == name then Some(hs[0].1)
    else Lookup(hs[1..], name)
  }

  /** No header name occurs twice. */
  predicate UniqueNames(hs: Headers) {
    forall i, j :: 0 <= i < j < |hs| ==> hs[i].0 != hs[j].0
  }

  /** The header list after `set_header(name, value)`. */
  function WithHeader(hs: Headers, name: string, value: string): (r: Headers) {
    if hs == [] then [(name, value)]
    else if hs[0].0 == name then [(name, value)] + hs[1..]
    else [hs[0]] + WithHeader(hs[1..], name, value)
  }

  /** After `set_header`, the header reads back as the value given, and no other header changes. */
  lemma {:induction false} WithHeaderLookup(hs: Headers, name: string, value: string, other: string)
    ensures Lookup(WithHeader(hs, name, value), name) == Some(value)
    ensures other != name ==> Lookup(WithHeader(hs, name, value), other) == Lookup(hs, other)
  {
    if hs != [] && hs[0].0 != name {
      WithHeaderLookup(hs[1..], name, value, other);
    }
  }

  /**
    `set_header` on a header that is absent appends it at the end; on one that is
    present it keeps the list's length and what it holds at every other position.
   */
  lemma {:induction false} WithHeaderShape(hs: Headers, name: string, value: string)
    ensures Lookup(hs, name).None? ==> WithHeader(hs, name, value) == hs + [(name, value)]
    ensures Lookup(hs, name).Some? ==> |WithHeader(hs, name, value)| == |hs|
    ensures (name, value) in WithHeader(hs, name, value)
    ensures forall h :: h in hs && h.0 != name ==> h in WithHeader(hs, name, value)
  {
    if hs != [] && hs[0].0 != name {
      WithHeaderShape(hs[1..], name, value);
      assert hs == [hs[0]] + hs[1..];
    }
  }

  /** `set_header` keeps header names unique. */
  lemma {:induction false} WithHeaderUnique(hs: Headers, name: string, value: string)
    requires UniqueNames(hs)
    ensures UniqueNames(WithHeader(hs, name, value))
  {
    if hs != [] && hs[0].0 != name {
      WithHeaderUnique(hs[1..], name, value);
      WithHeaderNames(hs[1..], name, value);
      var r := WithHeader(hs, name, value);
      forall i, j | 0 <= i < j < |r| ensures r[i].0 != r[j].0 {
        if i == 0 {
          assert r[j] in WithHeader(hs[1..], name, value);
        }
      }
    }
  }

  /** Every name in the new list is `name` or was already there. */
  lemma {:induction false} WithHeaderNames(hs: Headers, name: string, value: string)
    ensures forall h :: h in WithHeader(hs, name, value) ==> h.0 == name || exists g :: g in hs && g.0 == h.0
  {
    if hs != [] && hs[0].0 != name {
      WithHeaderNames(hs[1..], name, value);
    }
  }

  /** A change a middleware makes to the response before calling on. */
  datatype Edit = SetHeader(name: string, value: string) | SetStatus(status: string)

  /** The status and headers after applying edits in order. */
  function ApplyEdits(status: string, hs: Headers, edits: seq<Edit>): (r: (string, Headers))
    decreases |edits|
  {
    if edits == [] then (status, hs)
    else
      var (st, h) := ApplyEdits(status, hs, edits[..|edits| - 1]);
      match edits[|edits| - 1]
      case SetHeader(n, v) => (st, WithHeader(h, n, v))
      case SetStatus(s) => (s, h)
  }

  /** The response object of one request. */
  class Response {
    var status: string
    var headers: Headers

    /** A fresh response: "200 OK" and no headers. */
    constructor ()
      ensures status == DefaultStatus && headers == []
    {
      status := DefaultStatus;
      headers := [];
    }

    method SetHeader(name: string, value: string)
      modifies this
      ensures headers == WithHeader(old(headers), name, value)
      ensures status == old(status)
    {
      headers := WithHeader(headers, name, value);
    }

    method SetStatus(s: string)
      modifies this
      ensures status == s && headers == old(headers)
    {
      status := s;
    }

    /** Applies one edit a middleware made. */
    method Apply(e: Edit)
      modifies this
      ensures (status, headers) == ApplyEdits(old(status), old(headers), [e])
    {
      match e
      case SetHeader(n, v) => SetHeader(n, v);
      case SetStatus(s) => SetStatus(s);
    }
  }
}
