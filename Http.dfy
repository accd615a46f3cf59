/**
 * The HTTP exchange the client performs through `fetch`. A Network object
 * stands for the remote server: it records every request it is sent and
 * answers each with the next response of a script given in advance. When the
 * script is exhausted, `fetch` rejects (a network failure).
 */
module Http {
  import opened Wrappers

  datatype Response = Response(status: nat, statusText: string, text: string)
  {
    /** Response.ok: the status is in the range 200-299. */
    predicate Ok() {
      200 <= status <= 299
    }
  }

  datatype Request = Request(url: string, httpMethod: string, headers: seq<(string, string)>, body: string)

  /** The next scripted response, if any. */
  function Next(script: seq<Response>): Option<Response> {
    if script == [] then None else Some(script[0])
  }

  /** The script after n responses were taken from it. */
  function Drop(script: seq<Response>, n: nat): seq<Response> {
    if n <= |script| then script[n..] else []
  }

  class Network {
    /** Every request sent so far, in order. */
    var sent: seq<Request>
    /** Responses still to be given, in order. */
    var pending: seq<Response>

    constructor (script: seq<Response>)
      ensures sent == [] && pending == script
    {
      sent := [];
      pending := script;
    }

    /** One fetch: records the request and takes the next response; None when fetch rejects. */
    method Fetch(req: Request) returns (resp: Option<Response>)
      modifies this
      ensures sent == old(sent) + [req]
      ensures resp == Next(old(pending))
      ensures pending == Drop(old(pending), 1)
    {
      sent := sent + [req];
      if pending == [] {
        resp := None;
      } else {
        resp := Some(pending[0]);
        pending := pending[1..];
      }
    }
  }
}
