/**
 * The HTTP side of the client as the model sees it: a `requests.Session` holding
 * headers and cookies and a record of the requests sent through it, and the
 * replies to those requests, which are inputs of the model.
 */
module Http {
  import opened Base
  import opened Dicts
  import opened PyJson

  /** What one request came back with: an exception from the transport, or a reply. */
  datatype Exchange =
    | Raised
    | Answered(status: int, headers: Dict<string>, body: Option<Json>)

  /** `raise_for_status` raises for 4xx and 5xx replies. */
  predicate StatusOk(status: int) {
    !(400 <= status < 600)
  }

  /**
   * The JSON dict a caller gets from `r.raise_for_status(); j = r.json()` followed by
   * `j.get(...)`: None when any of those steps raises (transport error, error status,
   * a body that is not JSON, JSON that is not a dict).
   */
  function DictReply(e: Exchange): (r: Option<Json>)
    ensures r.Some? ==> r.value.JObj?
    ensures r.Some? <==> e.Answered? && StatusOk(e.status) && e.body.Some? && e.body.value.JObj?
  {
    if e.Answered? && StatusOk(e.status) && e.body.Some? && e.body.value.JObj? then e.body else None
  }

  datatype Request =
    | GetRequest(url: string, params: Dict<string>)
    | PostRequest(url: string, body: Json)
    | PutRequest(url: string, start: nat, end: nat)

  /** A `requests.Session`: its default headers, its cookie jar and what was sent through it. */
  class Session {
    var headers: Dict<string>
    var cookies: Dict<string>
    var sent: seq<Request>

    constructor ()
      ensures headers == [] && cookies == [] && sent == []
    {
      headers := [];
      cookies := [];
      sent := [];
    }

    /** Sends one request: it is recorded, headers and cookies stay. */
    method Send(req: Request)
      modifies this`sent
      ensures sent == old(sent) + [req]
      ensures headers == old(headers) && cookies == old(cookies)
    {
      sent := sent + [req];
    }
  }
}
