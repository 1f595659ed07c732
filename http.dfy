/** request (main.go:30-53): the form built from the body map, the
    Content-Type decision and the status-code check. The transport itself
    (http.NewRequest and http.DefaultClient.Do) is a Network whose replies
    are given. */
module Http {
  import opened Common
  import opened Streams

  const FormContentType: string := "application/x-www-form-urlencoded"

  /** What is handed to the transport: method, URL, the url.Values sent as
      the body, and the Content-Type header when one is set. */
  datatype HttpRequest = HttpRequest(
    httpMethod: string,
    url: string,
    form: map<string, seq<string>>,
    contentType: Option<string>)

  /** What the transport gives back: a failure, or a status and a body. */
  datatype Reply = TransportError | Response(status: int, body: seq<byte>)

  /** url.Values after v.Set(key, value) for every entry of body. */
  function FormOf(body: map<string, string>): map<string, seq<string>> {
    map k | k in body :: [body[k]]
  }

  /** The loop in request that fills the url.Values: every key of the body
      and no other gets exactly its one value. */
  method FormValues(body: map<string, string>) returns (v: map<string, seq<string>>)
    ensures v.Keys == body.Keys
    ensures forall k :: k in v ==> v[k] == [body[k]]
    ensures v == FormOf(body)
  {
    v := map[];
    var keys := body.Keys;
    while keys != {}
      invariant keys <= body.Keys
      invariant v.Keys == body.Keys - keys
      invariant forall k :: k in v ==> v[k] == [body[k]]
      decreases keys
    {
      var key :| key in keys;
      v := v[key := [body[key]]];
      keys := keys - {key};
    }
  }

  /** The request request builds. */
  function RequestFor(httpMethod: string, url: string, body: map<string, string>): HttpRequest {
    var form := FormOf(body);
    HttpRequest(httpMethod, url, form, if |form| != 0 then Some(FormContentType) else None)
  }

  /** Content-Type is set exactly when the body map has entries, and then
      to the form encoding. */
  lemma ContentTypeIffBody(httpMethod: string, url: string, body: map<string, string>)
    ensures RequestFor(httpMethod, url, body).contentType.Some? <==> |body| != 0
    ensures RequestFor(httpMethod, url, body).contentType.Some? ==>
              RequestFor(httpMethod, url, body).contentType.value == FormContentType
    ensures RequestFor(httpMethod, url, body).form.Keys == body.Keys
  {
    var form := FormOf(body);
    assert form.Keys == body.Keys;
    if |body| != 0 {
      var k :| k in body;
      assert k in form;
    } else {
      assert body == map[];
    }
  }

  /** The verdict on a reply: a transport failure or a status above 299 is
      an error; any other status hands on the body. */
  function Accept(reply: Reply): (r: Result<seq<byte>>)
    ensures reply.TransportError? ==> r == Err(TransportFailed)
  {
    match reply
    case TransportError => Err(TransportFailed)
    case Response(status, body) => if status > 299 then Err(BadStatus(status)) else Ok(body)
  }

  /** Exactly the statuses up to 299 succeed, those below 200 included,
      and a success delivers the body as it came. */
  lemma AcceptIffStatus(status: int, body: seq<byte>)
    ensures Accept(Response(status, body)).Ok? <==> status <= 299
    ensures Accept(Response(status, body)).Ok? ==> Accept(Response(status, body)).value == body
    ensures status > 299 ==> Accept(Response(status, body)) == Err(BadStatus(status))
  {
  }

  /** The transport: every request it is given is appended to sent, and the
      n-th one (counting from 0) is answered with reply(request, n). */
  class Network {
    var sent: seq<HttpRequest>
    const reply: (HttpRequest, nat) -> Reply

    constructor (reply: (HttpRequest, nat) -> Reply)
      ensures sent == [] && this.reply == reply
    {
      sent := [];
      this.reply := reply;
    }

    method Do(req: HttpRequest) returns (r: Reply)
      modifies this
      ensures sent == old(sent) + [req]
      ensures r == reply(req, |old(sent)|)
    {
      r := reply(req, |sent|);
      sent := sent + [req];
    }
  }

  /** A fetch result as a value: its error, or the bytes of the stream. */
  function FetchResult(res: Result<ReadCloser>): Result<seq<byte>>
    reads if res.Ok? then {res.value} else {}
  {
    match res
    case Err(e) => Err(e)
    case Ok(r) => Ok(r.rest)
  }

  /** request: one request goes out; the response body comes back as a new
      open stream unless the verdict on the reply is an error. */
  method Request(net: Network, httpMethod: string, url: string, body: map<string, string>)
    returns (res: Result<ReadCloser>)
    modifies net
    ensures net.sent == old(net.sent) + [RequestFor(httpMethod, url, body)]
    ensures FetchResult(res) == Accept(net.reply(RequestFor(httpMethod, url, body), |old(net.sent)|))
    ensures res.Ok? ==>
              fresh(res.value) && res.value.Valid() && res.value.Base() == res.value && !res.value.closed
  {
    var form := FormValues(body);
    var contentType: Option<string> := None;
    if |form| != 0 {
      contentType := Some(FormContentType);
    }
    var req := HttpRequest(httpMethod, url, form, contentType);
    var reply := net.Do(req);
    if reply.TransportError? {
      res := Err(TransportFailed);
    } else if reply.status > 299 {
      res := Err(BadStatus(reply.status));
    } else {
      var stream := new ReadCloser.Open(reply.body);
      res := Ok(stream);
    }
  }
}
