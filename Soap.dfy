/**
 * One Metadata API operation (`_invokeMetadataOperation`): the SOAP request
 * it sends and the classification of the response into a transport error, a
 * SOAP fault or success.
 */
module Soap {
  import opened Wrappers
  import opened DecimalText
  import opened Strings
  import opened NodeText
  import opened Http
  import Branding

  const EnvelopeNamespace: string := "http://schemas.xmlsoap.org/soap/envelope/"
  const MetadataNamespace: string := "http://soap.sforce.com/2006/04/metadata"

  // ---------------------------------------------------------------------------
  // Request
  // ---------------------------------------------------------------------------

  /** The envelope up to the session header's content. */
  const EnvelopeOpen: string :=
    "<Envelope xmlns=\"" + EnvelopeNamespace + "\"><Header><SessionHeader xmlns=\"" + MetadataNamespace + "\">"

  /** Between the session header's content and the call options' content. */
  const HeaderMiddle: string := "</SessionHeader><CallOptions xmlns=\"" + MetadataNamespace + "\">"

  const HeaderClose: string := "</CallOptions></Header>"

  const EnvelopeClose: string := "</Envelope>"

  function SessionIdElement(sessionId: string): string {
    "<sessionId>" + sessionId + "</sessionId>"
  }

  const ClientElement: string := "<client>" + Branding.ClientId + "</client>"

  function BodyElement(body: string): string {
    "<Body>" + body + "</Body>"
  }

  /**
   * The SOAP envelope around an operation body: a SessionHeader with the
   * session id, CallOptions with the client id, and the body itself, unescaped.
   */
  function Envelope(sessionId: string, body: string): string {
    EnvelopeOpen + SessionIdElement(sessionId) + HeaderMiddle + ClientElement + HeaderClose
    + BodyElement(body) + EnvelopeClose
  }

  /** Everything of the envelope before the operation body. */
  function EnvelopeHead(sessionId: string): string {
    EnvelopeOpen + SessionIdElement(sessionId) + HeaderMiddle + ClientElement + HeaderClose + "<Body>"
  }

  /** Everything of the envelope after the operation body. */
  const EnvelopeTail: string := "</Body>" + EnvelopeClose

  lemma EnvelopeSplit(sessionId: string, body: string)
    ensures Envelope(sessionId, body) == EnvelopeHead(sessionId) + body + EnvelopeTail
  {
  }

  /** The operation body of an envelope sent with this session, if env is one. */
  function EnvelopeBody(sessionId: string, env: string): Option<string> {
    var head := EnvelopeHead(sessionId);
    if |head| + |EnvelopeTail| <= |env| && head <= env && env[|env| - |EnvelopeTail|..] == EnvelopeTail
    then Some(env[|head|..|env| - |EnvelopeTail|])
    else None
  }

  function RequestHeaders(action: string): seq<(string, string)> {
    [("Content-Type", "text/xml"), ("SOAPAction", action)]
  }

  /** The single POST that invokes `action` with `body`. */
  function SoapRequest(url: string, sessionId: string, action: string, body: string): Request {
    Request(url, "POST", RequestHeaders(action), Envelope(sessionId, body))
  }

  /** The value of the first header called `name`, as `Headers.get` reads it. */
  function HeaderLookup(headers: seq<(string, string)>, name: string): Option<string> {
    if headers == [] then None
    else if headers[0].0 == name then Some(headers[0].1)
    else HeaderLookup(headers[1..], name)
  }

  function HeaderValue(req: Request, name: string): Option<string> {
    HeaderLookup(req.headers, name)
  }

  /** The SOAP action a request invokes, read from its headers. */
  function ActionOf(req: Request): Option<string> {
    HeaderValue(req, "SOAPAction")
  }

  /** The body can be read back out of the envelope unchanged. */
  lemma EnvelopeBodyRoundTrip(sessionId: string, body: string)
    ensures EnvelopeBody(sessionId, Envelope(sessionId, body)) == Some(body)
  {
    var head, env := EnvelopeHead(sessionId), Envelope(sessionId, body);
    EnvelopeSplit(sessionId, body);
    assert env == head + (body + EnvelopeTail);
    assert head <= env;
    assert env[|env| - |EnvelopeTail|..] == EnvelopeTail;
    assert env[|head|..|env| - |EnvelopeTail|] == body;
  }

  /** The envelope carries the session id, the client id and, verbatim, the body. */
  lemma EnvelopeCarries(sessionId: string, body: string)
    ensures Contains(Envelope(sessionId, body), "<sessionId>" + sessionId + "</sessionId>")
    ensures Contains(Envelope(sessionId, body), "<client>" + Branding.ClientId + "</client>")
    ensures Contains(Envelope(sessionId, body), "<Body>" + body + "</Body>")
  {
    var sid, wrapped := SessionIdElement(sessionId), BodyElement(body);
    var p1 := EnvelopeOpen + sid;
    var p2 := p1 + HeaderMiddle;
    var p3 := p2 + ClientElement;
    var p4 := p3 + HeaderClose;
    var p5 := p4 + wrapped;
    ContainsSuffix(EnvelopeOpen, sid);
    ContainsExtend(p1, HeaderMiddle, sid);
    ContainsExtend(p2, ClientElement, sid);
    ContainsExtend(p3, HeaderClose, sid);
    ContainsExtend(p4, wrapped, sid);
    ContainsExtend(p5, EnvelopeClose, sid);
    ContainsSuffix(p2, ClientElement);
    ContainsExtend(p3, HeaderClose, ClientElement);
    ContainsExtend(p4, wrapped, ClientElement);
    ContainsExtend(p5, EnvelopeClose, ClientElement);
    ContainsSuffix(p4, wrapped);
    ContainsExtend(p5, EnvelopeClose, wrapped);
  }

  /** A request is one POST to the endpoint with the text/xml content type and the action. */
  lemma SoapRequestShape(url: string, sessionId: string, action: string, body: string)
    ensures SoapRequest(url, sessionId, action, body).url == url
    ensures SoapRequest(url, sessionId, action, body).httpMethod == "POST"
    ensures |SoapRequest(url, sessionId, action, body).headers| == 2
    ensures HeaderValue(SoapRequest(url, sessionId, action, body), "Content-Type") == Some("text/xml")
    ensures ActionOf(SoapRequest(url, sessionId, action, body)) == Some(action)
    ensures EnvelopeBody(sessionId, SoapRequest(url, sessionId, action, body).body) == Some(body)
  {
    var headers := RequestHeaders(action);
    assert headers[0].0 != "SOAPAction" by {
      assert |headers[0].0| == 12 && |"SOAPAction"| == 10;
    }
    assert headers[1..] == [("SOAPAction", action)];
    assert HeaderLookup(headers[1..], "SOAPAction") == Some(action);
    EnvelopeBodyRoundTrip(sessionId, body);
  }

  // ---------------------------------------------------------------------------
  // Response
  // ---------------------------------------------------------------------------

  /** MetadataError, by the two ways the invoker raises it. */
  datatype MetadataError =
    | TransportError(status: nat, statusText: string)
    | SoapFault(statusCode: NodeValue, detail: NodeValue)
  {
    /** The error's `name`. */
    const name: string := "MetadataError"

    /** The error's `message`. */
    function Message(): string {
      match this
      case TransportError(status, statusText) =>
        "Unable to create Connected App: " + NatToString(status) + ": " + statusText
      case SoapFault(statusCode, detail) =>
        TemplateText(statusCode) + ": " + TemplateText(detail)
    }
  }

  /** What a failed invocation rejects with: a MetadataError, or fetch's own rejection. */
  datatype Error = Metadata(error: MetadataError) | FetchRejected

  /** The JavaScript success test on the extracted `success` value. */
  predicate IsSuccess(success: NodeValue) {
    success.Undefined? || IndexOf(success, "true") >= 0
  }

  /**
   * Success of a 2xx response by its `success` elements: none at all, a single
   * one whose text contains "true", or several of which one is exactly "true".
   */
  predicate SucceededBy(doc: Document) {
    var e := Elements(doc, "success");
    |e| == 0 || (|e| == 1 && Contains(e[0], "true")) || (|e| >= 2 && "true" in e)
  }

  lemma IsSuccessCriterion(doc: Document)
    ensures IsSuccess(NodeValues(doc, "success")) <==> SucceededBy(doc)
  {
    var v := NodeValues(doc, "success");
    NodeValuesCardinality(doc, "success");
    if !v.Undefined? {
      IndexOfFound(v, "true");
    }
  }

  /** The classification of a received response; `parse` stands for DOMParser. */
  function Classify(resp: Response, parse: string -> Document): (r: Result<string, MetadataError>)
    ensures !resp.Ok() ==> r == Failure(TransportError(resp.status, resp.statusText))
    ensures resp.Ok() && SucceededBy(parse(resp.text)) ==> r == Success(resp.text)
    ensures resp.Ok() && !SucceededBy(parse(resp.text)) ==>
      && r.Failure? && r.error.SoapFault?
      && r.error.statusCode.WellFormed() && r.error.detail.WellFormed()
      && Values(r.error.statusCode) == Elements(parse(resp.text), "statusCode")
      && Values(r.error.detail) == Elements(parse(resp.text), "message")
  {
    if !resp.Ok() then Failure(TransportError(resp.status, resp.statusText))
    else
      var doc := parse(resp.text);
      IsSuccessCriterion(doc);
      NodeValuesCardinality(doc, "statusCode");
      NodeValuesCardinality(doc, "message");
      if IsSuccess(NodeValues(doc, "success")) then Success(resp.text)
      else Failure(SoapFault(NodeValues(doc, "statusCode"), NodeValues(doc, "message")))
  }

  /** A non-ok response is rejected on its status alone: its body is never read. */
  lemma TransportErrorIgnoresBody(r1: Response, r2: Response, p1: string -> Document, p2: string -> Document)
    requires !r1.Ok() && r1.status == r2.status && r1.statusText == r2.statusText
    ensures Classify(r1, p1) == Classify(r2, p2)
  {
  }

  /** A fault with one status code and one message reads "<statusCode>: <message>". */
  lemma FaultMessage(doc: Document, code: string, message: string)
    requires Elements(doc, "statusCode") == [code] && Elements(doc, "message") == [message]
    ensures SoapFault(NodeValues(doc, "statusCode"), NodeValues(doc, "message")).Message()
         == code + ": " + message
  {
  }

  /** The outcome of one `_invokeMetadataOperation`, given what fetch produced. */
  function Invoked(resp: Option<Response>, parse: string -> Document): (r: Result<string, Error>)
    ensures resp.None? ==> r == Failure(FetchRejected)
    ensures resp.Some? && !resp.value.Ok() ==>
      r == Failure(Metadata(TransportError(resp.value.status, resp.value.statusText)))
    ensures resp.Some? && resp.value.Ok() && SucceededBy(parse(resp.value.text)) ==> r == Success(resp.value.text)
    ensures resp.Some? && resp.value.Ok() && !SucceededBy(parse(resp.value.text)) ==>
      && r.Failure? && r.error.Metadata? && r.error.error.SoapFault?
      && r.error.error.statusCode.WellFormed() && r.error.error.detail.WellFormed()
      && Values(r.error.error.statusCode) == Elements(parse(resp.value.text), "statusCode")
      && Values(r.error.error.detail) == Elements(parse(resp.value.text), "message")
  {
    match resp
    case None => Failure(FetchRejected)
    case Some(response) =>
      match Classify(response, parse)
      case Success(text) => Success(text)
      case Failure(e) => Failure(Metadata(e))
  }

  /** Example: status 500 "Difficult lemon". */
  lemma ExampleTransportError(parse: string -> Document, text: string)
    ensures Classify(Response(500, "Difficult lemon", text), parse).Failure?
    ensures Classify(Response(500, "Difficult lemon", text), parse).error.Message()
         == "Unable to create Connected App: " + "500" + ": " + "Difficult lemon"
  {
    assert NatToString(5) == [DigitChar(5)] == "5";
    assert NatToString(50) == NatToString(5) + [DigitChar(0)] == "50";
    assert NatToString(500) == NatToString(50) + [DigitChar(0)] == "500";
  }

  /** Example: a 200 response whose result says success false, status ERROR, message "error!". */
  lemma ExampleSoapFault(parse: string -> Document, text: string)
    requires parse(text) == map["success" := ["false"], "statusCode" := ["ERROR"], "message" := ["error!"]]
    ensures Classify(Response(200, "OK", text), parse)
         == Failure(SoapFault(Text("ERROR"), Text("error!")))
    ensures SoapFault(Text("ERROR"), Text("error!")).Message() == "ERROR: error!"
  {
    NotContainsChar("false", "true", 0);
  }

  /** Example: the default response <result><success>true</success></result> is returned unchanged. */
  lemma ExampleSuccess(parse: string -> Document, text: string, status: nat)
    requires 200 <= status <= 299
    requires parse(text) == map["result" := ["true"], "success" := ["true"]]
    ensures Classify(Response(status, "", text), parse) == Success(text)
  {
    ContainsInfix("", "true", "");
  }
}
