/**
 * The Connected App manager (`Metadata`): creates the app by listing the
 * existing Connected Apps, deleting the managed one if it is listed, and
 * creating it afresh; deletes it on request. Each step is one SOAP operation;
 * a failed step rejects the whole sequence with that step's error.
 */
module MetadataApi {
  import opened Wrappers
  import opened Strings
  import opened NodeText
  import opened Http
  import opened Soap
  import opened Credentials
  import Base64
  import Branding

  const CallbackUrl: string := "https://login.salesforce.com/services/oauth2/success"

  // ---------------------------------------------------------------------------
  // Operation bodies
  // ---------------------------------------------------------------------------

  const ListBody: string :=
    "<listMetadata xmlns=\"" + MetadataNamespace + "\">"
    + "<queries><type>ConnectedApp</type></queries>"
    + "<asOfVersion>39.0</asOfVersion>"
    + "</listMetadata>"

  const DeleteBody: string :=
    "<deleteMetadata xmlns=\"" + MetadataNamespace + "\">"
    + "<type>ConnectedApp</type>"
    + "<fullNames>" + Branding.ConnectedAppName + "</fullNames>"
    + "</deleteMetadata>"

  /** The app descriptor up to the OAuth credentials. */
  const CreateOpen: string :=
    "<createMetadata xmlns=\"" + MetadataNamespace + "\">"
    + "<metadata xmlns:xsi=\"http://www.w3.org/2001/XMLSchema-instance\" xsi:type=\"ConnectedApp\">"
    + "<fullName>" + Branding.ConnectedAppName + "</fullName>"
    + "<contactEmail>" + Branding.ContactEmail + "</contactEmail>"
    + "<description>" + Branding.AppDescription + "</description>"
    + "<infoUrl>" + Branding.InfoUrl + "</infoUrl>"
    + "<label>" + Branding.ConnectedAppName + "</label>"
    + "<oauthConfig>"
    + "<callbackUrl>" + CallbackUrl + "</callbackUrl>"

  /** The OAuth scopes and the closing tags after the credentials. */
  const CreateClose: string :=
    "<scopes>Api</scopes><scopes>RefreshToken</scopes><scopes>OfflineAccess</scopes>"
    + "</oauthConfig></metadata></createMetadata>"

  function ConsumerKeyElement(key: string): string {
    "<consumerKey>" + key + "</consumerKey>"
  }

  function ConsumerSecretElement(secret: string): string {
    "<consumerSecret>" + secret + "</consumerSecret>"
  }

  function CreateBody(key: string, secret: string): string {
    CreateOpen + ConsumerKeyElement(key) + ConsumerSecretElement(secret) + CreateClose
  }

  /** The created app's descriptor carries exactly the credentials it was given. */
  lemma CreateBodyCarries(key: string, secret: string)
    ensures Contains(CreateBody(key, secret), "<consumerKey>" + key + "</consumerKey>")
    ensures Contains(CreateBody(key, secret), "<consumerSecret>" + secret + "</consumerSecret>")
  {
    var k, s := ConsumerKeyElement(key), ConsumerSecretElement(secret);
    ContainsSuffix(CreateOpen, k);
    ContainsExtend(CreateOpen + k, s, k);
    ContainsExtend(CreateOpen + k + s, CreateClose, k);
    ContainsSuffix(CreateOpen + k, s);
    ContainsExtend(CreateOpen + k + s, CreateClose, s);
  }

  // ---------------------------------------------------------------------------
  // Operations of the manager
  // ---------------------------------------------------------------------------

  /** The three metadata operations the manager invokes. */
  datatype Operation = ListMetadata | DeleteMetadata | CreateMetadata(app: ConnectedApp)
  {
    /** The SOAP action that names the operation. */
    function Action(): string {
      match this
      case ListMetadata => "listMetadata"
      case DeleteMetadata => "deleteMetadata"
      case CreateMetadata(_) => "createMetadata"
    }

    /** The operation's body, placed in the envelope's Body element. */
    function Body(): string {
      match this
      case ListMetadata => ListBody
      case DeleteMetadata => DeleteBody
      case CreateMetadata(app) => CreateBody(app.consumerKey, app.consumerSecret)
    }
  }

  /** The POST that invokes an operation. */
  function OperationRequest(url: string, sessionId: string, op: Operation): Request {
    SoapRequest(url, sessionId, op.Action(), op.Body())
  }

  /** f applied to every element of s, in order. */
  function MapSeq<A, B>(f: A -> B, s: seq<A>): seq<B> {
    seq(|s|, i requires 0 <= i < |s| => f(s[i]))
  }

  lemma MapSeqAppend<A, B>(f: A -> B, s: seq<A>, t: seq<A>)
    ensures MapSeq(f, s + t) == MapSeq(f, s) + MapSeq(f, t)
  {
    forall i | 0 <= i < |s| + |t| ensures MapSeq(f, s + t)[i] == (MapSeq(f, s) + MapSeq(f, t))[i] {
      if i < |s| {
        assert (s + t)[i] == s[i];
      } else {
        assert (s + t)[i] == t[i - |s|];
      }
    }
  }

  /** The POST of each operation, for one client. */
  function Requester(url: string, sessionId: string): Operation -> Request {
    op => OperationRequest(url, sessionId, op)
  }

  /** The POSTs that invoke a sequence of operations, in order. */
  function Requests(url: string, sessionId: string, ops: seq<Operation>): seq<Request> {
    MapSeq(Requester(url, sessionId), ops)
  }

  lemma RequestsSingle(url: string, sessionId: string, op: Operation)
    ensures Requests(url, sessionId, [op]) == [OperationRequest(url, sessionId, op)]
  {
  }

  /** Invoking two sequences one after the other sends their requests one after the other. */
  lemma RequestsAppend(url: string, sessionId: string, ops: seq<Operation>, more: seq<Operation>)
    ensures Requests(url, sessionId, ops + more) == Requests(url, sessionId, ops) + Requests(url, sessionId, more)
  {
    MapSeqAppend(Requester(url, sessionId), ops, more);
  }

  lemma TraceExtend(url: string, sessionId: string, before: seq<Request>, ops: seq<Operation>, more: seq<Operation>)
    ensures before + Requests(url, sessionId, ops) + Requests(url, sessionId, more)
         == before + Requests(url, sessionId, ops + more)
  {
    RequestsAppend(url, sessionId, ops, more);
  }

  /**
   * Each request carries its operation's SOAP action, so operations of
   * different kinds are never sent as the same request.
   */
  lemma RequestsDistinct(url: string, sessionId: string, a: Operation, b: Operation)
    ensures ActionOf(OperationRequest(url, sessionId, a)) == Some(a.Action())
    ensures a.Action() == b.Action() <==> a.CreateMetadata? == b.CreateMetadata? && a.ListMetadata? == b.ListMetadata?
    ensures a.Action() != b.Action() ==> OperationRequest(url, sessionId, a) != OperationRequest(url, sessionId, b)
  {
    SoapRequestShape(url, sessionId, a.Action(), a.Body());
    SoapRequestShape(url, sessionId, b.Action(), b.Body());
  }

  // ---------------------------------------------------------------------------
  // Credentials and the existence test
  // ---------------------------------------------------------------------------

  datatype ConnectedApp = ConnectedApp(consumerKey: string, consumerSecret: string)

  /** The optional caller-supplied credentials of `createConnectedApp`. */
  datatype Options = Options(consumerKey: Option<string>, consumerSecret: Option<string>)

  /** A supplied string is used only when it is truthy: present and not empty. */
  predicate Given(o: Option<string>) {
    o.Some? && o.value != ""
  }

  /** The random input suffices for whichever credentials have to be generated. */
  predicate CanGenerate(options: Options, keySource: seq<Base64.byte>, secretDraws: seq<uint32>) {
    && (Given(options.consumerKey) || |keySource| >= KeyBytes)
    && (Given(options.consumerSecret) || HasTwoAccepted(secretDraws))
  }

  /** The credentials `createConnectedApp` uses: the supplied ones, else generated ones. */
  function UsedCredentials(options: Options, keySource: seq<Base64.byte>, secretDraws: seq<uint32>): (app: ConnectedApp)
    requires CanGenerate(options, keySource, secretDraws)
    ensures Given(options.consumerKey) ==> app.consumerKey == options.consumerKey.value
    ensures !Given(options.consumerKey) ==> 64 <= |app.consumerKey| <= 128
    ensures Given(options.consumerSecret) ==> app.consumerSecret == options.consumerSecret.value
    ensures !Given(options.consumerSecret) ==>
      |app.consumerSecret| == 20 && DecimalText.AllDigits(app.consumerSecret)
  {
    ConnectedApp(
      if Given(options.consumerKey) then options.consumerKey.value else ConsumerKey(keySource[..KeyBytes]),
      if Given(options.consumerSecret) then options.consumerSecret.value else ConsumerSecret(secretDraws))
  }

  /** `connectedApps && connectedApps.indexOf(CONNECTED_APP_NAME) >= 0`. */
  predicate ShouldDelete(connectedApps: NodeValue) {
    Truthy(connectedApps) && IndexOf(connectedApps, Branding.ConnectedAppName) >= 0
  }

  /**
   * The app counts as listed when the only fullName contains its name, or
   * one of several fullNames equals it.
   */
  predicate AppListed(doc: Document) {
    var names := Elements(doc, "fullName");
    (|names| == 1 && Contains(names[0], Branding.ConnectedAppName))
    || (|names| >= 2 && Branding.ConnectedAppName in names)
  }

  lemma ShouldDeleteCriterion(doc: Document)
    ensures ShouldDelete(NodeValues(doc, "fullName")) <==> AppListed(doc)
  {
    var v := NodeValues(doc, "fullName");
    NodeValuesCardinality(doc, "fullName");
    if !v.Undefined? {
      IndexOfFound(v, Branding.ConnectedAppName);
    }
    if v.Text? && v.text == "" {
      NotContainsChar("", Branding.ConnectedAppName, 0);
    }
  }

  // ---------------------------------------------------------------------------
  // The sequences, as specifications
  // ---------------------------------------------------------------------------

  /** The operations a sequence invokes, in order, and what it settles with. */
  datatype Run<T> = Run(invoked: seq<Operation>, result: Result<T, Error>)

  /** The response the server gives to the k-th request of a sequence, if any. */
  function Answer(script: seq<Response>, k: nat): Option<Response> {
    if k < |script| then Some(script[k]) else None
  }

  /** The outcome of the k-th step of a sequence. */
  function Step(script: seq<Response>, k: nat, parse: string -> Document): Result<string, Error> {
    Invoked(Answer(script, k), parse)
  }

  /** `createConnectedApp`: list, delete the app if listed, create it; stop at the first failure. */
  function CreateRun(parse: string -> Document, app: ConnectedApp, script: seq<Response>): Run<ConnectedApp> {
    match Step(script, 0, parse)
    case Failure(e) => Run([ListMetadata], Failure(e))
    case Success(text) =>
      if ShouldDelete(NodeValues(parse(text), "fullName")) then
        match Step(script, 1, parse)
        case Failure(e) => Run([ListMetadata, DeleteMetadata], Failure(e))
        case Success(_) =>
          Run([ListMetadata, DeleteMetadata, CreateMetadata(app)],
              match Step(script, 2, parse) case Failure(e) => Failure(e) case Success(_) => Success(app))
      else
        Run([ListMetadata, CreateMetadata(app)],
            match Step(script, 1, parse) case Failure(e) => Failure(e) case Success(_) => Success(app))
  }

  /** `deleteConnectedApp`: one delete, whose success resolves with nothing. */
  function DeleteRun(parse: string -> Document, script: seq<Response>): Run<()> {
    Run([DeleteMetadata], match Step(script, 0, parse) case Failure(e) => Failure(e) case Success(_) => Success(()))
  }

  // ---------------------------------------------------------------------------
  // What the sequences guarantee
  // ---------------------------------------------------------------------------

  /** The list operation always goes first, and at most three operations are invoked. */
  lemma CreateListsFirst(parse: string -> Document, app: ConnectedApp, script: seq<Response>)
    ensures var run := CreateRun(parse, app, script);
      1 <= |run.invoked| <= 3 && run.invoked[0] == ListMetadata
  {
  }

  /**
   * The delete operation is invoked exactly when the list succeeded and listed
   * the app, and then it comes second, before any create.
   */
  lemma CreateDeletesIffListed(parse: string -> Document, app: ConnectedApp, script: seq<Response>)
    ensures var run := CreateRun(parse, app, script);
      DeleteMetadata in run.invoked <==>
        Step(script, 0, parse).Success? && AppListed(parse(Step(script, 0, parse).value))
    ensures var run := CreateRun(parse, app, script);
      DeleteMetadata in run.invoked ==>
        run.invoked[1] == DeleteMetadata && (|run.invoked| == 3 ==> run.invoked[2] == CreateMetadata(app))
  {
    var first := Step(script, 0, parse);
    if first.Success? {
      ShouldDeleteCriterion(parse(first.value));
    }
  }

  /** The sequence is one of list; list, delete; list, create; list, delete, create. */
  lemma CreateSequenceShapes(parse: string -> Document, app: ConnectedApp, script: seq<Response>)
    ensures var run := CreateRun(parse, app, script);
      var l, d, c := ListMetadata, DeleteMetadata, CreateMetadata(app);
      run.invoked in {[l], [l, d], [l, c], [l, d, c]}
  {
  }

  /**
   * Every step but the last succeeded; the sequence rejects exactly when the
   * last step failed, with that step's error; nothing follows a failed step.
   */
  lemma CreateStopsAtFailure(parse: string -> Document, app: ConnectedApp, script: seq<Response>)
    ensures var run := CreateRun(parse, app, script);
      && (forall k :: 0 <= k < |run.invoked| - 1 ==> Step(script, k, parse).Success?)
      && (run.result.Failure? <==> Step(script, |run.invoked| - 1, parse).Failure?)
      && (run.result.Failure? ==> run.result.error == Step(script, |run.invoked| - 1, parse).error)
  {
    var run := CreateRun(parse, app, script);
    var first, second, third := Step(script, 0, parse), Step(script, 1, parse), Step(script, 2, parse);
    if first.Failure? {
      assert run == Run([ListMetadata], Failure(first.error));
    } else if ShouldDelete(NodeValues(parse(first.value), "fullName")) {
      if second.Failure? {
        assert run == Run([ListMetadata, DeleteMetadata], Failure(second.error));
      } else {
        assert run.invoked == [ListMetadata, DeleteMetadata, CreateMetadata(app)];
        assert run.result.Failure? <==> third.Failure?;
        assert run.result.Failure? ==> run.result.error == third.error;
        forall k | 0 <= k < 2 ensures Step(script, k, parse).Success? {
          assert k == 0 || k == 1;
        }
      }
    } else {
      assert run.invoked == [ListMetadata, CreateMetadata(app)];
      assert run.result.Failure? <==> second.Failure?;
      assert run.result.Failure? ==> run.result.error == second.error;
    }
  }

  /**
   * Success means the create operation was invoked last and succeeded; the
   * sequence then resolves with the credentials that operation carried,
   * whatever the server's responses say.
   */
  lemma CreateResolvesWithUsed(parse: string -> Document, app: ConnectedApp, script: seq<Response>)
    ensures var run := CreateRun(parse, app, script);
      run.result.Success? ==>
        && run.result.value == app
        && run.invoked[|run.invoked| - 1] == CreateMetadata(app)
        && Step(script, |run.invoked| - 1, parse).Success?
  {
  }

  /** A failing list response from the server: only the list operation is invoked. */
  lemma CreateFailsOnListError(parse: string -> Document, app: ConnectedApp, script: seq<Response>)
    requires script != [] && !script[0].Ok()
    ensures CreateRun(parse, app, script)
         == Run([ListMetadata], Failure(Metadata(TransportError(script[0].status, script[0].statusText))))
  {
  }

  /** Deleting invokes one delete and succeeds exactly when that operation does. */
  lemma DeleteOnce(parse: string -> Document, script: seq<Response>)
    ensures DeleteRun(parse, script).invoked == [DeleteMetadata]
    ensures DeleteRun(parse, script).result.Success? <==> Step(script, 0, parse).Success?
  {
  }

  /**
   * Example: the list response is <result><success>true</success></result>,
   * with no fullName, so the app is created straight away with the supplied credentials.
   */
  lemma ExampleCreateWithoutDelete(parse: string -> Document, text: string)
    requires parse(text) == map["result" := ["true"], "success" := ["true"]]
    ensures var app := ConnectedApp("_consumerKey_", "_consumerSecret_");
      CreateRun(parse, app, [Response(201, "", text), Response(201, "", text)])
      == Run([ListMetadata, CreateMetadata(app)], Success(app))
  {
    ContainsInfix("", "true", "");
  }

  /** Example: the list response names the app, so it is deleted before being created. */
  lemma ExampleCreateWithDelete(parse: string -> Document, listed: string, ok: string)
    requires parse(listed) == map["fullName" := [Branding.ConnectedAppName]]
    requires parse(ok) == map[]
    ensures var app := ConnectedApp("_consumerKey_", "_consumerSecret_");
      CreateRun(parse, app, [Response(200, "", listed), Response(200, "", ok), Response(200, "", ok)])
      == Run([ListMetadata, DeleteMetadata, CreateMetadata(app)], Success(app))
  {
    ContainsInfix("", Branding.ConnectedAppName, "");
  }

  // ---------------------------------------------------------------------------
  // The client object
  // ---------------------------------------------------------------------------

  class Metadata {
    const metadataUrl: string
    const sessionId: string
    /** The DOM parser, as the document it makes of a text. */
    const parse: string -> Document

    constructor (metadataUrl: string, sessionId: string, parse: string -> Document)
      ensures this.metadataUrl == metadataUrl && this.sessionId == sessionId && this.parse == parse
    {
      this.metadataUrl := metadataUrl;
      this.sessionId := sessionId;
      this.parse := parse;
    }

    /** `_invokeMetadataOperation`: one POST, then the classification of its response. */
    method InvokeMetadataOperation(net: Network, action: string, body: string) returns (r: Result<string, Error>)
      modifies net
      ensures net.sent == old(net.sent) + [SoapRequest(metadataUrl, sessionId, action, body)]
      ensures net.pending == Drop(old(net.pending), 1)
      ensures r == Invoked(Next(old(net.pending)), parse)
    {
      var resp := net.Fetch(SoapRequest(metadataUrl, sessionId, action, body));
      match resp
      case None =>
        r := Failure(FetchRejected);
      case Some(response) =>
        var classified := Classify(response, parse);
        match classified
        case Failure(e) =>
          r := Failure(Metadata(e));
        case Success(text) =>
          r := Success(text);
    }

    /** `deleteConnectedApp`. */
    method DeleteConnectedApp(net: Network) returns (r: Result<(), Error>)
      modifies net
      ensures net.sent == old(net.sent) + Requests(metadataUrl, sessionId, DeleteRun(parse, old(net.pending)).invoked)
      ensures net.pending == Drop(old(net.pending), 1)
      ensures r == DeleteRun(parse, old(net.pending)).result
    {
      var deleted := InvokeMetadataOperation(net, DeleteMetadata.Action(), DeleteMetadata.Body());
      RequestsSingle(metadataUrl, sessionId, DeleteMetadata);
      if deleted.Failure? {
        r := Failure(deleted.error);
      } else {
        r := Success(());
      }
    }

    /** The inner `createApp`: the create operation, resolving with the credentials it sent. */
    method CreateApp(net: Network, app: ConnectedApp) returns (r: Result<ConnectedApp, Error>)
      modifies net
      ensures net.sent == old(net.sent) + Requests(metadataUrl, sessionId, [CreateMetadata(app)])
      ensures net.pending == Drop(old(net.pending), 1)
      ensures r == match Invoked(Next(old(net.pending)), parse)
                   case Failure(e) => Failure(e) case Success(_) => Success(app)
    {
      var created := InvokeMetadataOperation(net, CreateMetadata(app).Action(), CreateMetadata(app).Body());
      RequestsSingle(metadataUrl, sessionId, CreateMetadata(app));
      if created.Failure? {
        r := Failure(created.error);
      } else {
        r := Success(app);
      }
    }

    /** The credentials `createConnectedApp` settles on before its first request. */
    method ChooseCredentials(options: Options, keySource: seq<Base64.byte>, secretDraws: seq<uint32>)
      returns (app: ConnectedApp)
      requires CanGenerate(options, keySource, secretDraws)
      ensures app == UsedCredentials(options, keySource, secretDraws)
    {
      var consumerKey, consumerSecret;
      if Given(options.consumerKey) {
        consumerKey := options.consumerKey.value;
      } else {
        consumerKey := GenerateConsumerKey(keySource);
      }
      if Given(options.consumerSecret) {
        consumerSecret := options.consumerSecret.value;
      } else {
        var unused;
        consumerSecret, unused := GenerateConsumerSecret(secretDraws);
      }
      app := ConnectedApp(consumerKey, consumerSecret);
    }

    /** The list, delete-if-listed, create chain of `createConnectedApp`. */
    method ListDeleteCreate(net: Network, app: ConnectedApp) returns (r: Result<ConnectedApp, Error>)
      modifies net
      ensures net.sent == old(net.sent) + Requests(metadataUrl, sessionId, CreateRun(parse, app, old(net.pending)).invoked)
      ensures net.pending == Drop(old(net.pending), |CreateRun(parse, app, old(net.pending)).invoked|)
      ensures r == CreateRun(parse, app, old(net.pending)).result
    {
      ghost var script, before := net.pending, net.sent;
      var listed := InvokeMetadataOperation(net, ListMetadata.Action(), ListMetadata.Body());
      RequestsSingle(metadataUrl, sessionId, ListMetadata);
      assert listed == Step(script, 0, parse);
      if listed.Failure? {
        r := Failure(listed.error);
        return;
      }
      var connectedApps := NodeValues(parse(listed.value), "fullName");
      if ShouldDelete(connectedApps) {
        var deleted := DeleteConnectedApp(net);
        assert Next(Drop(script, 1)) == Answer(script, 1);
        TraceExtend(metadataUrl, sessionId, before, [ListMetadata], [DeleteMetadata]);
        assert [ListMetadata] + [DeleteMetadata] == [ListMetadata, DeleteMetadata];
        if deleted.Failure? {
          r := Failure(deleted.error);
          return;
        }
        r := CreateApp(net, app);
        assert Next(Drop(script, 2)) == Answer(script, 2);
        assert Drop(Drop(script, 2), 1) == Drop(script, 3);
        TraceExtend(metadataUrl, sessionId, before, [ListMetadata, DeleteMetadata], [CreateMetadata(app)]);
        assert [ListMetadata, DeleteMetadata] + [CreateMetadata(app)] == [ListMetadata, DeleteMetadata, CreateMetadata(app)];
      } else {
        r := CreateApp(net, app);
        assert Next(Drop(script, 1)) == Answer(script, 1);
        assert Drop(Drop(script, 1), 1) == Drop(script, 2);
        TraceExtend(metadataUrl, sessionId, before, [ListMetadata], [CreateMetadata(app)]);
        assert [ListMetadata] + [CreateMetadata(app)] == [ListMetadata, CreateMetadata(app)];
      }
    }

    /**
     * `createConnectedApp`: decides the credentials first (generating the
     * missing ones from the random input), then lists, deletes if listed, and creates.
     */
    method CreateConnectedApp(net: Network, options: Options, keySource: seq<Base64.byte>, secretDraws: seq<uint32>)
      returns (r: Result<ConnectedApp, Error>)
      requires CanGenerate(options, keySource, secretDraws)
      modifies net
      ensures var run := CreateRun(parse, UsedCredentials(options, keySource, secretDraws), old(net.pending));
        && net.sent == old(net.sent) + Requests(metadataUrl, sessionId, run.invoked)
        && net.pending == Drop(old(net.pending), |run.invoked|)
        && r == run.result
    {
      var app := ChooseCredentials(options, keySource, secretDraws);
      r := ListDeleteCreate(net, app);
    }
  }
}
