# Connected App setup over the Salesforce Metadata SOAP API — a Dafny model

This project models the decision logic of a small Salesforce Metadata API client. The client registers a "Connected App" (an OAuth client) under a fixed name. It lists the existing Connected Apps, deletes the managed one if it is listed, and creates it again. The consumer key and consumer secret are either supplied by the caller or generated at random. Every step is one SOAP operation over HTTP POST. A step fails with a transport error when the HTTP status is not 2xx. It fails with a SOAP fault when the response's `success` elements do not say "true". The first failure stops the sequence.

The model is split as the program is:

| module | file | models |
|---|---|---|
| `Branding` | Branding.dfy | the fixed constants (client id, app name, contact email, description, info URL) |
| `DecimalText` | DecimalText.dfy | `Number.prototype.toString` for non-negative integers, with its inverse |
| `Strings` | Strings.dfy | `String.prototype.indexOf`, `Array.prototype.indexOf`, `Array.prototype.join` |
| `Base64` | Base64.dfy | Base64 from section 4 of RFC 4648 with a decoder as its inverse, and `btoa` |
| `Credentials` | Credentials.dfy | `_generateConsumerKey`, `_generateConsumerSecret` (imperative: arrays filled in place, the rejection loop) |
| `NodeText` | NodeText.dfy | `_nodeValues` and the JavaScript semantics of its three-shaped result |
| `Http` | Http.dfy | the HTTP response and request, and a `Network` object that records requests and answers from a script |
| `Soap` | Soap.dfy | the request envelope and headers, `MetadataError`, and the response classification of `_invokeMetadataOperation` |
| `MetadataApi` | MetadataApi.dfy | the `Metadata` class: `createConnectedApp`, `deleteConnectedApp` and the invoker as methods over a `Network`, each proved against a pure specification (`CreateRun`, `DeleteRun`, `Invoked`) |

Abstractions:

- A parsed XML document is a map from a tag name to the text contents of the elements with that name, in document order (`NodeText.Document`). The DOM parser is a total function `parse: string -> Document`, given to the `Metadata` constructor. XML parsing itself is not modelled.
- An HTTP response is `(status, statusText, text)`. `Ok()` is `200 <= status <= 299`, which is how `fetch` defines `Response.ok`.
- The server is a `Network` object. It appends every request to `sent` and answers with the next response of `pending`. When `pending` is empty, `fetch` rejects (a network failure). The model propagates this unchanged as `Error.FetchRejected`.
- Randomness is input. The key reads 24 bytes from `keySource`. The secret reads 32-bit words from `secretDraws`, in order. `CanGenerate` requires enough input for every credential that must be generated: 24 bytes, and two words of at least 10^9.
- Promise chaining is modelled as sequential method calls that return a `Result`.
- The specifications `CreateRun` and `DeleteRun` record which metadata operations are invoked (`MetadataApi.Operation`: list, delete, or create with given credentials). `Requests` turns them into the SOAP POSTs that the methods append to the network's trace.

The source's quirks are kept exactly:

- A single matching element makes `_nodeValues` return a string. Then `indexOf` is a substring test. So a lone `<success>` whose text contains "true" anywhere counts as success. A lone `fullName` that contains "FuseApp" anywhere causes a delete.
- Several matching elements give an array. Then `indexOf` tests element equality.
- No `<success>` element at all counts as success.
- The consumer key is `btoa` of the comma-joined decimal text of the 24 bytes, not of the bytes themselves. That text is 47 to 95 characters long, so the key is 64 to 128 characters long.
- A fault message is built with template literals. A missing value prints as "undefined" and an array prints comma-joined (`NodeText.TemplateText`).

## Model

| member | source | states |
|---|---|---|
| `DecimalText.NatToStringShape` | js/metadata.js:73 | the decimal text of a number is non-empty and all digits, and starts with '0' only for zero |
| `DecimalText.NatToStringLength` | js/metadata.js:73 | a number with k digits (10^(k-1) <= n < 10^k) prints as exactly k characters |
| `DecimalText.ParseNatToString` | js/metadata.js:73 | reading the printed text back gives the number: the text loses nothing |
| `Strings.StringIndexOfFromFirst` | js/metadata.js:134 | string `indexOf` gives the first position of an occurrence at or after the start, or -1 exactly when there is none |
| `Strings.StringIndexOfFound` | js/metadata.js:134 | `s.indexOf(t) >= 0` holds exactly when t is a substring of s |
| `Strings.SeqIndexOfFirst` | js/metadata.js:198 | array `indexOf` gives the first index holding an equal element, or -1 exactly when the element is absent |
| `Base64.EncodeLength` | js/metadata.js:58 | Base64 output has 4 * ceil(n / 3) characters for n bytes |
| `Base64.EncodeAlphabet` | js/metadata.js:58 | Base64 output uses only the RFC 4648 alphabet and '=' padding, with no padding when n is a multiple of 3 |
| `Base64.DecodeEncode` | js/metadata.js:58 | decoding the encoding of any bytes gives back those bytes |
| `Base64.EncodeDecode` | js/metadata.js:58 | any text the canonical decoder accepts is the encoding of the bytes it decodes to |
| `Base64.DecodeExactlyEncodings` | js/metadata.js:58 | a text decodes to given bytes exactly when it is their encoding, so "decodes to the text" in the key's contract pins the key |
| `Base64.Btoa` | js/metadata.js:58 | `btoa` succeeds exactly on strings whose characters are all below U+0100, and its output decodes to their code points |
| `Credentials.FillRandomBytes` | js/metadata.js:55-56 | the 24-byte array is filled in place with the next 24 random bytes |
| `Credentials.ByteTextLength` | js/metadata.js:58 | each byte prints as one to three digits |
| `Credentials.ByteArrayTextShape` | js/metadata.js:58 | the text of n >= 1 bytes has 2n-1 to 4n-1 characters, all digits or commas |
| `Credentials.ByteArrayTextLatin1` | js/metadata.js:58 | that text is always accepted by `btoa` |
| `Credentials.PaddedLength` | js/metadata.js:58 | a 47- to 95-character text encodes to 64 to 128 Base64 characters |
| `Credentials.ConsumerKey` | js/metadata.js:54-59 | the key made of 24 bytes has 64 to 128 characters and decodes to the comma-joined decimal text of those bytes |
| `Credentials.GenerateConsumerKey` | js/metadata.js:54-59 | the method fills a fresh 24-byte array from the random input and returns exactly `ConsumerKey` of those bytes, 64 to 128 characters long |
| `Credentials.FirstAccepted` | js/metadata.js:69-71 | gives the index of the first draw at or after a start that is at least 10^9; every earlier draw is rejected |
| `Credentials.SecondAcceptedExists` | js/metadata.js:76 | with two acceptable draws in the input, the second `rnd` call also finds one |
| `Credentials.AcceptedText` | js/metadata.js:71-73 | an accepted 32-bit draw prints as exactly ten digits with no leading zero |
| `Credentials.ConsumerSecret` | js/metadata.js:66-77 | the secret is exactly 20 characters, all decimal digits |
| `Credentials.ConsumerSecretHalves` | js/metadata.js:76 | the secret is the two accepted draws in order, ten digits each, neither half with a leading zero: both halves read back as the draws |
| `Credentials.DrawHalf` | js/metadata.js:67-74 | the do-while loop refills a one-word array until the word is at least 10^9; it stops exactly at the first accepted draw and returns its ten-digit text |
| `Credentials.GenerateConsumerSecret` | js/metadata.js:66-77 | the method returns exactly `ConsumerSecret` of its input (20 digits) and the index after the second accepted draw |
| `NodeText.FromSequence` | js/metadata.js:89-97 | the cardinality split yields an array only for two or more texts |
| `NodeText.ValuesFromSequence` | js/metadata.js:86-98 | flattening the extracted value gives back every matching text in document order |
| `NodeText.FromSequenceValues` | js/metadata.js:86-98 | every shape `_nodeValues` can return is the split of its own texts, so the split is one-to-one |
| `NodeText.NodeValuesCardinality` | js/metadata.js:86-98 | zero matching elements give undefined, one gives its text, two or more give the list of texts in document order |
| `NodeText.IndexOfFound` | js/metadata.js:134 | `v.indexOf(x) >= 0` is a substring test when v is one text and an equality test when v is a list |
| `NodeText.ExampleNodeValues` | js/__tests__/metadata.test.js:155-160 | in `<a><b>bbb</b><c>ccc</c><c>ddd</c></a>`, tag b gives "bbb" and c gives ["ccc", "ddd"]; tag z, which the tests try on a smaller document, gives undefined on this same document too |
| `Soap.EnvelopeSplit` | js/metadata.js:115-126 | the envelope is its fixed head, then the body, then its fixed tail |
| `Soap.EnvelopeBodyRoundTrip` | js/metadata.js:125 | the operation body can be read back out of the envelope unchanged |
| `Soap.EnvelopeCarries` | js/metadata.js:116-126 | the envelope holds `<sessionId>` with the session id, `<client>` with the client id, and the body unescaped between `<Body>` and `</Body>` |
| `Soap.SoapRequestShape` | js/metadata.js:108-126 | each invocation is a POST to the metadata URL with exactly two headers, `Content-Type: text/xml` and `SOAPAction: action`, and its envelope carries the body |
| `Soap.IsSuccessCriterion` | js/metadata.js:133-134 | the success test holds exactly when there is no `success` element, the only one contains "true", or one of several equals "true" |
| `Soap.Classify` | js/metadata.js:127-148 | a non-ok response fails with its status and status text; an ok response that passes the success test resolves with its raw text; any other ok response fails with a SOAP fault whose statusCode and detail list exactly the `statusCode` and `message` texts |
| `Soap.TransportErrorIgnoresBody` | js/metadata.js:128-130 | a non-ok response is classified on status and status text alone, whatever its body and however it would parse |
| `Soap.FaultMessage` | js/metadata.js:137-142 | a fault with one status code and one message has the message "statusCode: message" |
| `Soap.Invoked` | js/metadata.js:112-149 | a rejected fetch propagates unchanged; a non-ok response rejects with a transport error of its status and status text; an ok response that passes the success test resolves with its raw text; any other ok response rejects with a SOAP fault whose statusCode and detail list exactly the `statusCode` and `message` texts |
| `Soap.ExampleTransportError` | js/__tests__/metadata.test.js:128-139 | status 500 "Difficult lemon" fails with "Unable to create Connected App: 500: Difficult lemon" |
| `Soap.ExampleSoapFault` | js/__tests__/metadata.test.js:170-196 | success false, statusCode ERROR and message "error!" fail with statusCode "ERROR", detail "error!" and the message "ERROR: error!" |
| `Soap.ExampleSuccess` | js/__tests__/metadata.test.js:141-153 | a 2xx response `<result><success>true</success></result>` resolves with its text unchanged |
| `Http.Network.Fetch` | js/metadata.js:112-126 | a fetch records its request after all earlier ones and takes exactly the next scripted response, or rejects when none is left |
| `MetadataApi.CreateBodyCarries` | js/metadata.js:175-176 | the create request's descriptor carries the consumer key and consumer secret it was given |
| `MetadataApi.RequestsDistinct` | js/metadata.js:165 | each operation's request carries its own SOAP action in the `SOAPAction` header; two actions are equal exactly when the operations are of the same kind, and operations of different kinds are never sent as the same request |
| `MetadataApi.RequestsAppend` | js/metadata.js:199 | invoking one sequence of operations and then another sends the first one's requests and then the second one's |
| `MetadataApi.UsedCredentials` | js/metadata.js:160-161 | a truthy supplied key or secret is used as given; a missing or empty one is generated: a 64- to 128-character key, a 20-digit secret |
| `MetadataApi.ShouldDeleteCriterion` | js/metadata.js:197-198 | the delete condition holds exactly when the only fullName contains the app name or one of several fullNames equals it; an undefined or empty value never triggers it |
| `MetadataApi.CreateListsFirst` | js/metadata.js:190-196 | `createConnectedApp` always invokes `listMetadata` first and invokes at most three operations |
| `MetadataApi.CreateDeletesIffListed` | js/metadata.js:197-202 | `deleteMetadata` is invoked exactly when the list succeeded and listed the app; it is then second, and a third operation is the create |
| `MetadataApi.CreateSequenceShapes` | js/metadata.js:190-203 | the operations are list; list, delete; list, create; or list, delete, create with the credentials in use |
| `MetadataApi.CreateStopsAtFailure` | js/metadata.js:190-203 | every step but the last succeeded; the sequence rejects exactly when its last step failed, with that step's error |
| `MetadataApi.CreateResolvesWithUsed` | js/metadata.js:182-187 | on success the create operation was invoked last and succeeded, and the result is the credentials it carried, not anything the server returned |
| `MetadataApi.CreateFailsOnListError` | js/__tests__/metadata.test.js:128-139 | a non-ok list response stops `createConnectedApp` after the single list operation, with the transport error |
| `MetadataApi.DeleteOnce` | js/metadata.js:211-219 | `deleteConnectedApp` invokes one delete and resolves exactly when that operation succeeds |
| `MetadataApi.ExampleCreateWithoutDelete` | js/__tests__/metadata.test.js:90-126 | with a list response that names no app, list then create are invoked, and the supplied credentials are the result |
| `MetadataApi.ExampleCreateWithDelete` | js/metadata.js:197-199 | with a list response naming "FuseApp", list, delete and create are invoked in that order |
| `MetadataApi.Metadata.constructor` | js/metadata.js:44-47 | the client keeps the metadata URL and the session id it was given |
| `MetadataApi.Metadata.InvokeMetadataOperation` | js/metadata.js:107-150 | one request, the SOAP POST for the action and body, is appended to the network's trace, one response is consumed, and the result is `Invoked` of that response |
| `MetadataApi.Metadata.DeleteConnectedApp` | js/metadata.js:211-219 | the trace grows by the requests of `DeleteRun`'s operations, one response is consumed, and the result is `DeleteRun`'s |
| `MetadataApi.Metadata.CreateApp` | js/metadata.js:164-188 | sends the create request with the app's credentials and resolves with those credentials exactly when the operation succeeds |
| `MetadataApi.Metadata.ChooseCredentials` | js/metadata.js:160-161 | the credentials chosen before any request are exactly `UsedCredentials` |
| `MetadataApi.Metadata.ListDeleteCreate` | js/metadata.js:190-203 | the trace grows by the requests of `CreateRun`'s operations, one response is consumed per operation, and the result is `CreateRun`'s |
| `MetadataApi.Metadata.CreateConnectedApp` | js/metadata.js:159-204 | the whole operation appends exactly the requests of `CreateRun`'s operations to the trace, consumes one response per request, and settles with `CreateRun`'s result for the credentials in use |

## Left out

- `fetch`, `Headers` and `response.text()`: network I/O. The network is the scripted `Network` object, and the response text is a field of the response.
- `DOMParser` and `getElementsByTagName`: XML parsing is not modelled. The parser is the `parse` function, and a document is tag name to ordered texts. So namespaces, nesting, and the `textContent` of elements with children are whatever `parse` says.
- `crypto.getRandomValues`: ambient randomness. The draws are input sequences. `CanGenerate` requires enough draws for the credentials that must be generated.
- `trim` from util.js: util.js is not part of this model. The envelope and operation bodies are modelled before trimming and without the whitespace between tags, which carries no meaning.
- Promise and async plumbing: the chain `.then` is modelled as sequential calls returning a `Result`.
- Thrown values other than `MetadataError` and a rejected `fetch`: a parser error inside `parse` cannot happen in the model, because `parse` is total.
- The DOM parser is a module-level constant in the source. The model passes it to the `Metadata` constructor instead.
- `connectedAppExists`: it is called by js/index.js:48 but is not defined in js/metadata.js, so the model does not define it.
- js/index.js `Setup`: it only delegates to `Metadata`.
