/** Messages as multipart texts (MessageConverter) and service calls as messages
    (RemoteServiceMessagesConverter). */
module Messages {
  import opened Wrappers
  import opened Text
  import opened Multipart
  import Decimal

  type Attributes = map<string, string>

  datatype Message = Message(mtype: string, id: string, attributes: Attributes)

  /** What reading the JSON of the meta part comes to. */
  datatype MetaJson =
    | SyntaxError
    | Incomplete          // an object without string members "id" and "type": the accessors throw
    | NotAnObject
    | Meta(id: string, mtype: string)

  /** The JSON library, as far as the meta part needs it. */
  datatype Json = Json(write: (string, string) -> string, read: string -> MetaJson)

  /** Reading undoes printing for this message; the printed object begins with a brace and contains no raw
      carriage return. */
  ghost predicate Faithful(json: Json, message: Message) {
    var text := json.write(message.id, message.mtype);
    json.read(text) == Meta(message.id, message.mtype) && |text| > 0 && text[0] == '{' && '\r' !in text
  }

  /** The last two are no exceptions: a meta part that is not an object leaves a null message, which is
      returned if there are no other parts and dereferenced if there are. */
  datatype Error = MetaMissing | MetaSyntax | MetaIncomplete | NullReturned | NullDereferenced

  datatype Result<+T> = Success(value: T) | Failure(error: Error)

  const META := "meta"

  // ---- Message to multipart and back ----

  /** The meta part and one part per attribute; an attribute named "meta" replaces the meta part. */
  function ToParts(message: Message, json: Json): Parts {
    map[META := Part(META, json.write(message.id, message.mtype))]
      + map k | k in message.attributes :: Part(k, message.attributes[k])
  }

  function Contents(parts: Parts): Attributes {
    map k | k in parts :: parts[k].content
  }

  /** What c_str() leaves of a string: it ends before the first NUL. */
  function UpToNul(s: string): string {
    if s == "" || s[0] == 0 as char then "" else [s[0]] + UpToNul(s[1..])
  }

  /** t is what precedes the first NUL of s, or all of s. */
  predicate IsUpToNul(t: string, s: string) {
    t <= s && 0 as char !in t && (t != s ==> s[|t|] == 0 as char)
  }

  lemma {:induction false} UpToNulMeans(s: string)
    ensures IsUpToNul(UpToNul(s), s)
  {
    if s == "" || s[0] == 0 as char {
    } else {
      UpToNulMeans(s[1..]);
      assert s == [s[0]] + s[1..];
    }
  }

  lemma {:induction false} UpToNulIff(s: string)
    ensures UpToNul(s) == s <==> 0 as char !in s
  {
    if s == "" {
    } else {
      UpToNulIff(s[1..]);
      assert s == [s[0]] + s[1..];
      if s[0] != 0 as char { assert UpToNul(s)[1..] == UpToNul(s[1..]); }
    }
  }

  function Truncated(message: Message): Message {
    Message(UpToNul(message.mtype), UpToNul(message.id), message.attributes)
  }

  function FromParts(parts: Parts, json: Json): Result<Message> {
    if META !in parts then Failure(MetaMissing)
    else
      match json.read(parts[META].content)
      case SyntaxError => Failure(MetaSyntax)
      case Incomplete => Failure(MetaIncomplete)
      case NotAnObject => Failure(if parts - {META} == map[] then NullReturned else NullDereferenced)
      case Meta(id, mtype) => Success(Message(UpToNul(mtype), UpToNul(id), Contents(parts - {META})))
  }

  /** One part for each attribute, and the printed meta part unless an attribute takes its place. */
  lemma ToPartsMeans(message: Message, json: Json)
    ensures ToParts(message, json).Keys == message.attributes.Keys + {"meta"}
    ensures forall k <- message.attributes :: ToParts(message, json)[k] == Part(k, message.attributes[k])
    ensures "meta" !in message.attributes ==>
              ToParts(message, json)["meta"] == Part("meta", json.write(message.id, message.mtype))
  {
  }

  method ToMultipartFormData(message: Message, keys: seq<string>, json: Json) returns (text: string)
    requires Enumerates(keys, ToParts(message, json))
    ensures text == Encode(ToParts(message, json), keys)
  {
    var parts: Parts := map[META := Part(META, json.write(message.id, message.mtype))];
    var names := message.attributes.Keys;
    assert parts + (map k | k in names :: Part(k, message.attributes[k])) == ToParts(message, json);
    hide ToParts, META;
    while names != {}
      invariant names <= message.attributes.Keys
      invariant parts + (map k | k in names :: Part(k, message.attributes[k])) == ToParts(message, json)
      decreases names
    {
      var name :| name in names;
      parts := parts[name := Part(name, message.attributes[name])];
      names := names - {name};
    }
    assert parts == ToParts(message, json);
    text := GenerateMultipartFormData(parts, keys);
  }

  method ExtractPartContent(parts: Parts, name: string) returns (content: Result<string>, rest: Parts)
    ensures name in parts ==> content == Success(parts[name].content) && rest == parts - {name}
    ensures name !in parts ==> content == Failure(MetaMissing) && rest == parts
  {
    if name in parts {
      return Success(parts[name].content), parts - {name};
    }
    return Failure(MetaMissing), parts;
  }

  /** What reading a text has to come to, branch by branch, in terms of the parts parsed from it. */
  ghost predicate Reads(text: string, json: Json, r: Result<Message>) {
    var parts := Decode(text, map[]);
    && (r == Failure(MetaMissing) <==> "meta" !in parts)
    && ("meta" in parts ==>
          var read := json.read(parts["meta"].content);
          && (r == Failure(MetaSyntax) <==> read.SyntaxError?)
          && (r == Failure(MetaIncomplete) <==> read.Incomplete?)
          && (r == Failure(NullReturned) <==> read.NotAnObject? && parts.Keys == {"meta"})
          && (r == Failure(NullDereferenced) <==> read.NotAnObject? && parts.Keys != {"meta"})
          && (r.Success? <==> read.Meta?)
          && (r.Success? ==>
                && IsUpToNul(r.value.id, read.id) && IsUpToNul(r.value.mtype, read.mtype)
                && r.value.attributes.Keys == parts.Keys - {"meta"}
                && forall k <- r.value.attributes :: r.value.attributes[k] == parts[k].content))
  }

  lemma NothingElse(parts: Parts, k: string)
    requires k in parts
    ensures parts - {k} == map[] <==> parts.Keys == {k}
  {
    assert forall x <- parts :: x != k ==> x in parts - {k};
  }

  lemma FromPartsReads(text: string, json: Json)
    ensures Reads(text, json, FromParts(Decode(text, map[]), json))
  {
    var parts := Decode(text, map[]);
    hide Decode;
    if META in parts {
      NothingElse(parts, META);
      var read := json.read(parts[META].content);
      if read.Meta? {
        UpToNulMeans(read.id);
        UpToNulMeans(read.mtype);
      }
      hide UpToNul;
    }
  }

  /** The text of parts that can be carried and are without a meta part is refused. */
  lemma MetalessIsRefused(parts: Parts, keys: seq<string>, json: Json)
    requires Enumerates(keys, parts) && Carriable(parts) && "meta" !in parts
    ensures FromParts(Decode(Encode(parts, keys), map[]), json) == Failure(MetaMissing)
  {
    RoundTripIff(parts, keys);
    FromPartsReads(Encode(parts, keys), json);
    hide FromParts, Decode, Encode, Carriable;
  }

  method FromMultipartFormData(text: string, json: Json) returns (r: Result<Message>)
    ensures r == FromParts(Decode(text, map[]), json)
    ensures Reads(text, json, r)
  {
    FromPartsReads(text, json);
    hide Reads;
    var multipart := ParseMultipartFormData(text);
    var meta;
    meta, multipart := ExtractPartContent(multipart, META);
    if meta.Failure? {
      return Failure(meta.error);
    }
    var parsed: Option<Message> := None;
    match json.read(meta.value) {
      case SyntaxError => return Failure(MetaSyntax);
      case Incomplete => return Failure(MetaIncomplete);
      case NotAnObject =>
      case Meta(i, t) => parsed := Some(Message(UpToNul(t), UpToNul(i), map[]));
    }
    if parsed.None? {
      return Failure(if multipart == map[] then NullReturned else NullDereferenced);
    }
    var attributes: Attributes := map[];
    var names := multipart.Keys;
    while names != {}
      invariant names <= multipart.Keys
      invariant attributes + (map k | k in names :: multipart[k].content) == Contents(multipart)
      decreases names
    {
      var name :| name in names;
      attributes := attributes[name := multipart[name].content];
      names := names - {name};
    }
    assert attributes == Contents(multipart);
    return Success(parsed.value.(attributes := attributes));
  }

  /** Attributes a message can carry through the codec. */
  ghost predicate Sendable(attributes: Attributes) {
    META !in attributes && forall k :: k in attributes ==> NameOk(k) && ContentOk(attributes[k])
  }

  /** What arrives when a message is written and read. */
  function Received(message: Message, keys: seq<string>, json: Json): Result<Message>
    requires forall k :: k in keys ==> k in ToParts(message, json)
  {
    FromParts(Decode(Encode(ToParts(message, json), keys), map[]), json)
  }

  lemma MetaIsOk(json: Json, message: Message)
    requires Faithful(json, message)
    ensures NameOk(META) && ContentOk(json.write(message.id, message.mtype))
  {
    var text := json.write(message.id, message.mtype);
    DelimiterShape();
    hide BOUNDARY, DASHED, DELIMITER;
    forall i: nat ensures !MatchesAt(META, BLANK, i) && !MatchesAt(META, DELIMITER, i) {
      if i + 4 <= |META| { assert META[i..i + 4][0] == 'm'; }
    }
    var t, d := "\r\n" + text, DELIMITER;
    forall i: nat ensures !MatchesAt(t, d, i) {
      if i + |d| <= |t| {
        assert t[i..i + |d|][0] == t[i] && t[i..i + |d|][2] == t[i + 2];
        assert i >= 2 ==> t[i] == text[i - 2];
      }
    }
  }

  lemma ClearOfMeta(message: Message, json: Json)
    requires Faithful(json, message) && Sendable(message.attributes)
    ensures Carriable(ToParts(message, json))
    ensures Contents(ToParts(message, json) - {META}) == message.attributes
  {
    MetaIsOk(json, message);
    hide NameOk, ContentOk;
  }

  lemma SendableArrives(message: Message, keys: seq<string>, json: Json)
    requires Faithful(json, message) && Enumerates(keys, ToParts(message, json)) && Sendable(message.attributes)
    ensures Received(message, keys, json) == Success(Truncated(message))
  {
    var parts := ToParts(message, json);
    ClearOfMeta(message, json);
    RoundTripIff(parts, keys);
    hide Encode, Decode, NameOk, ContentOk, Sendable, Carriable;
  }

  lemma PartsAreSendable(parts: Parts)
    requires Carriable(parts)
    ensures Sendable(Contents(parts - {META}))
  {
    hide NameOk, ContentOk;
    forall k | k in Contents(parts - {META}) ensures NameOk(k) && ContentOk(Contents(parts - {META})[k]) {
      assert PartOk(k, parts[k]);
    }
  }

  lemma ArrivedIsSendable(message: Message, keys: seq<string>, json: Json)
    requires Enumerates(keys, ToParts(message, json)) && Received(message, keys, json).Success?
    requires Received(message, keys, json).value.attributes == message.attributes
    ensures Sendable(message.attributes)
  {
    var text := Encode(ToParts(message, json), keys);
    DecodedIsCarriable(text, map[]);
    hide Encode, Decode, ToParts, Carriable, Contents, Sendable;
    PartsAreSendable(Decode(text, map[]));
  }

  /** The attributes of a message arrive unchanged exactly when they can be carried and none is named
      "meta"; type and id then arrive up to their first NUL. */
  lemma AttributesArriveIff(message: Message, keys: seq<string>, json: Json)
    requires Faithful(json, message) && Enumerates(keys, ToParts(message, json))
    ensures Sendable(message.attributes) <==>
      (Received(message, keys, json).Success? && Received(message, keys, json).value.attributes == message.attributes)
    ensures Sendable(message.attributes) ==> Received(message, keys, json) == Success(Truncated(message))
  {
    var r := Received(message, keys, json);
    if r.Success? && r.value.attributes == message.attributes { ArrivedIsSendable(message, keys, json); }
    hide Received, Sendable;
    if Sendable(message.attributes) { SendableArrives(message, keys, json); }
  }

  /** The whole message arrives exactly when, besides, type and id contain no NUL. */
  lemma MessageArrivesIff(message: Message, keys: seq<string>, json: Json)
    requires Faithful(json, message) && Enumerates(keys, ToParts(message, json))
    ensures Received(message, keys, json) == Success(message)
       <==> Sendable(message.attributes) && 0 as char !in message.mtype && 0 as char !in message.id
  {
    AttributesArriveIff(message, keys, json);
    UpToNulIff(message.mtype);
    UpToNulIff(message.id);
    hide Received, Sendable, UpToNul;
  }

  // ---- Service requests ----

  const TRANSACTION := "transaction-id"
  const SERVICE := "service"
  const STATUS := "status"
  const STATUS_MESSAGE := "status-message"

  datatype Request = Request(service: string, transaction: string, parameters: Attributes)

  function RequestAttributes(request: Request): Attributes {
    request.parameters[TRANSACTION := request.transaction][SERVICE := request.service]
  }

  /** `id` is the fresh id of the message. */
  method FromServiceRequest(request: Request, id: string) returns (message: Message)
    ensures message == Message("service-request", id, RequestAttributes(request))
    ensures message.attributes.Keys == request.parameters.Keys + {"transaction-id", "service"}
    ensures message.attributes["transaction-id"] == request.transaction
    ensures message.attributes["service"] == request.service
    ensures forall k <- request.parameters ::
      k != "transaction-id" && k != "service" ==> message.attributes[k] == request.parameters[k]
  {
    var attributes: Attributes := map[];
    var names := request.parameters.Keys;
    while names != {}
      invariant names <= request.parameters.Keys
      invariant attributes + (map k | k in names :: request.parameters[k]) == request.parameters
      decreases names
    {
      var name :| name in names;
      attributes := attributes[name := request.parameters[name]];
      names := names - {name};
    }
    attributes := attributes[TRANSACTION := request.transaction];
    attributes := attributes[SERVICE := request.service];
    return Message("service-request", id, attributes);
  }

  function RequestOf(message: Message): Option<Request> {
    var a := message.attributes;
    if TRANSACTION !in a || SERVICE !in a then None else Some(Request(a[SERVICE], a[TRANSACTION], a))
  }

  method ToServiceRequest(message: Message) returns (request: Option<Request>)
    ensures request == RequestOf(message)
    ensures request.Some? <==> "transaction-id" in message.attributes && "service" in message.attributes
    ensures request.Some? ==> request.value == Request(message.attributes["service"],
                                                       message.attributes["transaction-id"], message.attributes)
  {
    if TRANSACTION !in message.attributes {
      return None;
    }
    if SERVICE !in message.attributes {
      return None;
    }
    var parameters: Attributes := map[];
    var names := message.attributes.Keys;
    while names != {}
      invariant names <= message.attributes.Keys
      invariant parameters + (map k | k in names :: message.attributes[k]) == message.attributes
      decreases names
    {
      var name :| name in names;
      parameters := parameters[name := message.attributes[name]];
      names := names - {name};
    }
    assert parameters == message.attributes;
    return Some(Request(message.attributes[SERVICE], message.attributes[TRANSACTION], parameters));
  }

  /** What arrives when a request crosses the wire. */
  function RequestReceived(request: Request, id: string, keys: seq<string>, json: Json): Option<Request>
    requires forall k :: k in keys ==> k in ToParts(Message("service-request", id, RequestAttributes(request)), json)
  {
    match Received(Message("service-request", id, RequestAttributes(request)), keys, json)
    case Failure(_) => None
    case Success(message) => RequestOf(message)
  }

  /** A request crosses the wire with its service, its transaction and its parameters, plus the two
      reserved ones, exactly when all of these can be carried and no parameter is called "meta". */
  lemma RequestArrivesIff(request: Request, id: string, keys: seq<string>, json: Json)
    requires Faithful(json, Message("service-request", id, RequestAttributes(request)))
    requires Enumerates(keys, ToParts(Message("service-request", id, RequestAttributes(request)), json))
    ensures RequestReceived(request, id, keys, json)
              == Some(Request(request.service, request.transaction, RequestAttributes(request)))
            <==> Sendable(RequestAttributes(request))
  {
    var message := Message("service-request", id, RequestAttributes(request));
    AttributesArriveIff(message, keys, json);
    hide Sendable, RequestOf, RequestAttributes, Received, Truncated, UpToNul;
    var received := Received(message, keys, json);
    if received.Success? {
      RequestKeepsAttributes(received.value);
      if received.value.attributes == message.attributes { RequestOfAttributes(received.value, request); }
    }
  }

  lemma RequestOfAttributes(message: Message, request: Request)
    requires message.attributes == RequestAttributes(request)
    ensures RequestOf(message) == Some(Request(request.service, request.transaction, RequestAttributes(request)))
  {
  }

  lemma RequestKeepsAttributes(message: Message)
    ensures RequestOf(message).Some? ==> RequestOf(message).value.parameters == message.attributes
  {
  }

  /** Parameters without reserved names are all found again; nothing but the two reserved ones is added. */
  lemma ParametersSurvive(request: Request)
    requires TRANSACTION !in request.parameters && SERVICE !in request.parameters
    ensures RequestAttributes(request) - {TRANSACTION, SERVICE} == request.parameters
    ensures RequestAttributes(request).Keys == request.parameters.Keys + {TRANSACTION, SERVICE}
  {
  }

  // ---- Service responses ----

  datatype Response = Response(transaction: string, status: int, statusMessage: string, results: Attributes,
                               attempts: nat)

  function ResponseAttributes(response: Response): Attributes {
    response.results[TRANSACTION := response.transaction][STATUS := Decimal.ToString(response.status)]
      [STATUS_MESSAGE := response.statusMessage]
  }

  method FromServiceResponse(response: Response, id: string) returns (message: Message)
    ensures message == Message("service-response", id, ResponseAttributes(response))
    ensures message.attributes.Keys == response.results.Keys + {"transaction-id", "status", "status-message"}
    ensures message.attributes["transaction-id"] == response.transaction
    ensures message.attributes["status"] == Decimal.ToString(response.status)
    ensures message.attributes["status-message"] == response.statusMessage
    ensures forall k <- response.results ::
      k != "transaction-id" && k != "status" && k != "status-message" ==> message.attributes[k] == response.results[k]
  {
    var attributes: Attributes := map[];
    var names := response.results.Keys;
    while names != {}
      invariant names <= response.results.Keys
      invariant attributes + (map k | k in names :: response.results[k]) == response.results
      decreases names
    {
      var name :| name in names;
      attributes := attributes[name := response.results[name]];
      names := names - {name};
    }
    attributes := attributes[TRANSACTION := response.transaction];
    attributes := attributes[STATUS := Decimal.ToString(response.status)];
    attributes := attributes[STATUS_MESSAGE := response.statusMessage];
    return Message("service-response", id, attributes);
  }

  function ResponseOf(message: Message): Option<Response> {
    var a := message.attributes;
    if TRANSACTION !in a || STATUS !in a then None
    else
      match Decimal.Stoi(a[STATUS])
      case None => None
      case Some(status) =>
        Some(Response(a[TRANSACTION], status, if STATUS_MESSAGE in a then a[STATUS_MESSAGE] else "Ok", a, 1))
  }

  method ToServiceResponse(message: Message) returns (response: Option<Response>)
    ensures response == ResponseOf(message)
    ensures response.Some? <==> "transaction-id" in message.attributes && "status" in message.attributes
                                && Decimal.Stoi(message.attributes["status"]).Some?
    ensures response.Some? ==>
      && response.value.transaction == message.attributes["transaction-id"]
      && Some(response.value.status) == Decimal.Stoi(message.attributes["status"])
      && response.value.statusMessage
         == (if "status-message" in message.attributes then message.attributes["status-message"] else "Ok")
      && response.value.results == message.attributes && response.value.attempts == 1
  {
    if TRANSACTION !in message.attributes {
      return None;
    }
    if STATUS !in message.attributes {
      return None;
    }
    var status := Decimal.Stoi(message.attributes[STATUS]);
    if status.None? {
      return None;
    }
    var statusMessage := if STATUS_MESSAGE in message.attributes then message.attributes[STATUS_MESSAGE] else "Ok";
    var results: Attributes := map[];
    var names := message.attributes.Keys;
    while names != {}
      invariant names <= message.attributes.Keys
      invariant results + (map k | k in names :: message.attributes[k]) == message.attributes
      decreases names
    {
      var name :| name in names;
      results := results[name := message.attributes[name]];
      names := names - {name};
    }
    assert results == message.attributes;
    return Some(Response(message.attributes[TRANSACTION], status.value, statusMessage, results, 1));
  }

  function ResponseReceived(response: Response, id: string, keys: seq<string>, json: Json): Option<Response>
    requires forall k :: k in keys ==> k in ToParts(Message("service-response", id, ResponseAttributes(response)), json)
  {
    match Received(Message("service-response", id, ResponseAttributes(response)), keys, json)
    case Failure(_) => None
    case Success(message) => ResponseOf(message)
  }

  /** A response crosses the wire with transaction, status, status message and results, plus the three
      reserved ones, exactly when all of these can be carried and no result is called "meta"; it arrives
      as resolved in one attempt. */
  lemma ResponseArrivesIff(response: Response, id: string, keys: seq<string>, json: Json)
    requires Faithful(json, Message("service-response", id, ResponseAttributes(response)))
    requires Decimal.INT_MIN <= response.status <= Decimal.INT_MAX
    requires Enumerates(keys, ToParts(Message("service-response", id, ResponseAttributes(response)), json))
    ensures ResponseReceived(response, id, keys, json)
              == Some(Response(response.transaction, response.status, response.statusMessage,
                               ResponseAttributes(response), 1))
            <==> Sendable(ResponseAttributes(response))
  {
    var message := Message("service-response", id, ResponseAttributes(response));
    AttributesArriveIff(message, keys, json);
    hide Sendable, ResponseOf, ResponseAttributes, Received, Truncated, UpToNul;
    var received := Received(message, keys, json);
    if received.Success? {
      ResponseKeepsAttributes(received.value);
      if received.value.attributes == message.attributes { ResponseOfAttributes(received.value, response); }
    }
  }

  lemma ResponseOfAttributes(message: Message, response: Response)
    requires message.attributes == ResponseAttributes(response)
    requires Decimal.INT_MIN <= response.status <= Decimal.INT_MAX
    ensures ResponseOf(message) == Some(Response(response.transaction, response.status, response.statusMessage,
                                                 ResponseAttributes(response), 1))
  {
    Decimal.StoiOfToString(response.status);
    hide Decimal.Stoi, Decimal.ToString;
  }

  lemma ResponseKeepsAttributes(message: Message)
    ensures ResponseOf(message).Some? ==> ResponseOf(message).value.results == message.attributes
  {
    hide Decimal.Stoi;
  }

  lemma ResultsSurvive(response: Response)
    requires TRANSACTION !in response.results && STATUS !in response.results && STATUS_MESSAGE !in response.results
    ensures ResponseAttributes(response) - {TRANSACTION, STATUS, STATUS_MESSAGE} == response.results
    ensures ResponseAttributes(response).Keys == response.results.Keys + {TRANSACTION, STATUS, STATUS_MESSAGE}
  {
  }
}
