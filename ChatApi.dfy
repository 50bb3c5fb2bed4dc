/** The chat-service client calls (client/src/api/chat.js): the requests they
    issue and how each maps the HTTP outcome to a value or a thrown error.
    The transport is not modelled: what `fetch` resolved or rejected with is a
    parameter. */
module ChatApi {
  import opened Common
  import RoomsJson

  const ChatServiceUrl: string := "http://34.159.3.169"

  /** What `fetch` gave: a response, or the error it rejected with. */
  datatype HttpOutcome =
    | Response(status: int, statusText: string, body: string)
    | NetworkFailure(message: string)

  /** `response.ok`. */
  predicate IsOk(status: int)
  {
    200 <= status <= 299
  }

  predicate Succeeded(outcome: HttpOutcome)
  {
    outcome.Response? && IsOk(outcome.status)
  }

  /** `${token}` in a template literal: a missing token prints as `null`. */
  function TokenText(token: Option<string>): string
  {
    if token.None? then "null" else token.value
  }

  const BearerPrefix: string := "Bearer "

  /** The `Authorization` header every call sends. */
  function BearerHeader(token: Option<string>): (h: string)
    ensures |h| == 7 + |TokenText(token)|
    ensures h[..7] == BearerPrefix && h[7..] == TokenText(token)
  {
    BearerPrefix + TokenText(token)
  }

  // ---------------------------------------------------------------------------
  // The form of POST /message

  /** The fields of `sendMessage`'s form, in the order they are appended. */
  function MessageForm(room: string, message: string, nowMs: nat): (form: seq<FormField>)
    ensures FieldNames(form) == ["room", "message", "timestamp", "username"]
  {
    [ FormField("room", room)
    , FormField("message", message)
    , FormField("timestamp", Decimal(nowMs))
    , FormField("username", "0") ]
  }

  /** `sendMessage`'s form, built by four successive appends. */
  method BuildMessageForm(room: string, message: string, nowMs: nat) returns (form: seq<FormField>)
    ensures form == MessageForm(room, message, nowMs)
    ensures FieldNames(form) == ["room", "message", "timestamp", "username"]
    ensures FormValue(form, "room") == Some(room)
    ensures FormValue(form, "message") == Some(message)
    ensures FormValue(form, "username") == Some("0")
    ensures FormValue(form, "timestamp").Some? && ParseDecimal(FormValue(form, "timestamp").value) == Some(nowMs)
  {
    form := [];
    form := form + [FormField("room", room)];
    form := form + [FormField("message", message)];
    form := form + [FormField("timestamp", Decimal(nowMs))];
    form := form + [FormField("username", "0")];
    DecimalReadBack(nowMs);
    assert FormValue(form[3..], "username") == Some("0");
    assert FormValue(form[2..], "username") == Some("0");
    assert FormValue(form[2..], "timestamp") == Some(Decimal(nowMs));
  }

  // ---------------------------------------------------------------------------
  // Requests

  datatype MessageRequest = MessageRequest(url: string, authorization: string, form: seq<FormField>)

  datatype HeartbeatRequest = HeartbeatRequest(url: string, authorization: string, room: string)

  datatype EventSourceRequest = EventSourceRequest(url: string, authorization: string, withCredentials: bool)

  datatype CreateRoomRequest = CreateRoomRequest(url: string, authorization: string, room: string)

  datatype ListRoomsRequest = ListRoomsRequest(url: string, authorization: string)

  function HeartbeatRequestFor(token: Option<string>, room: string): (r: HeartbeatRequest)
    ensures r.url == ChatServiceUrl + "/heartbeat" && r.room == room
    ensures r.authorization == BearerHeader(token)
  {
    HeartbeatRequest(ChatServiceUrl + "/heartbeat", BearerHeader(token), room)
  }

  /** `createChatEventSource(token)`: one stream for every room; the room the
      caller passes is not part of the request. */
  function EventSourceFor(token: Option<string>): (r: EventSourceRequest)
    ensures r.url == ChatServiceUrl + "/events" && r.withCredentials
    ensures r.authorization == BearerHeader(token)
  {
    EventSourceRequest(ChatServiceUrl + "/events", BearerHeader(token), true)
  }

  function CreateRoomRequestFor(token: Option<string>, room: string): (r: CreateRoomRequest)
    ensures r.url == ChatServiceUrl + "/rooms" && r.room == room
    ensures r.authorization == BearerHeader(token)
  {
    CreateRoomRequest(ChatServiceUrl + "/rooms", BearerHeader(token), room)
  }

  function ListRoomsRequestFor(token: Option<string>): (r: ListRoomsRequest)
    ensures r.url == ChatServiceUrl + "/rooms"
    ensures r.authorization == BearerHeader(token)
  {
    ListRoomsRequest(ChatServiceUrl + "/rooms", BearerHeader(token))
  }

  /** `sendMessage`: the request, then the error it throws, if any. */
  method SendMessage(token: Option<string>, room: string, message: string, nowMs: nat, outcome: HttpOutcome)
    returns (request: MessageRequest, result: Result<(), string>)
    ensures request.url == ChatServiceUrl + "/message" && request.authorization == BearerHeader(token)
    ensures request.form == MessageForm(room, message, nowMs)
    ensures FieldNames(request.form) == ["room", "message", "timestamp", "username"]
    ensures FormValue(request.form, "room") == Some(room)
    ensures FormValue(request.form, "message") == Some(message)
    ensures FormValue(request.form, "username") == Some("0")
    ensures FormValue(request.form, "timestamp").Some?
    ensures ParseDecimal(FormValue(request.form, "timestamp").value) == Some(nowMs)
    ensures result == SendMessageResult(outcome)
  {
    var form := BuildMessageForm(room, message, nowMs);
    request := MessageRequest(ChatServiceUrl + "/message", BearerHeader(token), form);
    result := SendMessageResult(outcome);
  }

  // ---------------------------------------------------------------------------
  // Outcomes

  function SendMessageResult(outcome: HttpOutcome): (r: Result<(), string>)
    ensures r.Ok? <==> Succeeded(outcome)
    ensures outcome.Response? && !IsOk(outcome.status) ==> r == Err("Failed to send message")
    ensures outcome.NetworkFailure? ==> r == Err(outcome.message)
  {
    match outcome
    case NetworkFailure(m) => Err(m)
    case Response(status, _, _) => if IsOk(status) then Ok(()) else Err("Failed to send message")
  }

  /** `sendHeartbeat` ignores the status: only a failed `fetch` rejects. */
  function HeartbeatResult(outcome: HttpOutcome): (r: Result<(), string>)
    ensures r.Err? <==> outcome.NetworkFailure?
  {
    match outcome
    case NetworkFailure(m) => Err(m)
    case Response(_, _, _) => Ok(())
  }

  const ConflictMessage: string := "409 Conflict"

  /** `createRoom`: the response text, or the error it throws. */
  function CreateRoomResult(outcome: HttpOutcome): (r: Result<string, string>)
    ensures r.Ok? <==> Succeeded(outcome)
    ensures r.Ok? ==> r.value == outcome.body
    ensures outcome.Response? && outcome.status == 409 ==> r == Err(ConflictMessage)
    ensures outcome.Response? && !IsOk(outcome.status) && outcome.status != 409 ==>
              r == Err("Failed to create room: " + outcome.statusText)
    ensures outcome.NetworkFailure? ==> r == Err(outcome.message)
  {
    match outcome
    case NetworkFailure(m) => Err(m)
    case Response(status, statusText, body) =>
      if IsOk(status) then Ok(body)
      else if status == 409 then Err(ConflictMessage)
      else Err("Failed to create room: " + statusText)
  }

  datatype ListRoomsOutcome =
    | Rooms(names: seq<string>)
    | Failed(message: string)
    /** `response.json()` rejects, or gives something that is not a list of names. */
    | NotARoomList

  /** `listRooms`: the parsed body, or the error it throws. */
  function ListRoomsResult(outcome: HttpOutcome): (r: ListRoomsOutcome)
    ensures outcome.Response? && !IsOk(outcome.status) ==> r == Failed("Failed to fetch rooms")
    ensures outcome.NetworkFailure? ==> r == Failed(outcome.message)
    ensures r.Rooms? <==> Succeeded(outcome) && RoomsJson.ParseRooms(outcome.body).Some?
  {
    match outcome
    case NetworkFailure(m) => Failed(m)
    case Response(status, _, body) =>
      if !IsOk(status) then Failed("Failed to fetch rooms")
      else match RoomsJson.ParseRooms(body)
        case Some(names) => Rooms(names)
        case None => NotARoomList
  }

  /** A successful `listRooms` reads back exactly the list the body encodes. */
  lemma ListRoomsReadsEncodedList(statusText: string, names: seq<string>)
    ensures ListRoomsResult(Response(200, statusText, RoomsJson.Stringify(names))) == Rooms(names)
  {
    RoomsJson.RoundTrip(names);
  }
}
