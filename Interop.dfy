/** How the client and the chat service fit together: the header the client
    sends is the one the service reads, the message form the client builds
    decodes into the message it meant, and the service's system notices never
    reach an ordinary room's pane. */
module Interop {
  import opened Common
  import ChatApi
  import ChatRoom
  import ChatServer

  /** The service reads back exactly the token the client put in its header
      (`null` when the client had none), provided the token is header text. */
  lemma ServerReadsClientBearer(token: Option<string>, verify: string -> Option<ChatServer.Claims>)
    requires ChatServer.IsHeaderText(ChatApi.TokenText(token))
    ensures ChatServer.DecodeJwtFromHeader(Some(ChatApi.BearerHeader(token)), verify)
         == (match verify(ChatApi.TokenText(token))
             case None => Err(ChatServer.Reply(401, "Invalid or expired token"))
             case Some(claims) => Ok(claims))
  {
    var h := ChatApi.BearerHeader(token);
    assert ChatServer.StartsWith(h, ChatServer.BearerScheme);
    assert ChatServer.IsHeaderText(h) by {
      forall i | 0 <= i < |h|
        ensures h[i] == '\t' || (' ' <= h[i] && h[i] <= '~')
      {
        if i >= 7 {
          assert h[i] == h[7..][i - 7];
        }
      }
    }
  }

  /** `sendMessage`'s form decodes, on the service, into the room and text
      the client sent, the client's clock and the placeholder sender `0`. */
  lemma ServerReadsClientForm(room: string, message: string, nowMs: nat)
    requires nowMs < ChatServer.I64Limit
    ensures ChatServer.DecodeMessageForm(ChatApi.MessageForm(room, message, nowMs))
         == Some(ChatServer.Message(room, message, nowMs, None, "0"))
  {
    MessageFormFields(room, message, nowMs);
    ChatServer.DistinctNamesDeclaredOnce(ChatApi.MessageForm(room, message, nowMs));
    TimestampReadBack(nowMs);
  }

  /** The pane's send: the request it makes carries a form the service
      decodes into the selected room, the typed text, the client's clock and
      the placeholder sender. */
  method PaneSendReachesService(pane: ChatRoom.ChatRoomPane, nowMs: nat, outcome: ChatApi.HttpOutcome)
    returns (request: Option<ChatApi.MessageRequest>)
    requires nowMs < ChatServer.I64Limit
    modifies pane`messageText
    ensures old(pane.messageText) == "" ==> request == None
    ensures old(pane.messageText) != "" ==>
      && request.Some?
      && ChatServer.DecodeMessageForm(request.value.form)
         == Some(ChatServer.Message(pane.room, old(pane.messageText), nowMs, None, "0"))
  {
    request := pane.HandleSend(nowMs, outcome);
    if request.Some? {
      ServerReadsClientForm(pane.room, old(pane.messageText), nowMs);
    }
  }

  lemma MessageFormFields(room: string, message: string, nowMs: nat)
    ensures NoDuplicates(FieldNames(ChatApi.MessageForm(room, message, nowMs)))
    ensures FormValue(ChatApi.MessageForm(room, message, nowMs), "room") == Some(room)
    ensures FormValue(ChatApi.MessageForm(room, message, nowMs), "message") == Some(message)
    ensures FormValue(ChatApi.MessageForm(room, message, nowMs), "timestamp") == Some(Decimal(nowMs))
    ensures FormValue(ChatApi.MessageForm(room, message, nowMs), "username") == Some("0")
    ensures FormValue(ChatApi.MessageForm(room, message, nowMs), "messageType") == None
  {
    var form := ChatApi.MessageForm(room, message, nowMs);
    MessageFormNames(form);
    LaterFieldValues(form, Decimal(nowMs));
  }

  /** The four names are distinct. */
  lemma MessageFormNames(form: seq<FormField>)
    requires |form| == 4
    requires form[0].name == "room" && form[1].name == "message"
    requires form[2].name == "timestamp" && form[3].name == "username"
    ensures FieldNames(form) == ["room", "message", "timestamp", "username"]
    ensures NoDuplicates(FieldNames(form))
  {
    assert FieldNames(form) == ["room", "message", "timestamp", "username"];
  }

  /** The values behind the first two fields, read past them. */
  lemma LaterFieldValues(form: seq<FormField>, stamp: string)
    requires |form| == 4
    requires form[0].name == "room" && form[1].name == "message"
    requires form[2] == FormField("timestamp", stamp) && form[3] == FormField("username", "0")
    ensures FormValue(form, "timestamp") == Some(stamp)
    ensures FormValue(form, "username") == Some("0")
    ensures FormValue(form, "messageType") == None
  {
    assert FormValue(form[3..], "username") == Some("0");
    assert FormValue(form[2..], "username") == Some("0");
    assert FormValue(form[1..], "username") == Some("0");
    assert FormValue(form[2..], "timestamp") == Some(stamp);
    assert FormValue(form[3..], "messageType") == None;
  }

  /** The client's printed clock reads back as an `i64`. */
  lemma TimestampReadBack(nowMs: nat)
    requires nowMs < ChatServer.I64Limit
    ensures ChatServer.ParseI64(Decimal(nowMs)) == Some(nowMs)
  {
    DecimalReadBack(nowMs);
    DecimalLeadsWithDigit(nowMs);
  }

  lemma {:induction false} DecimalLeadsWithDigit(n: nat)
    ensures '0' <= Decimal(n)[0] <= '9'
    decreases n
  {
    if n >= 10 {
      DecimalLeadsWithDigit(n / 10);
    }
  }

  /** A service message as the pane receives it. */
  function AsEvent(m: ChatServer.Message): (e: ChatRoom.ChatEvent)
    ensures e.room == m.room && e.message == m.message && e.username == Some(m.username)
  {
    ChatRoom.ChatEvent(m.room, Some(m.username), m.message, m.timestamp)
  }

  /** A system notice never changes what a pane following another room
      shows, whether it is filtered on arrival or at rendering. */
  lemma SystemNoticeHidden(log: seq<ChatRoom.ChatEvent>, text: string, nowMs: int, room: string)
    requires room != ChatServer.SystemRoom
    ensures ChatRoom.RoomFilter(log + [AsEvent(ChatServer.SystemMessage(text, nowMs))], room)
         == ChatRoom.RoomFilter(log, room)
  {
    var e := AsEvent(ChatServer.SystemMessage(text, nowMs));
    ChatRoom.RoomFilterConcat(log, [e], room);
    assert ChatRoom.RoomFilter([e], room) == [];
    assert ChatRoom.RoomFilter(log, room) + [] == ChatRoom.RoomFilter(log, room);
  }

  /** A posted message shows, in the pane of the room it was posted to, under
      the name taken from the sender's token (or `System` for an empty one). */
  lemma PostedMessageShown(msg: ChatServer.Message, username: string, nowMs: int)
    ensures ChatRoom.RoomFilter([AsEvent(ChatServer.Stamped(msg, username, nowMs))], msg.room)
         == [AsEvent(ChatServer.Stamped(msg, username, nowMs))]
    ensures ChatRoom.DisplayName(AsEvent(ChatServer.Stamped(msg, username, nowMs)))
         == (if username == "" then "System" else username)
  {
    var e := AsEvent(ChatServer.Stamped(msg, username, nowMs));
    assert [e][1..] == [];
  }

  /** A pane that follows the system room does show the service's notices,
      under the sender name `System`. */
  method SystemNoticeInSystemRoom(pane: ChatRoom.ChatRoomPane, text: string, nowMs: int)
    requires pane.room == ChatServer.SystemRoom
    modifies pane`messages
    ensures pane.messages == old(pane.messages) + [AsEvent(ChatServer.SystemMessage(text, nowMs))]
    ensures ChatRoom.DisplayName(pane.messages[|pane.messages| - 1]) == ChatServer.SystemSender
  {
    pane.OnMessage(AsEvent(ChatServer.SystemMessage(text, nowMs)));
  }
}
