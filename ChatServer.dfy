/** The chat service's bookkeeping (chat-service/src/main.rs): bearer-header
    validation, the room set, the map of active users, the inactivity rule
    and the broadcast channel, seen as the sequence of messages sent on it.

    Time is a parameter, in milliseconds since the Unix epoch (`SystemTime`);
    message timestamps are whole seconds (`chrono::Utc::now().timestamp()`).
    Checking a token's signature and expiry is a parameter too: `verify`
    gives the claims of a token it accepts. */
module ChatServer {
  import opened Common
  import RoomsJson

  const InactiveThresholdMs: int := 30_000
  const MaxMessageLength: nat := 500
  const SystemRoom: string := "system"
  const SystemSender: string := "System"

  datatype MessageType = UserJoined | UserLeft | Chat | System

  datatype Message = Message(room: string, message: string, timestamp: int, messageType: Option<MessageType>, username: string)

  datatype UserInfo = UserInfo(lastSeen: int, room: string)

  datatype Claims = Claims(userId: int, fullName: string, username: string, exp: nat)

  /** A status code and the text sent with it. */
  datatype Reply = Reply(status: int, body: string)

  /** `chrono::Utc::now().timestamp()` at `nowMs`: whole seconds, rounded down. */
  function UnixSeconds(nowMs: int): (s: int)
    ensures s * 1000 <= nowMs < s * 1000 + 1000
  {
    nowMs / 1000
  }

  // ---------------------------------------------------------------------------
  // The form `post_message` reads

  const I64Limit: int := 0x8000_0000_0000_0000

  /** `str::parse::<i64>`: an optional sign, then decimal digits, in range. */
  function ParseI64(s: string): (r: Option<int>)
    ensures r.Some? ==> -I64Limit <= r.value < I64Limit
  {
    if s != [] && (s[0] == '-' || s[0] == '+') then
      match ParseDecimal(s[1..])
      case None => None
      case Some(n) =>
        var negated: int := 0 - n as int;
        if s[0] == '-' then (if n <= I64Limit then Some(negated) else None)
        else (if n < I64Limit then Some(n) else None)
    else
      match ParseDecimal(s)
      case None => None
      case Some(n) => if n < I64Limit then Some(n) else None
  }

  /** A `messageType` value, in the camel case the service uses. */
  function MessageTypeNamed(s: string): Option<MessageType>
  {
    if s == "userJoined" then Some(UserJoined)
    else if s == "userLeft" then Some(UserLeft)
    else if s == "chat" then Some(Chat)
    else if s == "system" then Some(System)
    else None
  }

  /** The fields `Message` declares, under their form names. */
  const MessageFields: set<string> := {"room", "message", "timestamp", "messageType", "username"}

  /** No declared field is given twice; other names may repeat. */
  predicate DeclaredFieldsOnce(form: seq<FormField>)
  {
    forall i, j :: 0 <= i < j < |form| && form[i].name in MessageFields ==> form[i].name != form[j].name
  }

  /** `Form<Message>`: the form read as a message, or `None` where the form
      is refused (a declared field repeated, a required field missing, a
      timestamp that is no `i64`, an unknown message type).  Fields of other
      names are ignored, repeated or not. */
  function DecodeMessageForm(form: seq<FormField>): (r: Option<Message>)
    ensures r.Some? ==> DeclaredFieldsOnce(form)
    ensures r.Some? ==> FormValue(form, "room") == Some(r.value.room)
                        && FormValue(form, "message") == Some(r.value.message)
                        && FormValue(form, "username") == Some(r.value.username)
                        && FormValue(form, "timestamp").Some?
                        && ParseI64(FormValue(form, "timestamp").value) == Some(r.value.timestamp)
  {
    if !DeclaredFieldsOnce(form) then None
    else MessageFrom(FormValue(form, "room"), FormValue(form, "message"), FormValue(form, "timestamp"),
                     FormValue(form, "messageType"), FormValue(form, "username"))
  }

  /** The message built from the values found for each declared field. */
  function MessageFrom(room: Option<string>, message: Option<string>, stamp: Option<string>,
                       kind: Option<string>, username: Option<string>): (r: Option<Message>)
    ensures r.Some? ==> room == Some(r.value.room) && message == Some(r.value.message)
                        && username == Some(r.value.username)
                        && stamp.Some? && ParseI64(stamp.value) == Some(r.value.timestamp)
  {
    match (room, message, stamp, username)
    case (Some(room), Some(message), Some(stamp), Some(username)) =>
      (match (ParseI64(stamp), kind)
       case (None, _) => None
       case (Some(t), None) => Some(Message(room, message, t, None, username))
       case (Some(t), Some(name)) =>
         (match MessageTypeNamed(name)
          case None => None
          case Some(kind) => Some(Message(room, message, t, Some(kind), username))))
    case _ => None
  }

  /** Whether a field is read depends only on its name, and the first field
      of that name wins. */
  lemma {:induction false} FormValueSkipsOthers(form: seq<FormField>, extra: seq<FormField>, name: string)
    requires name !in FieldNames(extra)
    ensures FormValue(form + extra, name) == FormValue(form, name)
  {
    if form == [] {
      assert form + extra == extra;
    } else {
      assert (form + extra)[0] == form[0];
      assert (form + extra)[1..] == form[1..] + extra;
      FormValueSkipsOthers(form[1..], extra, name);
    }
  }

  /** Fields whose names `Message` does not declare change nothing: the form
      decodes, or is refused, just as without them. */
  lemma UndeclaredFieldsIgnored(form: seq<FormField>, extra: seq<FormField>)
    requires forall f :: f in extra ==> f.name !in MessageFields
    ensures DecodeMessageForm(form + extra) == DecodeMessageForm(form)
  {
    UndeclaredNamesAbsent(extra, "room");
    UndeclaredNamesAbsent(extra, "message");
    UndeclaredNamesAbsent(extra, "timestamp");
    UndeclaredNamesAbsent(extra, "messageType");
    UndeclaredNamesAbsent(extra, "username");
    FormValueSkipsOthers(form, extra, "room");
    FormValueSkipsOthers(form, extra, "message");
    FormValueSkipsOthers(form, extra, "timestamp");
    FormValueSkipsOthers(form, extra, "messageType");
    FormValueSkipsOthers(form, extra, "username");
    DeclaredFieldsOnceExtended(form, extra);
  }

  lemma UndeclaredNamesAbsent(extra: seq<FormField>, name: string)
    requires forall f :: f in extra ==> f.name !in MessageFields
    requires name in MessageFields
    ensures name !in FieldNames(extra)
  {
  }

  lemma DeclaredFieldsOnceExtended(form: seq<FormField>, extra: seq<FormField>)
    requires forall f :: f in extra ==> f.name !in MessageFields
    ensures DeclaredFieldsOnce(form + extra) <==> DeclaredFieldsOnce(form)
  {
    var whole := form + extra;
    if DeclaredFieldsOnce(form) {
      forall i, j | 0 <= i < j < |whole| && whole[i].name in MessageFields
        ensures whole[i].name != whole[j].name
      {
        if j >= |form| {
          assert whole[j] in extra;
        } else {
          assert whole[i] == form[i] && whole[j] == form[j];
        }
      }
    } else {
      var i, j :| 0 <= i < j < |form| && form[i].name in MessageFields && form[i].name == form[j].name;
      assert whole[i] == form[i] && whole[j] == form[j];
    }
  }

  /** Distinct names in particular give each declared field once. */
  lemma DistinctNamesDeclaredOnce(form: seq<FormField>)
    requires NoDuplicates(FieldNames(form))
    ensures DeclaredFieldsOnce(form)
  {
    forall i, j | 0 <= i < j < |form| ensures form[i].name != form[j].name {
      assert FieldNames(form)[i] != FieldNames(form)[j];
    }
  }

  /** A declared field given twice makes the form refused. */
  lemma RepeatedDeclaredFieldRefused(form: seq<FormField>, i: nat, j: nat)
    requires i < j < |form| && form[i].name == form[j].name && form[i].name in MessageFields
    ensures DecodeMessageForm(form) == None
  {
  }

  // ---------------------------------------------------------------------------
  // decode_jwt_from_header

  /** `HeaderValue::to_str` succeeds: every character is a tab or visible ASCII. */
  predicate IsHeaderText(s: string)
  {
    forall i :: 0 <= i < |s| ==> s[i] == '\t' || (' ' <= s[i] && s[i] <= '~')
  }

  const BearerScheme: string := "Bearer "

  predicate StartsWith(s: string, prefix: string)
  {
    |prefix| <= |s| && s[..|prefix|] == prefix
  }

  function DecodeJwtFromHeader(header: Option<string>, verify: string -> Option<Claims>): (r: Result<Claims, Reply>)
    ensures header.None? ==> r == Err(Reply(401, "Missing Authorization header"))
    ensures header.Some? && !IsHeaderText(header.value) ==> r == Err(Reply(400, "Invalid header value"))
    ensures header.Some? && IsHeaderText(header.value) && !StartsWith(header.value, BearerScheme) ==>
              r == Err(Reply(401, "Invalid token scheme"))
    ensures (header.Some? && IsHeaderText(header.value) && StartsWith(header.value, BearerScheme)
             && verify(header.value[7..]).None?) ==> r == Err(Reply(401, "Invalid or expired token"))
    ensures r.Ok? <==> (header.Some? && IsHeaderText(header.value) && StartsWith(header.value, BearerScheme)
                        && verify(header.value[7..]).Some?)
    ensures r.Ok? ==> header.Some? && |header.value| >= 7 && verify(header.value[7..]) == Some(r.value)
  {
    match header
    case None => Err(Reply(401, "Missing Authorization header"))
    case Some(text) =>
      if !IsHeaderText(text) then Err(Reply(400, "Invalid header value"))
      else if !StartsWith(text, BearerScheme) then Err(Reply(401, "Invalid token scheme"))
      else
        match verify(text[7..])
        case None => Err(Reply(401, "Invalid or expired token"))
        case Some(claims) => Ok(claims)
  }

  /** Every rejection is a 400 or a 401. */
  lemma RejectionStatus(header: Option<string>, verify: string -> Option<Claims>)
    ensures DecodeJwtFromHeader(header, verify).Err? ==>
              DecodeJwtFromHeader(header, verify).error.status in {400, 401}
  {
  }

  // ---------------------------------------------------------------------------
  // Message length: `String::len` counts UTF-8 bytes.

  function Utf8Width(c: char): (w: nat)
    ensures 1 <= w <= 4
    ensures w == 1 <==> c < '\U{80}'
  {
    if c < '\U{80}' then 1 else if c < '\U{800}' then 2 else if c < '\U{10000}' then 3 else 4
  }

  function Utf8Len(s: string): (n: nat)
    ensures |s| <= n <= 4 * |s|
  {
    if s == [] then 0 else Utf8Width(s[0]) + Utf8Len(s[1..])
  }

  predicate IsAscii(s: string)
  {
    forall i :: 0 <= i < |s| ==> s[i] < '\U{80}'
  }

  /** An ASCII text is as many bytes long as it has characters. */
  lemma {:induction false} AsciiLength(s: string)
    ensures IsAscii(s) ==> Utf8Len(s) == |s|
  {
    if s != [] && IsAscii(s) {
      assert s[0] < '\U{80}';
      AsciiLength(s[1..]);
    }
  }

  /** A message passes the length check when it has at most 500 bytes. */
  predicate WithinLength(message: string)
    ensures IsAscii(message) ==> (WithinLength(message) <==> |message| <= MaxMessageLength)
  {
    AsciiLength(message);
    Utf8Len(message) <= MaxMessageLength
  }

  /** The boundary is inclusive: 500 ASCII characters pass, 501 do not. */
  lemma LengthBoundary(s: string)
    requires IsAscii(s)
    ensures |s| == 500 ==> WithinLength(s)
    ensures |s| == 501 ==> !WithinLength(s)
  {
    AsciiLength(s);
  }

  /** Any message of at most 125 characters passes, whatever they are; any
      message of more than 500 characters is rejected. */
  lemma LengthBounds(s: string)
    ensures |s| <= 125 ==> WithinLength(s)
    ensures |s| > 500 ==> !WithinLength(s)
  {
  }

  // ---------------------------------------------------------------------------
  // Messages the service produces

  /** `broadcast_system_message`'s message. */
  function SystemMessage(text: string, nowMs: int): (m: Message)
    ensures m.room == SystemRoom && m.username == SystemSender
    ensures m.messageType == Some(System) && m.message == text
  {
    Message(SystemRoom, text, UnixSeconds(nowMs), Some(System), SystemSender)
  }

  /** The notice sent on a user's first post, in the room of that post. */
  function JoinMessage(username: string, room: string, nowMs: int): (m: Message)
    ensures m.room == room && m.username == username && m.messageType == Some(UserJoined)
  {
    Message(room, username + " joined the room", UnixSeconds(nowMs), Some(UserJoined), username)
  }

  /** A posted message as it is sent on: the sender's name from the token,
      the server's clock, and the chat type replace what the form said. */
  function Stamped(msg: Message, username: string, nowMs: int): (m: Message)
    ensures m.room == msg.room && m.message == msg.message
    ensures m.username == username && m.timestamp == UnixSeconds(nowMs)
    ensures m.messageType == Some(Chat)
  {
    msg.(username := username, timestamp := UnixSeconds(nowMs), messageType := Some(Chat))
  }

  function DisconnectText(username: string, reason: string): string
  {
    "User " + username + " disconnected: " + reason
  }

  /** The notices `remove_user` sends for each of `names`, in order. */
  function DisconnectNotices(names: seq<string>, reason: string, nowMs: int): (ms: seq<Message>)
    ensures |ms| == |names|
    ensures forall i :: 0 <= i < |names| ==> ms[i] == SystemMessage(DisconnectText(names[i], reason), nowMs)
  {
    if names == [] then []
    else DisconnectNotices(names[..|names| - 1], reason, nowMs)
         + [SystemMessage(DisconnectText(names[|names| - 1], reason), nowMs)]
  }

  /** One more removal adds its notice at the end. */
  lemma DisconnectNoticesSnoc(names: seq<string>, i: nat, reason: string, nowMs: int)
    requires i < |names|
    ensures DisconnectNotices(names[..i + 1], reason, nowMs)
         == DisconnectNotices(names[..i], reason, nowMs) + [SystemMessage(DisconnectText(names[i], reason), nowMs)]
  {
    assert names[..i + 1][..i] == names[..i];
  }

  /** In a list without duplicates, an entry is not among those before it. */
  lemma NotEarlier(names: seq<string>, i: nat)
    requires NoDuplicates(names) && i < |names|
    ensures names[i] !in names[..i]
  {
    forall k | 0 <= k < i ensures names[..i][k] != names[i] {
      assert names[k] != names[i];
    }
  }

  lemma PrefixGrows(names: seq<string>, i: nat)
    requires i < |names|
    ensures forall u :: u in names[..i + 1] <==> u in names[..i] || u == names[i]
  {
    assert names[..i + 1] == names[..i] + [names[i]];
  }

  // ---------------------------------------------------------------------------
  // Inactivity

  /** `now.duration_since(last_seen)` fails when `last_seen` is later than
      `now`, and that counts as inactive; otherwise the elapsed time must be
      strictly more than 30 s. */
  predicate IsInactive(info: UserInfo, nowMs: int)
    ensures !IsInactive(info, nowMs) <==> info.lastSeen <= nowMs <= info.lastSeen + InactiveThresholdMs
  {
    nowMs < info.lastSeen || nowMs - info.lastSeen > InactiveThresholdMs
  }

  /** Exactly 30 s of silence is still active; one more millisecond is not. */
  lemma ThresholdIsStrict(info: UserInfo)
    ensures !IsInactive(info, info.lastSeen + InactiveThresholdMs)
    ensures IsInactive(info, info.lastSeen + InactiveThresholdMs + 1)
    ensures !IsInactive(info, info.lastSeen)
  {
  }

  /** A user who has been seen is at least as active as before. */
  lemma SeenNowIsActive(room: string, nowMs: int, laterMs: int)
    requires nowMs <= laterMs <= nowMs + InactiveThresholdMs
    ensures !IsInactive(UserInfo(nowMs, room), laterMs)
  {
  }

  // ---------------------------------------------------------------------------
  // The service state

  predicate IsJoinOf(m: Message, username: string)
  {
    m.messageType == Some(UserJoined) && m.username == username
  }

  /** `username` was announced on `sent`. */
  predicate Announced(sent: seq<Message>, username: string)
  {
    exists i :: 0 <= i < |sent| && IsJoinOf(sent[i], username)
  }

  lemma AnnouncedKept(sent: seq<Message>, more: seq<Message>, username: string)
    requires Announced(sent, username)
    ensures Announced(sent + more, username)
  {
    var i :| 0 <= i < |sent| && IsJoinOf(sent[i], username);
    assert (sent + more)[i] == sent[i];
  }

  class ChatServer {
    var users: map<string, UserInfo>
    var rooms: set<string>
    /** Every message sent on the broadcast channel, oldest first. */
    var broadcast: seq<Message>

    /** Every known user was announced with a join message: users come only
        from posts, never from heartbeats. */
    ghost predicate Valid()
      reads this
    {
      forall u :: u in users ==> Announced(broadcast, u)
    }

    /** `main`'s initial state. */
    constructor ()
      ensures Valid()
      ensures users == map[] && rooms == {} && broadcast == []
    {
      users := map[];
      rooms := {};
      broadcast := [];
    }

    method BroadcastSystemMessage(text: string, nowMs: int)
      requires Valid()
      modifies this`broadcast
      ensures Valid()
      ensures broadcast == old(broadcast) + [SystemMessage(text, nowMs)]
    {
      broadcast := broadcast + [SystemMessage(text, nowMs)];
      forall u | u in users
        ensures Announced(broadcast, u)
      {
        AnnouncedKept(old(broadcast), [SystemMessage(text, nowMs)], u);
      }
    }

    /** `remove_user`: a notice is sent only if the user was there. */
    method RemoveUser(username: string, reason: string, nowMs: int)
      requires Valid()
      modifies this`users, this`broadcast
      ensures Valid()
      ensures users == old(users) - {username}
      ensures username in old(users) ==>
                broadcast == old(broadcast) + [SystemMessage(DisconnectText(username, reason), nowMs)]
      ensures username !in old(users) ==> broadcast == old(broadcast)
    {
      if username in users {
        users := users - {username};
        BroadcastSystemMessage(DisconnectText(username, reason), nowMs);
      }
    }

    /** `heartbeat`: refreshes a known user; never adds one. */
    method Heartbeat(header: Option<string>, verify: string -> Option<Claims>, room: string, nowMs: int)
      returns (reply: Reply)
      requires Valid()
      modifies this`users
      ensures Valid()
      ensures users.Keys == old(users).Keys
      ensures match DecodeJwtFromHeader(header, verify)
        case Err(e) => reply == e && users == old(users)
        case Ok(claims) =>
          if claims.username in old(users) then
            reply == Reply(200, "all ok") && users == old(users)[claims.username := UserInfo(nowMs, room)]
          else
            reply == Reply(404, "not found") && users == old(users)
    {
      var auth := DecodeJwtFromHeader(header, verify);
      if auth.Err? {
        return auth.error;
      }
      var name := auth.value.username;
      if name in users {
        users := users[name := UserInfo(nowMs, room)];
        reply := Reply(200, "all ok");
      } else {
        reply := Reply(404, "not found");
      }
    }

    /** `post_message`: authentication, then the length check, then the
        sender is recorded (announced first if new) and the stamped message
        is sent. */
    method PostMessage(header: Option<string>, verify: string -> Option<Claims>, msg: Message, nowMs: int)
      returns (reply: Reply)
      requires Valid()
      modifies this`users, this`broadcast
      ensures Valid()
      ensures match DecodeJwtFromHeader(header, verify)
        case Err(e) => reply == e && users == old(users) && broadcast == old(broadcast)
        case Ok(claims) =>
          if !WithinLength(msg.message) then
            reply == Reply(400, "message too long") && users == old(users) && broadcast == old(broadcast)
          else
            && reply == Reply(200, "all ok")
            && users == old(users)[claims.username := UserInfo(nowMs, msg.room)]
            && broadcast == old(broadcast)
                 + (if claims.username in old(users) then [] else [JoinMessage(claims.username, msg.room, nowMs)])
                 + [Stamped(msg, claims.username, nowMs)]
    {
      var auth := DecodeJwtFromHeader(header, verify);
      if auth.Err? {
        return auth.error;
      }
      if Utf8Len(msg.message) > MaxMessageLength {
        return Reply(400, "message too long");
      }
      var name := auth.value.username;
      var posted := Stamped(msg, name, nowMs);
      var joined: seq<Message> := [];
      if name !in users {
        joined := [JoinMessage(name, msg.room, nowMs)];
      }
      users := users[name := UserInfo(nowMs, msg.room)];
      broadcast := broadcast + joined + [posted];
      reply := Reply(200, "all ok");
      forall u | u in users
        ensures Announced(broadcast, u)
      {
        if u in old(users) {
          AnnouncedKept(old(broadcast), joined + [posted], u);
          assert old(broadcast) + (joined + [posted]) == broadcast;
        } else {
          assert u == name && broadcast[|old(broadcast)|] == JoinMessage(name, msg.room, nowMs);
        }
      }
    }

    /** `add_room`: a new name is inserted and announced; a known one is a
        conflict. */
    method AddRoom(header: Option<string>, verify: string -> Option<Claims>, room: string, nowMs: int)
      returns (reply: Reply)
      requires Valid()
      modifies this`rooms, this`broadcast
      ensures Valid()
      ensures match DecodeJwtFromHeader(header, verify)
        case Err(e) => reply == e && rooms == old(rooms) && broadcast == old(broadcast)
        case Ok(_) =>
          if room in old(rooms) then
            reply == Reply(409, "Room already exists") && rooms == old(rooms) && broadcast == old(broadcast)
          else
            && reply == Reply(200, "Room added successfully")
            && rooms == old(rooms) + {room}
            && broadcast == old(broadcast) + [SystemMessage("New room created: " + room, nowMs)]
    {
      var auth := DecodeJwtFromHeader(header, verify);
      if auth.Err? {
        return auth.error;
      }
      if room in rooms {
        return Reply(409, "Room already exists");
      }
      rooms := rooms + {room};
      BroadcastSystemMessage("New room created: " + room, nowMs);
      reply := Reply(200, "Room added successfully");
    }

    /** `list_rooms`: the JSON list of the room set, in some order, or the
        rejection's text as a one-element list. */
    method ListRooms(header: Option<string>, verify: string -> Option<Claims>)
      returns (status: int, names: seq<string>, body: string)
      ensures body == RoomsJson.Stringify(names)
      ensures DecodeJwtFromHeader(header, verify).Ok? ==>
                && status == 200 && NoDuplicates(names)
                && (forall r :: r in names <==> r in rooms)
      ensures DecodeJwtFromHeader(header, verify).Err? ==>
                var e := DecodeJwtFromHeader(header, verify).error;
                status == e.status && names == [e.body]
    {
      var auth := DecodeJwtFromHeader(header, verify);
      if auth.Err? {
        status, names := auth.error.status, [auth.error.body];
      } else {
        status := 200;
        names := [];
        var remaining := rooms;
        while remaining != {}
          invariant remaining <= rooms
          invariant forall r :: r in names <==> r in rooms && r !in remaining
          invariant NoDuplicates(names)
          decreases remaining
        {
          var r :| r in remaining;
          names := names + [r];
          remaining := remaining - {r};
        }
      }
      body := RoomsJson.Stringify(names);
    }

    /** The selection step of `cleanup_inactive_users`: each inactive user
        once, in some order. */
    method SelectInactive(nowMs: int) returns (inactive: seq<string>)
      ensures NoDuplicates(inactive)
      ensures forall u :: u in inactive <==> u in users && IsInactive(users[u], nowMs)
    {
      inactive := [];
      var remaining := users.Keys;
      while remaining != {}
        invariant remaining <= users.Keys
        invariant forall u :: u in inactive <==> u in users && u !in remaining && IsInactive(users[u], nowMs)
        invariant NoDuplicates(inactive)
        decreases remaining
      {
        var u :| u in remaining;
        if IsInactive(users[u], nowMs) {
          inactive := inactive + [u];
        }
        remaining := remaining - {u};
      }
    }

    /** One pass of `cleanup_inactive_users`: select, then remove each
        selected user for inactivity. */
    method CleanupPass(nowMs: int) returns (removed: seq<string>)
      requires Valid()
      modifies this`users, this`broadcast
      ensures Valid()
      ensures forall u :: u in removed <==> u in old(users) && IsInactive(old(users)[u], nowMs)
      ensures forall u :: u in users <==> u in old(users) && !IsInactive(old(users)[u], nowMs)
      ensures forall u :: u in users ==> users[u] == old(users)[u]
      ensures broadcast == old(broadcast) + DisconnectNotices(removed, "inactivity", nowMs)
    {
      removed := SelectInactive(nowMs);
      var i := 0;
      while i < |removed|
        invariant 0 <= i <= |removed|
        invariant Valid()
        invariant forall u :: u in users <==> u in old(users) && u !in removed[..i]
        invariant forall u :: u in users ==> users[u] == old(users)[u]
        invariant broadcast == old(broadcast) + DisconnectNotices(removed[..i], "inactivity", nowMs)
      {
        NotEarlier(removed, i);
        PrefixGrows(removed, i);
        DisconnectNoticesSnoc(removed, i, "inactivity", nowMs);
        ghost var notices := DisconnectNotices(removed[..i], "inactivity", nowMs);
        ghost var notice := SystemMessage(DisconnectText(removed[i], "inactivity"), nowMs);
        assert removed[i] in users;
        RemoveUser(removed[i], "inactivity", nowMs);
        AppendAssoc(old(broadcast), notices, [notice]);
        assert broadcast == old(broadcast) + (notices + [notice]);
        i := i + 1;
      }
      assert removed[..i] == removed;
    }
  }
}
