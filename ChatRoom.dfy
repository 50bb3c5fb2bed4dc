/** The chat pane (client/src/components/ChatRoom.jsx): the server-push
    source and the heartbeat timer it rebinds whenever the selected room
    changes, the append-only message log with its per-event room check, the
    send form, and the teardown.

    Transports are records with an open (or active) flag; the pane keeps every
    one it ever created, in creation order, and the JavaScript variables
    `eventSource` and `heartbeatInterval` are indices into those logs. */
module ChatRoom {
  import opened Common
  import ChatApi

  const HeartbeatPeriodMs: int := 5000

  /** An inbound event, as `JSON.parse(event.data)` gives it. */
  datatype ChatEvent = ChatEvent(room: string, username: Option<string>, message: string, timestamp: int)

  /** An `EventSource`: the request it opened, the room that was selected
      when it was created, and whether it is still open. */
  datatype Source = Source(request: ChatApi.EventSourceRequest, createdFor: string, open: bool)

  /** A `setInterval` timer: its period and whether it is still set. */
  datatype Timer = Timer(periodMs: int, active: bool)

  /** What the effect and the teardown do to transports, in order. */
  datatype Action = CloseSource(source: nat) | OpenSource(source: nat) | ClearTimer(timer: nat) | SetTimer(timer: nat)

  /** The events of `log` tagged with `room`, in log order. */
  function RoomFilter(log: seq<ChatEvent>, room: string): (r: seq<ChatEvent>)
    ensures |r| <= |log|
    ensures forall e :: e in r ==> e in log && e.room == room
    ensures forall e :: e in log && e.room == room ==> e in r
  {
    if log == [] then []
    else (if log[0].room == room then [log[0]] else []) + RoomFilter(log[1..], room)
  }

  lemma {:induction false} RoomFilterConcat(a: seq<ChatEvent>, b: seq<ChatEvent>, room: string)
    ensures RoomFilter(a + b, room) == RoomFilter(a, room) + RoomFilter(b, room)
  {
    if a == [] {
      assert a + b == b;
    } else {
      assert (a + b)[0] == a[0];
      assert (a + b)[1..] == a[1..] + b;
      RoomFilterConcat(a[1..], b, room);
      var head := if a[0].room == room then [a[0]] else [];
      assert RoomFilter(a + b, room) == head + RoomFilter(a[1..] + b, room);
      assert head + (RoomFilter(a[1..], room) + RoomFilter(b, room))
          == (head + RoomFilter(a[1..], room)) + RoomFilter(b, room);
    }
  }

  /** Filtering twice by the same room is filtering once. */
  lemma {:induction false} RoomFilterIdempotent(log: seq<ChatEvent>, room: string)
    ensures RoomFilter(RoomFilter(log, room), room) == RoomFilter(log, room)
  {
    if log != [] {
      RoomFilterIdempotent(log[1..], room);
      RoomFilterConcat(if log[0].room == room then [log[0]] else [], RoomFilter(log[1..], room), room);
    }
  }

  /** The name shown in bold beside a message. */
  function DisplayName(e: ChatEvent): (name: string)
    ensures e.username.Some? && e.username.value != "" ==> name == e.username.value
    ensures !(e.username.Some? && e.username.value != "") ==> name == "System"
    ensures name != ""
  {
    if e.username.Some? && e.username.value != "" then e.username.value else "System"
  }

  predicate AtMostOneOpen(sources: seq<Source>)
  {
    forall i, j :: 0 <= i < j < |sources| ==> !(sources[i].open && sources[j].open)
  }

  predicate AtMostOneActive(timers: seq<Timer>)
  {
    forall i, j :: 0 <= i < j < |timers| ==> !(timers[i].active && timers[j].active)
  }

  class ChatRoomPane {
    /** `store.token`, read once when the pane is created. */
    const token: Option<string>
    /** `props.room()`: the selected room. */
    var room: string
    var messages: seq<ChatEvent>
    var messageText: string
    var sources: seq<Source>
    var eventSource: Option<nat>
    var timers: seq<Timer>
    var heartbeatInterval: Option<nat>
    ghost var actions: seq<Action>

    /** Only the newest source may be open and only the newest timer may be
        set; every source was opened with this pane's token, every timer
        fires each 5000 ms. */
    ghost predicate Valid()
      reads this
    {
      SourcesValid() && TimersValid()
    }

    ghost predicate SourcesValid()
      reads this
    {
      && (eventSource.None? <==> sources == [])
      && (eventSource.Some? ==> eventSource.value == |sources| - 1)
      && (forall i :: 0 <= i < |sources| - 1 ==> !sources[i].open)
      && (forall i :: 0 <= i < |sources| ==> sources[i].request == ChatApi.EventSourceFor(token))
    }

    ghost predicate TimersValid()
      reads this
    {
      && (heartbeatInterval.None? <==> timers == [])
      && (heartbeatInterval.Some? ==> heartbeatInterval.value == |timers| - 1)
      && (forall i :: 0 <= i < |timers| - 1 ==> !timers[i].active)
      && (forall i :: 0 <= i < |timers| ==> timers[i].periodMs == HeartbeatPeriodMs)
    }

    /** The list the pane renders: the log, filtered again by the room. */
    function Displayed(): (shown: seq<ChatEvent>)
      reads this
      ensures forall e :: e in shown ==> e.room == room && e in messages
      ensures forall e :: e in messages && e.room == room ==> e in shown
    {
      RoomFilter(messages, room)
    }

    /** Mounting the pane: the effect runs once for the initial room. */
    constructor (token: Option<string>, room: string)
      ensures Valid()
      ensures this.token == token && this.room == room
      ensures messages == [] && messageText == ""
      ensures sources == [Source(ChatApi.EventSourceFor(token), room, true)]
      ensures timers == [Timer(HeartbeatPeriodMs, true)]
      ensures actions == [OpenSource(0), SetTimer(0)]
    {
      this.token := token;
      this.room := room;
      messages := [];
      messageText := "";
      sources := [];
      eventSource := None;
      timers := [];
      heartbeatInterval := None;
      actions := [];
      new;
      RunRoomEffect();
    }

    /** The `createEffect` body: close the old source, open a new one; clear
        the old timer, set a new 5000 ms one. */
    method RunRoomEffect()
      requires Valid()
      modifies this
      ensures Valid()
      ensures room == old(room) && messages == old(messages) && messageText == old(messageText)
      ensures |sources| == |old(sources)| + 1
      ensures forall i :: 0 <= i < |old(sources)| ==> sources[i] == old(sources)[i].(open := false)
      ensures sources[|sources| - 1] == Source(ChatApi.EventSourceFor(token), room, true)
      ensures |timers| == |old(timers)| + 1
      ensures forall i :: 0 <= i < |old(timers)| ==> timers[i] == old(timers)[i].(active := false)
      ensures timers[|timers| - 1] == Timer(HeartbeatPeriodMs, true)
      ensures actions == old(actions)
        + (if old(eventSource).Some? then [CloseSource(old(eventSource).value)] else [])
        + [OpenSource(|old(sources)|)]
        + (if old(heartbeatInterval).Some? then [ClearTimer(old(heartbeatInterval).value)] else [])
        + [SetTimer(|old(timers)|)]
    {
      RebindSource();
      RebindHeartbeat();
    }

    /** The effect's first half: close the current source, if any, and open
        one for the selected room. */
    method RebindSource()
      requires SourcesValid()
      modifies this
      ensures SourcesValid()
      ensures room == old(room) && messages == old(messages) && messageText == old(messageText)
      ensures timers == old(timers) && heartbeatInterval == old(heartbeatInterval)
      ensures |sources| == |old(sources)| + 1
      ensures forall i :: 0 <= i < |old(sources)| ==> sources[i] == old(sources)[i].(open := false)
      ensures sources[|sources| - 1] == Source(ChatApi.EventSourceFor(token), room, true)
      ensures actions == old(actions)
        + (if old(eventSource).Some? then [CloseSource(old(eventSource).value)] else [])
        + [OpenSource(|old(sources)|)]
    {
      var closing: seq<Action> := [];
      if eventSource.Some? {
        var k := eventSource.value;
        sources := sources[k := sources[k].(open := false)];
        closing := [CloseSource(k)];
      }
      sources := sources + [Source(ChatApi.EventSourceFor(token), room, true)];
      eventSource := Some(|sources| - 1);
      actions := actions + closing + [OpenSource(|sources| - 1)];
    }

    /** The effect's second half: clear the current timer, if any, and set a
        new 5000 ms one. */
    method RebindHeartbeat()
      requires TimersValid()
      modifies this
      ensures TimersValid()
      ensures room == old(room) && messages == old(messages) && messageText == old(messageText)
      ensures sources == old(sources) && eventSource == old(eventSource)
      ensures |timers| == |old(timers)| + 1
      ensures forall i :: 0 <= i < |old(timers)| ==> timers[i] == old(timers)[i].(active := false)
      ensures timers[|timers| - 1] == Timer(HeartbeatPeriodMs, true)
      ensures actions == old(actions)
        + (if old(heartbeatInterval).Some? then [ClearTimer(old(heartbeatInterval).value)] else [])
        + [SetTimer(|old(timers)|)]
    {
      var clearing: seq<Action> := [];
      if heartbeatInterval.Some? {
        var k := heartbeatInterval.value;
        timers := timers[k := timers[k].(active := false)];
        clearing := [ClearTimer(k)];
      }
      timers := timers + [Timer(HeartbeatPeriodMs, true)];
      heartbeatInterval := Some(|timers| - 1);
      actions := actions + clearing + [SetTimer(|timers| - 1)];
    }

    /** The selected-room signal is written: the effect reruns only when the
        value differs, as a signal ignores writes of an equal value. */
    method SetRoom(r: string)
      requires Valid()
      modifies this
      ensures Valid()
      ensures room == r && messages == old(messages) && messageText == old(messageText)
      ensures r == old(room) ==> sources == old(sources) && timers == old(timers) && actions == old(actions)
      ensures r != old(room) ==>
        && |sources| == |old(sources)| + 1
        && sources[|sources| - 1] == Source(ChatApi.EventSourceFor(token), r, true)
        && (forall i :: 0 <= i < |old(sources)| ==> !sources[i].open)
        && |timers| == |old(timers)| + 1
        && timers[|timers| - 1] == Timer(HeartbeatPeriodMs, true)
        && (forall i :: 0 <= i < |old(timers)| ==> !timers[i].active)
    {
      if r != room {
        room := r;
        RunRoomEffect();
      }
    }

    /** `eventSource.onmessage`: keep the event only if it is tagged with the
        room selected at the moment it arrives. */
    method OnMessage(e: ChatEvent)
      modifies this`messages
      ensures messages == old(messages) + (if e.room == room then [e] else [])
    {
      if e.room == room {
        messages := messages + [e];
      }
    }

    /** One firing of the heartbeat timer: it posts the room selected at that
        moment; a rejected post is only logged and the timer stays set. */
    method HeartbeatTick(outcome: ChatApi.HttpOutcome) returns (request: ChatApi.HeartbeatRequest, logged: bool)
      requires Valid() && heartbeatInterval.Some? && timers[heartbeatInterval.value].active
      ensures request.room == room && request.url == ChatApi.ChatServiceUrl + "/heartbeat"
      ensures request.authorization == ChatApi.BearerHeader(token)
      ensures logged <==> outcome.NetworkFailure?
    {
      request := ChatApi.HeartbeatRequestFor(token, room);
      logged := ChatApi.HeartbeatResult(outcome).Err?;
    }

    /** `handleSend`: nothing happens for an empty input; otherwise the text
        is posted and the input is cleared only if the post succeeded.  The
        log is never written here: a message shows once the server echoes it. */
    method HandleSend(nowMs: nat, outcome: ChatApi.HttpOutcome) returns (request: Option<ChatApi.MessageRequest>)
      modifies this`messageText
      ensures old(messageText) == "" ==> request == None && messageText == ""
      ensures old(messageText) != "" ==>
        && request.Some?
        && request.value.form == ChatApi.MessageForm(room, old(messageText), nowMs)
        && FormValue(request.value.form, "room") == Some(room)
        && FormValue(request.value.form, "message") == Some(old(messageText))
        && request.value.authorization == ChatApi.BearerHeader(token)
        && messageText == (if ChatApi.Succeeded(outcome) then "" else old(messageText))
    {
      if messageText == "" {
        return None;
      }
      var text := messageText;
      var sent, result := ChatApi.SendMessage(token, room, text, nowMs, outcome);
      assert sent.form == ChatApi.MessageForm(room, text, nowMs);
      request := Some(sent);
      if result.Ok? {
        messageText := "";
      }
    }

    /** `onCleanup`: close the source and clear the timer. */
    method Teardown()
      requires Valid()
      modifies this
      ensures Valid()
      ensures |sources| == |old(sources)| && |timers| == |old(timers)|
      ensures forall i :: 0 <= i < |sources| ==> sources[i] == old(sources)[i].(open := false)
      ensures forall i :: 0 <= i < |timers| ==> timers[i] == old(timers)[i].(active := false)
      ensures room == old(room) && messages == old(messages) && messageText == old(messageText)
    {
      if eventSource.Some? {
        var k := eventSource.value;
        sources := sources[k := sources[k].(open := false)];
        actions := actions + [CloseSource(k)];
      }
      if heartbeatInterval.Some? {
        var k := heartbeatInterval.value;
        timers := timers[k := timers[k].(active := false)];
        actions := actions + [ClearTimer(k)];
      }
    }
  }

  /** At any moment at most one source is open and at most one timer is set. */
  lemma SingleLiveTransport(pane: ChatRoomPane)
    requires pane.Valid()
    ensures AtMostOneOpen(pane.sources) && AtMostOneActive(pane.timers)
  {
  }

  /** Switching rooms while events for the old room are still in flight: none
      of them reaches the log, and the old room's messages are still there. */
  method SwitchWithEventsInFlight(pane: ChatRoomPane, next: string, inFlight: seq<ChatEvent>)
    requires pane.Valid() && next != pane.room
    requires forall e :: e in inFlight ==> e.room == pane.room
    modifies pane
    ensures pane.Valid() && pane.room == next
    ensures pane.messages == old(pane.messages)
  {
    var old_room := pane.room;
    pane.SetRoom(next);
    var i := 0;
    while i < |inFlight|
      invariant 0 <= i <= |inFlight|
      invariant pane.Valid() && pane.room == next
      invariant pane.messages == old(pane.messages)
    {
      assert inFlight[i] in inFlight;
      pane.OnMessage(inFlight[i]);
      i := i + 1;
    }
  }
}
