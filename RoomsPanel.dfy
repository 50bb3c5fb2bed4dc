/** The room list panel (client/src/components/RoomsPanel.jsx): its local copy
    of the store's room list, the create-room form with its
    merge-on-conflict rule, and room selection. */
module RoomsPanel {
  import opened Common
  import ChatApi
  import Store
  import RoomsJson

  const CreateRoomFailurePrefix: string := "Failed to create room: "

  /** `err.message.includes('409') || err.message.includes('Conflict')`. */
  predicate IsConflictMessage(m: string)
    ensures IsConflictMessage(m) <==> (exists i :: OccursAt(m, "409", i)) || (exists i :: OccursAt(m, "Conflict", i))
  {
    Contains(m, "409") || Contains(m, "Conflict")
  }

  /** `createRoom`'s error is taken for "the room already exists" exactly when
      the server answered 409, when another failing status carries `409` or
      `Conflict` in its status text, or when the network error's own message
      does. */
  lemma ConflictClassification(outcome: ChatApi.HttpOutcome)
    ensures (ChatApi.CreateRoomResult(outcome).Err? && IsConflictMessage(ChatApi.CreateRoomResult(outcome).error))
        <==> (match outcome
              case NetworkFailure(m) => IsConflictMessage(m)
              case Response(status, text, _) => !ChatApi.IsOk(status) && (status == 409 || IsConflictMessage(text)))
  {
    match outcome
    case NetworkFailure(m) =>
    case Response(status, text, _) =>
      if ChatApi.IsOk(status) {
      } else if status == 409 {
        assert OccursAt(ChatApi.ConflictMessage, "409", 0);
      } else {
        FailureTextConflict(text);
      }
  }

  /** The generic failure message is a conflict exactly when its status text
      is: the fixed prefix holds neither `409` nor `Conflict`, and it ends in a
      blank, which neither word contains. */
  lemma FailureTextConflict(text: string)
    ensures IsConflictMessage(CreateRoomFailurePrefix + text) <==> IsConflictMessage(text)
  {
    var p := CreateRoomFailurePrefix;
    assert p[|p| - 1] == ' ' && '4' !in p && 'C' !in p;
    ContainsBehindPrefix(p, text, "409");
    ContainsBehindPrefix(p, text, "Conflict");
  }

  class RoomsPanel {
    const store: Store.SessionStore
    /** The panel's `rooms` signal. */
    var rooms: seq<string>
    var roomNameInput: string
    var error: string

    /** The store is consistent with its storage, and the panel's list is the
        store's list: the panel is the only writer while it is mounted. */
    ghost predicate Valid()
      reads this, store
    {
      store.Valid() && rooms == store.rooms
    }

    /** Mounting, with `onMount` copying the store's list. */
    constructor (store: Store.SessionStore)
      requires store.Valid()
      ensures Valid() && this.store == store
      ensures rooms == store.rooms && roomNameInput == "" && error == ""
    {
      this.store := store;
      rooms := store.rooms;
      roomNameInput := "";
      error := "";
    }

    /** Acts only when the panel does not list `r`: the store adds it, then the
        panel appends it. */
    method AddLocalRoomIfMissing(r: string)
      requires Valid()
      modifies this, store
      ensures Valid()
      ensures rooms == Store.WithRoom(old(rooms), r)
      ensures r in old(rooms) ==> store.storage == old(store.storage)
      ensures r !in old(rooms) ==> store.storage == old(store.storage)[Store.RoomsKey := RoomsJson.Stringify(rooms)]
      ensures NoDuplicates(old(rooms)) ==> NoDuplicates(rooms)
      ensures store.token == old(store.token) && store.user == old(store.user)
      ensures roomNameInput == old(roomNameInput) && error == old(error)
    {
      if r !in rooms {
        store.AddRoom(r);
        rooms := rooms + [r];
      }
    }

    /** `handleCreateRoom`.  An empty input does nothing.  Otherwise the error
        is cleared, the request is made, and a success or a conflict both add
        the room (if missing) and clear the input; any other failure shows its
        message and changes no list. */
    method HandleCreateRoom(outcome: ChatApi.HttpOutcome)
      returns (request: Option<ChatApi.CreateRoomRequest>, ghost errorWhenSent: string)
      requires Valid()
      modifies this, store
      ensures Valid()
      ensures store.token == old(store.token) && store.user == old(store.user)
      ensures old(roomNameInput) == "" ==>
        && request == None
        && rooms == old(rooms) && roomNameInput == "" && error == old(error)
        && store.storage == old(store.storage)
      ensures old(roomNameInput) != "" ==>
        && request == Some(ChatApi.CreateRoomRequestFor(store.token, old(roomNameInput)))
        && errorWhenSent == ""
      ensures old(roomNameInput) != "" ==>
        var result := ChatApi.CreateRoomResult(outcome);
        if result.Ok? || IsConflictMessage(result.error) then
          && rooms == Store.WithRoom(old(rooms), old(roomNameInput))
          && roomNameInput == "" && error == ""
          && (old(roomNameInput) in old(rooms) ==> store.storage == old(store.storage))
          && (old(roomNameInput) !in old(rooms) ==>
                store.storage == old(store.storage)[Store.RoomsKey := RoomsJson.Stringify(rooms)])
        else
          && rooms == old(rooms) && store.storage == old(store.storage)
          && roomNameInput == old(roomNameInput) && error == result.error
    {
      errorWhenSent := error;
      if roomNameInput == "" {
        return None, errorWhenSent;
      }
      error := "";
      var newRoom := roomNameInput;
      request := Some(ChatApi.CreateRoomRequestFor(store.token, newRoom));
      errorWhenSent := error;
      var result := ChatApi.CreateRoomResult(outcome);
      if result.Ok? {
        AddLocalRoomIfMissing(newRoom);
        roomNameInput := "";
      } else if IsConflictMessage(result.error) {
        AddLocalRoomIfMissing(newRoom);
        roomNameInput := "";
      } else {
        error := result.error;
      }
    }

    /** `handleSelectRoom`: the name handed to `onRoomSelected`. */
    method HandleSelectRoom(r: string) returns (selected: string)
      ensures selected == r
    {
      selected := r;
    }
  }

  /** The server's 409 and a success leave the panel in the same state. */
  method ConflictActsAsSuccess(panel: RoomsPanel, text: string, body: string)
    requires panel.Valid() && panel.roomNameInput != ""
    modifies panel, panel.store
    ensures panel.Valid()
    ensures panel.rooms == Store.WithRoom(old(panel.rooms), old(panel.roomNameInput))
    ensures panel.roomNameInput == "" && panel.error == ""
  {
    ConflictClassification(ChatApi.Response(409, text, body));
    var request, errorWhenSent := panel.HandleCreateRoom(ChatApi.Response(409, text, body));
  }
}
