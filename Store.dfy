/** The session store (client/src/store.jsx): the bearer token, the signed-in
    user and the room list, each write mirrored into the browser's key-value
    storage, and the hydration that reads them back when the page loads. */
module Store {
  import opened Common
  import RoomsJson

  datatype User = User(username: string)

  datatype Session = Session(token: Option<string>, user: Option<User>, rooms: seq<string>)

  const TokenKey: string := "token"
  const UserKey: string := "user"
  const RoomsKey: string := "rooms"

  /** JavaScript truthiness of a token: `null` and `''` are falsy. */
  predicate Truthy(token: Option<string>)
  {
    token.Some? && token.value != ""
  }

  /** `token || null`. */
  function OrNull(token: Option<string>): (r: Option<string>)
    ensures Truthy(token) ==> r == token
    ensures !Truthy(token) ==> r == None
  {
    if Truthy(token) then token else None
  }

  /** The texts `JSON.parse` reads as a falsy value, which `|| []` replaces
      by the empty list. */
  const FalsyJsonTexts: set<string> := {"null", "false", "0", "\"\""}

  /** `JSON.parse(localStorage.getItem('rooms')) || []`: `None` where
      `JSON.parse` would throw or give something other than a list of names. */
  function HydrateRooms(stored: Option<string>): (r: Option<seq<string>>)
    ensures stored.None? ==> r == Some([])
    ensures stored.Some? && stored.value in FalsyJsonTexts ==> r == Some([])
    ensures r.Some? && r.value != [] ==> stored.Some? && RoomsJson.ParseRooms(stored.value) == r
  {
    match stored
    case None => Some([])
    case Some(text) => if text in FalsyJsonTexts then Some([]) else RoomsJson.ParseRooms(text)
  }

  function Lookup(storage: map<string, string>, key: string): (r: Option<string>)
    ensures r.Some? <==> key in storage
    ensures r.Some? ==> r.value == storage[key]
  {
    if key in storage then Some(storage[key]) else None
  }

  /** The session `StoreProvider` starts with, read from `storage`; `None`
      where reading the stored room list would throw. */
  function Hydrate(storage: map<string, string>): (r: Option<Session>)
    ensures r.Some? <==> HydrateRooms(Lookup(storage, RoomsKey)).Some?
    ensures r.Some? ==> r.value.user == None
    ensures r.Some? ==> r.value.token == OrNull(Lookup(storage, TokenKey))
    ensures r.Some? ==> r.value.rooms == HydrateRooms(Lookup(storage, RoomsKey)).value
  {
    var rooms := HydrateRooms(Lookup(storage, RoomsKey));
    if rooms.None? then None
    else Some(Session(OrNull(Lookup(storage, TokenKey)), None, rooms.value))
  }

  /** What `localStorage.setItem('user', user)` stores: the string form of the
      value, which for a user object is not its JSON text. */
  function UserText(user: Option<User>): (text: string)
    ensures text == "null" <==> user.None?
  {
    if user.None? then "null" else "[object Object]"
  }

  /** The room list after `addRoom(room)`. */
  function WithRoom(rooms: seq<string>, room: string): (r: seq<string>)
    ensures room in r
    ensures room in rooms ==> r == rooms
    ensures room !in rooms ==> |r| == |rooms| + 1 && r[..|rooms|] == rooms && r[|rooms|] == room
    ensures NoDuplicates(rooms) ==> NoDuplicates(r)
  {
    if room in rooms then rooms else rooms + [room]
  }

  /** Adding a room twice leaves the same list as adding it once. */
  lemma WithRoomIdempotent(rooms: seq<string>, room: string)
    ensures WithRoom(WithRoom(rooms, room), room) == WithRoom(rooms, room)
  {
  }

  /** A room list written to storage is read back unchanged on the next load. */
  lemma StoredRoomsReadBack(rooms: seq<string>)
    ensures HydrateRooms(Some(RoomsJson.Stringify(rooms))) == Some(rooms)
  {
    var text := RoomsJson.Stringify(rooms);
    assert text[0] == '[';
    assert text !in FalsyJsonTexts by {
      assert forall f :: f in FalsyJsonTexts ==> f[0] != '[';
    }
    RoomsJson.RoundTrip(rooms);
  }

  /** `storage` mirrors a session holding `token` and `rooms`: the stored
      token is `token` up to `|| null`, and the stored room list reads back
      as `rooms`.  The second half is stated for whatever `Lookup` finds, so
      that the JSON reader is unfolded only where a proof names it. */
  ghost predicate Mirrors(storage: map<string, string>, token: Option<string>, rooms: seq<string>)
  {
    && OrNull(Lookup(storage, TokenKey)) == OrNull(token)
    && forall stored {:trigger HydrateRooms(stored)} ::
         stored == Lookup(storage, RoomsKey) ==> HydrateRooms(stored) == Some(rooms)
  }

  /** Mirroring a session is exactly what makes a reload give it back, with
      no user. */
  lemma MirrorsIsHydrate(storage: map<string, string>, token: Option<string>, rooms: seq<string>)
    ensures Mirrors(storage, token, rooms) <==> Hydrate(storage) == Some(Session(OrNull(token), None, rooms))
  {
    if Hydrate(storage) == Some(Session(OrNull(token), None, rooms)) {
      forall stored | stored == Lookup(storage, RoomsKey)
        ensures HydrateRooms(stored) == Some(rooms)
      {
      }
    }
  }

  /** Writing a room list over a mirrored session keeps it mirrored, with
      the new list. */
  lemma RoomsWritten(storage: map<string, string>, token: Option<string>, rooms: seq<string>, newRooms: seq<string>)
    requires Mirrors(storage, token, rooms)
    ensures Mirrors(storage[RoomsKey := RoomsJson.Stringify(newRooms)], token, newRooms)
  {
    var written := storage[RoomsKey := RoomsJson.Stringify(newRooms)];
    StoredRoomsReadBack(newRooms);
    assert Lookup(written, TokenKey) == Lookup(storage, TokenKey);
    assert Lookup(written, RoomsKey) == Some(RoomsJson.Stringify(newRooms));
  }

  /** What `setToken(t)` leaves in storage: the token when it is truthy, no
      `token` key otherwise. */
  function WithToken(storage: map<string, string>, t: Option<string>): (r: map<string, string>)
    ensures Lookup(r, RoomsKey) == Lookup(storage, RoomsKey)
    ensures OrNull(Lookup(r, TokenKey)) == OrNull(t)
  {
    if Truthy(t) then storage[TokenKey := t.value] else storage - {TokenKey}
  }

  /** Writing the token over a mirrored session keeps it mirrored, with the
      new token. */
  lemma TokenWritten(storage: map<string, string>, token: Option<string>, rooms: seq<string>, t: Option<string>)
    requires Mirrors(storage, token, rooms)
    ensures Mirrors(WithToken(storage, t), t, rooms)
  {
  }

  /** Writing the `user` key over a mirrored session keeps it mirrored. */
  lemma UserWritten(storage: map<string, string>, token: Option<string>, rooms: seq<string>, text: string)
    requires Mirrors(storage, token, rooms)
    ensures Mirrors(storage[UserKey := text], token, rooms)
  {
    assert Lookup(storage[UserKey := text], TokenKey) == Lookup(storage, TokenKey);
    assert Lookup(storage[UserKey := text], RoomsKey) == Lookup(storage, RoomsKey);
  }

  /** Removing the `token` and `rooms` keys leaves storage mirroring an
      empty session. */
  lemma LoggedOut(storage: map<string, string>)
    ensures Mirrors(storage - {TokenKey, RoomsKey}, None, [])
  {
    assert Lookup(storage - {TokenKey, RoomsKey}, RoomsKey) == None;
  }

  /** After logout removed the token and the rooms, a reload starts logged out. */
  lemma HydrateAfterLogout(storage: map<string, string>)
    ensures Hydrate(storage - {TokenKey, RoomsKey}) == Some(Session(None, None, []))
  {
  }

  /** Writing the `user` key does not change what a reload sees. */
  lemma HydrateIgnoresUser(storage: map<string, string>, text: string)
    ensures Hydrate(storage[UserKey := text]) == Hydrate(storage)
  {
    assert Lookup(storage[UserKey := text], TokenKey) == Lookup(storage, TokenKey);
    assert Lookup(storage[UserKey := text], RoomsKey) == Lookup(storage, RoomsKey);
  }

  class SessionStore {
    var token: Option<string>
    var user: Option<User>
    var rooms: seq<string>
    /** The browser's `localStorage`; only this store writes it. */
    var storage: map<string, string>

    /** Storage mirrors memory: a reload now would give back the token (up to
        `|| null`) and the room list, and no user. */
    ghost predicate Valid()
      reads this
    {
      Mirrors(storage, token, rooms)
    }

    /** `StoreProvider`: hydrate from storage. */
    constructor (persisted: map<string, string>)
      requires Hydrate(persisted).Some?
      ensures Valid()
      ensures Session(token, user, rooms) == Hydrate(persisted).value
      ensures storage == persisted
    {
      var session := Hydrate(persisted).value;
      token := session.token;
      user := session.user;
      rooms := session.rooms;
      storage := persisted;
      MirrorsIsHydrate(persisted, session.token, session.rooms);
    }

    method SetToken(t: Option<string>)
      requires Valid()
      modifies this
      ensures Valid()
      ensures token == t && user == old(user) && rooms == old(rooms)
      ensures Truthy(t) ==> storage == old(storage)[TokenKey := t.value]
      ensures !Truthy(t) ==> storage == old(storage) - {TokenKey}
    {
      TokenWritten(storage, token, rooms, t);
      token := t;
      storage := WithToken(storage, t);
    }

    method SetUser(u: Option<User>)
      requires Valid()
      modifies this
      ensures Valid()
      ensures user == u && token == old(token) && rooms == old(rooms)
      ensures storage == old(storage)[UserKey := UserText(u)]
    {
      user := u;
      UserWritten(storage, token, rooms, UserText(u));
      storage := storage[UserKey := UserText(u)];
    }

    /** Replaces the list as given, duplicates included. */
    method SetRooms(newRooms: seq<string>)
      requires Valid()
      modifies this
      ensures Valid()
      ensures rooms == newRooms && token == old(token) && user == old(user)
      ensures storage == old(storage)[RoomsKey := RoomsJson.Stringify(newRooms)]
    {
      RoomsWritten(storage, token, rooms, newRooms);
      rooms := newRooms;
      storage := storage[RoomsKey := RoomsJson.Stringify(newRooms)];
    }

    /** Appends `room` unless it is already listed; only then is storage written. */
    method AddRoom(room: string)
      requires Valid()
      modifies this
      ensures Valid()
      ensures rooms == WithRoom(old(rooms), room) && token == old(token) && user == old(user)
      ensures room in old(rooms) ==> storage == old(storage)
      ensures room !in old(rooms) ==> storage == old(storage)[RoomsKey := RoomsJson.Stringify(rooms)]
    {
      if room !in rooms {
        SetRooms(rooms + [room]);
      }
    }

    /** Clears memory and removes the `token` and `rooms` keys; `user` stays. */
    method Logout()
      requires Valid()
      modifies this
      ensures Valid()
      ensures token == None && user == None && rooms == []
      ensures storage == old(storage) - {TokenKey, RoomsKey}
    {
      token := None;
      user := None;
      rooms := [];
      storage := storage - {TokenKey};
      storage := storage - {RoomsKey};
      assert storage == old(storage) - {TokenKey, RoomsKey};
      LoggedOut(old(storage));
    }
  }
}
