/** The application shell (client/src/App.jsx): whether the chat view or the
    login form is shown, and which room the chat pane follows. */
module App {
  import opened Common
  import Store

  const InitialRoom: string := "lobby"

  class App {
    const store: Store.SessionStore
    var isLoggedIn: bool
    var selectedRoom: string

    /** The chat view is shown at start exactly when the hydrated token is
        truthy; the pane follows the lobby. */
    constructor (store: Store.SessionStore)
      ensures this.store == store
      ensures isLoggedIn <==> Store.Truthy(store.token)
      ensures selectedRoom == InitialRoom
    {
      this.store := store;
      isLoggedIn := Store.Truthy(store.token);
      selectedRoom := InitialRoom;
    }

    /** `handleRoomSelected`, the panel's `onRoomSelected`. */
    method HandleRoomSelected(room: string)
      modifies this`selectedRoom
      ensures selectedRoom == room
    {
      selectedRoom := room;
    }

    /** `logoutClicked`: the store logs out, then the login form is shown. */
    method LogoutClicked()
      requires store.Valid()
      modifies this`isLoggedIn, store
      ensures store.Valid() && !isLoggedIn
      ensures store.token == None && store.user == None && store.rooms == []
      ensures store.storage == old(store.storage) - {Store.TokenKey, Store.RoomsKey}
      ensures selectedRoom == old(selectedRoom)
    {
      store.Logout();
      isLoggedIn := false;
    }

    /** The login form's `onLogin`. */
    method OnLogin()
      modifies this`isLoggedIn
      ensures isLoggedIn
    {
      isLoggedIn := true;
    }
  }

  /** Logging out and then reloading the page: the new shell starts on the
      login form with an empty room list. */
  method LogoutThenReload(app: App) returns (reloaded: App)
    requires app.store.Valid()
    modifies app, app.store
    ensures !reloaded.isLoggedIn && reloaded.store.rooms == []
    ensures reloaded.selectedRoom == InitialRoom
  {
    app.LogoutClicked();
    Store.HydrateAfterLogout(old(app.store.storage));
    var store := new Store.SessionStore(app.store.storage);
    reloaded := new App(store);
  }
}
