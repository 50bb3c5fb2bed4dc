/** The login form (client/src/components/LoginForm.jsx): the login/register
    mode toggle and the submit handler, an ordered sequence of service calls
    and store writes that stops at the first failure.  The user service is not
    modelled: what `registerUser` and `loginUser` resolved or threw is a
    parameter. */
module LoginForm {
  import opened Common
  import ChatApi
  import Store

  datatype Mode = Login | Register

  /** The mode after the switch button is clicked. */
  function Toggled(m: Mode): (r: Mode)
    ensures r != m
    ensures m == Login <==> r == Register
  {
    if m == Login then Register else Login
  }

  /** Two clicks come back to the starting mode. */
  lemma ToggleTwice(m: Mode)
    ensures Toggled(Toggled(m)) == m
  {
  }

  const LobbyRoom: string := "lobby"

  /** The steps of a submit, in the order the handler takes them. */
  datatype Step =
    | RegisterCall(fullName: string, username: string, password: string)
    | LoginCall(username: string, password: string)
    | SetTokenStep(token: string)
    | SetUserStep(user: Store.User)
    | CreateLobbyCall(request: ChatApi.CreateRoomRequest)
    | AddRoomStep(room: string)
    | OnLoginCall

  /** The steps before login: a registration, in register mode. */
  function RegisterSteps(mode: Mode, fullName: string, username: string, password: string): (steps: seq<Step>)
    ensures mode.Login? <==> steps == []
  {
    if mode == Register then [RegisterCall(fullName, username, password)] else []
  }

  /** The steps once `loginUser` resolved with `token`: the store writes,
      the lobby creation, the lobby add, and `onLogin` last. */
  function LoggedInSteps(username: string, token: string): (steps: seq<Step>)
    ensures |steps| == 5 && steps[4] == OnLoginCall
    ensures steps[0] == SetTokenStep(token) && steps[3] == AddRoomStep(LobbyRoom)
  {
    [ SetTokenStep(token)
    , SetUserStep(Store.User(username))
    , CreateLobbyCall(ChatApi.CreateRoomRequestFor(Some(token), LobbyRoom))
    , AddRoomStep(LobbyRoom)
    , OnLoginCall ]
  }

  /** Five steps appended one by one form the five-step trace. */
  lemma Appended(a: Step, b: Step, c: Step, d: Step, e: Step)
    ensures [a] + [b] + [c] + [d] + [e] == [a, b, c, d, e]
  {
  }

  class LoginForm {
    const store: Store.SessionStore
    var username: string
    var password: string
    var fullName: string
    var mode: Mode
    var error: string

    constructor (store: Store.SessionStore)
      ensures this.store == store
      ensures mode == Login && error == ""
      ensures username == "" && password == "" && fullName == ""
    {
      this.store := store;
      username := "";
      password := "";
      fullName := "";
      mode := Login;
      error := "";
    }

    method ToggleMode()
      modifies this`mode
      ensures mode == Toggled(old(mode))
    {
      mode := if mode == Login then Register else Login;
    }

    /** `handleLoginOrRegister`.  `registered` is what `registerUser` gave
        (consulted only in register mode), `loggedIn` what `loginUser` gave.
        Whatever `createRoom(token, 'lobby')` does is swallowed, so its outcome
        changes nothing. */
    method HandleLoginOrRegister(registered: Result<(), string>, loggedIn: Result<string, string>, lobby: ChatApi.HttpOutcome)
      returns (steps: seq<Step>)
      requires store.Valid()
      modifies this`error, store
      ensures store.Valid()
      ensures mode.Register? && registered.Err? ==>
        && steps == [RegisterCall(fullName, username, password)]
        && error == registered.error
        && store.token == old(store.token) && store.user == old(store.user)
        && store.rooms == old(store.rooms) && store.storage == old(store.storage)
      ensures (mode.Login? || registered.Ok?) && loggedIn.Err? ==>
        && steps == RegisterSteps(mode, fullName, username, password) + [LoginCall(username, password)]
        && error == loggedIn.error
        && store.token == old(store.token) && store.user == old(store.user)
        && store.rooms == old(store.rooms) && store.storage == old(store.storage)
      ensures (mode.Login? || registered.Ok?) && loggedIn.Ok? ==>
        && steps == RegisterSteps(mode, fullName, username, password) + [LoginCall(username, password)]
                    + LoggedInSteps(username, loggedIn.value)
        && error == ""
        && store.token == Some(loggedIn.value)
        && store.user == Some(Store.User(username))
        && store.rooms == Store.WithRoom(old(store.rooms), LobbyRoom)
        && (NoDuplicates(old(store.rooms)) ==> Count(store.rooms, LobbyRoom) == 1)
    {
      var before := RegisterSteps(mode, fullName, username, password);
      if mode.Register? && registered.Err? {
        error := registered.error;
        return before;
      }
      var attempted := before + [LoginCall(username, password)];
      if loggedIn.Err? {
        error := loggedIn.error;
        return attempted;
      }
      var rest := CompleteLogin(loggedIn.value);
      steps := attempted + rest;
    }

    /** The part of the handler after `loginUser` resolved with `token`. */
    method CompleteLogin(token: string) returns (steps: seq<Step>)
      requires store.Valid()
      modifies this`error, store
      ensures store.Valid()
      ensures steps == LoggedInSteps(username, token)
      ensures error == ""
      ensures store.token == Some(token) && store.user == Some(Store.User(username))
      ensures store.rooms == Store.WithRoom(old(store.rooms), LobbyRoom)
      ensures NoDuplicates(old(store.rooms)) ==> Count(store.rooms, LobbyRoom) == 1
    {
      ghost var before := store.rooms;
      store.SetToken(Some(token));
      steps := [SetTokenStep(token)];
      store.SetUser(Some(Store.User(username)));
      steps := steps + [SetUserStep(Store.User(username))];
      error := "";
      // The lobby creation's outcome is ignored: a failure is swallowed.
      steps := steps + [CreateLobbyCall(ChatApi.CreateRoomRequestFor(Some(token), LobbyRoom))];
      store.AddRoom(LobbyRoom);
      steps := steps + [AddRoomStep(LobbyRoom)];
      steps := steps + [OnLoginCall];
      Appended(SetTokenStep(token), SetUserStep(Store.User(username)),
               CreateLobbyCall(ChatApi.CreateRoomRequestFor(Some(token), LobbyRoom)),
               AddRoomStep(LobbyRoom), OnLoginCall);
      if NoDuplicates(before) {
        CountOneIfUnique(store.rooms, LobbyRoom);
      }
    }
  }
}
