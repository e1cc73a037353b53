/** The authentication context (src/contexts/AuthContext.js): the pure session reducer and what
    it guarantees, and the provider whose `initialize`, `login`, `register` and `logout` write or
    remove the persisted token and dispatch to that reducer. */
module AuthContext {
  import opened Api
  import opened Values

  datatype AuthState = AuthState(isInitialized: bool, isAuthenticated: bool, user: Value)

  const InitialState: AuthState := AuthState(false, false, Null)

  /** The type strings of the five actions the reducer knows. */
  const KnownTypes: set<string> := {
    "AUTH.INITIALIZE", "AUTH.LOGIN_SUCCESS", "AUTH.REGISTER_SUCCESS", "AUTH.LOGOUT", "AUTH.UPDATE_PROFILE"
  }

  /** Any other action type string. */
  type UnknownType = k: string | k !in KnownTypes witness ""

  /** The five actions the reducer knows, and an action of any other type. */
  datatype Action =
    | Initialize(authenticated: bool, user: Value)
    | LoginSuccess(user: Value)
    | RegisterSuccess(user: Value)
    | Logout
    | UpdateProfile(profile: map<string, Value>)
    | Other(kind: UnknownType)

  /** The profile fields UPDATE_PROFILE copies from its payload into the user. */
  const ProfileFields: set<string> := {
    "name", "avatarUrl", "coverUrl", "aboutMe", "city", "country", "company", "jobTitle",
    "linkedinLink", "facebookLink", "instagramLink", "twitterLink", "friendCount", "postCount"
  }

  /** The own fields that spreading `v` contributes: those of an object, none for `null`. */
  function ObjectFields(v: Value): map<string, Value> {
    if v.Obj? then v.fields else map[]
  }

  /** `payload[f]` after destructuring: a missing field reads as `undefined`. */
  function FieldOf(payload: map<string, Value>, f: string): Value {
    if f in payload then payload[f] else Undefined
  }

  function Reduce(s: AuthState, a: Action): AuthState {
    match a
    case Initialize(authenticated, user) => s.(isInitialized := true, isAuthenticated := authenticated, user := user)
    case LoginSuccess(user) => s.(isAuthenticated := true, user := user)
    case RegisterSuccess(user) => s.(isAuthenticated := true, user := user)
    case Logout => s.(isAuthenticated := false, user := Null)
    case UpdateProfile(profile) =>
      s.(user := Obj(ObjectFields(s.user) + map f | f in ProfileFields :: FieldOf(profile, f)))
    case Other(_) => s
  }

  /** The state after dispatching `actions` in order. */
  function ReduceAll(s: AuthState, actions: seq<Action>): AuthState
    decreases |actions|
  {
    if actions == [] then s else ReduceAll(Reduce(s, actions[0]), actions[1..])
  }

  // ---------------------------------------------------------------- reducer properties

  /** INITIALIZE sets `isInitialized`; no other action changes it. */
  lemma ReduceInitialized(s: AuthState, a: Action)
    ensures Reduce(s, a).isInitialized == (s.isInitialized || a.Initialize?)
    ensures a.Initialize? ==> Reduce(s, a).isAuthenticated == a.authenticated && Reduce(s, a).user == a.user
  {
  }

  /** After any run of actions the session is initialized exactly when it was before or some
      action was an INITIALIZE: once true, `isInitialized` stays true. */
  lemma {:induction false} ReduceAllInitialized(s: AuthState, actions: seq<Action>)
    ensures ReduceAll(s, actions).isInitialized <==>
            s.isInitialized || exists i :: 0 <= i < |actions| && actions[i].Initialize?
    decreases |actions|
  {
    if actions != [] {
      var next := Reduce(s, actions[0]);
      ReduceAllInitialized(next, actions[1..]);
      if exists i :: 0 <= i < |actions[1..]| && actions[1..][i].Initialize? {
        var i :| 0 <= i < |actions[1..]| && actions[1..][i].Initialize?;
        assert actions[i + 1].Initialize?;
      }
      if exists i :: 0 <= i < |actions| && actions[i].Initialize? {
        var i :| 0 <= i < |actions| && actions[i].Initialize?;
        if i > 0 {
          assert actions[1..][i - 1].Initialize?;
        }
      }
    }
  }

  /** A successful login or registration authenticates the payload's user and leaves
      `isInitialized` alone. */
  lemma LoginAndRegisterAuthenticate(s: AuthState, user: Value)
    ensures Reduce(s, LoginSuccess(user)) == AuthState(s.isInitialized, true, user)
    ensures Reduce(s, RegisterSuccess(user)) == AuthState(s.isInitialized, true, user)
  {
  }

  /** Logging out clears the user and leaves `isInitialized` alone. */
  lemma LogoutClearsUser(s: AuthState)
    ensures Reduce(s, Logout) == AuthState(s.isInitialized, false, Null)
  {
  }

  /** UPDATE_PROFILE overwrites exactly the listed profile fields of the user (a field missing
      from the payload becomes `undefined`), keeps every other user field, and leaves both flags
      unchanged. */
  lemma UpdateProfileOverwritesProfileFields(s: AuthState, profile: map<string, Value>)
    ensures var r := Reduce(s, UpdateProfile(profile));
      && r.isInitialized == s.isInitialized && r.isAuthenticated == s.isAuthenticated
      && r.user.Obj?
      && (forall f :: f in ProfileFields ==> f in r.user.fields && r.user.fields[f] == FieldOf(profile, f))
      && (forall f :: f in ProfileFields && f !in profile ==> r.user.fields[f] == Undefined)
      && (forall f :: f !in ProfileFields ==> (f in r.user.fields <==> f in ObjectFields(s.user)))
      && (forall f :: f !in ProfileFields && f in ObjectFields(s.user) ==> r.user.fields[f] == ObjectFields(s.user)[f])
  {
  }

  /** An action of an unknown type returns the state unchanged. */
  lemma OtherActionsKeepState(s: AuthState, kind: UnknownType)
    ensures Reduce(s, Other(kind)) == s
  {
  }

  /** The reducer does not check the session: a profile update on any logged-out session keeps it
      logged out but gives it a user object holding the profile fields. */
  lemma UpdateProfileWhileLoggedOut(s: AuthState, profile: map<string, Value>)
    requires !s.isAuthenticated
    ensures var r := Reduce(s, UpdateProfile(profile));
      !r.isAuthenticated && r.user.Obj? && ProfileFields <= r.user.fields.Keys
  {
  }

  // ---------------------------------------------------------------- provider

  /** The localStorage key of the persisted token. */
  const TokenKey: string := "accessToken"

  /** `if (accessToken)`: an absent token and the empty string are falsy. */
  predicate Truthy(token: Option<string>) {
    token.Some? && token.value != ""
  }

  /** `localStorage.getItem(TokenKey)`: `null` when nothing is stored. */
  function StoredToken(storage: map<string, string>): (r: Option<string>)
    ensures r.Some? <==> TokenKey in storage
    ensures r.Some? ==> r.value == storage[TokenKey]
  {
    if TokenKey in storage then Some(storage[TokenKey]) else None
  }

  /** The body `{user, accessToken}` of `POST /auth/login` and `POST /users`. */
  datatype SessionData = SessionData(user: Value, accessToken: Option<string>)

  class AuthProvider {
    var state: AuthState
    /** `window.localStorage`. */
    var storage: map<string, string>

    constructor (storage: map<string, string>)
      ensures state == InitialState && this.storage == storage
    {
      state := InitialState;
      this.storage := storage;
    }

    method Dispatch(a: Action)
      modifies this`state
      ensures state == Reduce(old(state), a)
    {
      state := Reduce(state, a);
    }

    /** `setSession`: stores a truthy token, removes the stored one otherwise. */
    method SetSession(token: Option<string>)
      modifies this`storage
      ensures Truthy(token) ==> storage == old(storage)[TokenKey := token.value]
      ensures !Truthy(token) ==> storage == old(storage) - {TokenKey}
      ensures StoredToken(storage) == if Truthy(token) then token else None
    {
      if Truthy(token) {
        storage := storage[TokenKey := token.value];
      } else {
        storage := storage - {TokenKey};
      }
    }

    /** `initialize`: authenticated only when a truthy stored token is valid and `GET /users/me`
        succeeds; every other path (including a token that fails to decode, which `isValidToken`
        reports as invalid here) removes the token and ends logged out. */
    method Initialize(isValidToken: string -> bool, me: ApiResult<Value>)
      modifies this
      ensures state.isInitialized
      ensures var token := StoredToken(old(storage));
        state.isAuthenticated <==> Truthy(token) && isValidToken(token.value) && me.Success?
      ensures state.isAuthenticated ==> state.user == me.data && storage == old(storage)
      ensures !state.isAuthenticated ==> state.user == Null && storage == old(storage) - {TokenKey}
      ensures state == Reduce(old(state), Action.Initialize(state.isAuthenticated, state.user))
    {
      var token := StoredToken(storage);
      if Truthy(token) && isValidToken(token.value) {
        SetSession(token);
        assert storage == old(storage);
        if me.Success? {
          Dispatch(Action.Initialize(true, me.data));
        } else {
          SetSession(None);
          Dispatch(Action.Initialize(false, Null));
        }
      } else {
        SetSession(None);
        Dispatch(Action.Initialize(false, Null));
      }
    }

    /** `login` and `register` share this shape: a failed request rejects with its message and
        changes nothing; otherwise the returned token is set and the user authenticated. */
    method SignIn(response: ApiResult<SessionData>, registering: bool) returns (thrown: Option<string>)
      modifies this
      ensures response.Failure? ==> thrown == Some(response.message) && state == old(state) && storage == old(storage)
      ensures response.Success? ==>
        && thrown == None
        && state == Reduce(old(state), if registering then RegisterSuccess(response.data.user) else LoginSuccess(response.data.user))
        && storage == (if Truthy(response.data.accessToken) then old(storage)[TokenKey := response.data.accessToken.value]
                       else old(storage) - {TokenKey})
        && StoredToken(storage) == (if Truthy(response.data.accessToken) then response.data.accessToken else None)
    {
      if response.Failure? {
        return Some(response.message);
      }
      SetSession(response.data.accessToken);
      if registering {
        Dispatch(RegisterSuccess(response.data.user));
      } else {
        Dispatch(LoginSuccess(response.data.user));
      }
      thrown := None;
    }

    method Login(response: ApiResult<SessionData>) returns (thrown: Option<string>)
      modifies this
      ensures response.Failure? ==> thrown == Some(response.message) && state == old(state) && storage == old(storage)
      ensures response.Success? ==>
        && thrown == None
        && state == AuthState(old(state).isInitialized, true, response.data.user)
        && storage == (if Truthy(response.data.accessToken) then old(storage)[TokenKey := response.data.accessToken.value]
                       else old(storage) - {TokenKey})
        && StoredToken(storage) == (if Truthy(response.data.accessToken) then response.data.accessToken else None)
    {
      thrown := SignIn(response, false);
    }

    method Register(response: ApiResult<SessionData>) returns (thrown: Option<string>)
      modifies this
      ensures response.Failure? ==> thrown == Some(response.message) && state == old(state) && storage == old(storage)
      ensures response.Success? ==>
        && thrown == None
        && state == AuthState(old(state).isInitialized, true, response.data.user)
        && storage == (if Truthy(response.data.accessToken) then old(storage)[TokenKey := response.data.accessToken.value]
                       else old(storage) - {TokenKey})
        && StoredToken(storage) == (if Truthy(response.data.accessToken) then response.data.accessToken else None)
    {
      thrown := SignIn(response, true);
    }

    /** `logout`: no request; the token is removed and LOGOUT dispatched. */
    method Logout()
      modifies this
      ensures storage == old(storage) - {TokenKey}
      ensures state == AuthState(old(state).isInitialized, false, Null)
    {
      SetSession(None);
      Dispatch(Action.Logout);
    }
  }
}
