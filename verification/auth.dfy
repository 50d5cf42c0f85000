/** The authentication slice (src/redux/LogInSlice.js): five fields and two
    reducers, `loginSuccess` and `logout`. */
module Auth {
  import opened Wrappers

  /** The signed-in user as the server returns it, kept as a string record. */
  datatype User = User(fields: map<string, string>)

  /** The slice's state as a value; `None` stands for `null`. */
  datatype AuthState = AuthState(
    token: Option<string>,
    tokenExpiration: Option<string>,
    user: Option<User>,
    isAuthenticated: bool,
    islogin: bool)

  const InitialState := AuthState(None, None, None, false, false)

  /** The payload of `loginSuccess`. */
  datatype LoginPayload = LoginPayload(token: Option<string>, tokenExpiration: Option<string>, user: Option<User>)

  datatype Action = LoginSuccess(payload: LoginPayload) | Logout

  /** The reducer as a function of the previous state and the action. */
  function Reduce(s: AuthState, action: Action): (r: AuthState)
    ensures r.isAuthenticated == r.islogin
    ensures r.isAuthenticated <==> action.LoginSuccess?
    ensures action.Logout? ==> r == InitialState
    ensures action.LoginSuccess? ==>
      && r.token == action.payload.token
      && r.tokenExpiration == action.payload.tokenExpiration
      && r.user == action.payload.user
  {
    match action
    case LoginSuccess(p) => s.(token := p.token, tokenExpiration := p.tokenExpiration, user := p.user,
                               isAuthenticated := true, islogin := true)
    case Logout => s.(token := None, tokenExpiration := None, user := None,
                      isAuthenticated := false, islogin := false)
  }

  /** The state reached from `s` by dispatching `actions` in order. */
  function Replay(s: AuthState, actions: seq<Action>): AuthState
  {
    if actions == [] then s
    else Reduce(Replay(s, actions[..|actions| - 1]), actions[|actions| - 1])
  }

  /** From the initial state, the two login flags agree after any sequence of
      actions, and the user is authenticated exactly when the last action was
      a successful login. */
  lemma ReplayKeepsFlagsInStep(actions: seq<Action>)
    ensures Replay(InitialState, actions).isAuthenticated == Replay(InitialState, actions).islogin
    ensures Replay(InitialState, actions).isAuthenticated <==> actions != [] && actions[|actions| - 1].LoginSuccess?
  {
  }

  /** Logging out twice is logging out once. */
  lemma LogoutIdempotent(s: AuthState)
    ensures Reduce(Reduce(s, Logout), Logout) == Reduce(s, Logout)
  {
  }

  /** A login followed by a logout leaves nothing of the payload behind. */
  lemma LoginThenLogout(s: AuthState, p: LoginPayload)
    ensures Replay(s, [LoginSuccess(p), Logout]) == InitialState
  {
    assert [LoginSuccess(p), Logout][..1] == [LoginSuccess(p)];
  }

  /** The slice object the store updates field by field. */
  class AuthSlice {
    var token: Option<string>
    var tokenExpiration: Option<string>
    var user: Option<User>
    var isAuthenticated: bool
    var islogin: bool

    function State(): AuthState
      reads this
    {
      AuthState(token, tokenExpiration, user, isAuthenticated, islogin)
    }

    ghost predicate Valid()
      reads this
    {
      isAuthenticated == islogin
    }

    constructor ()
      ensures Valid()
      ensures State() == InitialState
    {
      token := None;
      tokenExpiration := None;
      user := None;
      isAuthenticated := false;
      islogin := false;
    }

    /** `loginSuccess`: copies the three payload fields and marks the user
        as signed in. */
    method LoginSuccess(payload: LoginPayload)
      requires Valid()
      modifies this
      ensures Valid()
      ensures State() == Reduce(old(State()), Action.LoginSuccess(payload))
    {
      token := payload.token;
      tokenExpiration := payload.tokenExpiration;
      user := payload.user;
      isAuthenticated := true;
      islogin := true;
    }

    /** `logout`: every field back to its initial value. */
    method Logout()
      requires Valid()
      modifies this
      ensures Valid()
      ensures State() == InitialState
      ensures State() == Reduce(old(State()), Action.Logout)
    {
      token := None;
      tokenExpiration := None;
      user := None;
      isAuthenticated := false;
      islogin := false;
    }
  }
}
