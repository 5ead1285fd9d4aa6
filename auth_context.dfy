/** The client's session state (frontend/src/context/AuthContext.tsx): the
    React state `user` and `token`, the `token` entry of localStorage and the
    default `Authorization` header of the HTTP client. Each handler is one
    method; an awaited request is an argument holding its outcome (None when
    the request was rejected or failed). */
module AuthContext {
  import opened Wrappers

  datatype User = User(id: int, email: string, name: string)

  /** The body of a successful POST /auth/login or /auth/register. */
  datatype AuthResponse = AuthResponse(token: string, user: User)

  function Bearer(token: string): string {
    "Bearer " + token
  }

  class Session {
    var user: Option<User>
    var token: Option<string>
    /** localStorage.getItem('token'). */
    var stored: Option<string>
    /** api.defaults.headers.common['Authorization']. */
    var authHeader: Option<string>

    /** Whenever the context holds a token, the same token is persisted and
        sent with every request. */
    ghost predicate Valid()
      reads this
    {
      token.Some? ==> stored == token && authHeader == Some(Bearer(token.value))
    }

    /** `!!token`: a token is held and it is not the empty string. */
    predicate IsAuthenticated()
      reads this
    {
      token.Some? && token.value != ""
    }

    /** A fresh page: nothing in React state, no header yet, and whatever
        localStorage kept from an earlier visit. */
    constructor (persisted: Option<string>)
      ensures Valid()
      ensures user == None && token == None && authHeader == None && stored == persisted
    {
      user := None;
      token := None;
      stored := persisted;
      authHeader := None;
    }

    /** The mount effect: a non-empty stored token is adopted and put in the
        header, and the profile fetch starts; otherwise nothing happens. */
    method Mount() returns (fetching: bool)
      requires Valid()
      modifies this
      ensures Valid()
      ensures fetching <==> old(stored).Some? && old(stored).value != ""
      ensures fetching ==>
        && token == old(stored)
        && authHeader == Some(Bearer(old(stored).value))
        && user == old(user)
        && stored == old(stored)
      ensures !fetching ==> unchanged(this)
    {
      if stored.Some? && stored.value != "" {
        token := stored;
        authHeader := Some(Bearer(stored.value));
        fetching := true;
      } else {
        fetching := false;
      }
    }

    /** fetchUser settles: the profile is adopted, or the stored token and
        `token` are dropped while `user` and the header stay as they were. */
    method FetchUserDone(profile: Option<User>)
      requires Valid()
      modifies this
      ensures Valid()
      ensures profile.Some? ==>
        user == profile && token == old(token) && stored == old(stored) && authHeader == old(authHeader)
      ensures profile.None? ==>
        user == old(user) && token == None && stored == None && authHeader == old(authHeader)
      ensures profile.None? ==> !IsAuthenticated()
    {
      if profile.Some? {
        user := profile;
      } else {
        stored := None;
        token := None;
      }
    }

    /** The common tail of `login` and `register`: every assignment follows
        the awaited request, so a failed request leaves the state as it was. */
    method Adopt(response: Option<AuthResponse>)
      requires Valid()
      modifies this
      ensures Valid()
      ensures response.None? ==> unchanged(this)
      ensures response.Some? ==>
        && token == Some(response.value.token)
        && user == Some(response.value.user)
        && stored == Some(response.value.token)
        && authHeader == Some(Bearer(response.value.token))
      ensures response.Some? ==> (IsAuthenticated() <==> response.value.token != "")
    {
      if response.Some? {
        var r := response.value;
        token := Some(r.token);
        user := Some(r.user);
        stored := Some(r.token);
        authHeader := Some(Bearer(r.token));
      }
    }

    /** login(email, password) once POST /auth/login has settled. */
    method Login(response: Option<AuthResponse>)
      requires Valid()
      modifies this
      ensures Valid()
      ensures response.None? ==> unchanged(this)
      ensures response.Some? ==>
        && token == Some(response.value.token)
        && user == Some(response.value.user)
        && stored == Some(response.value.token)
        && authHeader == Some(Bearer(response.value.token))
    {
      Adopt(response);
    }

    /** register(email, password, name) once POST /auth/register has settled. */
    method Register(response: Option<AuthResponse>)
      requires Valid()
      modifies this
      ensures Valid()
      ensures response.None? ==> unchanged(this)
      ensures response.Some? ==>
        && token == Some(response.value.token)
        && user == Some(response.value.user)
        && stored == Some(response.value.token)
        && authHeader == Some(Bearer(response.value.token))
    {
      Adopt(response);
    }

    /** logout(): all four pieces of state are cleared. */
    method Logout()
      requires Valid()
      modifies this
      ensures Valid()
      ensures token == None && user == None && stored == None && authHeader == None
      ensures !IsAuthenticated()
    {
      token := None;
      user := None;
      stored := None;
      authHeader := None;
    }
  }

  /** An authenticated session sends its own token with every request. */
  lemma AuthenticatedSendsToken(s: Session)
    requires s.Valid() && s.IsAuthenticated()
    ensures s.authHeader == Some(Bearer(s.token.value)) && s.stored == s.token
  {
  }

  /** A login survives a page reload: a new page mounted over the persisted
      token holds the same token and sends it. */
  method ReloadAfterLogin(s: Session, response: AuthResponse) returns (reloaded: Session, fetching: bool)
    requires s.Valid()
    modifies s
    ensures response.token != "" ==>
      && fetching
      && reloaded.token == Some(response.token)
      && reloaded.IsAuthenticated()
      && reloaded.authHeader == Some(Bearer(response.token))
    ensures response.token == "" ==> !fetching && !reloaded.IsAuthenticated()
  {
    s.Login(Some(response));
    reloaded := new Session(s.stored);
    fetching := reloaded.Mount();
  }

  /** After logout a reload finds nothing to restore. */
  method ReloadAfterLogout(s: Session) returns (reloaded: Session, fetching: bool)
    requires s.Valid()
    modifies s
    ensures !fetching && !reloaded.IsAuthenticated() && reloaded.authHeader == None
  {
    s.Logout();
    reloaded := new Session(s.stored);
    fetching := reloaded.Mount();
  }
}
