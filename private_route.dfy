/** The route guard of the staff pages, `client/src/components/
    PrivateRoute.jsx`: a stored token lets a visitor in until its expiry
    time, an expired or unreadable one is thrown away, and a signed-in user
    always gets in. */
module PrivateRoute {
  import opened Wrappers

  /** The stored token's payload as `JSON.parse(atob(token.split('.')[1]))`
      reads it: unreadable, or a payload whose `exp` (seconds since the
      epoch) may be missing. */
  datatype Decoded = Undecodable | Payload(exp: Option<int>)

  /** What the guard renders. */
  datatype Outcome = Loading | Allow | Redirect(to: string)

  const SignInPath := "/employee-sign-in"

  /** `tokenPayload.exp * 1000 > Date.now()`; a missing `exp` compares as
      `NaN`, which is never greater. */
  predicate Unexpired(d: Decoded, nowMs: int) {
    d.Payload? && d.exp.Some? && d.exp.value * 1000 > nowMs
  }

  /** Whether the check authenticates the stored `token`. */
  predicate Authenticated(token: Option<string>, d: Decoded, nowMs: int) {
    Truthy(token) && Unexpired(d, nowMs)
  }

  /** The stored token after the check: removed when it was there but did
      not authenticate. */
  function StoredAfter(token: Option<string>, d: Decoded, nowMs: int): (r: Option<string>)
    ensures r.Some? ==> r == token
  {
    if Truthy(token) && !Unexpired(d, nowMs) then None else token
  }

  /** The page rendered once the check has run. */
  function Access(currentUser: bool, isLoading: bool, isAuthenticated: bool): Outcome {
    if isLoading then Loading
    else if currentUser || isAuthenticated then Allow
    else Redirect(SignInPath)
  }

  /** Access is granted exactly to a signed-in user or to a stored token
      that has not expired; everyone else goes to the employee sign-in. */
  lemma AccessIff(currentUser: bool, token: Option<string>, d: Decoded, nowMs: int)
    ensures Access(currentUser, false, Authenticated(token, d, nowMs)) == Allow <==>
      currentUser || (Truthy(token) && d.Payload? && d.exp.Some? && d.exp.value * 1000 > nowMs)
    ensures Access(currentUser, false, Authenticated(token, d, nowMs)) != Allow ==>
      Access(currentUser, false, Authenticated(token, d, nowMs)) == Redirect("/employee-sign-in")
  {
  }

  /** A token that is not removed by a check still authenticates exactly as
      before when checked again at the same time; a removed one no longer
      does. */
  lemma CheckTwice(token: Option<string>, d: Decoded, nowMs: int)
    ensures StoredAfter(StoredAfter(token, d, nowMs), d, nowMs) == StoredAfter(token, d, nowMs)
    ensures Authenticated(StoredAfter(token, d, nowMs), d, nowMs) == Authenticated(token, d, nowMs)
  {
  }

  /** A token valid now was valid before, and one expired now stays
      expired. */
  lemma ExpiryIsFinal(d: Decoded, earlier: int, later: int)
    requires earlier <= later
    ensures Unexpired(d, later) ==> Unexpired(d, earlier)
    ensures !Unexpired(d, earlier) ==> !Unexpired(d, later)
  {
  }

  /** The guard's state and the browser storage entry `access_token`. */
  class RouteGuard {
    var storedToken: Option<string>
    var isLoading: bool
    var isAuthenticated: bool

    constructor(token: Option<string>)
      ensures storedToken == token && isLoading && !isAuthenticated
    {
      storedToken := token;
      isLoading := true;
      isAuthenticated := false;
    }

    /** The effect: `d` is what the stored token decodes to and `nowMs`
        the current time in milliseconds. */
    method CheckToken(d: Decoded, nowMs: int)
      modifies this
      ensures isAuthenticated == Authenticated(old(storedToken), d, nowMs)
      ensures storedToken == StoredAfter(old(storedToken), d, nowMs)
      ensures !isLoading
      ensures !Truthy(old(storedToken)) ==> !isAuthenticated && storedToken == old(storedToken)
      ensures Truthy(old(storedToken)) && Unexpired(d, nowMs) ==> isAuthenticated && storedToken == old(storedToken)
      ensures Truthy(old(storedToken)) && !Unexpired(d, nowMs) ==> !isAuthenticated && storedToken.None?
    {
      if Truthy(storedToken) {
        if d.Undecodable? {
          storedToken := None;
          isAuthenticated := false;
        } else if d.exp.Some? && d.exp.value * 1000 > nowMs {
          isAuthenticated := true;
        } else {
          storedToken := None;
          isAuthenticated := false;
        }
      } else {
        isAuthenticated := false;
      }
      isLoading := false;
    }

    /** What the guard renders for the current user's presence. */
    method Render(currentUser: bool) returns (o: Outcome)
      ensures o == Access(currentUser, isLoading, isAuthenticated)
      ensures isLoading ==> o == Loading
    {
      if isLoading {
        return Loading;
      }
      o := if currentUser || isAuthenticated then Allow else Redirect(SignInPath);
    }
  }
}
