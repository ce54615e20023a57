/**
 * The sign-in handler: on success it writes the token, the user record
 * and the role to localStorage and then goes to the dashboard; on failure
 * it writes nothing and shows a message.
 */
module Login {
  import opened Common
  import opened Storage
  import opened UserJson

  /** What `loginUser` yields: the response body, or the error it throws
      with the server's optional `message`. */
  datatype LoginResponse = LoginOk(token: string, user: User) | LoginError(message: Option<string>)

  /** Navigation to the dashboard, or a failure toast. */
  datatype LoginOutcome = Navigate(route: string) | ErrorToast(message: string)

  /** `error.response?.data?.message || "Login failed."`: the server's
      message when it has one that is not empty, the fixed text otherwise. */
  function FailureMessage(serverMessage: Option<string>): (m: string)
    ensures m != ""
    ensures m == "Login failed." || Some(m) == serverMessage
    ensures serverMessage.Some? && serverMessage.value != "" ==> m == serverMessage.value
  {
    match serverMessage
    case Some(msg) => if msg != "" then msg else "Login failed."
    case None => "Login failed."
  }

  /** localStorage after a successful sign-in. */
  function SignedIn(local: map<string, string>, token: string, u: User): map<string, string> {
    local[TokenKey := token][UserKey := Stringify(u)][RoleKey := u.role]
  }

  method HandleLogin(store: BrowserStorage, response: LoginResponse) returns (outcome: LoginOutcome)
    modifies store
    ensures store.session == old(store.session)
    ensures response.LoginOk? ==>
      store.local == SignedIn(old(store.local), response.token, response.user) &&
      outcome == Navigate("/dashboard")
    ensures response.LoginError? ==>
      store.local == old(store.local) && outcome == ErrorToast(FailureMessage(response.message))
  {
    match response
    case LoginOk(token, user) =>
      store.local := store.local[TokenKey := token];
      store.local := store.local[UserKey := Stringify(user)];
      store.local := store.local[RoleKey := user.role];
      outcome := Navigate("/dashboard");
    case LoginError(message) =>
      outcome := ErrorToast(FailureMessage(message));
  }

  /** After sign-in the three keys hold the token, the record and the
      server's role, and every other key is as before. */
  lemma SignedInStores(local: map<string, string>, token: string, u: User)
    ensures GetItem(SignedIn(local, token, u), TokenKey) == Some(token)
    ensures GetItem(SignedIn(local, token, u), RoleKey) == Some(u.role)
    ensures UserKey in SignedIn(local, token, u) && Parse(SignedIn(local, token, u)[UserKey]) == Some(u)
    ensures forall k | k != TokenKey && k != UserKey && k != RoleKey ::
      GetItem(SignedIn(local, token, u), k) == GetItem(local, k)
  {
    ParseStringify(u);
  }
}
