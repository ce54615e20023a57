/**
 * The browser's key/value stores as the session code uses them:
 * `localStorage` holds the token, the user record and the role, and
 * `sessionStorage` holds the once-per-session welcome-toast flag.
 */
module Storage {
  import opened Common

  const TokenKey: string := "token"
  const UserKey: string := "user"
  const RoleKey: string := "role"
  const ToastShownKey: string := "dashboardToastShown"

  /** `storage.getItem(key)`: `null` when the key is absent. */
  function GetItem(m: map<string, string>, key: string): Option<string> {
    if key in m then Some(m[key]) else None
  }

  /** JavaScript truthiness of `getItem(key)`: present and not empty. */
  predicate IsSet(m: map<string, string>, key: string) {
    key in m && m[key] != ""
  }

  class BrowserStorage {
    var local: map<string, string>
    var session: map<string, string>

    constructor (local: map<string, string>, session: map<string, string>)
      ensures this.local == local && this.session == session
    {
      this.local := local;
      this.session := session;
    }
  }
}
