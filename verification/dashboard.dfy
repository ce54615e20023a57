/**
 * The dashboard page: the role comes from localStorage, an employee's
 * record is loaded from the stored user, and a welcome toast is shown at
 * most once per browser session.
 */
module Dashboard {
  import opened Common
  import opened Storage
  import opened UserJson
  import Login

  datatype Toast = NoToast | WelcomeAdmin | HelloEmployee(firstName: string)

  datatype View = LoadingView | AdminView | EmployeeView(firstName: Option<string>) | RoleNotRecognized

  /** The toast effect, as a function of the role, the loaded record and
      sessionStorage: the toast it shows and sessionStorage afterwards. */
  function ToastStep(role: Option<string>, employee: Option<User>, session: map<string, string>)
    : (r: (Toast, map<string, string>))
    ensures IsSet(session, ToastShownKey) ==> r == (NoToast, session)
    ensures r.0 == NoToast ==> r.1 == session
    ensures r.0 != NoToast ==> r.1 == session[ToastShownKey := "true"]
    ensures r.0 == WelcomeAdmin <==> !IsSet(session, ToastShownKey) && role == Some("ADMIN")
    ensures r.0.HelloEmployee? <==>
      !IsSet(session, ToastShownKey) && role == Some("EMPLOYEE") && employee.Some?
  {
    if IsSet(session, ToastShownKey) then (NoToast, session)
    else if role == Some("ADMIN") then (WelcomeAdmin, session[ToastShownKey := "true"])
    else if role == Some("EMPLOYEE") && employee.Some? then
      (HelloEmployee(employee.value.firstName), session[ToastShownKey := "true"])
    else (NoToast, session)
  }

  /** Once a toast has been shown, no later run of the effect in the same
      session shows another, whatever the role and record then are. */
  lemma ToastAtMostOnce(role: Option<string>, employee: Option<User>, session: map<string, string>,
                        role': Option<string>, employee': Option<User>)
    requires ToastStep(role, employee, session).0 != NoToast
    ensures ToastStep(role', employee', ToastStep(role, employee, session).1).0 == NoToast
  {
    assert IsSet(ToastStep(role, employee, session).1, ToastShownKey);
  }

  /** An employee whose record has not been loaded is not greeted, and the
      flag stays clear so that the greeting comes once the record arrives. */
  lemma EmployeeWaitsForRecord(session: map<string, string>, u: User)
    requires !IsSet(session, ToastShownKey)
    ensures ToastStep(Some("EMPLOYEE"), None, session) == (NoToast, session)
    ensures ToastStep(Some("EMPLOYEE"), Some(u), session).0 == HelloEmployee(u.firstName)
  {
  }

  function ViewOf(role: Option<string>, loading: bool, employee: Option<User>): (v: View)
    ensures v == LoadingView <==> role == Some("EMPLOYEE") && loading
    ensures v == AdminView <==> role == Some("ADMIN")
    ensures v == RoleNotRecognized <==> role != Some("ADMIN") && role != Some("EMPLOYEE")
  {
    if role == Some("EMPLOYEE") && loading then LoadingView
    else if role == Some("ADMIN") then AdminView
    else if role == Some("EMPLOYEE") then
      EmployeeView(if employee.Some? then Some(employee.value.firstName) else None)
    else RoleNotRecognized
  }

  class DashboardPage {
    const role: Option<string>
    var employee: Option<User>
    var loading: bool

    constructor (local: map<string, string>)
      ensures role == GetItem(local, RoleKey)
      ensures employee == None && loading
    {
      role := GetItem(local, RoleKey);
      employee := None;
      loading := true;
    }

    /** The load effect: an employee's record is read from the stored
        user; loading ends for every role. */
    method LoadEffect(local: map<string, string>)
      modifies this
      ensures !loading
      ensures role == Some("EMPLOYEE") && IsSet(local, UserKey) ==> employee == Parse(local[UserKey])
      ensures !(role == Some("EMPLOYEE") && IsSet(local, UserKey)) ==> employee == old(employee)
    {
      if role == Some("EMPLOYEE") {
        if IsSet(local, UserKey) {
          employee := Parse(local[UserKey]);
        }
        loading := false;
      } else {
        loading := false;
      }
    }

    method ToastEffect(store: BrowserStorage) returns (toast: Toast)
      modifies store
      ensures (toast, store.session) == ToastStep(role, employee, old(store.session))
      ensures store.local == old(store.local)
    {
      if IsSet(store.session, ToastShownKey) {
        toast := NoToast;
        return;
      }
      toast := NoToast;
      if role == Some("ADMIN") {
        toast := WelcomeAdmin;
        store.session := store.session[ToastShownKey := "true"];
      }
      if role == Some("EMPLOYEE") && employee.Some? {
        toast := HelloEmployee(employee.value.firstName);
        store.session := store.session[ToastShownKey := "true"];
      }
    }

    function View(): View
      reads this
    {
      ViewOf(role, loading, employee)
    }
  }

  /** An employee signing in fresh is greeted by first name, and the view
      after loading is the welcome card for that employee. */
  method FirstEmployeeVisit(u: User) returns (toast: Toast, view: View)
    requires u.role == "EMPLOYEE"
    ensures toast == HelloEmployee(u.firstName)
    ensures view == EmployeeView(Some(u.firstName))
  {
    var store := new BrowserStorage(map[], map[]);
    var _ := Login.HandleLogin(store, Login.LoginOk("t", u));
    Login.SignedInStores(map[], "t", u);
    var page := new DashboardPage(store.local);
    assert Stringify(u) != "";
    page.LoadEffect(store.local);
    toast := page.ToastEffect(store);
    view := page.View();
  }
}
