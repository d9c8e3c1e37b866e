/**
  The access guards that wrap every route (`login_required`,
  `employee_required`, `customer_required`) and the role dispatch of the
  root page. All of them only read the session.
 */
module Access {
  import opened Types

  /** The two session keys the guards look at. `None` means the key is not
      in the session. */
  datatype Session = Session(username: Option<string>, usertype: Option<string>)

  /** Why a guard refused: no login (sent to the login page) or the wrong
      role (sent back to the root page). */
  datatype Denial = NotAuthenticated | Forbidden

  datatype Gate = Pass | Deny(denial: Denial)

  /** What a guarded route answers: the wrapped view's own response, or a
      redirect carrying the reason. */
  datatype Response<T> = Ran(value: T) | Redirected(denial: Denial)

  /** The pages the root route sends a visitor to. `MissingUsertype` is the
      KeyError raised when `username` is set but `usertype` is not. */
  datatype Page = LoginPage | EmployeeDashboard | CustomerDashboard | MissingUsertype

  /** `login_required`: the wrapped view runs only when a username is in the
      session. */
  function LoginRequired(s: Session): (g: Gate)
    ensures g == Pass <==> s.username.Some?
    ensures g.Deny? ==> g.denial == NotAuthenticated
  {
    if s.username.None? then Deny(NotAuthenticated) else Pass
  }

  /** Decorator stacking: the outer guard decides first, the inner one is
      consulted only when the outer one lets the call through. */
  function Within(outer: Gate, inner: Gate): Gate
  {
    if outer.Deny? then outer else inner
  }

  /** The role check shared by `employee_required` and `customer_required`,
      wrapped in `login_required`. `session.get('usertype')` yields None
      when the key is missing, which never equals a role name. */
  function RoleRequired(s: Session, role: string): (g: Gate)
    ensures g == Pass <==> s.username.Some? && s.usertype == Some(role)
    ensures g == Deny(NotAuthenticated) <==> s.username.None?
    ensures g == Deny(Forbidden) <==> s.username.Some? && s.usertype != Some(role)
  {
    Within(LoginRequired(s), if s.usertype != Some(role) then Deny(Forbidden) else Pass)
  }

  function EmployeeRequired(s: Session): (g: Gate)
    ensures g == Pass <==> s.username.Some? && s.usertype == Some("Employee")
    ensures g == Deny(NotAuthenticated) <==> s.username.None?
  {
    RoleRequired(s, "Employee")
  }

  function CustomerRequired(s: Session): (g: Gate)
    ensures g == Pass <==> s.username.Some? && s.usertype == Some("Customer")
    ensures g == Deny(NotAuthenticated) <==> s.username.None?
  {
    RoleRequired(s, "Customer")
  }

  /** A decorated view: the view's response when the gate passes, a redirect
      otherwise. */
  function Guarded<T>(gate: Gate, view: () -> T): (r: Response<T>)
    ensures r.Ran? <==> gate == Pass
    ensures r.Ran? ==> r.value == view()
    ensures r.Redirected? ==> gate == Deny(r.denial)
  {
    match gate
    case Pass => Ran(view())
    case Deny(d) => Redirected(d)
  }

  /** No guarded view runs without a login, and neither role's views run for
      the other role. */
  lemma GuardsSeparateRoles<T>(s: Session, view: () -> T)
    ensures s.username.None? ==>
      Guarded(EmployeeRequired(s), view) == Redirected(NotAuthenticated) &&
      Guarded(CustomerRequired(s), view) == Redirected(NotAuthenticated)
    ensures !(Guarded(EmployeeRequired(s), view).Ran? && Guarded(CustomerRequired(s), view).Ran?)
    ensures s.username.Some? && s.usertype == Some("Customer") ==>
      Guarded(CustomerRequired(s), view) == Ran(view()) &&
      Guarded(EmployeeRequired(s), view) == Redirected(Forbidden)
  {
  }

  /** The root route: dispatch on the role of a logged-in user. */
  function Home(s: Session): (p: Page)
    ensures p == EmployeeDashboard <==> EmployeeRequired(s) == Pass
    ensures p == CustomerDashboard <==> CustomerRequired(s) == Pass
    ensures p == MissingUsertype <==> s.username.Some? && s.usertype.None?
    ensures p == LoginPage <==>
      s.username.None? || (s.usertype.Some? && s.usertype.value != "Employee" && s.usertype.value != "Customer")
  {
    if s.username.Some? then
      match s.usertype
      case None => MissingUsertype
      case Some(t) =>
        if t == "Employee" then EmployeeDashboard
        else if t == "Customer" then CustomerDashboard
        else LoginPage
    else
      LoginPage
  }
}
