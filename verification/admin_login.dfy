/**
 * The admin login screen: a visitor already holding an admin session is
 * sent on to the dashboard; otherwise both fields must be non-blank, and the
 * trimmed username and password must select exactly one row of `admins`,
 * whose public columns become the admin session.
 */
module AdminLogin {
  import opened Wrappers
  import opened Lists
  import opened Text
  import opened Tables
  import Session
  import opened Routing

  const MissingFieldsError := "Please enter both username and password"
  const BadCredentialsError := "Invalid admin credentials"

  /** The rows the query `.eq('username', u.trim()).eq('password', p.trim())` selects. */
  function Matches(admins: seq<AdminRow>, username: string, password: string): (r: seq<AdminRow>)
    ensures forall i :: 0 <= i < |r| ==> r[i] in admins && r[i].username == Trim(username) && r[i].password == Trim(password)
    ensures forall i :: 0 <= i < |admins| && admins[i].username == Trim(username) && admins[i].password == Trim(password) ==>
              admins[i] in r
  {
    Filter(admins, (a: AdminRow) => a.username == Trim(username) && a.password == Trim(password))
  }

  /** The session snapshot taken from the selected row: everything but the password. */
  function Snapshot(a: AdminRow): (r: Session.AdminInfo)
    ensures r.id == a.id && r.adminName == a.adminName && r.username == a.username
  {
    Session.AdminInfo(a.id, a.adminName, a.username)
  }

  datatype Outcome = Rejected(error: string) | Accepted(admin: AdminRow)

  /**
   * `handleLogin` as a decision: blank fields first, then the `.single()`
   * query, which fails when it fails outright (`queryFails`) or when it does
   * not select exactly one row.
   */
  function Attempt(admins: seq<AdminRow>, username: string, password: string, queryFails: bool): (o: Outcome)
    ensures IsBlank(username) || IsBlank(password) ==> o == Rejected(MissingFieldsError)
    ensures !IsBlank(username) && !IsBlank(password) && o.Rejected? ==> o.error == BadCredentialsError
    ensures o.Accepted? <==> !IsBlank(username) && !IsBlank(password) && !queryFails
                             && |Matches(admins, username, password)| == 1
    ensures o.Accepted? ==> o.admin in admins && o.admin.username == Trim(username) && o.admin.password == Trim(password)
  {
    if IsBlank(username) || IsBlank(password) then Rejected(MissingFieldsError)
    else
      match Single(Matches(admins, username, password))
      case Some(row) => if queryFails then Rejected(BadCredentialsError) else Accepted(row)
      case None => Rejected(BadCredentialsError)
  }

  /** An accepted login is the only row carrying those credentials. */
  lemma AcceptedRowIsUnique(admins: seq<AdminRow>, username: string, password: string, queryFails: bool, i: int)
    requires Attempt(admins, username, password, queryFails).Accepted?
    requires 0 <= i < |admins| && admins[i].username == Trim(username) && admins[i].password == Trim(password)
    ensures admins[i] == Attempt(admins, username, password, queryFails).admin
  {
    var m := Matches(admins, username, password);
    assert admins[i] in m;
  }

  /** Two rows with the same credentials lock both admins out. */
  lemma DuplicateCredentialsReject(admins: seq<AdminRow>, username: string, password: string, queryFails: bool,
                                   i: int, j: int)
    requires 0 <= i < |admins| && 0 <= j < |admins| && admins[i] != admins[j]
    requires admins[i].username == Trim(username) && admins[i].password == Trim(password)
    requires admins[j].username == Trim(username) && admins[j].password == Trim(password)
    ensures Attempt(admins, username, password, queryFails).Rejected?
  {
    var m := Matches(admins, username, password);
    assert admins[i] in m && admins[j] in m;
  }

  /** Whitespace typed around either field makes no difference to the outcome. */
  lemma PaddedInputIsIgnored(admins: seq<AdminRow>, username: string, password: string, queryFails: bool,
                             before: string, after: string)
    requires forall k :: 0 <= k < |before| ==> IsSpace(before[k])
    requires forall k :: 0 <= k < |after| ==> IsSpace(after[k])
    ensures Attempt(admins, before + username + after, before + password + after, queryFails)
         == Attempt(admins, username, password, queryFails)
  {
    CredentialsIgnorePadding(before, username, password, after);
  }

  /** A stored password ending in whitespace can never be matched, since the typed one is trimmed. */
  lemma PaddedPasswordNeverMatches(admins: seq<AdminRow>, username: string, password: string, i: int)
    requires 0 <= i < |admins| && admins[i].password != [] && IsSpace(admins[i].password[|admins[i].password| - 1])
    ensures admins[i] !in Matches(admins, username, password)
  {
  }

  /** The dashboard, where an accepted login goes, is then rendered by the guard. */
  lemma AcceptedDestinationRenders(s: Session.SessionState, a: AdminRow)
    ensures RequiredRole(AdminRoute) == Some(AdminRole)
    ensures Access(AdminRoute, Session.AfterLoginAdmin(s, Snapshot(a))) == Render
    ensures Access(GameRoute, Session.AfterLoginAdmin(s, Snapshot(a))) == Redirect(TeamLoginRoute)
  {
  }

  /** The mount effect: a visitor with an admin session is sent on to the dashboard. */
  function MountRedirect(adminLoggedIn: bool): (r: Option<Route>)
    ensures r.Some? <==> adminLoggedIn
    ensures r.Some? ==> r.value == AdminRoute
  {
    if adminLoggedIn then Some(AdminRoute) else None
  }

  /** The mount redirect never lands on a screen that would bounce the visitor back. */
  lemma MountRedirectRenders(s: Session.SessionState)
    ensures MountRedirect(Session.AdminLoggedIn(s)).Some? ==>
              Access(MountRedirect(Session.AdminLoggedIn(s)).value, s) == Render
  {
  }

  /** The login form's own state. */
  class AdminLoginPage {
    var username: string
    var password: string
    var loading: bool
    var error: string

    constructor ()
      ensures username == "" && password == "" && !loading && error == ""
    {
      username := "";
      password := "";
      loading := false;
      error := "";
    }

    /**
     * `handleLogin`: on rejection the error is shown and the form is usable
     * again; on acceptance the session takes the row's snapshot and the form
     * stays in its loading state while the page changes.
     */
    method HandleLogin(db: Backend, auth: Session.AuthStore, queryFails: bool) returns (dest: Option<Route>)
      modifies this`loading, this`error, auth
      ensures var o := Attempt(db.admins, old(username), old(password), queryFails);
              match o
              case Rejected(msg) =>
                error == msg && !loading && dest == None && auth.State() == old(auth.State())
              case Accepted(row) =>
                error == "" && loading && dest == Some(AdminRoute)
                && auth.State() == Session.AfterLoginAdmin(old(auth.State()), Snapshot(row))
    {
      error := "";
      loading := true;
      if IsBlank(username) || IsBlank(password) {
        error := MissingFieldsError;
        loading := false;
        return None;
      }
      var rows := Matches(db.admins, username, password);
      if queryFails || |rows| != 1 {
        error := BadCredentialsError;
        loading := false;
        return None;
      }
      var data := rows[0];
      auth.LoginAdmin(Snapshot(data));
      dest := Some(AdminRoute);
    }
  }
}
