/**
 * The team login screen: a visitor already holding a team session is sent
 * on to the game; otherwise both fields must be non-blank, and the trimmed
 * username and password must select exactly one row of `teams`. That row's
 * public columns become the team session, and the team goes to the
 * completion screen if it has finished, to the game otherwise.
 */
module TeamLogin {
  import opened Wrappers
  import opened Lists
  import opened Text
  import opened Tables
  import Session
  import opened Routing

  const MissingFieldsError := "Please enter both username and password"
  const BadCredentialsError := "Invalid credentials. No new registrations allowed."

  /** The rows the query `.eq('username', u.trim()).eq('password', p.trim())` selects. */
  function Matches(teams: seq<TeamRow>, username: string, password: string): (r: seq<TeamRow>)
    ensures forall i :: 0 <= i < |r| ==> r[i] in teams && r[i].username == Trim(username) && r[i].password == Trim(password)
    ensures forall i :: 0 <= i < |teams| && teams[i].username == Trim(username) && teams[i].password == Trim(password) ==>
              teams[i] in r
  {
    Filter(teams, (t: TeamRow) => t.username == Trim(username) && t.password == Trim(password))
  }

  /** The session snapshot taken from the selected row: everything but the password, progress included. */
  function Snapshot(t: TeamRow): (r: Session.TeamInfo)
    ensures r.id == t.id && r.teamName == t.teamName && r.username == t.username
    ensures r.currentStage == t.currentStage && r.completed == t.completed
  {
    Session.TeamInfo(t.id, t.teamName, t.username, t.currentStage, t.completed)
  }

  /** Where a logged-in team is sent: the completion screen once finished, the game otherwise; both are team routes. */
  function Destination(t: TeamRow): (r: Route)
    ensures r == CompletionRoute <==> t.completed
    ensures r == GameRoute <==> !t.completed
    ensures RequiredRole(r) == Some(TeamRole)
  {
    if t.completed then CompletionRoute else GameRoute
  }

  datatype Outcome = Rejected(error: string) | Accepted(team: TeamRow)

  /**
   * `handleLogin` as a decision: blank fields first, then the `.single()`
   * query, which fails when it fails outright (`queryFails`) or when it does
   * not select exactly one row.
   */
  function Attempt(teams: seq<TeamRow>, username: string, password: string, queryFails: bool): (o: Outcome)
    ensures IsBlank(username) || IsBlank(password) ==> o == Rejected(MissingFieldsError)
    ensures !IsBlank(username) && !IsBlank(password) && o.Rejected? ==> o.error == BadCredentialsError
    ensures o.Accepted? <==> !IsBlank(username) && !IsBlank(password) && !queryFails
                             && |Matches(teams, username, password)| == 1
    ensures o.Accepted? ==> o.team in teams && o.team.username == Trim(username) && o.team.password == Trim(password)
  {
    if IsBlank(username) || IsBlank(password) then Rejected(MissingFieldsError)
    else
      match Single(Matches(teams, username, password))
      case Some(row) => if queryFails then Rejected(BadCredentialsError) else Accepted(row)
      case None => Rejected(BadCredentialsError)
  }

  /** An accepted login is the only row carrying those credentials. */
  lemma AcceptedRowIsUnique(teams: seq<TeamRow>, username: string, password: string, queryFails: bool, i: int)
    requires Attempt(teams, username, password, queryFails).Accepted?
    requires 0 <= i < |teams| && teams[i].username == Trim(username) && teams[i].password == Trim(password)
    ensures teams[i] == Attempt(teams, username, password, queryFails).team
  {
    var m := Matches(teams, username, password);
    assert teams[i] in m;
  }

  /** Two rows with the same credentials lock both teams out. */
  lemma DuplicateCredentialsReject(teams: seq<TeamRow>, username: string, password: string, queryFails: bool, i: int, j: int)
    requires 0 <= i < |teams| && 0 <= j < |teams| && teams[i] != teams[j]
    requires teams[i].username == Trim(username) && teams[i].password == Trim(password)
    requires teams[j].username == Trim(username) && teams[j].password == Trim(password)
    ensures Attempt(teams, username, password, queryFails).Rejected?
  {
    var m := Matches(teams, username, password);
    assert teams[i] in m && teams[j] in m;
  }

  /** Whitespace typed around either field makes no difference to the outcome. */
  lemma PaddedInputIsIgnored(teams: seq<TeamRow>, username: string, password: string, queryFails: bool,
                             before: string, after: string)
    requires forall k :: 0 <= k < |before| ==> IsSpace(before[k])
    requires forall k :: 0 <= k < |after| ==> IsSpace(after[k])
    ensures Attempt(teams, before + username + after, before + password + after, queryFails)
         == Attempt(teams, username, password, queryFails)
  {
    CredentialsIgnorePadding(before, username, password, after);
  }

  /** A stored username ending in whitespace can never be matched, since the typed one is trimmed. */
  lemma PaddedUsernameNeverMatches(teams: seq<TeamRow>, username: string, password: string, i: int)
    requires 0 <= i < |teams| && teams[i].username != [] && IsSpace(teams[i].username[|teams[i].username| - 1])
    ensures teams[i] !in Matches(teams, username, password)
  {
  }

  /** The destination of an accepted login is a route the guard then renders. */
  lemma AcceptedDestinationRenders(s: Session.SessionState, t: TeamRow)
    ensures Access(Destination(t), Session.AfterLoginTeam(s, Snapshot(t))) == Render
    ensures RequiredRole(Destination(t)) == Some(TeamRole)
  {
  }

  /** The mount effect: a visitor with a team session is sent on to the game. */
  function MountRedirect(teamLoggedIn: bool): (r: Option<Route>)
    ensures r.Some? <==> teamLoggedIn
    ensures r.Some? ==> r.value == GameRoute
  {
    if teamLoggedIn then Some(GameRoute) else None
  }

  /** The mount redirect never lands on a screen that would bounce the visitor back. */
  lemma MountRedirectRenders(s: Session.SessionState)
    ensures MountRedirect(Session.TeamLoggedIn(s)).Some? ==> Access(MountRedirect(Session.TeamLoggedIn(s)).value, s) == Render
  {
  }

  /** The login form's own state. */
  class TeamLoginPage {
    var username: string
    var password: string
    var loading: bool
    var error: string

    constructor ()
      ensures username == "" && password == "" && !loading && error == ""
    {
      username := "";
      password := "";
      loading := false;
      error := "";
    }

    /**
     * `handleLogin`: on rejection the error is shown and the form is usable
     * again; on acceptance the session takes the row's snapshot and the form
     * stays in its loading state while the page changes.
     */
    method HandleLogin(db: Backend, auth: Session.AuthStore, queryFails: bool) returns (dest: Option<Route>)
      modifies this`loading, this`error, auth
      ensures var o := Attempt(db.teams, old(username), old(password), queryFails);
              match o
              case Rejected(msg) =>
                error == msg && !loading && dest == None && auth.State() == old(auth.State())
              case Accepted(row) =>
                error == "" && loading && dest == Some(Destination(row))
                && auth.State() == Session.AfterLoginTeam(old(auth.State()), Snapshot(row))
    {
      error := "";
      loading := true;
      if IsBlank(username) || IsBlank(password) {
        error := MissingFieldsError;
        loading := false;
        return None;
      }
      var rows := Matches(db.teams, username, password);
      if queryFails || |rows| != 1 {
        error := BadCredentialsError;
        loading := false;
        return None;
      }
      var data := rows[0];
      auth.LoginTeam(Snapshot(data));
      dest := Some(Destination(data));
    }
  }
}
