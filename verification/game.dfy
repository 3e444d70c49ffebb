/**
 * The game screen: entry redirect and stage fetch, the answer check and the
 * advance to the next stage (or the finish at stage 8), and the row of
 * progress dots.
 */
module Game {
  import opened Wrappers
  import opened Lists
  import opened Text
  import opened Tables
  import opened Session
  import opened Routing

  const BlankAnswerError := "Please enter a solution"
  const WrongAnswerError := "Incorrect solution. Try again!"

  // ---------------------------------------------------------------------
  // The answer check
  // ---------------------------------------------------------------------

  /**
   * `answer.trim().toLowerCase() === solution.toLowerCase()`: only the answer
   * is trimmed, and the two agree character by character up to case.
   */
  predicate Accepts(answer: string, solution: string)
    ensures Accepts(answer, solution) <==>
              |Trim(answer)| == |solution|
              && forall i :: 0 <= i < |solution| ==> LowerChar(Trim(answer)[i]) == LowerChar(solution[i])
  {
    LowerEqualIff(Trim(answer), solution);
    Lower(Trim(answer)) == Lower(solution)
  }

  /** How a submission is classified, in the order the handler tests. */
  datatype Verdict = Blank | NotReady | Wrong | Correct

  function Judge(answer: string, stage: Option<StageRow>, team: Option<TeamInfo>): (v: Verdict)
    ensures v == Blank <==> IsBlank(answer)
    ensures v == NotReady <==> !IsBlank(answer) && (stage.None? || team.None?)
    ensures v == Wrong <==> !IsBlank(answer) && stage.Some? && team.Some? && !Accepts(answer, stage.value.solution)
    ensures v == Correct <==> !IsBlank(answer) && stage.Some? && team.Some? && Accepts(answer, stage.value.solution)
  {
    if IsBlank(answer) then Blank
    else if stage.None? || team.None? then NotReady
    else if !Accepts(answer, stage.value.solution) then Wrong
    else Correct
  }

  /** The worked example: "river" solves a stage whose stored solution is "River". */
  lemma AcceptsIgnoresCase()
    ensures Accepts("river", "River")
    ensures !Accepts("rivers", "River")
  {
    assert Lower("river") == "river";
    assert Lower("River") == "river";
  }

  /** Answers that differ only in case are judged alike, against solutions that differ only in case. */
  lemma CaseIsIgnored(a: string, b: string, s1: string, s2: string)
    requires Lower(a) == Lower(b) && Lower(s1) == Lower(s2)
    ensures Accepts(a, s1) <==> Accepts(b, s2)
  {
    TrimLowerCommute(a);
    TrimLowerCommute(b);
  }

  /** Whitespace typed before or after an answer never changes whether it is accepted. */
  lemma PaddingIsIgnored(answer: string, before: string, after: string, solution: string)
    requires forall k :: 0 <= k < |before| ==> IsSpace(before[k])
    requires forall k :: 0 <= k < |after| ==> IsSpace(after[k])
    ensures Accepts(before + answer + after, solution) <==> Accepts(answer, solution)
  {
    TrimIgnoresPadding(before, answer, after);
  }

  /** A stored solution that ends in whitespace can never be matched, because the answer is trimmed and the solution is not. */
  lemma PaddedSolutionIsUnsolvable(answer: string, solution: string)
    requires solution != [] && IsSpace(solution[|solution| - 1])
    ensures !Accepts(answer, solution)
  {
    var t := Trim(answer);
    if t != [] && |t| == |solution| {
      assert Lower(t)[|t| - 1] == LowerChar(t[|t| - 1]);
      assert Lower(solution)[|solution| - 1] == LowerChar(solution[|solution| - 1]);
    }
  }

  // ---------------------------------------------------------------------
  // Advancing a team
  // ---------------------------------------------------------------------

  /** The session snapshot after solving stage `stageNumber`: finished at 8, otherwise one stage further. */
  function NextTeam(t: TeamInfo, stageNumber: int): (r: TeamInfo)
    ensures r.id == t.id && r.teamName == t.teamName && r.username == t.username
    ensures stageNumber == LastStage ==> r.completed && r.currentStage == LastStage
    ensures stageNumber != LastStage ==> r.completed == t.completed && r.currentStage == stageNumber + 1
    ensures 1 <= stageNumber <= LastStage ==> 1 <= r.currentStage <= LastStage
    ensures ProgressOk(t.currentStage, t.completed) && stageNumber == t.currentStage ==>
              ProgressOk(r.currentStage, r.completed)
              && (if t.currentStage == LastStage then r.completed else r.currentStage == t.currentStage + 1)
  {
    if stageNumber == LastStage then t.(completed := true, currentStage := LastStage)
    else t.(currentStage := stageNumber + 1)
  }

  /** The `teams` write after solving stage `stageNumber`: only the solver's rows change, and only in their progress. */
  function NextTeamRows(teams: seq<TeamRow>, id: string, stageNumber: int): (r: seq<TeamRow>)
    ensures |r| == |teams|
    ensures forall i :: 0 <= i < |teams| && teams[i].id != id ==> r[i] == teams[i]
    ensures forall i :: 0 <= i < |teams| && teams[i].id == id ==>
              r[i].id == id && r[i].teamName == teams[i].teamName
              && r[i].username == teams[i].username && r[i].password == teams[i].password
    ensures forall i :: 0 <= i < |teams| && teams[i].id == id ==>
              if stageNumber == LastStage then r[i].completed && r[i].currentStage == LastStage
              else r[i].completed == teams[i].completed && r[i].currentStage == stageNumber + 1
  {
    if stageNumber == LastStage then FinishTeamRows(teams, id) else AdvanceTeamRows(teams, id, stageNumber + 1)
  }

  /** When every row of the team is at the solved stage, the `teams` write keeps the progress invariant. */
  lemma NextTeamRowsKeepProgress(teams: seq<TeamRow>, id: string, stageNumber: int)
    requires TeamsValid(teams) && 1 <= stageNumber <= LastStage
    requires forall i :: 0 <= i < |teams| && teams[i].id == id ==> teams[i].currentStage == stageNumber
    ensures TeamsValid(NextTeamRows(teams, id, stageNumber))
    ensures forall i :: 0 <= i < |teams| && teams[i].id == id ==>
              var r := NextTeamRows(teams, id, stageNumber)[i];
              if stageNumber == LastStage then r.completed && r.currentStage == LastStage
              else !r.completed && r.currentStage == stageNumber + 1
  {
    if stageNumber != LastStage {
      var r := NextTeamRows(teams, id, stageNumber);
      forall i | 0 <= i < |teams|
        ensures ProgressOk(r[i].currentStage, r[i].completed)
      {
        assert ProgressOk(teams[i].currentStage, teams[i].completed);
      }
    }
  }

  /** `.eq('team_id', id).eq('stage_number', n).single()` on `team_stages`. */
  function StageFor(stages: seq<StageRow>, teamId: string, n: int): (r: Option<StageRow>)
    ensures r.Some? ==> r.value in stages && r.value.teamId == teamId && r.value.stageNumber == n
    ensures r.Some? <==> |Filter(stages, (s: StageRow) => s.teamId == teamId && s.stageNumber == n)| == 1
  {
    Single(Filter(stages, (s: StageRow) => s.teamId == teamId && s.stageNumber == n))
  }

  // ---------------------------------------------------------------------
  // Progress dots
  // ---------------------------------------------------------------------

  datatype Dot = Done | Active | Locked

  /** Dot `n`: done below `team?.current_stage || 1`, active at `team?.current_stage`, locked otherwise. */
  function GameDot(team: Option<TeamInfo>, n: int): (d: Dot)
    ensures d == Active ==> team.Some? && n == team.value.currentStage
    ensures team.None? ==> (d == Done <==> n < 1) && d != Active
    ensures team.Some? && team.value.currentStage == 0 ==> (d == Done <==> n < 1) && d != Active
    ensures team.Some? && team.value.currentStage >= 1 ==>
              (d == Done <==> n < team.value.currentStage) && (d == Active <==> n == team.value.currentStage)
  {
    var reached := if team.Some? && team.value.currentStage != 0 then team.value.currentStage else 1;
    if n < reached then Done
    else if team.Some? && n == team.value.currentStage then Active
    else Locked
  }

  /** With a stage in 1..8, the dots before it are done, it is active, and exactly one dot of the eight is active. */
  lemma GameDotsExactlyOneActive(t: TeamInfo)
    requires 1 <= t.currentStage <= LastStage
    ensures forall n :: GameDot(Some(t), n) == Done <==> n < t.currentStage
    ensures forall n :: GameDot(Some(t), n) == Active <==> n == t.currentStage
    ensures (set n | 1 <= n <= LastStage && GameDot(Some(t), n) == Active) == {t.currentStage}
  {
    var active := set n | 1 <= n <= LastStage && GameDot(Some(t), n) == Active;
    assert t.currentStage in active;
  }

  /**
   * The game screen's own state. The stage shown, the answer field, the
   * loading and submitting flags, and the inline error.
   */
  class GamePage {
    var currentStage: Option<StageRow>
    var answer: string
    var loading: bool
    var submitting: bool
    var error: string

    constructor ()
      ensures currentStage == None && answer == "" && loading && !submitting && error == ""
    {
      currentStage := None;
      answer := "";
      loading := true;
      submitting := false;
      error := "";
    }

    /**
     * The entry effect: a visitor without a team goes to the login, a
     * finished team to the completion screen; otherwise the row for the
     * team's current stage is fetched, and a failed fetch (`queryFails`, or
     * not exactly one row) leaves the screen loading.
     */
    method Enter(db: Backend, auth: AuthStore, queryFails: bool) returns (dest: Option<Route>)
      modifies this
      ensures !auth.IsTeamLoggedIn() ==> dest == Some(TeamLoginRoute) && unchanged(this)
      ensures auth.IsTeamLoggedIn() && auth.team.value.completed ==> dest == Some(CompletionRoute) && unchanged(this)
      ensures auth.IsTeamLoggedIn() && !auth.team.value.completed ==>
                dest == None && answer == old(answer) && submitting == old(submitting) && error == old(error)
                && var found := StageFor(db.stages, auth.team.value.id, auth.team.value.currentStage);
                   if found.Some? && !queryFails then currentStage == found && !loading
                   else currentStage == old(currentStage) && loading == old(loading)
    {
      if !auth.IsTeamLoggedIn() {
        return Some(TeamLoginRoute);
      }
      var team := auth.team.value;
      if team.completed {
        return Some(CompletionRoute);
      }
      var found := StageFor(db.stages, team.id, team.currentStage);
      if found.Some? && !queryFails {
        currentStage := found;
        loading := false;
      }
      dest := None;
    }

    /**
     * `handleSubmit`: reject a blank answer, do nothing without a stage or a
     * team, reject a wrong answer; on a right one mark the stage row done,
     * then finish the team at stage 8 or move it one stage on and load the
     * next stage row.
     */
    method HandleSubmit(db: Backend, auth: AuthStore, now: Stamp, stageWriteFails: bool, teamWriteFails: bool,
                        nextQueryFails: bool) returns (dest: Option<Route>)
      modifies this, db`teams, db`stages, auth
      ensures !submitting
      ensures Judge(old(answer), old(currentStage), old(auth.team)) != Correct ==>
                dest == None && db.teams == old(db.teams) && db.stages == old(db.stages)
                && auth.State() == old(auth.State())
                && currentStage == old(currentStage) && answer == old(answer) && loading == old(loading)
      ensures Judge(old(answer), old(currentStage), old(auth.team)) == Blank ==> error == BlankAnswerError
      ensures Judge(old(answer), old(currentStage), old(auth.team)) == NotReady ==> error == ""
      ensures Judge(old(answer), old(currentStage), old(auth.team)) == Wrong ==> error == WrongAnswerError
      ensures Judge(old(answer), old(currentStage), old(auth.team)) == Correct ==>
                var st := old(currentStage).value;
                var t := old(auth.team).value;
                && error == ""
                && db.stages == (if stageWriteFails then old(db.stages) else MarkStageDone(old(db.stages), st.id, now))
                && db.teams == (if teamWriteFails then old(db.teams) else NextTeamRows(old(db.teams), t.id, st.stageNumber))
                && auth.State() == AfterLoginTeam(old(auth.State()), NextTeam(t, st.stageNumber))
                && (st.stageNumber == LastStage ==>
                      dest == Some(CompletionRoute) && currentStage == old(currentStage)
                      && answer == old(answer) && loading == old(loading))
                && (st.stageNumber != LastStage ==>
                      dest == None && answer == "" && !loading
                      && currentStage == (if nextQueryFails then None else StageFor(db.stages, t.id, st.stageNumber + 1)))
    {
      error := "";
      submitting := true;
      if IsBlank(answer) {
        error := BlankAnswerError;
        submitting := false;
        return None;
      }
      if currentStage.None? || !auth.IsTeamLoggedIn() {
        submitting := false;
        return None;
      }
      var stage := currentStage.value;
      var team := auth.team.value;
      if !Accepts(answer, stage.solution) {
        error := WrongAnswerError;
        submitting := false;
        return None;
      }
      dest := Commit(db, auth, stage, team, now, stageWriteFails, teamWriteFails, nextQueryFails);
      submitting := false;
    }

    /**
     * The writes after a right answer: stage row done, team finished or moved
     * on, session refreshed. Neither write's error is checked, so a failed
     * write (`stageWriteFails`, `teamWriteFails`) leaves its table as it was
     * while the session moves on regardless; a failed fetch of the next stage
     * (`nextQueryFails`) leaves no stage on screen.
     */
    method Commit(db: Backend, auth: AuthStore, stage: StageRow, team: TeamInfo, now: Stamp,
                  stageWriteFails: bool, teamWriteFails: bool, nextQueryFails: bool) returns (dest: Option<Route>)
      modifies this`answer, this`loading, this`currentStage, db`teams, db`stages, auth
      ensures db.stages == if stageWriteFails then old(db.stages) else MarkStageDone(old(db.stages), stage.id, now)
      ensures db.teams == if teamWriteFails then old(db.teams) else NextTeamRows(old(db.teams), team.id, stage.stageNumber)
      ensures auth.State() == AfterLoginTeam(old(auth.State()), NextTeam(team, stage.stageNumber))
      ensures stage.stageNumber == LastStage ==>
                dest == Some(CompletionRoute) && currentStage == old(currentStage)
                && answer == old(answer) && loading == old(loading)
      ensures stage.stageNumber != LastStage ==>
                dest == None && answer == "" && !loading
                && currentStage == if nextQueryFails then None else StageFor(db.stages, team.id, stage.stageNumber + 1)
    {
      if !stageWriteFails {
        db.stages := MarkStageDone(db.stages, stage.id, now);
      }
      if stage.stageNumber == LastStage {
        if !teamWriteFails {
          db.teams := FinishTeamRows(db.teams, team.id);
        }
        auth.LoginTeam(team.(completed := true, currentStage := LastStage));
        dest := Some(CompletionRoute);
      } else {
        var next := stage.stageNumber + 1;
        if !teamWriteFails {
          db.teams := AdvanceTeamRows(db.teams, team.id, next);
        }
        auth.LoginTeam(team.(currentStage := next));
        answer := "";
        loading := true;
        currentStage := if nextQueryFails then None else StageFor(db.stages, team.id, next);
        loading := false;
        dest := None;
      }
    }
  }
}
