/**
 * The admin dashboard: the four tables loaded side by side, the single-field
 * edits written to the backend and mirrored locally, the per-team and
 * whole-event progress resets, and the derived views (a team's stages, the
 * selected team, the settings groups and their labels, the progress dots).
 */
module AdminDashboard {
  import opened Wrappers
  import opened Lists
  import opened Text
  import opened Tables
  import Session
  import opened Routing
  import Game

  /** The four queries the dashboard issues together. */
  datatype Table = TeamsTable | AdminsTable | StagesTable | SettingsTable

  const AllTables: set<Table> := {TeamsTable, AdminsTable, StagesTable, SettingsTable}

  /** What the dashboard shows: the four lists and the team chosen in the stages tab. */
  datatype View = View(teams: seq<TeamRow>, admins: seq<AdminRow>, stages: seq<StageRow>,
                       settings: seq<SettingRow>, selectedTeam: string)

  /**
   * `fetchAllData`: each list is replaced when its query returned data and
   * kept otherwise; the first fetched team becomes the selected one when
   * any team came back.
   */
  function AfterFetch(v: View, teams: seq<TeamRow>, admins: seq<AdminRow>, stages: seq<StageRow>,
                      settings: seq<SettingRow>, arrived: set<Table>): (r: View)
    ensures r.teams == (if TeamsTable in arrived then teams else v.teams)
    ensures r.admins == (if AdminsTable in arrived then admins else v.admins)
    ensures r.stages == (if StagesTable in arrived then stages else v.stages)
    ensures r.settings == (if SettingsTable in arrived then settings else v.settings)
    ensures TeamsTable in arrived && teams != [] ==> r.selectedTeam == teams[0].id
    ensures !(TeamsTable in arrived && teams != []) ==> r.selectedTeam == v.selectedTeam
  {
    View(if TeamsTable in arrived then teams else v.teams,
         if AdminsTable in arrived then admins else v.admins,
         if StagesTable in arrived then stages else v.stages,
         if SettingsTable in arrived then settings else v.settings,
         if TeamsTable in arrived && teams != [] then teams[0].id else v.selectedTeam)
  }

  /**
   * The local settings list agrees with the stored one on everything the
   * dashboard keeps: the local edit does not copy `updated_at`.
   */
  predicate SettingsAgree(local: seq<SettingRow>, remote: seq<SettingRow>) {
    |local| == |remote|
    && forall i :: 0 <= i < |local| ==>
         local[i].id == remote[i].id && local[i].key == remote[i].key && local[i].value == remote[i].value
  }

  /** The view mirrors the four stored tables. */
  predicate Mirrors(v: View, teams: seq<TeamRow>, admins: seq<AdminRow>, stages: seq<StageRow>,
                    settings: seq<SettingRow>) {
    v.teams == teams && v.admins == admins && v.stages == stages && SettingsAgree(v.settings, settings)
  }

  /** A fetch in which every query returned data leaves the view mirroring the tables, whatever it showed before. */
  lemma FullFetchMirrors(v: View, teams: seq<TeamRow>, admins: seq<AdminRow>, stages: seq<StageRow>,
                         settings: seq<SettingRow>)
    ensures Mirrors(AfterFetch(v, teams, admins, stages, settings, AllTables), teams, admins, stages, settings)
    ensures teams != [] ==> SelectedTeamData(AfterFetch(v, teams, admins, stages, settings, AllTables)) == Some(teams[0])
  {
    if teams != [] {
      var r := AfterFetch(v, teams, admins, stages, settings, AllTables);
      assert r.teams[0].id == r.selectedTeam;
    }
  }

  /**
   * The same setting edited on both sides (the stored row also takes the
   * time of the edit) keeps the local list in agreement.
   */
  lemma SettingEditKeepsAgreement(local: seq<SettingRow>, remote: seq<SettingRow>, id: string, value: string, now: Stamp)
    requires SettingsAgree(local, remote)
    ensures SettingsAgree(UpdateSettingRows(local, id, value, None), UpdateSettingRows(remote, id, value, Some(now)))
  {
    var l := UpdateSettingRows(local, id, value, None);
    var r := UpdateSettingRows(remote, id, value, Some(now));
    forall i | 0 <= i < |l|
      ensures l[i].id == r[i].id && l[i].key == r[i].key && l[i].value == r[i].value
    {
      assert local[i].id == remote[i].id;
    }
  }

  // ---------------------------------------------------------------------
  // Derived views
  // ---------------------------------------------------------------------

  /** `stages.filter(s => s.team_id === selectedTeam)`. */
  function TeamStages(stages: seq<StageRow>, selected: string): (r: seq<StageRow>)
    ensures |r| <= |stages|
    ensures forall i :: 0 <= i < |r| ==> r[i] in stages && r[i].teamId == selected
    ensures forall i :: 0 <= i < |stages| && stages[i].teamId == selected ==> stages[i] in r
  {
    Filter(stages, (s: StageRow) => s.teamId == selected)
  }

  /** Stage rows in the order `order('stage_number')` returns them. */
  predicate ByStageNumber(stages: seq<StageRow>) {
    forall i, j :: 0 <= i < j < |stages| ==> stages[i].stageNumber <= stages[j].stageNumber
  }

  lemma ConsByStageNumber(x: StageRow, rest: seq<StageRow>)
    requires ByStageNumber(rest)
    requires forall k :: 0 <= k < |rest| ==> x.stageNumber <= rest[k].stageNumber
    ensures ByStageNumber([x] + rest)
  {
    var r := [x] + rest;
    forall i, j | 0 <= i < j < |r| ensures r[i].stageNumber <= r[j].stageNumber {
      assert r[j] == rest[j - 1];
      if i > 0 {
        assert r[i] == rest[i - 1];
      }
    }
  }

  /** Rows fetched in stage order are listed for the selected team in stage order too. */
  lemma {:induction false} TeamStagesKeepOrder(stages: seq<StageRow>, selected: string)
    requires ByStageNumber(stages)
    ensures ByStageNumber(TeamStages(stages, selected))
  {
    if stages != [] {
      var rest := TeamStages(stages[1..], selected);
      TeamStagesKeepOrder(stages[1..], selected);
      assert forall k :: 0 <= k < |rest| ==> stages[0].stageNumber <= rest[k].stageNumber by {
        forall k | 0 <= k < |rest| ensures stages[0].stageNumber <= rest[k].stageNumber {
          var j :| 0 <= j < |stages[1..]| && stages[1..][j] == rest[k];
          assert stages[j + 1] == rest[k];
        }
      }
      if stages[0].teamId == selected {
        assert TeamStages(stages, selected) == [stages[0]] + rest;
        ConsByStageNumber(stages[0], rest);
      } else {
        assert TeamStages(stages, selected) == rest;
      }
    }
  }

  /** After a team's reset, none of the stages listed for that team is completed. */
  lemma ResetClearsTeamStages(stages: seq<StageRow>, teamId: string)
    ensures forall i :: 0 <= i < |TeamStages(ResetStagesOf(stages, teamId), teamId)| ==>
              !TeamStages(ResetStagesOf(stages, teamId), teamId)[i].isCompleted
  {
    var after := ResetStagesOf(stages, teamId);
    var listed := TeamStages(after, teamId);
    forall i | 0 <= i < |listed| ensures !listed[i].isCompleted {
      var j :| 0 <= j < |after| && after[j] == listed[i];
      assert after[j].teamId == stages[j].teamId;
    }
  }

  /** `teams.find(t => t.id === selectedTeam)`. */
  function SelectedTeamData(v: View): (r: Option<TeamRow>)
    ensures r.None? <==> forall i :: 0 <= i < |v.teams| ==> v.teams[i].id != v.selectedTeam
    ensures r.Some? ==> r.value in v.teams && r.value.id == v.selectedTeam
  {
    FindFirst(v.teams, (t: TeamRow) => t.id == v.selectedTeam)
  }

  /** When the selected id is the first team's id, that first row is the one shown. */
  lemma SelectedFirstTeam(v: View)
    requires v.teams != [] && v.selectedTeam == v.teams[0].id
    ensures SelectedTeamData(v) == Some(v.teams[0])
  {
    var r := SelectedTeamData(v);
    var i :| 0 <= i < |v.teams| && v.teams[i] == r.value && v.teams[i].id == v.selectedTeam
             && forall j :: 0 <= j < i ==> v.teams[j].id != v.selectedTeam;
    assert i == 0;
  }

  const LandingPrefix := "landing_"
  const CompletionPrefix := "completion_"

  /** `settings.filter(s => s.setting_key.startsWith(prefix))`: one group of the settings tab. */
  function Group(settings: seq<SettingRow>, prefix: string): (r: seq<SettingRow>)
    ensures forall i :: 0 <= i < |r| ==> r[i] in settings && StartsWith(r[i].key, prefix)
    ensures forall i :: 0 <= i < |settings| && StartsWith(settings[i].key, prefix) ==> settings[i] in r
  {
    Filter(settings, (s: SettingRow) => StartsWith(s.key, prefix))
  }

  /** No setting appears in both the landing group and the completion group. */
  lemma GroupsDisjoint(settings: seq<SettingRow>)
    ensures forall i, j :: 0 <= i < |Group(settings, LandingPrefix)| && 0 <= j < |Group(settings, CompletionPrefix)| ==>
              Group(settings, LandingPrefix)[i] != Group(settings, CompletionPrefix)[j]
  {
    var l := Group(settings, LandingPrefix);
    var c := Group(settings, CompletionPrefix);
    forall i, j | 0 <= i < |l| && 0 <= j < |c| ensures l[i] != c[j] {
      assert l[i].key[0] == LandingPrefix[0];
      assert c[j].key[0] == CompletionPrefix[0];
    }
  }

  /**
   * `key.replace(prefix, '').replace('_', ' ')`: the field label of a setting.
   * For a key of the group it is as long as the key without its prefix, and
   * it is exactly that rest when the rest holds no underscore.
   */
  function Label(key: string, prefix: string): (r: string)
    ensures StartsWith(key, prefix) ==> |r| == |key| - |prefix|
    ensures StartsWith(key, prefix) && '_' !in key[|prefix|..] ==> r == key[|prefix|..]
  {
    var rest := ReplaceFirst(key, prefix, "");
    LabelFacts(key, prefix, rest);
    ReplaceFirst(rest, "_", " ")
  }

  lemma LabelFacts(key: string, prefix: string, rest: string)
    requires rest == ReplaceFirst(key, prefix, "")
    ensures |ReplaceFirst(rest, "_", " ")| == |rest|
    ensures StartsWith(key, prefix) ==> rest == key[|prefix|..]
    ensures '_' !in rest ==> ReplaceFirst(rest, "_", " ") == rest
  {
    if StartsWith(key, prefix) {
      DropPrefix(key, prefix);
    }
    if '_' !in rest {
      IndexOfAbsentChar(rest, '_');
    }
  }

  /** Removing the group's prefix from a key of that group leaves the rest of the key. */
  lemma DropPrefix(key: string, prefix: string)
    requires StartsWith(key, prefix)
    ensures ReplaceFirst(key, prefix, "") == key[|prefix|..]
  {
    assert IndexOf(key, prefix) == Some(0);
  }

  /**
   * A grouped key whose rest is `a_b` is labelled `a b`: the prefix goes and
   * only the first underscore after it becomes a space.
   */
  lemma LabelOfGroupedKey(prefix: string, a: string, b: string)
    requires '_' !in a
    ensures Label(prefix + a + "_" + b, prefix) == a + " " + b
  {
    var key := prefix + a + "_" + b;
    assert StartsWith(key, prefix) by { assert key[..|prefix|] == prefix; }
    DropPrefix(key, prefix);
    var rest := a + "_" + b;
    assert key[|prefix|..] == rest;
    assert rest[..|a|] == a;
    IndexOfChar(rest, '_', |a|);
    assert rest[..|a|] + " " + rest[|a| + 1..] == a + " " + b;
  }

  /** A grouped key with no underscore after the prefix is labelled by that rest alone. */
  lemma LabelOfPlainKey(prefix: string, a: string)
    requires '_' !in a
    ensures Label(prefix + a, prefix) == a
  {
    var key := prefix + a;
    assert StartsWith(key, prefix) by { assert key[..|prefix|] == prefix; }
    DropPrefix(key, prefix);
    assert key[|prefix|..] == a;
    IndexOfAbsentChar(a, '_');
  }

  /** The label of a stored landing key: `landing_line_k` reads `line k` for each digit `k`. */
  lemma LandingLineLabel(k: char)
    requires '0' <= k <= '9'
    ensures Label(LandingPrefix + "line_" + [k], LandingPrefix) == "line " + [k]
  {
    assert LandingPrefix + "line_" + [k] == LandingPrefix + "line" + "_" + [k];
    assert "line" + " " + [k] == "line " + [k];
    LabelOfGroupedKey(LandingPrefix, "line", [k]);
  }

  /** The label of the stored completion title key: `completion_title` reads `title`. */
  lemma CompletionTitleLabel()
    ensures Label("completion_title", CompletionPrefix) == "title"
  {
    assert CompletionPrefix + "title" == "completion_title";
    LabelOfPlainKey(CompletionPrefix, "title");
  }

  // ---------------------------------------------------------------------
  // Progress dots of the overview
  // ---------------------------------------------------------------------

  /** Dot `n` of a team's card: done below its stage or at 8 once completed, active at its stage unless completed. */
  function AdminDot(t: TeamRow, n: int): (d: Game.Dot)
    ensures d == Game.Active <==> n == t.currentStage && !t.completed
    ensures d == Game.Done ==> n < t.currentStage || t.completed
    ensures t.completed && n == LastStage ==> d == Game.Done
  {
    if n < t.currentStage || (t.completed && n == LastStage) then Game.Done
    else if n == t.currentStage && !t.completed then Game.Active
    else Game.Locked
  }

  /** For a team in a well-formed state the overview shows its progress: all done once completed, else done below and active at its stage. */
  lemma AdminDotsFollowProgress(t: TeamRow)
    requires ProgressOk(t.currentStage, t.completed)
    ensures t.completed ==> forall n :: 1 <= n <= LastStage ==> AdminDot(t, n) == Game.Done
    ensures !t.completed ==> forall n :: (AdminDot(t, n) == Game.Done <==> n < t.currentStage)
                                      && (AdminDot(t, n) == Game.Active <==> n == t.currentStage)
  {
  }

  /** While a team is playing, the overview's dots and the team's own game screen agree. */
  lemma AdminAndGameDotsAgree(t: TeamRow)
    requires ProgressOk(t.currentStage, t.completed) && !t.completed
    ensures forall n :: AdminDot(t, n) ==
              Game.GameDot(Some(Session.TeamInfo(t.id, t.teamName, t.username, t.currentStage, t.completed)), n)
  {
  }

  /** The dashboard's own state: the four lists, the selected team, and three busy flags. */
  class Dashboard {
    var teams: seq<TeamRow>
    var admins: seq<AdminRow>
    var stages: seq<StageRow>
    var settings: seq<SettingRow>
    var selectedTeam: string
    var loading: bool
    var saving: bool
    var resettingAll: bool

    constructor ()
      ensures teams == [] && admins == [] && stages == [] && settings == [] && selectedTeam == ""
      ensures loading && !saving && !resettingAll
    {
      teams := [];
      admins := [];
      stages := [];
      settings := [];
      selectedTeam := "";
      loading := true;
      saving := false;
      resettingAll := false;
    }

    function ViewOf(): View
      reads this
    {
      View(teams, admins, stages, settings, selectedTeam)
    }

    /** The lists on screen mirror the stored tables. */
    predicate InSync(db: Backend)
      reads this, db
    {
      Mirrors(ViewOf(), db.teams, db.admins, db.stages, db.settings)
    }

    /** `fetchAllData`: the queries in `arrived` returned data, the others failed. */
    method FetchAllData(db: Backend, arrived: set<Table>)
      modifies this
      ensures ViewOf() == AfterFetch(old(ViewOf()), db.teams, db.admins, db.stages, db.settings, arrived)
      ensures !loading && saving == old(saving) && resettingAll == old(resettingAll)
      ensures arrived == AllTables ==> InSync(db)
    {
      loading := true;
      if TeamsTable in arrived { teams := db.teams; }
      if AdminsTable in arrived { admins := db.admins; }
      if StagesTable in arrived { stages := db.stages; }
      if SettingsTable in arrived { settings := db.settings; }
      if TeamsTable in arrived && db.teams != [] {
        selectedTeam := db.teams[0].id;
      }
      loading := false;
      FullFetchMirrors(old(ViewOf()), db.teams, db.admins, db.stages, db.settings);
    }

    /** The mount effect: without an admin session go to the admin login, otherwise load everything. */
    method Enter(db: Backend, auth: Session.AuthStore, arrived: set<Table>) returns (dest: Option<Route>)
      modifies this
      ensures !auth.IsAdminLoggedIn() ==> dest == Some(AdminLoginRoute) && unchanged(this)
      ensures auth.IsAdminLoggedIn() ==>
                dest == None && !loading && saving == old(saving) && resettingAll == old(resettingAll)
                && ViewOf() == AfterFetch(old(ViewOf()), db.teams, db.admins, db.stages, db.settings, arrived)
    {
      if !auth.IsAdminLoggedIn() {
        return Some(AdminLoginRoute);
      }
      FetchAllData(db, arrived);
      dest := None;
    }

    /** `updateTeam`: write one column of one team; on success apply the same edit to the local list. */
    method UpdateTeam(db: Backend, teamId: string, f: TeamField, writeFails: bool)
      modifies this`teams, db`teams
      ensures writeFails ==> teams == old(teams) && db.teams == old(db.teams)
      ensures !writeFails ==> db.teams == UpdateTeamRows(old(db.teams), teamId, f)
      ensures !writeFails ==> teams == UpdateTeamRows(old(teams), teamId, f)
      ensures old(InSync(db)) ==> InSync(db)
    {
      if writeFails {
        return;
      }
      db.teams := UpdateTeamRows(db.teams, teamId, f);
      teams := UpdateTeamRows(teams, teamId, f);
    }

    /** `updateAdmin`. */
    method UpdateAdmin(db: Backend, adminId: string, f: AdminField, writeFails: bool)
      modifies this`admins, db`admins
      ensures writeFails ==> admins == old(admins) && db.admins == old(db.admins)
      ensures !writeFails ==> db.admins == UpdateAdminRows(old(db.admins), adminId, f)
      ensures !writeFails ==> admins == UpdateAdminRows(old(admins), adminId, f)
      ensures old(InSync(db)) ==> InSync(db)
    {
      if writeFails {
        return;
      }
      db.admins := UpdateAdminRows(db.admins, adminId, f);
      admins := UpdateAdminRows(admins, adminId, f);
    }

    /** `updateStage`. */
    method UpdateStage(db: Backend, stageId: string, f: StageField, writeFails: bool)
      modifies this`stages, db`stages
      ensures writeFails ==> stages == old(stages) && db.stages == old(db.stages)
      ensures !writeFails ==> db.stages == UpdateStageRows(old(db.stages), stageId, f)
      ensures !writeFails ==> stages == UpdateStageRows(old(stages), stageId, f)
      ensures old(InSync(db)) ==> InSync(db)
    {
      if writeFails {
        return;
      }
      db.stages := UpdateStageRows(db.stages, stageId, f);
      stages := UpdateStageRows(stages, stageId, f);
    }

    /** `updateSetting`: the stored row also records the time of the edit, the local row only the value. */
    method UpdateSetting(db: Backend, settingId: string, value: string, now: Stamp, writeFails: bool)
      modifies this`settings, db`settings
      ensures writeFails ==> settings == old(settings) && db.settings == old(db.settings)
      ensures !writeFails ==> db.settings == UpdateSettingRows(old(db.settings), settingId, value, Some(now))
      ensures !writeFails ==> settings == UpdateSettingRows(old(settings), settingId, value, None)
      ensures old(InSync(db)) ==> InSync(db)
    {
      if writeFails {
        return;
      }
      if InSync(db) {
        SettingEditKeepsAgreement(settings, db.settings, settingId, value, now);
      }
      db.settings := UpdateSettingRows(db.settings, settingId, value, Some(now));
      settings := UpdateSettingRows(settings, settingId, value, None);
    }

    /**
     * `resetTeamProgress`: put the team back at stage 1, clear its stages,
     * reload. The writes' errors are not checked, so a failed write simply
     * leaves its table as it was.
     */
    method ResetTeamProgress(db: Backend, teamId: string, teamsWriteFails: bool, stagesWriteFails: bool,
                             arrived: set<Table>)
      modifies this, db`teams, db`stages
      ensures db.teams == if teamsWriteFails then old(db.teams) else ResetTeamRows(old(db.teams), teamId)
      ensures db.stages == if stagesWriteFails then old(db.stages) else ResetStagesOf(old(db.stages), teamId)
      ensures ViewOf() == AfterFetch(old(ViewOf()), db.teams, db.admins, db.stages, db.settings, arrived)
      ensures !saving && !loading && resettingAll == old(resettingAll)
      ensures arrived == AllTables ==> InSync(db)
    {
      saving := true;
      if !teamsWriteFails {
        db.teams := ResetTeamRows(db.teams, teamId);
      }
      if !stagesWriteFails {
        db.stages := ResetStagesOf(db.stages, teamId);
      }
      FetchAllData(db, arrived);
      saving := false;
    }

    /**
     * `resetAllTeamsProgress`: only after confirmation, every team back at
     * stage 1 and every stage cleared, then reload.
     */
    method ResetAllTeamsProgress(db: Backend, confirmed: bool, teamsWriteFails: bool, stagesWriteFails: bool,
                                 arrived: set<Table>)
      modifies this, db`teams, db`stages
      ensures !confirmed ==> unchanged(this) && db.teams == old(db.teams) && db.stages == old(db.stages)
      ensures confirmed ==>
                && db.teams == (if teamsWriteFails then old(db.teams) else ResetAllTeamRows(old(db.teams)))
                && db.stages == (if stagesWriteFails then old(db.stages) else ResetAllStageRows(old(db.stages)))
                && ViewOf() == AfterFetch(old(ViewOf()), db.teams, db.admins, db.stages, db.settings, arrived)
                && !resettingAll && !loading && saving == old(saving)
                && (arrived == AllTables ==> InSync(db))
    {
      if !confirmed {
        return;
      }
      resettingAll := true;
      if !teamsWriteFails {
        db.teams := ResetAllTeamRows(db.teams);
      }
      if !stagesWriteFails {
        db.stages := ResetAllStageRows(db.stages);
      }
      FetchAllData(db, arrived);
      resettingAll := false;
    }
  }

  /** After a full reset and a full reload, every team shown is at stage 1 and not completed, and no stage is completed. */
  lemma ResetAllThenReloadShowsFreshStart(v: View, teams: seq<TeamRow>, admins: seq<AdminRow>,
                                          stages: seq<StageRow>, settings: seq<SettingRow>)
    ensures var r := AfterFetch(v, ResetAllTeamRows(teams), admins, ResetAllStageRows(stages), settings, AllTables);
            TeamsValid(r.teams)
            && (forall i :: 0 <= i < |r.teams| ==> r.teams[i].currentStage == 1 && !r.teams[i].completed)
            && (forall i :: 0 <= i < |r.stages| ==> !r.stages[i].isCompleted && r.stages[i].completedAt.None?)
  {
  }
}
