/**
 * The four remote tables (`teams`, `admins`, `team_stages`, `site_settings`)
 * held in memory, their rows, the single-field edits the dashboard issues,
 * and the progress invariant of a team: `current_stage` in 1..8 and
 * `completed` only at stage 8.
 */
module Tables {
  import opened Wrappers
  import opened Lists

  /** A timestamp as written by `new Date().toISOString()`; the model treats it as opaque text. */
  type Stamp = string

  /** The number of the last stage. */
  const LastStage := 8

  datatype TeamRow = TeamRow(id: string, teamName: string, username: string, password: string,
                             currentStage: int, completed: bool)

  datatype AdminRow = AdminRow(id: string, adminName: string, username: string, password: string)

  datatype StageRow = StageRow(id: string, teamId: string, stageNumber: int, locationName: string,
                               solution: string, isCompleted: bool, completedAt: Option<Stamp>)

  datatype SettingRow = SettingRow(id: string, key: string, value: string, updatedAt: Option<Stamp>)

  /** A team's progress is well formed: a stage among 1..8, and completed only at the last stage. */
  predicate ProgressOk(stage: int, completed: bool) {
    1 <= stage <= LastStage && (completed ==> stage == LastStage)
  }

  predicate TeamsValid(teams: seq<TeamRow>) {
    forall i :: 0 <= i < |teams| ==> ProgressOk(teams[i].currentStage, teams[i].completed)
  }

  predicate StagesValid(stages: seq<StageRow>) {
    forall i :: 0 <= i < |stages| ==> 1 <= stages[i].stageNumber <= LastStage
  }

  // ---------------------------------------------------------------------
  // Single-field edits: `update({ [field]: value })`
  // ---------------------------------------------------------------------

  /** An editable column of `teams` together with the value written to it. */
  datatype TeamField =
    | TeamName(name: string)
    | TeamUsername(username: string)
    | TeamPassword(password: string)
    | CurrentStage(stage: int)
    | Completed(done: bool)

  /** The row holds the value that `f` would write. */
  predicate TeamHas(t: TeamRow, f: TeamField) {
    match f
    case TeamName(v) => t.teamName == v
    case TeamUsername(v) => t.username == v
    case TeamPassword(v) => t.password == v
    case CurrentStage(v) => t.currentStage == v
    case Completed(v) => t.completed == v
  }

  /** `{ ...t, [field]: value }`: the named column takes the value, the id and every other column keep theirs. */
  function SetTeamField(t: TeamRow, f: TeamField): (r: TeamRow)
    ensures r.id == t.id && TeamHas(r, f)
    ensures forall g :: !SameColumn(f, g) ==> (TeamHas(r, g) <==> TeamHas(t, g))
  {
    match f
    case TeamName(v) => t.(teamName := v)
    case TeamUsername(v) => t.(username := v)
    case TeamPassword(v) => t.(password := v)
    case CurrentStage(v) => t.(currentStage := v)
    case Completed(v) => t.(completed := v)
  }

  predicate SameColumn(f: TeamField, g: TeamField) {
    (f.TeamName? && g.TeamName?) || (f.TeamUsername? && g.TeamUsername?) || (f.TeamPassword? && g.TeamPassword?)
    || (f.CurrentStage? && g.CurrentStage?) || (f.Completed? && g.Completed?)
  }

  /** A credential column: the only team columns the dashboard's inputs edit. */
  predicate IsCredential(f: TeamField) {
    f.TeamName? || f.TeamUsername? || f.TeamPassword?
  }

  /** `update({[field]: value}).eq('id', id)` on `teams`, and equally the local `teams.map(...)`. */
  function UpdateTeamRows(teams: seq<TeamRow>, id: string, f: TeamField): (r: seq<TeamRow>)
    ensures |r| == |teams|
    ensures forall i :: 0 <= i < |teams| && teams[i].id != id ==> r[i] == teams[i]
    ensures forall i :: 0 <= i < |teams| && teams[i].id == id ==>
              r[i].id == id && TeamHas(r[i], f)
              && forall g :: !SameColumn(f, g) ==> (TeamHas(r[i], g) <==> TeamHas(teams[i], g))
  {
    Patch(teams, (t: TeamRow) => t.id == id, (t: TeamRow) => SetTeamField(t, f))
  }

  /** Editing a credential column never disturbs a team's progress. */
  lemma CredentialEditKeepsProgress(teams: seq<TeamRow>, id: string, f: TeamField)
    requires TeamsValid(teams) && IsCredential(f)
    ensures TeamsValid(UpdateTeamRows(teams, id, f))
  {
    var r := UpdateTeamRows(teams, id, f);
    forall i | 0 <= i < |teams|
      ensures ProgressOk(r[i].currentStage, r[i].completed)
    {
      if teams[i].id == id {
        assert TeamHas(r[i], CurrentStage(teams[i].currentStage));
        assert TeamHas(r[i], Completed(teams[i].completed));
      }
    }
  }

  /** The update signature also admits progress columns, and nothing stops them from breaking the invariant. */
  lemma ProgressEditCanBreakInvariant()
    ensures var teams := [TeamRow("t1", "Alpha", "alpha", "pw", 3, false)];
            TeamsValid(teams) && !TeamsValid(UpdateTeamRows(teams, "t1", Completed(true)))
  {
    var teams := [TeamRow("t1", "Alpha", "alpha", "pw", 3, false)];
    var r := UpdateTeamRows(teams, "t1", Completed(true));
    assert r[0].currentStage == 3 by {
      assert TeamHas(r[0], CurrentStage(3));
    }
  }

  /** An editable column of `admins`. */
  datatype AdminField =
    | AdminName(name: string)
    | AdminUsername(username: string)
    | AdminPassword(password: string)

  predicate AdminHas(a: AdminRow, f: AdminField) {
    match f
    case AdminName(v) => a.adminName == v
    case AdminUsername(v) => a.username == v
    case AdminPassword(v) => a.password == v
  }

  function SetAdminField(a: AdminRow, f: AdminField): (r: AdminRow)
    ensures r.id == a.id && AdminHas(r, f)
    ensures forall g :: !SameAdminColumn(f, g) ==> (AdminHas(r, g) <==> AdminHas(a, g))
  {
    match f
    case AdminName(v) => a.(adminName := v)
    case AdminUsername(v) => a.(username := v)
    case AdminPassword(v) => a.(password := v)
  }

  predicate SameAdminColumn(f: AdminField, g: AdminField) {
    (f.AdminName? && g.AdminName?) || (f.AdminUsername? && g.AdminUsername?) || (f.AdminPassword? && g.AdminPassword?)
  }

  /** `update({[field]: value}).eq('id', id)` on `admins`, and the local `admins.map(...)`. */
  function UpdateAdminRows(admins: seq<AdminRow>, id: string, f: AdminField): (r: seq<AdminRow>)
    ensures |r| == |admins|
    ensures forall i :: 0 <= i < |admins| && admins[i].id != id ==> r[i] == admins[i]
    ensures forall i :: 0 <= i < |admins| && admins[i].id == id ==> r[i] == SetAdminField(admins[i], f)
  {
    Patch(admins, (a: AdminRow) => a.id == id, (a: AdminRow) => SetAdminField(a, f))
  }

  /** An editable column of `team_stages`. */
  datatype StageField =
    | LocationName(name: string)
    | Solution(solution: string)
    | IsCompleted(done: bool)

  predicate StageHas(s: StageRow, f: StageField) {
    match f
    case LocationName(v) => s.locationName == v
    case Solution(v) => s.solution == v
    case IsCompleted(v) => s.isCompleted == v
  }

  function SetStageField(s: StageRow, f: StageField): (r: StageRow)
    ensures r.id == s.id && r.teamId == s.teamId && r.stageNumber == s.stageNumber
    ensures r.completedAt == s.completedAt && StageHas(r, f)
    ensures forall g :: !SameStageColumn(f, g) ==> (StageHas(r, g) <==> StageHas(s, g))
  {
    match f
    case LocationName(v) => s.(locationName := v)
    case Solution(v) => s.(solution := v)
    case IsCompleted(v) => s.(isCompleted := v)
  }

  predicate SameStageColumn(f: StageField, g: StageField) {
    (f.LocationName? && g.LocationName?) || (f.Solution? && g.Solution?) || (f.IsCompleted? && g.IsCompleted?)
  }

  /** `update({[field]: value}).eq('id', id)` on `team_stages`, and the local `stages.map(...)`. */
  function UpdateStageRows(stages: seq<StageRow>, id: string, f: StageField): (r: seq<StageRow>)
    ensures |r| == |stages|
    ensures forall i :: 0 <= i < |stages| && stages[i].id != id ==> r[i] == stages[i]
    ensures forall i :: 0 <= i < |stages| && stages[i].id == id ==> r[i] == SetStageField(stages[i], f)
    ensures StagesValid(stages) ==> StagesValid(r)
  {
    Patch(stages, (s: StageRow) => s.id == id, (s: StageRow) => SetStageField(s, f))
  }

  /**
   * `update({ setting_value, updated_at }).eq('id', id)` on `site_settings`;
   * the local copy (`stamp` None) changes only the value.
   */
  function UpdateSettingRows(settings: seq<SettingRow>, id: string, value: string, stamp: Option<Stamp>)
    : (r: seq<SettingRow>)
    ensures |r| == |settings|
    ensures forall i :: 0 <= i < |settings| && settings[i].id != id ==> r[i] == settings[i]
    ensures forall i :: 0 <= i < |settings| && settings[i].id == id ==>
              r[i].id == id && r[i].key == settings[i].key && r[i].value == value
              && r[i].updatedAt == (if stamp.Some? then stamp else settings[i].updatedAt)
  {
    Patch(settings, (s: SettingRow) => s.id == id,
          (s: SettingRow) => s.(value := value, updatedAt := if stamp.Some? then stamp else s.updatedAt))
  }

  // ---------------------------------------------------------------------
  // Progress writes: stage completion, advancing, finishing, resetting
  // ---------------------------------------------------------------------

  /** `update({ is_completed: true, completed_at: now }).eq('id', id)` on `team_stages`. */
  function MarkStageDone(stages: seq<StageRow>, id: string, now: Stamp): (r: seq<StageRow>)
    ensures |r| == |stages|
    ensures forall i :: 0 <= i < |stages| && stages[i].id != id ==> r[i] == stages[i]
    ensures forall i :: 0 <= i < |stages| && stages[i].id == id ==>
              r[i].isCompleted && r[i].completedAt == Some(now)
              && r[i] == stages[i].(isCompleted := true, completedAt := Some(now))
    ensures StagesValid(stages) ==> StagesValid(r)
  {
    Patch(stages, (s: StageRow) => s.id == id, (s: StageRow) => s.(isCompleted := true, completedAt := Some(now)))
  }

  /** `update({ current_stage: next }).eq('id', id)` on `teams`. */
  function AdvanceTeamRows(teams: seq<TeamRow>, id: string, next: int): (r: seq<TeamRow>)
    ensures |r| == |teams|
    ensures forall i :: 0 <= i < |teams| && teams[i].id != id ==> r[i] == teams[i]
    ensures forall i :: 0 <= i < |teams| && teams[i].id == id ==> r[i] == teams[i].(currentStage := next)
  {
    UpdateTeamRows(teams, id, CurrentStage(next))
  }

  /** `update({ completed: true, current_stage: 8 }).eq('id', id)` on `teams`. */
  function FinishTeamRows(teams: seq<TeamRow>, id: string): (r: seq<TeamRow>)
    ensures |r| == |teams|
    ensures forall i :: 0 <= i < |teams| && teams[i].id != id ==> r[i] == teams[i]
    ensures forall i :: 0 <= i < |teams| && teams[i].id == id ==>
              r[i] == teams[i].(completed := true, currentStage := LastStage)
    ensures TeamsValid(teams) ==> TeamsValid(r)
  {
    Patch(teams, (t: TeamRow) => t.id == id, (t: TeamRow) => t.(completed := true, currentStage := LastStage))
  }

  /** A team back at its start: stage 1, not completed. */
  function ResetTeamRow(t: TeamRow): (r: TeamRow)
    ensures r.id == t.id && r.teamName == t.teamName && r.username == t.username && r.password == t.password
    ensures r.currentStage == 1 && !r.completed
  {
    t.(currentStage := 1, completed := false)
  }

  /** A stage no longer solved: not completed, no completion time. */
  function ResetStageRow(s: StageRow): (r: StageRow)
    ensures r.id == s.id && r.teamId == s.teamId && r.stageNumber == s.stageNumber
    ensures r.locationName == s.locationName && r.solution == s.solution
    ensures !r.isCompleted && r.completedAt.None?
  {
    s.(isCompleted := false, completedAt := None)
  }

  /** `update({ current_stage: 1, completed: false }).eq('id', id)` on `teams`. */
  function ResetTeamRows(teams: seq<TeamRow>, id: string): (r: seq<TeamRow>)
    ensures |r| == |teams|
    ensures forall i :: 0 <= i < |teams| && teams[i].id != id ==> r[i] == teams[i]
    ensures forall i :: 0 <= i < |teams| && teams[i].id == id ==> r[i] == ResetTeamRow(teams[i])
    ensures TeamsValid(teams) ==> TeamsValid(r)
  {
    Patch(teams, (t: TeamRow) => t.id == id, ResetTeamRow)
  }

  /** `update({ is_completed: false, completed_at: null }).eq('team_id', teamId)` on `team_stages`. */
  function ResetStagesOf(stages: seq<StageRow>, teamId: string): (r: seq<StageRow>)
    ensures |r| == |stages|
    ensures forall i :: 0 <= i < |stages| && stages[i].teamId != teamId ==> r[i] == stages[i]
    ensures forall i :: 0 <= i < |stages| && stages[i].teamId == teamId ==> r[i] == ResetStageRow(stages[i])
    ensures StagesValid(stages) ==> StagesValid(r)
  {
    Patch(stages, (s: StageRow) => s.teamId == teamId, ResetStageRow)
  }

  /** The unscoped `update({ current_stage: 1, completed: false })` on `teams`. */
  function ResetAllTeamRows(teams: seq<TeamRow>): (r: seq<TeamRow>)
    ensures |r| == |teams|
    ensures forall i :: 0 <= i < |teams| ==> r[i] == ResetTeamRow(teams[i])
    ensures TeamsValid(r)
  {
    Patch(teams, (t: TeamRow) => true, ResetTeamRow)
  }

  /** The unscoped `update({ is_completed: false, completed_at: null })` on `team_stages`. */
  function ResetAllStageRows(stages: seq<StageRow>): (r: seq<StageRow>)
    ensures |r| == |stages|
    ensures forall i :: 0 <= i < |stages| ==> r[i] == ResetStageRow(stages[i])
    ensures StagesValid(stages) ==> StagesValid(r)
  {
    Patch(stages, (s: StageRow) => true, ResetStageRow)
  }

  /** Resetting every team is the same as resetting each team by id, whatever order the ids come in. */
  lemma {:induction false} ResetAllIsEveryReset(teams: seq<TeamRow>, ids: seq<string>)
    requires forall i :: 0 <= i < |teams| ==> teams[i].id in ids
    ensures ResetAllTeamRows(teams) == ResetEach(teams, ids)
  {
    ResetEachSpec(teams, ids);
  }

  /** Reset the teams with the given ids, one id after the other. */
  function ResetEach(teams: seq<TeamRow>, ids: seq<string>): seq<TeamRow>
    decreases |ids|
  {
    if ids == [] then teams else ResetEach(ResetTeamRows(teams, ids[0]), ids[1..])
  }

  lemma {:induction false} ResetEachSpec(teams: seq<TeamRow>, ids: seq<string>)
    ensures |ResetEach(teams, ids)| == |teams|
    ensures forall i :: 0 <= i < |teams| ==>
              ResetEach(teams, ids)[i] == if teams[i].id in ids then ResetTeamRow(teams[i]) else teams[i]
    decreases |ids|
  {
    if ids != [] {
      var once := ResetTeamRows(teams, ids[0]);
      ResetEachSpec(once, ids[1..]);
      forall i | 0 <= i < |teams|
        ensures ResetEach(teams, ids)[i] == if teams[i].id in ids then ResetTeamRow(teams[i]) else teams[i]
      {
        assert teams[i].id in ids <==> teams[i].id == ids[0] || teams[i].id in ids[1..] by {
          assert ids == [ids[0]] + ids[1..];
        }
        assert once[i].id == teams[i].id;
      }
    }
  }

  /**
   * The remote store: four tables the pages read and write. Each query in the
   * source becomes a read of these fields, each `update` an assignment.
   */
  class Backend {
    var teams: seq<TeamRow>
    var admins: seq<AdminRow>
    var stages: seq<StageRow>
    var settings: seq<SettingRow>

    constructor (teams: seq<TeamRow>, admins: seq<AdminRow>, stages: seq<StageRow>, settings: seq<SettingRow>)
      ensures this.teams == teams && this.admins == admins
      ensures this.stages == stages && this.settings == settings
    {
      this.teams := teams;
      this.admins := admins;
      this.stages := stages;
      this.settings := settings;
    }
  }
}
