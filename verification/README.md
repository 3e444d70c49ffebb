# DATA-HUNT treasure hunt: a verified Dafny model

DATA-HUNT is the browser front end of an eight-stage treasure hunt. Teams log in with credentials an
organiser created. They see the location of their current stage and submit the solution they found.
A right answer marks the stage done and moves the team on; at stage 8 the team is finished and sees
the completion screen. Admins log in to a dashboard to edit teams, admins, stages and the site copy,
and to reset progress. All data lives in four remote tables: `teams`, `admins`, `team_stages` and
`site_settings`.

This project models that logic in Dafny and proves properties of it.

- The remote tables are sequences of row datatypes, held in the `Tables.Backend` class.
- A page's state is a class whose fields are the page's state variables.
- A handler is a method that changes those fields, the backend and the session store, and returns
  where the page navigates (`Option<Route>`).
- Network failures are parameters: `queryFails`, `writeFails`, one flag per unchecked write or
  follow-up fetch of the game screen (`stageWriteFails`, `teamWriteFails`, `nextQueryFails`) and of
  the resets, and the set of dashboard fetches that `arrived`.

Modules, one per source file plus shared pieces:

| module | file | models |
|---|---|---|
| `Session` | auth_context.dfy | the session store: two slots mirrored into tab storage |
| `Routing` | protected_route.dfy | the routes, the router's route-to-role table and the guard |
| `Game` | game.dfy | the game screen: entry, answer check, advance, progress dots |
| `AdminDashboard` | admin.dfy | the dashboard: fetch, edits, resets, derived views |
| `TeamLogin`, `AdminLogin` | team_login.dfy, admin_login.dfy | the two login screens |
| `SiteCopy` | site_copy.dfy | the settings query, the `forEach` copy loop and the `\|\|` fallback, shared by both copy screens |
| `Landing`, `Completion` | index_page.dfy, completion.dfy | the landing and completion screens |
| `Tables` | tables.dfy | row types, the progress invariant, the single-field and progress writes |
| `Lists`, `Text`, `Wrappers` | lists.dfy, text.dfy, wrappers.dfy | `filter`/`map`/`find`/`.single()`; `trim`/`toLowerCase`/`startsWith`/`replace`; `Option` |

Two consequences of the code are easy to miss when reading it:

- **Only the answer is trimmed.** The answer check (src/pages/Game.tsx:80) trims the typed answer
  but compares it with the stored solution as stored. `Game.PaddedSolutionIsUnsolvable` shows that a
  stored solution ending in whitespace can never be matched, whatever a team types.
- **Start-up restore can activate both identities.** Each login clears the other identity, and the
  three session operations keep at most one identity active from any state
  (`Session.RunEstablishesValid`). Start-up restore (src/contexts/AuthContext.tsx:33-43) reads the
  two storage keys independently, so `Session.ForgedStorageActivatesBoth` shows a storage holding
  both keys activating both identities.

## Model

| member | source | states |
|---|---|---|
| Lists.Filter | src/pages/Admin.tsx:190 | the result keeps exactly the elements passing the test: every kept element passes and comes from the input, and every input element that passes is kept |
| Lists.FilterAppend | src/pages/Admin.tsx:190 | filtering distributes over concatenation, so kept elements keep their relative order |
| Lists.Patch | src/pages/Admin.tsx:99 | the id-keyed `map`: same length; a selected element is rewritten, any other stays in place |
| Lists.Single | src/pages/TeamLogin.tsx:40-45 | `.single()` yields a row exactly when the query returned exactly one, and then that row |
| Lists.FindFirst | src/pages/Admin.tsx:191 | `find` returns nothing iff no element satisfies the test; otherwise it returns a satisfying element with none satisfying before it |
| Text.TrimStart | src/pages/Game.tsx:68 | everything removed from the front is whitespace, and the result does not start with whitespace |
| Text.TrimEnd | src/pages/Game.tsx:68 | everything removed from the end is whitespace, and the result does not end with whitespace |
| Text.TrimStartSuffix | src/pages/Game.tsx:68 | trimming the front leaves a suffix of the input |
| Text.TrimEndPrefix | src/pages/Game.tsx:68 | trimming the end leaves a prefix of the input |
| Text.Trim | src/pages/Game.tsx:68 | `trim()` leaves a contiguous part of the string that neither starts nor ends with whitespace, and everything it removed before and after that part is whitespace |
| Text.IsBlank | src/pages/Game.tsx:68 | `!s.trim()` holds iff every character of `s` is whitespace |
| Text.BlankIffAllSpace | src/pages/Game.tsx:68 | trimming both ends leaves nothing iff every character is whitespace |
| Text.TrimIgnoresPadding | src/pages/TeamLogin.tsx:43-44 | whitespace added on either side of a string does not change its trimmed form |
| Text.LowerChar | src/pages/Game.tsx:80 | an upper-case ASCII letter becomes its lower-case partner (32 code points on, in `a`..`z`); any other character is unchanged; the result is never upper case; whitespace stays whitespace |
| Text.Lower | src/pages/Game.tsx:80 | `toLowerCase()` keeps the length and lower-cases every character in place |
| Text.LowerEqualIff | src/pages/Game.tsx:80 | two strings lower-case alike iff they have the same length and lower-case alike character by character |
| Text.TrimLowerCommute | src/pages/Game.tsx:80 | trimming then lower-casing equals lower-casing then trimming |
| Text.IndexOf | src/pages/Admin.tsx:463 | the pattern occurs at the returned position and at no earlier one; "not found" means it occurs nowhere |
| Text.IndexOfChar | src/pages/Admin.tsx:463 | for a one-character pattern, the first position holding that character is returned |
| Text.IndexOfAbsentChar | src/pages/Admin.tsx:463 | a character that does not occur is not found |
| Text.StartsWith | src/pages/Admin.tsx:460 | `startsWith(p)` holds iff `p` is no longer than the string and agrees with it at every position of `p` |
| Text.ReplaceFirst | src/pages/Admin.tsx:463 | `replace` with a string pattern: without an occurrence the string is unchanged; otherwise exactly the first occurrence is replaced; a replacement of equal length keeps the length |
| Text.CredentialsIgnorePadding | src/pages/TeamLogin.tsx:30-44 | whitespace around both fields changes neither their trimmed forms nor whether they are blank |
| Tables.SetTeamField | src/pages/Admin.tsx:99 | `{...t, [field]: value}`: the id is kept, the named column holds the value, and every other column is unchanged |
| Tables.UpdateTeamRows | src/pages/Admin.tsx:88-101 | same length; rows with another id are unchanged; the matching rows get the field written, with the id and other columns kept |
| Tables.CredentialEditKeepsProgress | src/pages/Admin.tsx:324-334 | editing a name, username or password keeps every team's progress well formed |
| Tables.ProgressEditCanBreakInvariant | src/pages/Admin.tsx:88-92 | the update signature also accepts `completed`, and writing it at stage 3 breaks the progress invariant |
| Tables.SetAdminField | src/pages/Admin.tsx:114 | the id is kept, the named column holds the value, and the other columns are unchanged |
| Tables.UpdateAdminRows | src/pages/Admin.tsx:103-116 | same length; other rows unchanged; matching rows get the field written |
| Tables.SetStageField | src/pages/Admin.tsx:129 | id, team, stage number and completion time are kept; the named column holds the value; the other columns are unchanged |
| Tables.UpdateStageRows | src/pages/Admin.tsx:118-131 | same length; other rows unchanged; matching rows get the field written; stage numbers stay in range |
| Tables.UpdateSettingRows | src/pages/Admin.tsx:133-146 | same length; other rows unchanged; the matching row gets the value, and the stored row also gets the time of the edit |
| Tables.MarkStageDone | src/pages/Game.tsx:87-90 | the row with that id becomes completed with the given time; the other rows are unchanged |
| Tables.AdvanceTeamRows | src/pages/Game.tsx:105-109 | the team's rows move to the next stage; the other rows are unchanged |
| Tables.FinishTeamRows | src/pages/Game.tsx:95-98 | the team's rows become completed at stage 8; the other rows are unchanged; the progress invariant is kept |
| Tables.ResetTeamRow | src/pages/Admin.tsx:154 | back at stage 1, not completed; the credentials are kept |
| Tables.ResetStageRow | src/pages/Admin.tsx:160 | not completed, no completion time; the location and solution are kept |
| Tables.ResetTeamRows | src/pages/Admin.tsx:152-155 | only the rows with that id are reset; the progress invariant is kept |
| Tables.ResetStagesOf | src/pages/Admin.tsx:158-161 | exactly the stages of that team are reset; the other stages are untouched |
| Tables.ResetAllTeamRows | src/pages/Admin.tsx:176-178 | every team is reset, so the progress invariant holds afterwards whatever held before |
| Tables.ResetAllStageRows | src/pages/Admin.tsx:181-183 | every stage is reset |
| Tables.ResetAllIsEveryReset | src/pages/Admin.tsx:148-183 | the unscoped reset equals resetting team by team over any list of ids covering every team, in any order |
| Tables.Backend.constructor | src/pages/Admin.tsx:14-43 | the in-memory stand-in for the four remote tables, whose rows have the shapes declared here: the store holds the four given tables |
| Session.AfterLoginTeam | src/contexts/AuthContext.tsx:45-50 | the team slot takes the team and the admin slot is cleared; both storage keys mirror the slots; other keys are untouched |
| Session.AfterLoginAdmin | src/contexts/AuthContext.tsx:52-57 | the reverse of the team login, with the same mirroring |
| Session.AfterLogout | src/contexts/AuthContext.tsx:59-64 | both slots are cleared, both keys are absent, and other keys are untouched |
| Session.StoredTeam | src/contexts/AuthContext.tsx:34-39 | the team slot is read back iff the team key holds a team snapshot, and then it is that snapshot |
| Session.StoredAdmin | src/contexts/AuthContext.tsx:35-42 | the admin slot is read back iff the admin key holds an admin snapshot, and then it is that snapshot |
| Session.Restore | src/contexts/AuthContext.tsx:33-43 | storage is read back unchanged; each flag is set iff its key holds a snapshot of its kind |
| Session.RestoreMirrored | src/contexts/AuthContext.tsx:33-43 | restoring a storage that mirrors a state reproduces that state |
| Session.RunEstablishesValid | src/contexts/AuthContext.tsx:45-64 | after any non-empty sequence of logins and logouts, from any state, at most one identity is active, storage mirrors memory, and a reload restores the same state |
| Session.ForgedStorageActivatesBoth | src/contexts/AuthContext.tsx:33-43 | start-up restore does not enforce the invariant: a storage holding both keys activates both identities |
| Session.AuthStore.constructor | src/contexts/AuthContext.tsx:29-43 | the store starts in the restored state of the given storage |
| Session.AuthStore.IsTeamLoggedIn | src/contexts/AuthContext.tsx:70 | the team flag is set iff the team slot is set |
| Session.AuthStore.IsAdminLoggedIn | src/contexts/AuthContext.tsx:71 | the admin flag is set iff the admin slot is set |
| Session.AuthStore.LoginTeam | src/contexts/AuthContext.tsx:45-50 | the new state is the team login applied to the old one: valid, team set, admin cleared |
| Session.AuthStore.LoginAdmin | src/contexts/AuthContext.tsx:52-57 | the new state is the admin login applied to the old one |
| Session.AuthStore.Logout | src/contexts/AuthContext.tsx:59-64 | the new state is the logout applied to the old one |
| Routing.PathInjective | src/App.tsx:30-61 | no two routes share a path |
| Routing.Guard | src/components/ProtectedRoute.tsx:13-16 | a team route renders iff the team flag is set, and otherwise redirects to `/login`; likewise an admin route with `/admin-login`; a redirect always targets a public route |
| Routing.GuardIgnoresOtherFlag | src/components/ProtectedRoute.tsx:13-14 | the decision depends only on the flag matching the role |
| Routing.Access | src/App.tsx:30-61 | public routes always render; `/game` and `/completion` render iff a team is logged in; `/admin` renders iff an admin is |
| Routing.NoStatePassesBothGuards | src/components/ProtectedRoute.tsx:13-14 | a state with at most one identity never opens a team route and the admin route at once |
| Game.Judge | src/pages/Game.tsx:68-84 | the submission is blank iff the trimmed answer is empty; it is not ready iff no stage or no team is loaded; it is correct iff the lower-cased trimmed answer equals the lower-cased untrimmed solution; otherwise it is wrong |
| Game.Accepts | src/pages/Game.tsx:80 | an answer is accepted iff its trimmed form has the solution's length and agrees with it character by character up to ASCII case |
| Game.CaseIsIgnored | src/pages/Game.tsx:80 | for all inputs: answers that lower-case alike are judged alike against solutions that lower-case alike |
| Game.AcceptsIgnoresCase | src/pages/Game.tsx:80 | "river" solves a stage stored as "River"; "rivers" does not |
| Game.PaddingIsIgnored | src/pages/Game.tsx:80 | whitespace around the typed answer never changes acceptance |
| Game.PaddedSolutionIsUnsolvable | src/pages/Game.tsx:80 | a stored solution ending in whitespace accepts no answer |
| Game.NextTeam | src/pages/Game.tsx:93-111 | the session team after solving stage n: identity kept; at n = 8 completed at stage 8; otherwise at stage n + 1 with `completed` unchanged; from a well-formed state at its own stage the progress stays well formed |
| Game.NextTeamRows | src/pages/Game.tsx:93-109 | the `teams` write: same length; other teams' rows unchanged; the solver's rows keep id and credentials and are completed at stage 8 after stage 8, otherwise moved to stage n + 1 |
| Game.NextTeamRowsKeepProgress | src/pages/Game.tsx:93-109 | the `teams` write keeps every team's progress well formed, and sets the solving team to finished at 8 or to the next stage |
| Game.StageFor | src/pages/Game.tsx:47-52 | the stage query yields a row iff exactly one row has that team and stage number, and then that row |
| Game.GameDot | src/pages/Game.tsx:151-159 | only the team's own stage can be active; without a team, or at stage 0, no dot is active and the dots below 1 are done; at a stage of 1 or more, a dot is done iff below it and active iff it is the stage |
| Game.GameDotsExactlyOneActive | src/pages/Game.tsx:151-168 | for a stage in 1..8, a dot is done iff it is below the stage and active iff it is the stage, so exactly one of the eight is active |
| Game.GamePage.constructor | src/pages/Game.tsx:24-28 | no stage, empty answer, loading, not submitting, no error |
| Game.GamePage.Enter | src/pages/Game.tsx:30-61 | no team: go to `/login`; a finished team: go to `/completion`; otherwise the current stage row is shown when the query succeeds with exactly one row, and the screen stays loading when the query fails |
| Game.GamePage.HandleSubmit | src/pages/Game.tsx:63-129 | per verdict: blank and wrong answers set their error; nothing is written unless the answer is correct; a correct one marks the stage row done and finishes the team at 8 (to `/completion`) or advances it, each write only if it succeeds; the session moves on either way; the answer is cleared and the next stage row is loaded, or none if that fetch fails |
| Game.GamePage.Commit | src/pages/Game.tsx:86-126 | the writes after a right answer, each leaving its table alone when it fails: stage row done, team finished or advanced; the session is refreshed regardless; the next stage is shown, or none when its fetch fails |
| AdminDashboard.AfterFetch | src/pages/Admin.tsx:66-86 | each list is replaced iff its query returned data; the first fetched team becomes selected when teams came back |
| AdminDashboard.FullFetchMirrors | src/pages/Admin.tsx:76-83 | a fetch where every query returns data leaves the lists mirroring the tables and shows the first team as selected |
| AdminDashboard.SettingEditKeepsAgreement | src/pages/Admin.tsx:133-146 | the remote write (with time) and the local edit (without it) keep the two setting lists in agreement |
| AdminDashboard.TeamStages | src/pages/Admin.tsx:190 | exactly the stages of the selected team |
| AdminDashboard.TeamStagesKeepOrder | src/pages/Admin.tsx:190 | stages fetched in stage order are listed for the selected team in stage order |
| AdminDashboard.ResetClearsTeamStages | src/pages/Admin.tsx:158-161 | after a team's reset, no stage listed for that team is completed |
| AdminDashboard.SelectedTeamData | src/pages/Admin.tsx:191 | nothing iff no team has the selected id; otherwise a team with that id |
| AdminDashboard.SelectedFirstTeam | src/pages/Admin.tsx:81-83 | when the first team is selected, the first row is the one shown |
| AdminDashboard.Group | src/pages/Admin.tsx:460 | a settings group holds exactly the settings whose key starts with the prefix |
| AdminDashboard.GroupsDisjoint | src/pages/Admin.tsx:460-476 | no setting is in both the landing group and the completion group |
| AdminDashboard.DropPrefix | src/pages/Admin.tsx:463 | removing the group prefix from a key of the group leaves the rest of the key |
| AdminDashboard.Label | src/pages/Admin.tsx:463 | for a key of the group, the label is as long as the key without its prefix, and is exactly that rest when it holds no underscore |
| AdminDashboard.LabelOfGroupedKey | src/pages/Admin.tsx:463 | a label is the key without its prefix, with only the first underscore turned into a space |
| AdminDashboard.LabelOfPlainKey | src/pages/Admin.tsx:476 | a key with no underscore after the prefix is labelled by the rest alone |
| AdminDashboard.LandingLineLabel | src/pages/Admin.tsx:463 | `landing_line_k` is labelled `line k` for every digit k |
| AdminDashboard.CompletionTitleLabel | src/pages/Admin.tsx:476 | `completion_title` is labelled `title` |
| AdminDashboard.AdminDot | src/pages/Admin.tsx:276-289 | a dot is active iff it is the team's stage and the team has not finished; a done dot is below the stage or belongs to a finished team; dot 8 of a finished team is done |
| AdminDashboard.AdminDotsFollowProgress | src/pages/Admin.tsx:276-289 | for a well-formed team, all eight dots are done once it has finished; otherwise a dot is done iff it is below the stage and active iff it is the stage |
| AdminDashboard.AdminAndGameDotsAgree | src/pages/Admin.tsx:276-289 | while a team is playing, the dashboard's dots equal the dots on the team's own game screen |
| AdminDashboard.ResetAllThenReloadShowsFreshStart | src/pages/Admin.tsx:168-188 | after a full reset and reload, every team shown is at stage 1 and not completed, and no stage is completed |
| AdminDashboard.Dashboard.constructor | src/pages/Admin.tsx:48-55 | empty lists, no selection, loading, not saving, not resetting |
| AdminDashboard.Dashboard.FetchAllData | src/pages/Admin.tsx:66-86 | the view becomes the fetch result, and loading ends; a full fetch leaves it in sync with the backend |
| AdminDashboard.Dashboard.Enter | src/pages/Admin.tsx:57-64 | without an admin session, go to `/admin-login` and change nothing; otherwise fetch everything |
| AdminDashboard.Dashboard.UpdateTeam | src/pages/Admin.tsx:88-101 | a failed write changes nothing; a successful one applies the same edit remotely and locally; being in sync is preserved |
| AdminDashboard.Dashboard.UpdateAdmin | src/pages/Admin.tsx:103-116 | a failed write changes nothing; a successful one applies the same edit remotely and locally; being in sync is preserved |
| AdminDashboard.Dashboard.UpdateStage | src/pages/Admin.tsx:118-131 | a failed write changes nothing; a successful one applies the same edit remotely and locally; being in sync is preserved |
| AdminDashboard.Dashboard.UpdateSetting | src/pages/Admin.tsx:133-146 | a failed write changes nothing; a successful one writes value and time remotely and the value locally; agreement is preserved |
| AdminDashboard.Dashboard.ResetTeamProgress | src/pages/Admin.tsx:148-166 | the team and its stages are reset (a failed write leaves its table alone), the lists are reloaded, and saving ends |
| AdminDashboard.Dashboard.ResetAllTeamsProgress | src/pages/Admin.tsx:168-188 | a declined confirmation changes nothing; otherwise every team and stage is reset, the lists are reloaded, and resetting ends |
| TeamLogin.Matches | src/pages/TeamLogin.tsx:40-45 | exactly the rows whose username and password equal the trimmed inputs |
| TeamLogin.Snapshot | src/pages/TeamLogin.tsx:53-59 | the session snapshot keeps the row's id, name, username, stage and `completed`, and has no password |
| TeamLogin.Destination | src/pages/TeamLogin.tsx:63-64 | a finished team goes to `/completion` and any other to `/game`, both team routes |
| TeamLogin.Attempt | src/pages/TeamLogin.tsx:29-51 | blank fields are rejected first with their message; a login is accepted iff exactly one row matches and the query did not fail, and then with that row; any other rejection carries the credentials message |
| TeamLogin.AcceptedRowIsUnique | src/pages/TeamLogin.tsx:40-45 | an accepted row is the only row with those credentials |
| TeamLogin.DuplicateCredentialsReject | src/pages/TeamLogin.tsx:40-51 | two different rows sharing credentials make every login with them fail |
| TeamLogin.PaddedInputIsIgnored | src/pages/TeamLogin.tsx:43-44 | whitespace typed around both fields does not change the outcome |
| TeamLogin.PaddedUsernameNeverMatches | src/pages/TeamLogin.tsx:43 | a stored username ending in whitespace can never be matched |
| TeamLogin.AcceptedDestinationRenders | src/pages/TeamLogin.tsx:63-64 | the post-login destination is a team route, and the guard renders it in the new session |
| TeamLogin.MountRedirect | src/pages/TeamLogin.tsx:23-27 | a logged-in team is sent to `/game`, and only then |
| TeamLogin.MountRedirectRenders | src/pages/TeamLogin.tsx:23-27 | the mount redirect lands on a route the guard renders |
| TeamLogin.TeamLoginPage.constructor | src/pages/TeamLogin.tsx:17-20 | empty fields, not loading, no error |
| TeamLogin.TeamLoginPage.HandleLogin | src/pages/TeamLogin.tsx:29-65 | a rejection shows its message, ends loading and leaves the session alone; an acceptance logs in the row without its password, stays loading and goes to `/completion` or `/game` by `completed` |
| AdminLogin.Matches | src/pages/AdminLogin.tsx:40-45 | exactly the admin rows whose username and password equal the trimmed inputs |
| AdminLogin.Snapshot | src/pages/AdminLogin.tsx:53-57 | the session snapshot keeps the row's id, name and username, and has no password |
| AdminLogin.Attempt | src/pages/AdminLogin.tsx:29-51 | blank fields first; accepted iff exactly one row matches and the query did not fail; other rejections say "Invalid admin credentials" |
| AdminLogin.AcceptedRowIsUnique | src/pages/AdminLogin.tsx:40-45 | an accepted row is the only row with those credentials |
| AdminLogin.DuplicateCredentialsReject | src/pages/AdminLogin.tsx:40-51 | two different rows sharing credentials make every login with them fail |
| AdminLogin.PaddedInputIsIgnored | src/pages/AdminLogin.tsx:43-44 | whitespace typed around both fields does not change the outcome |
| AdminLogin.PaddedPasswordNeverMatches | src/pages/AdminLogin.tsx:44 | a stored password ending in whitespace can never be matched |
| AdminLogin.AcceptedDestinationRenders | src/pages/AdminLogin.tsx:53-60 | after an admin login, `/admin` renders and `/game` redirects to `/login` |
| AdminLogin.MountRedirect | src/pages/AdminLogin.tsx:23-27 | a logged-in admin is sent to `/admin`, and only then |
| AdminLogin.MountRedirectRenders | src/pages/AdminLogin.tsx:23-27 | the mount redirect lands on a route the guard renders |
| AdminLogin.AdminLoginPage.constructor | src/pages/AdminLogin.tsx:17-20 | empty fields, not loading, no error |
| AdminLogin.AdminLoginPage.HandleLogin | src/pages/AdminLogin.tsx:29-61 | a rejection shows its message, ends loading and leaves the session alone; an acceptance logs in the row without its password (clearing any team session) and goes to `/admin` |
| SiteCopy.Selected | src/pages/Index.tsx:21-24 | only rows with a listed key are returned |
| SiteCopy.LastSetting | src/pages/Index.tsx:27-30 | the reference reading: nothing iff no stored row has the key |
| SiteCopy.LastSettingIsStored | src/pages/Index.tsx:27-30 | the value read under a key is the value of a stored row with that key |
| SiteCopy.LastValue | src/pages/Index.tsx:27-30 | the last fetched value under a key: nothing iff no fetched row carries it, and otherwise the value of a fetched row with that key |
| SiteCopy.Collected | src/pages/Index.tsx:27-30 | every fetched key is in the record |
| SiteCopy.CollectSettings | src/pages/Index.tsx:28-30 | the `forEach` loop builds the record in which each key holds its last fetched value, and holds only fetched keys |
| SiteCopy.CollectedIsLastValue | src/pages/Completion.tsx:40-43 | the record holds a key iff some row carries it, and then the last such row's value |
| SiteCopy.SelectedKeepsLast | src/pages/Index.tsx:24 | for a listed key, the last fetched value is the last stored one |
| SiteCopy.UnlistedKeyIsAbsent | src/pages/Completion.tsx:31-37 | an unlisted key never reaches the record |
| SiteCopy.Pick | src/pages/Index.tsx:32-35 | `value \|\| fallback`: a missing or empty value falls back, any other value is used |
| SiteCopy.Shown | src/pages/Index.tsx:31-36 | a line shows the fallback or the value of a stored row with its key, and shows the fallback when every such row is empty |
| SiteCopy.PickIsShown | src/pages/Index.tsx:21-36 | query, copy loop and `\|\|` together show the value of the last stored row with the key when that value is non-empty, else the fallback |
| SiteCopy.AppendedRowsIgnored | src/pages/Index.tsx:27-30 | rows under other keys stored after the others do not change the last value read under a key |
| SiteCopy.InsertedRowsIgnored | src/pages/Index.tsx:27-30 | rows under other keys stored anywhere in the table do not change the last value read under a key |
| SiteCopy.OtherRowsIgnored | src/pages/Index.tsx:32-35 | rows stored under other keys, anywhere in the table, do not change a line |
| SiteCopy.EmptyValueFallsBack | src/pages/Completion.tsx:45-49 | a stored empty value, as left by clearing a field in the dashboard, shows the fallback |
| Landing.Merge | src/pages/Index.tsx:31-36 | a non-empty value in the record replaces its line; a record with no non-empty landing value leaves the lines as they are |
| Landing.MergeIsShown | src/pages/Index.tsx:31-36 | each of the four lines is the value of the last stored `landing_line_k` row when that value is non-empty, else the current line |
| Landing.NoStoredLinesKeepsCurrent | src/pages/Index.tsx:31-36 | with no non-empty landing row stored, the lines stay as they are |
| Landing.LandingPage.constructor | src/pages/Index.tsx:11-17 | the four default lines, loading |
| Landing.LandingPage.FetchSettings | src/pages/Index.tsx:19-39 | a failed query keeps the lines; otherwise each line is the stored value or the current one; loading ends either way |
| Completion.MountRedirect | src/pages/Completion.tsx:22-25 | the visitor stays iff a team is logged in and its session says it has finished; otherwise it goes to `/` |
| Completion.StaysOnlyForFinishedTeam | src/pages/Completion.tsx:22-25 | in a session, the screen stays iff a finished team is logged in; the redirect target always renders |
| Completion.FinishingTheGameOpensCompletion | src/pages/Completion.tsx:22-25 | the session the game writes after stage 8 passes both the route guard and this screen's own guard |
| Completion.Merge | src/pages/Completion.tsx:44-50 | a non-empty value in the record replaces its part; a record with no non-empty completion value leaves the content as it is |
| Completion.MergeIsShown | src/pages/Completion.tsx:44-50 | the title and each line are the value of the last stored row with its `completion_*` key when that value is non-empty, else the current content |
| Completion.LandingRowsIgnored | src/pages/Completion.tsx:31-37 | rows under keys other than the five `completion_*` keys, stored anywhere in the table, never change the content |
| Completion.CompletionPage.constructor | src/pages/Completion.tsx:13-19 | the default title and lines |
| Completion.CompletionPage.Mount | src/pages/Completion.tsx:21-55 | the guard's redirect is returned and then nothing changes; a failed query keeps the content; otherwise the content is the stored copy over the current one |

## Left out

- Network I/O. Supabase queries and `Promise.all` are reads and assignments of the `Backend` fields.
  A failed query or write is a boolean parameter, or the set of dashboard fetches that `arrived`.
- Server-side ordering. `order('team_name')`, `order('admin_name')` and `order('stage_number')` in
  `fetchAllData` are the server's. The fetched lists are the stored sequences as they are.
  `AdminDashboard.TeamStagesKeepOrder` assumes rows that already arrive in stage order.
- Timestamps. `new Date().toISOString()` is a `Stamp` parameter.
- Random sparkle layout. `Math.random` in the completion screen is presentation only.
- JSON serialisation. The session storage holds snapshots directly. A stored value of the wrong kind
  under a key is ignored on restore; the code would parse it as whatever shape it has.
- Unicode case and whitespace.
  - Text.LowerChar: lower-cases ASCII letters only. `toLowerCase` also maps non-ASCII letters.
  - Text.IsSpace: covers the ASCII whitespace that `trim()` removes. `trim()` also removes no-break
    spaces, the byte-order mark and Unicode line and space separators.
- Toasts, `e.preventDefault()` and the spinners' markup. Navigation is the returned `Option<Route>`.
- React effect scheduling. The game and completion effects also re-run whenever the session `team`
  changes (src/pages/Game.tsx:42, src/pages/Completion.tsx:55). Each mount effect is one method call.
  After `HandleSubmit` the game's entry effect would run again; that second run is `Enter` called once
  more, and is not chained automatically.
- Concurrency. Double submission, overlapping admin edits and out-of-order completion of awaited
  calls are not modelled: every handler runs to completion before the next one starts.
- Stale closures. The local list updates of the dashboard use the lists as they were when the
  handler started, and the model does the same. Interleavings that would make them stale belong to
  the concurrency left out above.
- The `useAuth` provider-missing exception (src/contexts/AuthContext.tsx:81-87): a wiring error,
  not reachable in the application.
- Edits of the `id` and `team_id` columns, and of a stage's `stage_number`. `updateStage` accepts any
  `keyof Stage` (src/pages/Admin.tsx:118), but the dashboard's inputs write only `location_name` and
  `solution` (src/pages/Admin.tsx:439, 444). `Tables.StageField` has no `stage_number` case, so
  `Tables.UpdateStageRows` keeping stage numbers in range follows from that omission.
- Presentation components: `Header`, `CyberButton`, `CyberCard`, `CyberInput` and `LevelTitle`.
  The header's logout button calls `logout`, which is `Session.AuthStore.Logout`. The router wiring in
  src/App.tsx is reduced to the route-to-role table (`Routing.RequiredRole`) and the path table
  (`Routing.Path`). The catch-all 404 route is not modelled.
