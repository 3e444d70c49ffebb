/**
 * The completion screen: only a team whose session says it has finished may
 * stay; everyone else is sent to the landing screen. The title and four
 * lines have built-in defaults and are replaced by the stored
 * `completion_*` settings when the query returns data.
 */
module Completion {
  import opened Wrappers
  import opened Tables
  import Session
  import opened Routing
  import opened SiteCopy
  import Game

  datatype CompletionCopy = CompletionCopy(title: string, line1: string, line2: string, line3: string, line4: string)

  const DefaultCopy := CompletionCopy(
    "Congratulations",
    "You Have Successfully Completed ALL Stages.",
    "Go And meet the Event Coordinator",
    "raeN dnuorg roolf kcolb TEF moorssalC r",
    "To Win The Competition")

  const TitleKey := "completion_title"
  const Key1 := "completion_line_1"
  const Key2 := "completion_line_2"
  const Key3 := "completion_line_3"
  const Key4 := "completion_line_4"

  /** The keys listed in the query's `.in(...)`. */
  const CompletionKeys := [TitleKey, Key1, Key2, Key3, Key4]

  /** The mount guard: `!isTeamLoggedIn || !team?.completed` sends the visitor to the landing screen. */
  function MountRedirect(teamLoggedIn: bool, team: Option<Session.TeamInfo>): (r: Option<Route>)
    ensures r.None? <==> teamLoggedIn && team.Some? && team.value.completed
    ensures r.Some? ==> r.value == Landing
  {
    if !teamLoggedIn || !(team.Some? && team.value.completed) then Some(Landing) else None
  }

  /** In a session, the screen stays exactly when a finished team is logged in. */
  lemma StaysOnlyForFinishedTeam(s: Session.SessionState)
    ensures MountRedirect(Session.TeamLoggedIn(s), s.team).None? <==> s.team.Some? && s.team.value.completed
    ensures MountRedirect(Session.TeamLoggedIn(s), s.team).Some? ==> Access(Landing, s) == Render
  {
  }

  /** The session the game writes after the last stage is one this screen keeps. */
  lemma FinishingTheGameOpensCompletion(s: Session.SessionState, t: Session.TeamInfo)
    ensures var after := Session.AfterLoginTeam(s, Game.NextTeam(t, LastStage));
            MountRedirect(Session.TeamLoggedIn(after), after.team).None?
            && Access(CompletionRoute, after) == Render
  {
  }

  /**
   * `setContent({ title: settings.completion_title || content.title, ... })`:
   * a non-empty value in the record replaces its part, and a record with no
   * non-empty completion value leaves the content as it is.
   */
  function Merge(m: map<string, string>, current: CompletionCopy): (r: CompletionCopy)
    ensures TitleKey in m && m[TitleKey] != "" ==> r.title == m[TitleKey]
    ensures Key1 in m && m[Key1] != "" ==> r.line1 == m[Key1]
    ensures Key2 in m && m[Key2] != "" ==> r.line2 == m[Key2]
    ensures Key3 in m && m[Key3] != "" ==> r.line3 == m[Key3]
    ensures Key4 in m && m[Key4] != "" ==> r.line4 == m[Key4]
    ensures (forall k :: k in CompletionKeys && k in m ==> m[k] == "") ==> r == current
  {
    CompletionCopy(Pick(m, TitleKey, current.title), Pick(m, Key1, current.line1), Pick(m, Key2, current.line2),
                   Pick(m, Key3, current.line3), Pick(m, Key4, current.line4))
  }

  /** The copy read straight off the stored table, each part falling back to the current one. */
  function ShownCopy(settings: seq<SettingRow>, current: CompletionCopy): CompletionCopy {
    CompletionCopy(Shown(settings, TitleKey, current.title), Shown(settings, Key1, current.line1),
                   Shown(settings, Key2, current.line2), Shown(settings, Key3, current.line3),
                   Shown(settings, Key4, current.line4))
  }

  /** The query, the copy loop and the merge show exactly the copy read off the table. */
  lemma MergeIsShown(settings: seq<SettingRow>, current: CompletionCopy)
    ensures Merge(Collected(Selected(settings, CompletionKeys)), current) == ShownCopy(settings, current)
  {
    PickIsShown(settings, CompletionKeys, TitleKey, current.title);
    PickIsShown(settings, CompletionKeys, Key1, current.line1);
    PickIsShown(settings, CompletionKeys, Key2, current.line2);
    PickIsShown(settings, CompletionKeys, Key3, current.line3);
    PickIsShown(settings, CompletionKeys, Key4, current.line4);
  }

  /** A landing row never changes the completion screen, whatever its value and wherever it is stored. */
  lemma LandingRowsIgnored(before: seq<SettingRow>, extra: seq<SettingRow>, after: seq<SettingRow>, current: CompletionCopy)
    requires forall i :: 0 <= i < |extra| ==> extra[i].key !in CompletionKeys
    ensures ShownCopy(before + extra + after, current) == ShownCopy(before + after, current)
  {
    OtherRowsIgnored(before, extra, after, TitleKey, current.title);
    OtherRowsIgnored(before, extra, after, Key1, current.line1);
    OtherRowsIgnored(before, extra, after, Key2, current.line2);
    OtherRowsIgnored(before, extra, after, Key3, current.line3);
    OtherRowsIgnored(before, extra, after, Key4, current.line4);
  }

  /** The completion screen's own state. */
  class CompletionPage {
    var content: CompletionCopy

    constructor ()
      ensures content == DefaultCopy
    {
      content := DefaultCopy;
    }

    /**
     * The mount effect: the guard first; then, when the query returns data
     * (`queryFails` false), the rows are copied into a record and merged over
     * the content on screen.
     */
    method Mount(db: Backend, auth: Session.AuthStore, queryFails: bool) returns (dest: Option<Route>)
      modifies this
      ensures dest == MountRedirect(auth.IsTeamLoggedIn(), auth.team)
      ensures dest.Some? || queryFails ==> content == old(content)
      ensures dest.None? && !queryFails ==> content == ShownCopy(db.settings, old(content))
    {
      dest := MountRedirect(auth.IsTeamLoggedIn(), auth.team);
      if dest.Some? {
        return;
      }
      if !queryFails {
        var data := Selected(db.settings, CompletionKeys);
        var settings := CollectSettings(data);
        MergeIsShown(db.settings, content);
        content := Merge(settings, content);
      }
    }
  }
}
