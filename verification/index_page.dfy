/**
 * The landing screen: four lines of welcome text with built-in defaults,
 * replaced on mount by the stored `landing_line_1` .. `landing_line_4`
 * settings when the query returns data.
 */
module Landing {
  import opened Tables
  import opened SiteCopy

  datatype LandingLines = LandingLines(line1: string, line2: string, line3: string, line4: string)

  const DefaultLines := LandingLines(
    "Welcome to the ultimate treasure hunt!",
    "Test your skills across 8 challenging stages.",
    "Work as a team to decode locations and find solutions.",
    "May the best team win!")

  const Key1 := "landing_line_1"
  const Key2 := "landing_line_2"
  const Key3 := "landing_line_3"
  const Key4 := "landing_line_4"

  /** The keys listed in the query's `.in(...)`. */
  const LandingKeys := [Key1, Key2, Key3, Key4]

  /**
   * `setLines({ line1: settings.landing_line_1 || lines.line1, ... })`: a
   * non-empty value in the record replaces its line, and a record with no
   * non-empty landing value leaves the lines as they are.
   */
  function Merge(m: map<string, string>, current: LandingLines): (r: LandingLines)
    ensures Key1 in m && m[Key1] != "" ==> r.line1 == m[Key1]
    ensures Key2 in m && m[Key2] != "" ==> r.line2 == m[Key2]
    ensures Key3 in m && m[Key3] != "" ==> r.line3 == m[Key3]
    ensures Key4 in m && m[Key4] != "" ==> r.line4 == m[Key4]
    ensures (forall k :: k in LandingKeys && k in m ==> m[k] == "") ==> r == current
  {
    LandingLines(Pick(m, Key1, current.line1), Pick(m, Key2, current.line2),
                 Pick(m, Key3, current.line3), Pick(m, Key4, current.line4))
  }

  /** The lines read straight off the stored table, each falling back to the current one. */
  function ShownLines(settings: seq<SettingRow>, current: LandingLines): LandingLines {
    LandingLines(Shown(settings, Key1, current.line1), Shown(settings, Key2, current.line2),
                 Shown(settings, Key3, current.line3), Shown(settings, Key4, current.line4))
  }

  /** The query, the copy loop and the merge show exactly the lines read off the table. */
  lemma MergeIsShown(settings: seq<SettingRow>, current: LandingLines)
    ensures Merge(Collected(Selected(settings, LandingKeys)), current) == ShownLines(settings, current)
  {
    PickIsShown(settings, LandingKeys, Key1, current.line1);
    PickIsShown(settings, LandingKeys, Key2, current.line2);
    PickIsShown(settings, LandingKeys, Key3, current.line3);
    PickIsShown(settings, LandingKeys, Key4, current.line4);
  }

  /** With no landing row stored, or only empty ones, the screen keeps its lines. */
  lemma NoStoredLinesKeepsCurrent(settings: seq<SettingRow>, current: LandingLines)
    requires forall i :: 0 <= i < |settings| && settings[i].key in LandingKeys ==> settings[i].value == ""
    ensures ShownLines(settings, current) == current
  {
    forall k | k in LandingKeys
      ensures LastSetting(settings, k).Some? ==> LastSetting(settings, k).value == ""
    {
      LastSettingIsStored(settings, k);
    }
  }

  /** The landing screen's own state. */
  class LandingPage {
    var lines: LandingLines
    var loading: bool

    constructor ()
      ensures lines == DefaultLines && loading
    {
      lines := DefaultLines;
      loading := true;
    }

    /**
     * The mount effect: when the query returns data (`queryFails` false), the
     * rows are copied into a record and merged over the lines; the spinner
     * stops either way.
     */
    method FetchSettings(db: Backend, queryFails: bool)
      modifies this
      ensures !loading
      ensures queryFails ==> lines == old(lines)
      ensures !queryFails ==> lines == ShownLines(db.settings, old(lines))
    {
      if !queryFails {
        var data := Selected(db.settings, LandingKeys);
        var settings := CollectSettings(data);
        MergeIsShown(db.settings, lines);
        lines := Merge(settings, lines);
      }
      loading := false;
    }
  }
}
