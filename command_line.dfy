/** The report mode chosen by the process arguments (`argv[0]` is the program). */
module CommandLine {
  import Dates

  const DefaultMode: string := "daily"
  const ModeFlag: string := "--mode"

  /** The value after a leading `--mode` flag, or `daily` if there is none. */
  function SelectMode(argv: seq<string>): (mode: string)
    ensures |argv| > 2 && argv[1] == ModeFlag ==> mode == argv[2]
    ensures !(|argv| > 2 && argv[1] == ModeFlag) ==> mode == DefaultMode
  {
    var mode := DefaultMode;
    if |argv| > 1 && argv[1] == ModeFlag then
      if |argv| > 2 then argv[2] else mode
    else mode
  }

  /**
   * The run reports on a week exactly when it is invoked as `--mode weekly`;
   * a missing, misplaced or unknown mode gives the daily window.
   */
  lemma WeeklyOnlyWhenAsked(argv: seq<string>, today: int, hour: nat)
    requires hour < 24
    ensures Dates.GetDateRange(SelectMode(argv), today, hour).start == today - 7
        <==> |argv| > 2 && argv[1] == ModeFlag && argv[2] == "weekly"
  {
    if |argv| > 2 && argv[1] == ModeFlag && argv[2] == "weekly" {
    } else {
      assert SelectMode(argv) != "weekly" by {
        if |argv| > 2 && argv[1] == ModeFlag {
        } else {
          assert DefaultMode[0] != "weekly"[0];
        }
      }
    }
  }
}
