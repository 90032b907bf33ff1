/**
 * `main`: load the players and the matches, replay the matches over the
 * players, and build the leaderboard. Printing, the results file and the
 * database are outside the model.
 */
module Pipeline {
  import opened Players
  import opened Loading
  import opened Replay
  import opened Leaderboard

  /** The player table at the end of the replay, as values. */
  function FinalTable(playerRows: seq<PlayerRow>, setRows: seq<SetRow>, prior: Rating, update: Update): Table {
    Replayed(InitialTable(playerRows, prior), MatchesOf(setRows), update)
  }

  /** The whole run: the rows of the results file. */
  method Run(playerRows: seq<PlayerRow>, setRows: seq<SetRow>, prior: Rating, update: Update, rank: Rank)
    returns (rows: seq<CsvRow>)
    ensures IsReport(rows, FinalTable(playerRows, setRows, prior, update), rank)
  {
    var players := LoadPlayers(playerRows, prior);
    var matches := CollectMatches(setRows);
    ReplayMatches(players, matches, update);
    var final := Snapshot(players);
    ReplayedKeyedById(InitialTable(playerRows, prior), matches, update);
    rows := BuildReport(final, rank);
  }

  /**
   * At the end of a run total wins equal total losses, and both equal the
   * number of loaded matches between two distinct known players that were not draws.
   */
  lemma RunTallies(playerRows: seq<PlayerRow>, setRows: seq<SetRow>, prior: Rating, update: Update)
    ensures var t, n := FinalTable(playerRows, setRows, prior, update),
                        Decisive(InitialTable(playerRows, prior).Keys, MatchesOf(setRows));
      Total(t, Wins) == n && Total(t, Losses) == n
  {
    WinsEqualLosses(InitialTable(playerRows, prior), MatchesOf(setRows), update);
  }

  /**
   * A player stored under the placeholder id (its id column did not decode)
   * plays no match, since every match naming the placeholder is dropped.
   */
  lemma SentinelPlayerUntouched(playerRows: seq<PlayerRow>, setRows: seq<SetRow>, prior: Rating, update: Update)
    requires Sentinel in InitialTable(playerRows, prior)
    ensures var s := FinalTable(playerRows, setRows, prior, update)[Sentinel];
      s.wins == 0 && s.losses == 0 && s.rating == prior
  {
    ReplayedUntouched(InitialTable(playerRows, prior), MatchesOf(setRows), update, Sentinel);
  }

  /** With no sets loaded every player keeps the prior rating and no wins or losses. */
  lemma NoSetsNoChange(playerRows: seq<PlayerRow>, prior: Rating, update: Update)
    ensures FinalTable(playerRows, [], prior, update) == InitialTable(playerRows, prior)
  {
  }

  /**
   * In the results file of a run the wins column and the losses column have the
   * same sum: the number of decisive matches that were applied.
   */
  lemma RunReportColumns(rows: seq<CsvRow>, playerRows: seq<PlayerRow>, setRows: seq<SetRow>, prior: Rating, update: Update, rank: Rank)
    requires IsReport(rows, FinalTable(playerRows, setRows, prior, update), rank)
    ensures var n := Decisive(InitialTable(playerRows, prior).Keys, MatchesOf(setRows));
      Column(rows, Wins) == n && Column(rows, Losses) == n
  {
    var t := FinalTable(playerRows, setRows, prior, update);
    RunTallies(playerRows, setRows, prior, update);
    ReportColumns(rows, t, rank, Wins);
    ReportColumns(rows, t, rank, Losses);
  }
}
