# smash_trueskill: match replay and leaderboard, modelled in Dafny

The program rates players from a history of sets. It loads every player and
every set from a database. It classifies each set as a win, loss or draw for
the first player. It drops sets whose player id could not be read; those ids
fall back to the placeholder `"0"`. It then replays the sets in order over a
map of player records keyed by id. Each replayed set updates both players'
TrueSkill ratings and their win/loss tallies in place. Finally it writes a
leaderboard sorted by descending rank score, with places numbered from 1.

This project models that bookkeeping and proves its properties. The TrueSkill
mathematics comes from the external `skillratings` crate and works on floating
point. It is left uninterpreted:

- `Players.Rating` is an abstract type.
- The rating update is a function value of type `Players.Update`.
- The rank score (`get_rank`) is a function value `Leaderboard.Rank` into the
  reals, a total order.

Every property below holds for every choice of these.

Modules, following the program's structure:

- `Outcomes` (outcomes.dfy): turning a set's two scores into an outcome.
- `Players` (players.dfy): the player record, which is a class whose
  tallies and rating change in place, and `simulate_match`.
- `Loading` (loading.dfy): what `get_all_players` and `get_all_matches` do
  with the decoded rows. This covers the `"0"` fallback, the classification,
  the filter, and the table keyed by id.
- `Replay` (replay.dfy): the loop of `main` over the matches. It has a pure
  specification (`Step`, `Replayed`) and the imperative loop
  (`ReplayMatches`) proved against it. It also has the tally totals and
  their conservation.
- `Leaderboard` (leaderboard.dfy): collecting the players, the in-place sort
  by rank score, and the place numbering.
- `Pipeline` (pipeline.dfy): `main` end to end, with lemmas about a whole run.
- `Options` (options.dfy): an optional value.

Two behaviours of the code are worth stating up front:

- The order of players with equal rank scores is not stated. The code sorts
  the values of a hash map (src/main.rs:164), whose iteration order is
  unspecified.
- A set is skipped silently when either id is missing from the map or the two
  ids are equal, since `get_many_mut` returns `None` for a repeated key
  (src/main.rs:152).

## Model

| member | source | states |
|---|---|---|
| `Outcomes.Classify` | src/main.rs:79-83 | the outcome is WIN exactly when p1_score > p2_score, LOSS exactly when p1_score < p2_score, DRAW exactly when they are equal |
| `Outcomes.WrappingSub` | src/main.rs:79 | i32 subtraction as a release build does it: congruent to the true difference modulo 2^32, and equal to it when it fits in i32 |
| `Outcomes.ClassifyAsWritten` | src/main.rs:79-83 | the classification with the wrapping subtraction as written; it agrees with `Classify` whenever the difference fits in i32 |
| `Outcomes.ClassifyAsWrittenOverflows` | src/main.rs:76-83 | for scores 2147483647 and -1 the code as written records a LOSS for the player who scored more |
| `Outcomes.ClassifySwapped` | src/main.rs:79-83 | exchanging the two scores exchanges WIN and LOSS and keeps DRAW |
| `Loading.MatchesOf` | src/main.rs:92-98 | at most one match per row; no loaded match has the placeholder id "0" on either side |
| `Loading.MatchesOfSelects` | src/main.rs:73-98 | the loaded list holds exactly the matches of the rows whose two ids are not "0", one per such row, in row order |
| `Loading.CollectMatches` | src/main.rs:71-100 | the push loop returns exactly the filtered, classified list `MatchesOf` |
| `Loading.InitialTable` | src/main.rs:43-60 | the keys are the ids of the rows (an undecodable id becomes "0"); each player is stored under its own id with zero wins, zero losses and the prior rating |
| `Loading.InitialTableLastNameWins` | src/main.rs:55-60 | when several rows share an id, the last such row's tag is the player's name |
| `Loading.LoadPlayers` | src/main.rs:43-62 | the insert loop yields fresh, pairwise distinct records whose values form `InitialTable` |
| `Players.Player.constructor` | src/main.rs:46-52 | a new player has the given id and name, no wins, no losses and the prior rating |
| `Players.Simulated` | src/main.rs:104-123 | both ratings are the components of the update's result; WIN raises player1.wins and player2.losses by one and leaves player1.losses and player2.wins; LOSS the same with roles swapped; DRAW leaves all tallies; id and name unchanged |
| `Players.SimulatedBalances` | src/main.rs:112-122 | one set adds as many wins as losses: one of each, or none for a draw |
| `Players.SimulateMatch` | src/main.rs:104-123 | the in-place update of two distinct records leaves them equal to `Simulated` of their old values; id and name are constants |
| `Replay.GetManyMut` | src/main.rs:152 | both records are returned exactly when both ids are present and differ |
| `Replay.Step` | src/main.rs:152-153 | a step whose two ids cannot both be fetched leaves the whole table unchanged; otherwise only the two entries of the match change, to `Simulated` of their old values, and the keys stay the same |
| `Replay.Replayed` | src/main.rs:151-161 | replaying any sequence of matches keeps the set of player ids |
| `Replay.ReplayMatches` | src/main.rs:151-161 | the loop over the map of records leaves their values equal to `Replayed` of the old values |
| `Replay.StepTotals` | src/main.rs:112-122 | one step adds exactly one to total wins and one to total losses when it is applied and not a draw, and nothing otherwise |
| `Replay.ReplayedTotals` | src/main.rs:151-154 | replaying adds to total wins, and to total losses, exactly the number of applied non-draw matches |
| `Replay.WinsEqualLosses` | src/main.rs:151-154 | from zero tallies, total wins equal total losses and both equal the number of applied non-draw matches |
| `Replay.ReplayedUntouched` | src/main.rs:151-154 | a player named in none of the matches ends the replay exactly as it started |
| `Replay.ReplayedKeepsIdentity` | src/main.rs:107-110 | the replay never changes a player's id or name |
| `Replay.ReplayedKeyedById` | src/main.rs:151-154 | if every player is stored under its own id before the replay, so it is after |
| `Replay.CyclicScenario` | src/main.rs:151-154 | three fresh players in a cycle of wins each finish with one win and one loss |
| `Leaderboard.CollectValues` | src/main.rs:164 | collecting the map's values yields every player once: one element per key, each the value stored under its id |
| `Leaderboard.SortByRank` | src/main.rs:166-170 | the array ends in non-increasing order of rank score and is a permutation of what it held |
| `Leaderboard.NumberRows` | src/main.rs:174-182 | row i holds place i + 1 with the name, rank score, wins, losses and id of the i-th sorted player |
| `Leaderboard.BuildReport` | src/main.rs:164-183 | one row per map entry, places exactly 1..N in order, rank scores non-increasing, every row the row of the player with that id, and every player on some row |
| `Leaderboard.ReportIdsDistinct` | src/main.rs:164-176 | no id appears on two rows of a leaderboard |
| `Leaderboard.ReportColumns` | src/main.rs:174-182 | the wins column of a leaderboard sums to the total wins of the players, and the losses column to the total losses |
| `Pipeline.Run` | src/main.rs:142-188 | a run's rows are a leaderboard of the table obtained by replaying the loaded matches over the loaded players |
| `Pipeline.RunTallies` | src/main.rs:142-161 | after a run total wins equal total losses, and both equal the number of loaded non-draw matches between two distinct known players |
| `Pipeline.SentinelPlayerUntouched` | src/main.rs:92-98 | a player stored under the placeholder id "0" keeps zero wins, zero losses and the prior rating, since every match naming "0" is dropped |
| `Pipeline.NoSetsNoChange` | src/main.rs:151-161 | with no sets loaded, every player ends exactly as loaded |
| `Pipeline.RunReportColumns` | src/main.rs:172-183 | in the results file the wins column and the losses column have the same sum: the number of applied non-draw matches |

## Findings

| source | as written | input that shows it | evidently intended | confidence | as-written member | corrected member |
|---|---|---|---|---|---|---|
| src/main.rs:79 | `p1_score - p2_score` is computed on `i32`. A release build wraps on overflow; a debug build panics. | p1_score = 2147483647, p2_score = -1: the difference wraps to -2147483648, so the set is classified LOSS | WIN, because the first player scored more | low: not executed; real set scores are far too small to overflow | `Outcomes.ClassifyAsWritten` (counterexample `Outcomes.ClassifyAsWrittenOverflows`) | `Outcomes.Classify` |

## Left out

- Database access in `get_all_players` and `get_all_matches` (src/main.rs:39-41, 67-69) is not modelled. The rows arrive already decoded, as `PlayerRow` and `SetRow`. An id column that fails to decode is `None`, which becomes `"0"`. A tag or score column that fails to decode aborts the whole load; that is an I/O error path and is not modelled.
- Writing the results file with `csv::Writer` (src/main.rs:172-183) is not modelled. Only the sequence of rows is modelled.
- The TrueSkill update, `get_rank` and `expected_score` (src/main.rs:107, 136, 167-168, 178) are uninterpreted. They are foreign-crate floating-point code, so nothing is proved about how ratings move. `TrueSkillConfig::new()` is folded into the update function value.
- The comparator's `partial_cmp(...).unwrap_or(Equal)` fallback for NaN (src/main.rs:168-169) is not modelled. Rank scores are reals under a total order.
- `predict_game` (src/main.rs:125-140) is not modelled. It is called once at the end of `main` (src/main.rs:185); it only prints an expected score for two hard-coded ids and changes nothing.
- The console output (src/main.rs:145, 149, 158-160, 185) is not modelled. It does not affect any result.
- The order of players with equal rank scores is not stated. The map's iteration order (src/main.rs:164) is unspecified, so there is no input order to keep.
- Leaderboard.SortByRank: the source's `sort_by` is a stable merge sort; the model uses an insertion sort with the same contract, sorted and a permutation.
- Leaderboard.CollectValues: the source collects references (`Vec<&Player>`); the model collects the player values. Nothing changes the players at that point, so the two are equivalent.
- Wins and losses are `nat`, not `u32`. Overflowing a `u32` tally would take over four billion sets for one player. Places are `nat`, not `usize`.
- Outcomes.Classify: the rest of the model uses this corrected classification, not the wrapping one as written (see Findings).
