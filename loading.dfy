/**
 * What `get_all_players` and `get_all_matches` make of the rows they read:
 * an id column that fails to decode becomes the placeholder id "0", every
 * set is classified by its score difference, and sets involving the
 * placeholder are dropped. The database access itself is not modelled; the
 * rows arrive as plain sequences.
 */
module Loading {
  import opened Options
  import opened Outcomes
  import opened Players

  /** The placeholder id substituted for an id column that did not decode. */
  const Sentinel: string := "0"

  /** One row of the `players` table: the id (None when it did not decode) and the tag. */
  datatype PlayerRow = PlayerRow(playerId: Option<string>, tag: string)

  /** One row of the `sets` table: both ids (None when they did not decode) and both scores. */
  datatype SetRow = SetRow(p1Id: Option<string>, p2Id: Option<string>, p1Score: i32, p2Score: i32)

  datatype Match = Match(player1Id: string, player2Id: string, outcome: Outcome)

  function IdOrSentinel(id: Option<string>): string {
    match id
    case Some(s) => s
    case None => Sentinel
  }

  /** The match a set row decodes to, before filtering. */
  function MatchOf(row: SetRow): Match {
    Match(IdOrSentinel(row.p1Id), IdOrSentinel(row.p2Id), Classify(row.p1Score, row.p2Score))
  }

  /** A match is kept when neither id is the placeholder. */
  predicate Kept(m: Match) {
    m.player1Id != Sentinel && m.player2Id != Sentinel
  }

  /** The matches the loader returns for the given rows, in row order. */
  function MatchesOf(rows: seq<SetRow>): (ms: seq<Match>)
    ensures |ms| <= |rows|
    ensures forall j :: 0 <= j < |ms| ==> Kept(ms[j])
  {
    if rows == [] then []
    else
      var m := MatchOf(rows[|rows| - 1]);
      MatchesOf(rows[..|rows| - 1]) + (if Kept(m) then [m] else [])
  }

  /** The positions of the rows whose match is kept, in increasing order. */
  ghost function KeptPositions(rows: seq<SetRow>): seq<nat> {
    if rows == [] then []
    else
      var i := |rows| - 1;
      KeptPositions(rows[..i]) + (if Kept(MatchOf(rows[i])) then [i] else [])
  }

  /**
   * The loaded list holds exactly the matches of the rows whose ids are both
   * real, one per such row, in the order of the rows.
   */
  lemma {:induction false} MatchesOfSelects(rows: seq<SetRow>)
    ensures var ms, ps := MatchesOf(rows), KeptPositions(rows);
      && |ms| == |ps|
      && (forall j :: 0 <= j < |ps| ==> ps[j] < |rows| && ms[j] == MatchOf(rows[ps[j]]))
      && (forall j, j' :: 0 <= j < j' < |ps| ==> ps[j] < ps[j'])
      && (forall i :: 0 <= i < |rows| ==> (i in ps <==> Kept(MatchOf(rows[i]))))
  {
    if rows != [] {
      var n := |rows| - 1;
      var prefix := rows[..n];
      MatchesOfSelects(prefix);
      var ms, ps := MatchesOf(rows), KeptPositions(rows);
      assert forall j :: 0 <= j < |KeptPositions(prefix)| ==> rows[KeptPositions(prefix)[j]] == prefix[KeptPositions(prefix)[j]];
      assert forall i :: 0 <= i < n ==> rows[i] == prefix[i];
    }
  }

  /** `get_all_matches`: classify every row and push the kept matches in order. */
  method CollectMatches(rows: seq<SetRow>) returns (matches: seq<Match>)
    ensures matches == MatchesOf(rows)
  {
    matches := [];
    var i := 0;
    while i < |rows|
      invariant 0 <= i <= |rows|
      invariant matches == MatchesOf(rows[..i])
    {
      var ma := MatchOf(rows[i]);
      if Kept(ma) {
        matches := matches + [ma];
      }
      assert rows[..i + 1][..i] == rows[..i];
      i := i + 1;
    }
    assert rows[..i] == rows;
  }

  /** The id a player row is stored under. */
  function KeyOf(row: PlayerRow): string {
    IdOrSentinel(row.playerId)
  }

  /**
   * The player table `get_all_players` builds: one fresh player per distinct
   * id, keyed by that id; a later row with the same id replaces an earlier one.
   */
  function InitialTable(rows: seq<PlayerRow>, prior: Rating): (t: Table)
    ensures t.Keys == set i | 0 <= i < |rows| :: KeyOf(rows[i])
    ensures forall k :: k in t ==> t[k].id == k && t[k].wins == 0 && t[k].losses == 0 && t[k].rating == prior
  {
    if rows == [] then map[]
    else
      var row := rows[|rows| - 1];
      var t0 := InitialTable(rows[..|rows| - 1], prior);
      assert forall i :: 0 <= i < |rows| - 1 ==> rows[..|rows| - 1][i] == rows[i];
      t0[KeyOf(row) := PlayerState(KeyOf(row), row.tag, 0, 0, prior)]
  }

  /** The last row with a given id decides that player's name. */
  lemma {:induction false} InitialTableLastNameWins(rows: seq<PlayerRow>, prior: Rating, i: nat)
    requires i < |rows|
    requires forall j :: i < j < |rows| ==> KeyOf(rows[j]) != KeyOf(rows[i])
    ensures InitialTable(rows, prior)[KeyOf(rows[i])].name == rows[i].tag
  {
    if i < |rows| - 1 {
      var prefix := rows[..|rows| - 1];
      assert forall j :: i < j < |prefix| ==> prefix[j] == rows[j];
      InitialTableLastNameWins(prefix, prior, i);
    }
  }

  /** `get_all_players`: create a player for every row and insert it under its id. */
  method LoadPlayers(rows: seq<PlayerRow>, prior: Rating) returns (players: map<string, Player>)
    ensures Distinct(players)
    ensures forall k :: k in players ==> fresh(players[k])
    ensures Snapshot(players) == InitialTable(rows, prior)
  {
    players := map[];
    var i := 0;
    while i < |rows|
      invariant 0 <= i <= |rows|
      invariant Distinct(players)
      invariant forall k :: k in players ==> fresh(players[k])
      invariant Snapshot(players) == InitialTable(rows[..i], prior)
    {
      var id := KeyOf(rows[i]);
      var player := new Player(id, rows[i].tag, prior);
      players := players[id := player];
      assert rows[..i + 1][..i] == rows[..i];
      i := i + 1;
    }
    assert rows[..i] == rows;
  }
}
