/**
 * The replay loop of `main`: the matches are walked in order; for each one
 * both players are fetched from the id-keyed map and, when that succeeds,
 * `simulate_match` updates them in place.
 */
module Replay {
  import opened Options
  import opened Outcomes
  import opened Players
  import opened Loading

  /**
   * Whether `get_many_mut` yields the two records of a match: both ids must be
   * present and must differ (it returns None for a repeated key).
   */
  predicate Fetchable(t: Table, m: Match) {
    m.player1Id in t && m.player2Id in t && m.player1Id != m.player2Id
  }

  /** `get_many_mut([&m.player1Id, &m.player2Id])` on the map of records. */
  function GetManyMut(players: map<string, Player>, k1: string, k2: string): (r: Option<(Player, Player)>)
    ensures r.Some? <==> k1 in players && k2 in players && k1 != k2
    ensures r.Some? ==> r.value.0 == players[k1] && r.value.1 == players[k2]
  {
    if k1 in players && k2 in players && k1 != k2 then Some((players[k1], players[k2])) else None
  }

  /** The table after one replay step. */
  function Step(t: Table, m: Match, update: Update): (r: Table)
    ensures r.Keys == t.Keys
    ensures !Fetchable(t, m) ==> r == t
    ensures forall k :: k in t && k != m.player1Id && k != m.player2Id ==> r[k] == t[k]
    ensures Fetchable(t, m) ==>
      (r[m.player1Id], r[m.player2Id]) == Simulated(t[m.player1Id], t[m.player2Id], m.outcome, update)
  {
    if Fetchable(t, m) then
      var (s1, s2) := Simulated(t[m.player1Id], t[m.player2Id], m.outcome, update);
      t[m.player1Id := s1][m.player2Id := s2]
    else t
  }

  /** The table after replaying the matches in order. */
  function Replayed(t: Table, ms: seq<Match>, update: Update): (r: Table)
    ensures r.Keys == t.Keys
  {
    if ms == [] then t
    else Step(Replayed(t, ms[..|ms| - 1], update), ms[|ms| - 1], update)
  }

  /** `main`'s loop over the matches, updating the records in the map in place. */
  method ReplayMatches(players: map<string, Player>, matches: seq<Match>, update: Update)
    requires Distinct(players)
    modifies players.Values
    ensures Snapshot(players) == Replayed(old(Snapshot(players)), matches, update)
  {
    ghost var start := Snapshot(players);
    var i := 0;
    while i < |matches|
      invariant 0 <= i <= |matches|
      invariant Snapshot(players) == Replayed(start, matches[..i], update)
    {
      var m := matches[i];
      ghost var before := Snapshot(players);
      var fetched := GetManyMut(players, m.player1Id, m.player2Id);
      if fetched.Some? {
        var (p1, p2) := fetched.value;
        SimulateMatch(p1, p2, m.outcome, update);
        assert forall k :: k in players && k != m.player1Id && k != m.player2Id ==> players[k] != p1 && players[k] != p2;
      }
      assert Snapshot(players) == Step(before, m, update);
      assert matches[..i + 1][..i] == matches[..i];
      i := i + 1;
    }
    assert matches[..i] == matches;
  }

  /** The two tallies a table can be summed over. */
  datatype Tally = Wins | Losses

  function Count(s: PlayerState, tally: Tally): nat {
    match tally
    case Wins => s.wins
    case Losses => s.losses
  }

  /** The sum of one tally over all players of the table. */
  ghost function Total(t: Table, tally: Tally): nat
    decreases |t|
  {
    if t == map[] then 0
    else
      var k :| k in t;
      Count(t[k], tally) + Total(t - {k}, tally)
  }

  /** The total can be split at any key, not only the one `Total` happens to pick. */
  lemma {:induction false} TotalSplit(t: Table, k: string, tally: Tally)
    requires k in t
    ensures Total(t, tally) == Count(t[k], tally) + Total(t - {k}, tally)
    decreases |t|
  {
    var k' :| k' in t && Total(t, tally) == Count(t[k'], tally) + Total(t - {k'}, tally);
    if k' != k {
      var rest := t - {k'};
      assert k in rest && rest[k] == t[k];
      TotalSplit(rest, k, tally);
      assert rest - {k} == (t - {k}) - {k'};
      assert k' in t - {k} && (t - {k})[k'] == t[k'];
      TotalSplit(t - {k}, k', tally);
    }
  }

  /** Replacing one player's value changes the total by the change of that value. */
  lemma TotalUpdate(t: Table, k: string, s: PlayerState, tally: Tally)
    requires k in t
    ensures Total(t[k := s], tally) == Total(t, tally) - Count(t[k], tally) + Count(s, tally)
  {
    TotalSplit(t, k, tally);
    TotalSplit(t[k := s], k, tally);
    assert t[k := s] - {k} == t - {k};
  }

  /** The number of matches that are applied to a table with these keys and are not draws. */
  function Decisive(keys: set<string>, ms: seq<Match>): nat {
    if ms == [] then 0
    else
      var m := ms[|ms| - 1];
      Decisive(keys, ms[..|ms| - 1])
        + (if m.player1Id in keys && m.player2Id in keys && m.player1Id != m.player2Id && m.outcome != Draw then 1 else 0)
  }

  /** One step adds one win and one loss for a decisive applied match, and nothing otherwise. */
  lemma StepTotals(t: Table, m: Match, update: Update, tally: Tally)
    ensures Total(Step(t, m, update), tally)
      == Total(t, tally) + (if Fetchable(t, m) && m.outcome != Draw then 1 else 0)
  {
    if Fetchable(t, m) {
      var (s1, s2) := Simulated(t[m.player1Id], t[m.player2Id], m.outcome, update);
      SimulatedBalances(t[m.player1Id], t[m.player2Id], m.outcome, update);
      TotalUpdate(t, m.player1Id, s1, tally);
      TotalUpdate(t[m.player1Id := s1], m.player2Id, s2, tally);
    }
  }

  /**
   * Tallies are conserved: replaying adds exactly one win and one loss per
   * applied match that is not a draw.
   */
  lemma {:induction false} ReplayedTotals(t: Table, ms: seq<Match>, update: Update, tally: Tally)
    ensures Total(Replayed(t, ms, update), tally) == Total(t, tally) + Decisive(t.Keys, ms)
  {
    if ms != [] {
      var prefix := ms[..|ms| - 1];
      ReplayedTotals(t, prefix, update, tally);
      StepTotals(Replayed(t, prefix, update), ms[|ms| - 1], update, tally);
    }
  }

  /** A table where nobody has won or lost yet. */
  ghost predicate Fresh(t: Table) {
    forall k :: k in t ==> t[k].wins == 0 && t[k].losses == 0
  }

  lemma {:induction false} TotalOfFresh(t: Table, tally: Tally)
    requires Fresh(t)
    ensures Total(t, tally) == 0
    decreases |t|
  {
    if t != map[] {
      var k :| k in t;
      TotalSplit(t, k, tally);
      TotalOfFresh(t - {k}, tally);
    }
  }

  /**
   * After replaying from fresh tallies, total wins equal total losses and both
   * equal the number of applied matches that were not draws.
   */
  lemma WinsEqualLosses(t: Table, ms: seq<Match>, update: Update)
    requires Fresh(t)
    ensures Total(Replayed(t, ms, update), Wins) == Decisive(t.Keys, ms)
    ensures Total(Replayed(t, ms, update), Losses) == Decisive(t.Keys, ms)
  {
    TotalOfFresh(t, Wins);
    TotalOfFresh(t, Losses);
    ReplayedTotals(t, ms, update, Wins);
    ReplayedTotals(t, ms, update, Losses);
  }

  /** A player who takes part in none of the matches ends the replay as it started. */
  lemma {:induction false} ReplayedUntouched(t: Table, ms: seq<Match>, update: Update, k: string)
    requires k in t
    requires forall j :: 0 <= j < |ms| ==> ms[j].player1Id != k && ms[j].player2Id != k
    ensures Replayed(t, ms, update)[k] == t[k]
  {
    if ms != [] {
      ReplayedUntouched(t, ms[..|ms| - 1], update, k);
    }
  }

  /** The replay never changes a player's id or name. */
  lemma {:induction false} ReplayedKeepsIdentity(t: Table, ms: seq<Match>, update: Update, k: string)
    requires k in t
    ensures Replayed(t, ms, update)[k].id == t[k].id
    ensures Replayed(t, ms, update)[k].name == t[k].name
  {
    if ms != [] {
      ReplayedKeepsIdentity(t, ms[..|ms| - 1], update, k);
    }
  }

  /** Every key of the table is the id of the player stored under it. */
  ghost predicate KeyedById(t: Table) {
    forall k :: k in t ==> t[k].id == k
  }

  lemma {:induction false} ReplayedKeyedById(t: Table, ms: seq<Match>, update: Update)
    requires KeyedById(t)
    ensures KeyedById(Replayed(t, ms, update))
  {
    forall k | k in t
      ensures Replayed(t, ms, update)[k].id == k
    {
      ReplayedKeepsIdentity(t, ms, update, k);
    }
  }

  /**
   * Three players with fresh tallies in a cycle of wins (a beats b, b beats c,
   * c beats a) each finish with one win and one loss, whatever the ratings do.
   */
  lemma CyclicScenario(t: Table, a: string, b: string, c: string, update: Update)
    requires a in t && b in t && c in t && a != b && b != c && a != c
    requires Fresh(t)
    ensures var r := Replayed(t, [Match(a, b, Win), Match(b, c, Win), Match(c, a, Win)], update);
      && r[a].wins == 1 && r[a].losses == 1
      && r[b].wins == 1 && r[b].losses == 1
      && r[c].wins == 1 && r[c].losses == 1
  {
    var ms := [Match(a, b, Win), Match(b, c, Win), Match(c, a, Win)];
    assert ms[..1][..0] == [] && ms[..2][..1] == ms[..1] && ms[..3] == ms;
    var t1 := Replayed(t, ms[..1], update);
    assert t1 == Step(Replayed(t, [], update), Match(a, b, Win), update);
    var t2 := Replayed(t, ms[..2], update);
    assert t2 == Step(t1, Match(b, c, Win), update);
    assert Replayed(t, ms, update) == Step(t2, Match(c, a, Win), update);
  }
}
