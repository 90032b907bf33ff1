/**
 * The leaderboard `main` writes after the replay: the players are collected
 * from the map, sorted by descending rank score and numbered from 1. The
 * rank score (`get_rank`) is a function value into the reals, which are
 * totally ordered.
 */
module Leaderboard {
  import opened Players
  import opened Replay

  /** The conservative rank score of a rating. */
  type Rank = Rating -> real

  /** One line of the results file. */
  datatype CsvRow = CsvRow(place: nat, name: string, rating: real, wins: nat, losses: nat, id: string)

  function RowOf(place: nat, s: PlayerState, rank: Rank): CsvRow {
    CsvRow(place, s.name, rank(s.rating), s.wins, s.losses, s.id)
  }

  /** Non-increasing rank scores from left to right. */
  ghost predicate SortedByRank(s: seq<PlayerState>, rank: Rank) {
    forall i, j :: 0 <= i < j < |s| ==> rank(s[i].rating) >= rank(s[j].rating)
  }

  /**
   * A finished leaderboard for a table: one row per player, places 1..N in
   * order, rank scores non-increasing, and every row the row of a player.
   */
  ghost predicate IsReport(rows: seq<CsvRow>, t: Table, rank: Rank) {
    && |rows| == |t|
    && (forall i :: 0 <= i < |rows| ==> rows[i].place == i + 1)
    && (forall i, j :: 0 <= i < j < |rows| ==> rows[i].rating >= rows[j].rating)
    && (forall i :: 0 <= i < |rows| ==> rows[i].id in t && rows[i] == RowOf(i + 1, t[rows[i].id], rank))
    && (forall k :: k in t ==> exists i :: 0 <= i < |rows| && rows[i].id == k)
  }

  /** `player_hashmap.values().collect()`: every player once, in an unspecified order. */
  method CollectValues(t: Table) returns (vs: seq<PlayerState>)
    requires KeyedById(t)
    ensures |vs| == |t|
    ensures forall k :: k in t ==> t[k] in vs
    ensures forall i :: 0 <= i < |vs| ==> vs[i].id in t && t[vs[i].id] == vs[i]
  {
    vs := [];
    var rest := t.Keys;
    while rest != {}
      invariant rest <= t.Keys
      invariant |vs| + |rest| == |t|
      invariant forall k :: k in t && k !in rest ==> t[k] in vs
      invariant forall i :: 0 <= i < |vs| ==> vs[i].id in t && vs[i].id !in rest && t[vs[i].id] == vs[i]
      decreases |rest|
    {
      var k :| k in rest;
      vs := vs + [t[k]];
      rest := rest - {k};
    }
  }

  /** `sort_by` with the descending rank comparator, in place. */
  method SortByRank(a: array<PlayerState>, rank: Rank)
    modifies a
    ensures SortedByRank(a[..], rank)
    ensures multiset(a[..]) == old(multiset(a[..]))
  {
    var i := 0;
    while i < a.Length
      invariant 0 <= i <= a.Length
      invariant SortedByRank(a[..i], rank)
      invariant multiset(a[..]) == old(multiset(a[..]))
    {
      InsertAt(a, i, rank);
      i := i + 1;
    }
    assert a[..i] == a[..];
  }

  /**
   * `s[..i + 1]` is sorted except that the element at `j` may be out of place,
   * and that element ranks strictly above everything to its right.
   */
  ghost predicate SortedAround(s: seq<PlayerState>, i: nat, j: nat, rank: Rank)
    requires j <= i < |s|
  {
    && (forall p, q :: 0 <= p < q <= i && p != j && q != j ==> rank(s[p].rating) >= rank(s[q].rating))
    && (forall q :: j < q <= i ==> rank(s[j].rating) > rank(s[q].rating))
  }

  /** Exchanges two adjacent elements. */
  method SwapAdjacent(a: array<PlayerState>, j: nat)
    requires 0 < j < a.Length
    modifies a
    ensures a[..] == old(a[..])[j - 1 := old(a[j])][j := old(a[j - 1])]
    ensures multiset(a[..]) == old(multiset(a[..]))
  {
    a[j - 1], a[j] := a[j], a[j - 1];
  }

  /** Moves `a[i]` left past every element of lower rank score, keeping `a[..i]` sorted. */
  method InsertAt(a: array<PlayerState>, i: nat, rank: Rank)
    requires i < a.Length
    requires SortedByRank(a[..i], rank)
    modifies a
    ensures SortedByRank(a[..i + 1], rank)
    ensures multiset(a[..]) == old(multiset(a[..]))
  {
    var j := i;
    assert SortedAround(a[..], i, j, rank);
    while j > 0 && rank(a[j - 1].rating) < rank(a[j].rating)
      invariant 0 <= j <= i
      invariant SortedAround(a[..], i, j, rank)
      invariant multiset(a[..]) == old(multiset(a[..]))
    {
      SwapAdjacent(a, j);
      j := j - 1;
    }
  }

  /** The numbering loop: the i-th player of the sorted list gets place i + 1. */
  method NumberRows(sorted: seq<PlayerState>, rank: Rank) returns (rows: seq<CsvRow>)
    ensures |rows| == |sorted|
    ensures forall i :: 0 <= i < |rows| ==> rows[i] == RowOf(i + 1, sorted[i], rank)
  {
    rows := [];
    var i := 0;
    while i < |sorted|
      invariant 0 <= i <= |sorted|
      invariant |rows| == i
      invariant forall j :: 0 <= j < i ==> rows[j] == RowOf(j + 1, sorted[j], rank)
    {
      var p := sorted[i];
      rows := rows + [CsvRow(i + 1, p.name, rank(p.rating), p.wins, p.losses, p.id)];
      i := i + 1;
    }
  }

  /** Collect, sort and number: the leaderboard of a table. */
  method BuildReport(t: Table, rank: Rank) returns (rows: seq<CsvRow>)
    requires KeyedById(t)
    ensures IsReport(rows, t, rank)
  {
    var vs := CollectValues(t);
    var playerVec := new PlayerState[|vs|](i requires 0 <= i < |vs| => vs[i]);
    assert playerVec[..] == vs;
    SortByRank(playerVec, rank);
    var sorted := playerVec[..];
    assert multiset(sorted) == multiset(vs);
    rows := NumberRows(sorted, rank);
    forall i | 0 <= i < |rows|
      ensures rows[i].id in t && rows[i] == RowOf(i + 1, t[rows[i].id], rank)
    {
      assert sorted[i] in multiset(vs);
    }
    forall k | k in t
      ensures exists i :: 0 <= i < |rows| && rows[i].id == k
    {
      assert t[k] in multiset(sorted);
      var i :| 0 <= i < |sorted| && sorted[i] == t[k];
      assert rows[i].id == k;
    }
  }

  /** The ids of the rows, in row order. */
  function Ids(rows: seq<CsvRow>): (ids: seq<string>)
    ensures |ids| == |rows|
    ensures forall i :: 0 <= i < |rows| ==> ids[i] == rows[i].id
  {
    seq(|rows|, i requires 0 <= i < |rows| => rows[i].id)
  }

  /** A sequence has at most as many distinct elements as it has positions. */
  lemma {:induction false} DistinctCount(s: seq<string>)
    ensures |set x | x in s| <= |s|
  {
    if s != [] {
      var n := |s| - 1;
      DistinctCount(s[..n]);
      assert (set x | x in s) == (set x | x in s[..n]) + {s[n]};
    }
  }

  /** A sequence with as many distinct elements as positions repeats nothing. */
  lemma {:induction false} FullCountIsDistinct(s: seq<string>)
    requires |set x | x in s| >= |s|
    ensures forall i, j :: 0 <= i < j < |s| ==> s[i] != s[j]
  {
    if s != [] {
      var n := |s| - 1;
      var prefix := s[..n];
      assert (set x | x in s) == (set x | x in prefix) + {s[n]};
      DistinctCount(prefix);
      assert s[n] !in prefix;
      FullCountIsDistinct(prefix);
      assert forall i :: 0 <= i < n ==> s[i] == prefix[i];
    }
  }

  /** A leaderboard lists every player exactly once: no id appears on two rows. */
  lemma ReportIdsDistinct(rows: seq<CsvRow>, t: Table, rank: Rank)
    requires IsReport(rows, t, rank)
    ensures forall i, j :: 0 <= i < j < |rows| ==> rows[i].id != rows[j].id
  {
    var ids := Ids(rows);
    forall k | k in t.Keys
      ensures k in (set x | x in ids)
    {
      var i :| 0 <= i < |rows| && rows[i].id == k;
      assert ids[i] == k;
    }
    assert t.Keys <= (set x | x in ids);
    SubsetCount(t.Keys, set x | x in ids);
    FullCountIsDistinct(ids);
  }

  lemma {:induction false} SubsetCount(a: set<string>, b: set<string>)
    requires a <= b
    ensures |a| <= |b|
    decreases |a|
  {
    if a != {} {
      var x :| x in a;
      SubsetCount(a - {x}, b - {x});
    }
  }

  function RowCount(r: CsvRow, tally: Tally): nat {
    match tally
    case Wins => r.wins
    case Losses => r.losses
  }

  /** The sum of the wins (or losses) column of the rows. */
  function Column(rows: seq<CsvRow>, tally: Tally): nat {
    if rows == [] then 0 else Column(rows[..|rows| - 1], tally) + RowCount(rows[|rows| - 1], tally)
  }

  /** Rows with distinct ids that carry exactly the players of the table. */
  ghost predicate Lists(rows: seq<CsvRow>, t: Table) {
    && (forall i, j :: 0 <= i < j < |rows| ==> rows[i].id != rows[j].id)
    && (forall i :: 0 <= i < |rows| ==>
          rows[i].id in t && rows[i].wins == t[rows[i].id].wins && rows[i].losses == t[rows[i].id].losses)
    && (forall k :: k in t ==> exists i :: 0 <= i < |rows| && rows[i].id == k)
  }

  lemma {:induction false} ColumnOfListing(rows: seq<CsvRow>, t: Table, tally: Tally)
    requires Lists(rows, t)
    ensures Column(rows, tally) == Total(t, tally)
  {
    if rows == [] {
      assert t == map[];
    } else {
      var n := |rows| - 1;
      var k := rows[n].id;
      var prefix, rest := rows[..n], t - {k};
      forall k' | k' in rest
        ensures exists i :: 0 <= i < |prefix| && prefix[i].id == k'
      {
        var i :| 0 <= i < |rows| && rows[i].id == k';
        assert i != n && prefix[i] == rows[i];
      }
      assert Lists(prefix, rest);
      ColumnOfListing(prefix, rest, tally);
      TotalSplit(t, k, tally);
    }
  }

  /**
   * The wins column of a leaderboard sums to the total wins of the table, and
   * the losses column to the total losses.
   */
  lemma ReportColumns(rows: seq<CsvRow>, t: Table, rank: Rank, tally: Tally)
    requires IsReport(rows, t, rank)
    ensures Column(rows, tally) == Total(t, tally)
  {
    ReportIdsDistinct(rows, t, rank);
    ColumnOfListing(rows, t, tally);
  }
}
