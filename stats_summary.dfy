/**
 * `GET /api/stats/all`: the loop over a user's rows that accumulates global
 * totals, the best streak and the per-game entries, and the win rates derived
 * from the totals.
 */
module StatsSummary {
  import opened UserStats

  /** A row of `getAllStatsForUser`: the game it belongs to and its counters. */
  datatype Row = Row(animeId: string, stats: Stats)

  /** The counters the loop sums. */
  datatype Counter = Played | Won | DuoPlayed | DuoWon | Attempts

  function Get(s: Stats, c: Counter): int {
    match c
    case Played => s.gamesPlayed
    case Won => s.wins
    case DuoPlayed => s.duoPlayed
    case DuoWon => s.duoWins
    case Attempts => s.totalAttempts
  }

  /** The sum of one counter over the rows. */
  function Total(rows: seq<Row>, c: Counter): int {
    if |rows| == 0 then 0 else Total(rows[..|rows| - 1], c) + Get(rows[|rows| - 1].stats, c)
  }

  /** `bestStreak = Math.max(bestStreak, s.max_streak)` over the rows, from 0. */
  function Best(rows: seq<Row>): int {
    if |rows| == 0 then 0 else Max(Best(rows[..|rows| - 1]), rows[|rows| - 1].stats.maxStreak)
  }

  /** `statsByAnime[s.anime_id] = ...` over the rows: a later row overwrites an earlier one. */
  function ByAnime(rows: seq<Row>): (m: map<string, Stats>)
    ensures m.Keys == set r | r in rows :: r.animeId
  {
    if |rows| == 0 then map[]
    else
      var n := |rows| - 1;
      assert forall x :: x in rows <==> x in rows[..n] || x == rows[n];
      ByAnime(rows[..n])[rows[n].animeId := rows[n].stats]
  }

  /** `Math.round((wins / played) * 100)`, or 0 when nothing was played. */
  function WinRate(wins: int, played: int): int {
    if played > 0 then (200 * wins + played) / (2 * played) else 0
  }

  /** The `global` object of the response, without `avgAttempts`. */
  datatype Summary = Summary(
    totalPlayed: int, totalWins: int, winRate: int,
    soloPlayed: int, soloWins: int, soloWinRate: int,
    duoPlayed: int, duoWins: int, duoWinRate: int,
    totalAttempts: int, bestStreak: int)

  /** The handler of `GET /api/stats/all` on the rows the database returned. */
  method AllStats(rows: seq<Row>) returns (summary: Summary, byAnime: map<string, Stats>)
    ensures summary.totalPlayed == Total(rows, Played) && summary.totalWins == Total(rows, Won)
    ensures summary.duoPlayed == Total(rows, DuoPlayed) && summary.duoWins == Total(rows, DuoWon)
    ensures summary.totalAttempts == Total(rows, Attempts)
    ensures summary.bestStreak == Best(rows)
    ensures summary.soloPlayed == summary.totalPlayed - summary.duoPlayed
    ensures summary.soloWins == summary.totalWins - summary.duoWins
    ensures summary.winRate == WinRate(summary.totalWins, summary.totalPlayed)
    ensures summary.soloWinRate == WinRate(summary.soloWins, summary.soloPlayed)
    ensures summary.duoWinRate == WinRate(summary.duoWins, summary.duoPlayed)
    ensures byAnime == ByAnime(rows)
  {
    var totalPlayed, totalWins, totalDuoPlayed, totalDuoWins, totalAttempts := 0, 0, 0, 0, 0;
    var bestStreak := 0;
    byAnime := map[];
    var i := 0;
    while i < |rows|
      invariant 0 <= i <= |rows|
      invariant totalPlayed == Total(rows[..i], Played) && totalWins == Total(rows[..i], Won)
      invariant totalDuoPlayed == Total(rows[..i], DuoPlayed) && totalDuoWins == Total(rows[..i], DuoWon)
      invariant totalAttempts == Total(rows[..i], Attempts)
      invariant bestStreak == Best(rows[..i])
      invariant byAnime == ByAnime(rows[..i])
    {
      var s := rows[i].stats;
      assert rows[..i + 1][..i] == rows[..i];
      totalPlayed := totalPlayed + s.gamesPlayed;
      totalWins := totalWins + s.wins;
      totalDuoPlayed := totalDuoPlayed + s.duoPlayed;
      totalDuoWins := totalDuoWins + s.duoWins;
      totalAttempts := totalAttempts + s.totalAttempts;
      bestStreak := Max(bestStreak, s.maxStreak);
      byAnime := byAnime[rows[i].animeId := s];
      i := i + 1;
    }
    assert rows[..i] == rows;
    var soloPlayed := totalPlayed - totalDuoPlayed;
    var soloWins := totalWins - totalDuoWins;
    summary := Summary(
      totalPlayed, totalWins, WinRate(totalWins, totalPlayed),
      soloPlayed, soloWins, WinRate(soloWins, soloPlayed),
      totalDuoPlayed, totalDuoWins, WinRate(totalDuoWins, totalDuoPlayed),
      totalAttempts, bestStreak);
  }

  /** `bestStreak` is the largest `max_streak` of the rows, or 0 when there is none (or all are negative). */
  lemma {:induction false} BestIsLargest(rows: seq<Row>)
    ensures Best(rows) >= 0
    ensures forall i :: 0 <= i < |rows| ==> rows[i].stats.maxStreak <= Best(rows)
    ensures Best(rows) == 0 || exists i :: 0 <= i < |rows| && rows[i].stats.maxStreak == Best(rows)
  {
    if |rows| > 0 {
      var n := |rows| - 1;
      BestIsLargest(rows[..n]);
      assert forall i :: 0 <= i < n ==> rows[..n][i] == rows[i];
    }
  }

  /** No later row has the same game as row i. */
  predicate LastForGame(rows: seq<Row>, i: int)
    requires 0 <= i < |rows|
  {
    forall j :: i < j < |rows| ==> rows[j].animeId != rows[i].animeId
  }

  /** Exactly one entry per game: that of the last row for it. */
  lemma {:induction false} ByAnimeEntry(rows: seq<Row>, i: int)
    requires 0 <= i < |rows| && LastForGame(rows, i)
    ensures ByAnime(rows)[rows[i].animeId] == rows[i].stats
  {
    var n := |rows| - 1;
    if i < n {
      var front := rows[..n];
      assert front[i] == rows[i];
      assert LastForGame(front, i);
      ByAnimeEntry(front, i);
    }
  }

  /** Euclidean division by a positive number brackets the dividend between two multiples. */
  lemma Quotient(n: int, d: int)
    requires d > 0
    ensures d * (n / d) <= n < d * (n / d) + d
  {
  }

  /** A quotient below m when the dividend is below m times the divisor. */
  lemma QuotientBelow(n: int, d: int, m: int)
    requires d > 0 && 0 <= n < d * m
    ensures 0 <= n / d < m
  {
    Quotient(n, d);
  }

  /** A win rate rounds 100 * wins / played to the nearest integer, halves up, and lies in 0..100. */
  lemma WinRateMeaning(wins: int, played: int)
    requires 0 <= wins <= played
    ensures 0 <= WinRate(wins, played) <= 100
    ensures played > 0 ==> 2 * played * WinRate(wins, played) <= 200 * wins + played < 2 * played * (WinRate(wins, played) + 1)
    ensures played == 0 ==> WinRate(wins, played) == 0
  {
    if played > 0 {
      var d := 2 * played;
      var n := 200 * wins + played;
      Quotient(n, d);
      assert d * (n / d) + d == d * (n / d + 1);
      QuotientBelow(n, d, 101);
    }
  }

  /** When every row is consistent, the totals are too: wins never exceed games, in solo and in duo. */
  lemma {:induction false} TotalsOrdered(rows: seq<Row>)
    requires forall i :: 0 <= i < |rows| ==> Consistent(rows[i].stats)
    ensures 0 <= Total(rows, Won) <= Total(rows, Played)
    ensures 0 <= Total(rows, DuoWon) <= Total(rows, DuoPlayed)
    ensures 0 <= Total(rows, Won) - Total(rows, DuoWon) <= Total(rows, Played) - Total(rows, DuoPlayed)
  {
    if |rows| > 0 {
      var n := |rows| - 1;
      assert forall i :: 0 <= i < n ==> rows[..n][i] == rows[i];
      TotalsOrdered(rows[..n]);
      assert Consistent(rows[n].stats);
    }
  }

  /** On consistent rows, the three win rates lie between 0 and 100. */
  lemma RatesBounded(rows: seq<Row>, summary: Summary)
    requires forall i :: 0 <= i < |rows| ==> Consistent(rows[i].stats)
    requires summary.totalPlayed == Total(rows, Played) && summary.totalWins == Total(rows, Won)
    requires summary.duoPlayed == Total(rows, DuoPlayed) && summary.duoWins == Total(rows, DuoWon)
    requires summary.soloPlayed == summary.totalPlayed - summary.duoPlayed
    requires summary.soloWins == summary.totalWins - summary.duoWins
    requires summary.winRate == WinRate(summary.totalWins, summary.totalPlayed)
    requires summary.soloWinRate == WinRate(summary.soloWins, summary.soloPlayed)
    requires summary.duoWinRate == WinRate(summary.duoWins, summary.duoPlayed)
    ensures 0 <= summary.winRate <= 100 && 0 <= summary.soloWinRate <= 100 && 0 <= summary.duoWinRate <= 100
  {
    TotalsOrdered(rows);
    WinRateMeaning(summary.totalWins, summary.totalPlayed);
    WinRateMeaning(summary.soloWins, summary.soloPlayed);
    WinRateMeaning(summary.duoWins, summary.duoPlayed);
  }
}
